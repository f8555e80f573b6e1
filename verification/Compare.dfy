/** `qemu-img compare`: deciding from block status and data whether two images read the same. */
module Compare {
  import opened Align
  import opened Buffers
  import opened Common

  /** The BDRV_BLOCK_* answer for a run: the two flags the comparison looks at, and the others. */
  datatype Flags = Flags(zero: bool, alloc: bool, others: set<nat>)

  datatype Answer = Failed | Run(flags: Flags, pnum: nat)

  /** An open image: what it reads as, what bdrv_block_status_above(offset, bytes) answers and which
      blk_pread(offset, bytes) requests succeed. */
  datatype Image = Image(content: seq<Byte>, status: (nat, nat) -> Answer, readable: (nat, nat) -> bool)

  /** Answers cover at least one byte and no more than asked for; a run that is zero, or allocated
      nowhere in the backing chain, reads as zeroes. */
  ghost predicate Honest(img: Image) {
    forall offset: nat, bytes: nat | 0 < bytes <= |img.content| - offset ::
      match img.status(offset, bytes)
      case Failed => true
      case Run(flags, pnum) =>
        && 0 < pnum <= bytes
        && (flags.zero || !flags.alloc ==> IsZero(img.content[offset..offset + pnum]))
  }

  ghost predicate NoErrors(img: Image) {
    forall offset: nat, bytes: nat | 0 < bytes <= |img.content| - offset ::
      img.status(offset, bytes).Run? && img.readable(offset, bytes)
  }

  /** The image extended with zeroes. */
  function At(img: Image, k: nat): Byte {
    if k < |img.content| then img.content[k] else 0
  }

  ghost predicate Same(a: Image, b: Image) {
    forall k: nat :: At(a, k) == At(b, k)
  }

  /** The images agree before `offset`. */
  ghost predicate Agree(a: Image, b: Image, offset: nat) {
    forall k: nat :: k < offset ==> At(a, k) == At(b, k)
  }

  /** The images agree before `offset` and differ in the sector-sized chunk that starts there. */
  ghost predicate MismatchAt(a: Image, b: Image, offset: nat) {
    && Agree(a, b, offset)
    && exists k: nat :: offset <= k < offset + SECTOR_SIZE && At(a, k) != At(b, k)
  }

  lemma AgreeFurther(a: Image, b: Image, offset: nat, n: nat)
    requires Agree(a, b, offset)
    requires forall k: nat :: offset <= k < offset + n ==> At(a, k) == At(b, k)
    ensures Agree(a, b, offset + n)
  {
  }

  /** A data comparison of the chunk at `offset` that found a difference after `pnum` bytes. */
  lemma DataMismatch(a: Image, b: Image, offset: nat, chunk: nat, pnum: nat)
    requires Agree(a, b, offset) && pnum < chunk
    requires offset + chunk <= |a.content| && offset + chunk <= |b.content|
    requires a.content[offset..offset + chunk][..pnum] == b.content[offset..offset + chunk][..pnum]
    requires Differs(a.content[offset..offset + chunk], b.content[offset..offset + chunk], pnum, SECTOR_SIZE)
    ensures MismatchAt(a, b, offset + pnum)
  {
    var x := a.content[offset..offset + chunk];
    var y := b.content[offset..offset + chunk];
    forall k: nat | offset <= k < offset + pnum ensures At(a, k) == At(b, k) {
      assert x[..pnum][k - offset] == y[..pnum][k - offset];
    }
    AgreeFurther(a, b, offset, pnum);
    var p, q := Chunk(x, pnum, SECTOR_SIZE), Chunk(y, pnum, SECTOR_SIZE);
    var i :| 0 <= i < |p| && p[i] != q[i];
    assert At(a, offset + pnum + i) != At(b, offset + pnum + i);
  }

  /** A run of `a` that holds a non-zero byte where `b` reads as zeroes. */
  lemma EmptyMismatch(a: Image, b: Image, offset: nat, chunk: nat, idx: nat)
    requires Agree(a, b, offset) && offset + chunk <= |a.content| && idx < chunk
    requires forall k: nat :: offset <= k < offset + chunk ==> At(b, k) == 0
    requires IsZero(a.content[offset..offset + chunk][..idx])
    requires !IsZero(Chunk(a.content[offset..offset + chunk], idx, SECTOR_SIZE))
    ensures MismatchAt(a, b, offset + idx) && MismatchAt(b, a, offset + idx)
  {
    var x := a.content[offset..offset + chunk];
    forall k: nat | offset <= k < offset + idx ensures At(a, k) == At(b, k) {
      assert x[..idx][k - offset] == 0;
    }
    AgreeFurther(a, b, offset, idx);
    var p := Chunk(x, idx, SECTOR_SIZE);
    var i :| 0 <= i < |p| && p[i] != 0;
    assert At(a, offset + idx + i) != At(b, offset + idx + i);
  }

  /** What reads as zeroes through a buffer reads as zeroes in the image. */
  lemma ZeroRun(img: Image, offset: nat, n: nat)
    requires offset + n <= |img.content| && IsZero(img.content[offset..offset + n])
    ensures forall k: nat :: offset <= k < offset + n ==> At(img, k) == 0
  {
    forall k: nat | offset <= k < offset + n ensures At(img, k) == 0 {
      assert img.content[offset..offset + n][k - offset] == 0;
    }
  }

  lemma EqualRun(a: Image, b: Image, offset: nat, n: nat)
    requires offset + n <= |a.content| && offset + n <= |b.content|
    requires a.content[offset..offset + n] == b.content[offset..offset + n]
    ensures forall k: nat :: offset <= k < offset + n ==> At(a, k) == At(b, k)
  {
    forall k: nat | offset <= k < offset + n ensures At(a, k) == At(b, k) {
      assert a.content[offset..offset + n][k - offset] == b.content[offset..offset + n][k - offset];
    }
  }

  /** blk_pread */
  method Read(img: Image, offset: nat, bytes: nat) returns (ok: bool, buf: seq<Byte>)
    requires offset + bytes <= |img.content|
    ensures ok == img.readable(offset, bytes)
    ensures ok ==> buf == img.content[offset..offset + bytes]
  {
    ok := img.readable(offset, bytes);
    buf := if ok then img.content[offset..offset + bytes] else [];
  }

  /** 0 when the run is all zeroes, 1 with the sector boundary of the first non-zero sector, 4 when
      it cannot be read. */
  method CheckEmptySectors(img: Image, offset: nat, bytes: nat) returns (ret: int, idx: nat)
    requires 0 < bytes <= |img.content| - offset
    ensures ret == 0 || ret == 1 || ret == 4
    ensures ret == 0 ==> IsZero(img.content[offset..offset + bytes])
    ensures ret == 1 ==>
      && idx < bytes
      && IsZero(img.content[offset..offset + bytes][..idx])
      && !IsZero(Chunk(img.content[offset..offset + bytes], idx, SECTOR_SIZE))
    ensures ret == 4 ==> !NoErrors(img)
  {
    idx := 0;
    var ok, buf := Read(img, offset, bytes);
    if !ok {
      return 4, 0;
    }
    var r := FindNonzero(buf);
    if r >= 0 {
      return 1, r;
    }
    ret := 0;
  }

  /** The outcome of comparing one run that is `chunk` bytes long. */
  datatype Outcome = Equal(chunk: nat) | Mismatch(offset: nat) | ReadError

  /** One pass of the first loop, after the two status answers (qemu-img.c:1542-1586). */
  method CompareRun(a: Image, b: Image, offset: nat, flags1: Flags, flags2: Flags, n: nat) returns (o: Outcome)
    requires 0 < n && offset + n <= |a.content| && offset + n <= |b.content|
    requires flags1.zero || !flags1.alloc ==> IsZero(a.content[offset..offset + n])
    requires flags2.zero || !flags2.alloc ==> IsZero(b.content[offset..offset + n])
    requires Agree(a, b, offset)
    ensures o.Equal? ==> 0 < o.chunk <= n && Agree(a, b, offset + o.chunk)
    ensures o.Mismatch? ==> MismatchAt(a, b, o.offset)
    ensures o.ReadError? ==> !NoErrors(a) || !NoErrors(b)
  {
    var chunk := n;
    if flags1.zero && flags2.zero {
      ZeroRun(a, offset, n);
      ZeroRun(b, offset, n);
    } else if flags1.alloc == flags2.alloc {
      if flags1.alloc {
        chunk := Min(chunk, IO_BUF_SIZE);
        var ok1, buf1 := Read(a, offset, chunk);
        if !ok1 {
          return ReadError;
        }
        var ok2, buf2 := Read(b, offset, chunk);
        if !ok2 {
          return ReadError;
        }
        var differ, pnum := CompareBuffers(buf1, buf2, 0);
        if differ || pnum != chunk {
          MultipleAligned(0, SECTOR_SIZE);
          DataMismatch(a, b, offset, chunk, if differ then 0 else pnum);
          return Mismatch(offset + if differ then 0 else pnum);
        }
        assert buf1 == buf1[..pnum] && buf2 == buf2[..pnum];
        EqualRun(a, b, offset, chunk);
      } else {
        ZeroRun(a, offset, n);
        ZeroRun(b, offset, n);
      }
    } else {
      chunk := Min(chunk, IO_BUF_SIZE);
      var ret, idx;
      if flags1.alloc {
        ret, idx := CheckEmptySectors(a, offset, chunk);
        ZeroRun(b, offset, n);
        if ret == 1 {
          EmptyMismatch(a, b, offset, chunk, idx);
        } else if ret == 0 {
          ZeroRun(a, offset, chunk);
        }
      } else {
        ret, idx := CheckEmptySectors(b, offset, chunk);
        ZeroRun(a, offset, n);
        if ret == 1 {
          assert Agree(b, a, offset);
          EmptyMismatch(b, a, offset, chunk, idx);
        } else if ret == 0 {
          ZeroRun(b, offset, chunk);
        }
      }
      if ret != 0 {
        return if ret == 1 then Mismatch(offset + idx) else ReadError;
      }
    }
    AgreeFurther(a, b, offset, chunk);
    o := Equal(chunk);
  }

  /** The second loop: what is left of the larger image `over` must be zeroes (qemu-img.c:1603-1624).
      `small` has ended. */
  method CompareRest(over: Image, small: Image, start: nat) returns (ret: int, mismatch: Option<nat>)
    requires Honest(over) && start == |small.content| <= |over.content|
    requires Agree(over, small, start)
    ensures ret == 0 || ret == 1 || ret == 3 || ret == 4
    ensures ret == 0 ==> Same(over, small) && mismatch == None
    ensures ret == 1 ==> mismatch.Some? && MismatchAt(over, small, mismatch.value)
    ensures ret > 1 ==> !NoErrors(over) && mismatch == None
  {
    var size := |over.content|;
    var offset := start;
    while offset < size
      invariant start <= offset <= size
      invariant Agree(over, small, offset)
    {
      var answer := over.status(offset, size - offset);
      if answer.Failed? {
        return 3, None;
      }
      var chunk := answer.pnum;
      if answer.flags.alloc && !answer.flags.zero {
        chunk := Min(chunk, IO_BUF_SIZE);
        var r, idx := CheckEmptySectors(over, offset, chunk);
        if r == 1 {
          EmptyMismatch(over, small, offset, chunk, idx);
          return 1, Some(offset + idx);
        } else if r == 4 {
          return 4, None;
        }
      }
      ZeroRun(over, offset, chunk);
      AgreeFurther(over, small, offset, chunk);
      offset := offset + chunk;
    }
    return 0, None;
  }

  /** Some run of the two images has different flags at `offset`. */
  ghost predicate FlagsDiffer(a: Image, b: Image, offset: nat) {
    && offset < |a.content| && offset < |b.content|
    && var x, y := a.status(offset, |a.content| - offset), b.status(offset, |b.content| - offset);
       x.Run? && y.Run? && x.flags != y.flags
  }

  /** qemu-img.c:1497-1628.  The exit status, and the offset of a reported content mismatch.  Without
      errors the answer of the non-strict comparison is 0 exactly when the zero-extended images read
      the same. */
  method ImgCompare(a: Image, b: Image, strict: bool) returns (ret: int, mismatch: Option<nat>)
    requires Honest(a) && Honest(b)
    ensures ret == 0 || ret == 1 || ret == 3 || ret == 4
    ensures ret == 0 ==> Same(a, b) && (strict ==> |a.content| == |b.content|)
    ensures mismatch.Some? ==> ret == 1 && MismatchAt(a, b, mismatch.value)
    ensures ret == 1 && mismatch == None ==>
      strict && (|a.content| != |b.content| || exists offset :: FlagsDiffer(a, b, offset))
    ensures ret > 1 ==> !NoErrors(a) || !NoErrors(b)
    ensures !strict && NoErrors(a) && NoErrors(b) ==> (ret == 0 <==> Same(a, b))
  {
    var size1, size2 := |a.content|, |b.content|;
    var total := Min(size1, size2);
    if strict && size1 != size2 {
      return 1, None;
    }
    var offset := 0;
    while offset < total
      invariant 0 <= offset <= total
      invariant Agree(a, b, offset)
    {
      var answer1 := a.status(offset, size1 - offset);
      if answer1.Failed? {
        return 3, None;
      }
      var answer2 := b.status(offset, size2 - offset);
      if answer2.Failed? {
        return 3, None;
      }
      if strict && answer1.flags != answer2.flags {
        assert FlagsDiffer(a, b, offset);
        return 1, None;
      }
      var n := Min(answer1.pnum, answer2.pnum);
      ShorterRun(a.content, offset, answer1.pnum, n);
      ShorterRun(b.content, offset, answer2.pnum, n);
      var outcome := CompareRun(a, b, offset, answer1.flags, answer2.flags, n);
      match outcome
      case ReadError => return 4, None;
      case Mismatch(at) => return 1, Some(at);
      case Equal(chunk) => offset := offset + chunk;
    }
    if size1 > size2 {
      ret, mismatch := CompareRest(a, b, offset);
    } else {
      assert Agree(b, a, offset);
      ret, mismatch := CompareRest(b, a, offset);
    }
  }

  lemma ShorterRun(s: seq<Byte>, offset: nat, pnum: nat, n: nat)
    requires offset + pnum <= |s| && n <= pnum
    ensures IsZero(s[offset..offset + pnum]) ==> IsZero(s[offset..offset + n])
  {
    if IsZero(s[offset..offset + pnum]) {
      assert s[offset..offset + n] == s[offset..offset + pnum][..n];
    }
  }
}
