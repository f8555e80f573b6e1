/** The copy loop of a safe `qemu-img rebase`: it makes an overlay independent of the difference
    between its old and its new backing file. */
module Rebase {
  import opened Align
  import opened Buffers
  import opened Common

  /** What reading position `k` of a backing file gives when the overlay is longer than it. */
  function At(backing: seq<Byte>, k: nat): Byte {
    if k < |backing| then backing[k] else 0
  }

  /** A copy-on-write layer: which bytes it allocates and what it stores there. */
  datatype Cow = Cow(alloc: seq<bool>, data: seq<Byte>)

  ghost predicate Valid(c: Cow) {
    |c.alloc| == |c.data|
  }

  /** What position `k` of the overlay reads as on top of `backing`. */
  function Reads(c: Cow, backing: seq<Byte>, k: nat): Byte
    requires Valid(c) && k < |c.alloc|
  {
    if c.alloc[k] then c.data[k] else At(backing, k)
  }

  /** The two layers read the same everywhere on top of their backing files. */
  ghost predicate SameReads(c: Cow, backing: seq<Byte>, c': Cow, backing': seq<Byte>) {
    && Valid(c) && Valid(c') && |c.alloc| == |c'.alloc|
    && forall k: nat :: k < |c.alloc| ==> Reads(c, backing, k) == Reads(c', backing', k)
  }

  /** Allocation is decided per block of `g` bytes. */
  ghost predicate BlockUniform(alloc: seq<bool>, g: nat)
    requires g > 0
  {
    forall i: nat, j: nat :: i < |alloc| && j < |alloc| && Down(i, g) == Down(j, g) ==> alloc[i] == alloc[j]
  }

  /** A write of `n` bytes at `offset` allocates all blocks it touches. */
  predicate Touched(offset: nat, n: nat, g: nat, k: nat)
    requires g > 0
  {
    n > 0 && Down(offset, g) <= k < Up(offset + n, g)
  }

  /** The overlay after a write: the touched blocks are allocated, and what the request does not
      cover of them is copied up from the backing file. */
  function Written(c: Cow, backing: seq<Byte>, g: nat, offset: nat, buf: seq<Byte>): (c': Cow)
    requires Valid(c) && g > 0
    ensures Valid(c') && |c'.alloc| == |c.alloc|
  {
    Cow(seq(|c.alloc|, k requires 0 <= k < |c.alloc| => c.alloc[k] || Touched(offset, |buf|, g, k)),
        seq(|c.alloc|, k requires 0 <= k < |c.alloc| =>
          if offset <= k < offset + |buf| then buf[k - offset]
          else if Touched(offset, |buf|, g, k) then Reads(c, backing, k)
          else c.data[k]))
  }

  lemma InsideTouched(offset: nat, n: nat, g: nat, k: nat)
    requires g > 0 && offset <= k < offset + n
    ensures Touched(offset, n, g, k)
  {
    DownProps(offset, g);
    UpProps(offset + n, g);
  }

  /** Through the backing file it was made on, a write changes exactly the bytes written. */
  lemma WrittenReads(c: Cow, backing: seq<Byte>, g: nat, offset: nat, buf: seq<Byte>, k: nat)
    requires Valid(c) && g > 0 && k < |c.alloc|
    ensures Reads(Written(c, backing, g, offset, buf), backing, k) ==
      if offset <= k < offset + |buf| then buf[k - offset] else Reads(c, backing, k)
  {
    if offset <= k < offset + |buf| {
      InsideTouched(offset, |buf|, g, k);
    }
  }

  /** Writing what the overlay reads as already changes nothing that can be read. */
  lemma RewriteKeepsReads(c: Cow, backing: seq<Byte>, g: nat, offset: nat, buf: seq<Byte>)
    requires Valid(c) && g > 0 && offset + |buf| <= |c.alloc|
    requires forall k: nat :: k < |buf| ==> buf[k] == Reads(c, backing, offset + k)
    ensures SameReads(Written(c, backing, g, offset, buf), backing, c, backing)
  {
    forall k: nat | k < |c.alloc|
      ensures Reads(Written(c, backing, g, offset, buf), backing, k) == Reads(c, backing, k)
    {
      WrittenReads(c, backing, g, offset, buf, k);
      assert offset <= k < offset + |buf| ==> buf[k - offset] == Reads(c, backing, offset + (k - offset));
    }
  }

  lemma TouchedBlocks(offset: nat, n: nat, g: nat, i: nat, j: nat)
    requires g > 0 && Down(i, g) == Down(j, g) && Touched(offset, n, g, i)
    ensures Touched(offset, n, g, j)
  {
    DownProps(offset, g);
    UpProps(offset + n, g);
    WholeBlock(Down(offset, g), Up(offset + n, g), i, j, g);
  }

  lemma WrittenUniform(c: Cow, backing: seq<Byte>, g: nat, offset: nat, buf: seq<Byte>)
    requires Valid(c) && g > 0 && BlockUniform(c.alloc, g)
    ensures BlockUniform(Written(c, backing, g, offset, buf).alloc, g)
  {
    forall i: nat, j: nat | i < |c.alloc| && j < |c.alloc| && Down(i, g) == Down(j, g)
      ensures Written(c, backing, g, offset, buf).alloc[i] == Written(c, backing, g, offset, buf).alloc[j]
    {
      if Touched(offset, |buf|, g, i) {
        TouchedBlocks(offset, |buf|, g, i, j);
      }
      if Touched(offset, |buf|, g, j) {
        TouchedBlocks(offset, |buf|, g, j, i);
      }
    }
  }

  /** Every byte below `limit` that is left to the backing file reads the same in both of them. */
  ghost predicate Settled(c: Cow, oldBacking: seq<Byte>, newBacking: seq<Byte>, limit: nat) {
    forall k: nat :: k < limit && k < |c.alloc| && !c.alloc[k] ==> At(oldBacking, k) == At(newBacking, k)
  }

  /** A fully settled overlay may be moved to the new backing file. */
  lemma SettledMayMove(c: Cow, oldBacking: seq<Byte>, newBacking: seq<Byte>)
    requires Valid(c) && Settled(c, oldBacking, newBacking, |c.alloc|)
    ensures SameReads(c, newBacking, c, oldBacking)
  {
  }

  /** The overlay image, open for writing on top of its old backing file. */
  class Overlay {
    var alloc: seq<bool>
    var data: seq<Byte>
    const backing: seq<Byte>
    const g: nat          // the unit of allocation
    const align: nat      // write_align: what the driver reports of it, or 1

    ghost predicate Ok()
      reads this
    {
      |alloc| == |data| && g > 0 && align > 0 && Aligned(g, align) && BlockUniform(alloc, g)
    }

    ghost function Layer(): Cow
      reads this
    {
      Cow(alloc, data)
    }

    constructor (alloc: seq<bool>, data: seq<Byte>, backing: seq<Byte>, g: nat, align: nat)
      requires |alloc| == |data| && g > 0 && align > 0 && Aligned(g, align) && BlockUniform(alloc, g)
      ensures Ok() && Layer() == Cow(alloc, data) && this.backing == backing && this.g == g && this.align == align
    {
      this.alloc, this.data, this.backing, this.g, this.align := alloc, data, backing, g, align;
    }

    /** bdrv_is_allocated: the allocation state at `offset` and a run that shares it; the query may
        fail. */
    method IsAllocated(offset: nat, n: nat) returns (failed: bool, ret: bool, pnum: nat)
      requires Ok() && 0 < n <= |alloc| - offset
      ensures !failed ==>
        && 0 < pnum <= n
        && forall k: nat :: offset <= k < offset + pnum ==> alloc[k] == ret
    {
      failed := *;
      ret := alloc[offset];
      pnum :| 0 < pnum <= n && forall k: nat :: offset <= k < offset + pnum ==> alloc[k] == ret;
    }

    /** blk_pwrite.  A request that fails may have been carried out in part. */
    method Write(offset: nat, buf: seq<Byte>) returns (ok: bool, ghost done: nat)
      requires Ok() && offset + |buf| <= |alloc|
      modifies this
      ensures Ok() && done <= |buf| && (ok ==> done == |buf|)
      ensures Layer() == Written(old(Layer()), backing, g, offset, buf[..done])
    {
      var n: nat :| n <= |buf|;
      var c := Cow(alloc, data);
      WrittenUniform(c, backing, g, offset, buf[..n]);
      var c' := Written(c, backing, g, offset, buf[..n]);
      alloc, data := c'.alloc, c'.data;
      ok, done := n == |buf|, n;
    }
  }

  /** bdrv_is_allocated_above between the old backing file and the new one, when the new one is part
      of the old one's chain: a run not allocated there reads the same in both; 0 bytes at the end of
      the old backing file.  The query may fail. */
  method AllocatedAbove(oldBacking: seq<Byte>, newBacking: seq<Byte>, offset: nat, n: nat)
    returns (failed: bool, ret: bool, pnum: nat)
    requires n > 0
    ensures !failed ==>
      && pnum <= n
      && (pnum == 0 ==> offset >= |oldBacking|)
      && (!ret ==> forall k: nat :: offset <= k < offset + pnum ==> At(oldBacking, k) == At(newBacking, k))
  {
    failed, ret, pnum := *, *, 0;
    if offset < |oldBacking| {
      pnum :| 0 < pnum <= n;
      if exists k: nat :: offset <= k < offset + pnum && At(oldBacking, k) != At(newBacking, k) {
        ret := true;
      }
    }
  }

  /** The part of `backing` at [offset, offset + n), zero-filled; a read may fail. */
  method ReadBacking(backing: seq<Byte>, offset: nat, n: nat) returns (ok: bool, buf: seq<Byte>, nRead: nat)
    ensures nRead == Min(n, Max(0, |backing| - offset))
    ensures ok ==> |buf| == n && HoldsBacking(backing, offset, buf)
  {
    nRead := Min(n, Max(0, |backing| - offset));
    var failed: bool := *;
    ok := nRead == 0 || !failed;
    buf := (if nRead > 0 then backing[offset..offset + nRead] else []) +
           seq(n - nRead, (k: nat) => 0);
  }

  /** Allocated bytes are settled, whatever they hold. */
  lemma WrittenSettles(c: Cow, oldBacking: seq<Byte>, newBacking: seq<Byte>, g: nat, offset: nat, buf: seq<Byte>)
    requires Valid(c) && g > 0 && Settled(c, oldBacking, newBacking, offset)
    ensures Settled(Written(c, oldBacking, g, offset, buf), oldBacking, newBacking, offset + |buf|)
  {
    forall k: nat | offset <= k < offset + |buf| ensures Touched(offset, |buf|, g, k) {
      InsideTouched(offset, |buf|, g, k);
    }
  }

  /** So are bytes in which the backing files agree. */
  lemma EqualSettles(c: Cow, oldBacking: seq<Byte>, newBacking: seq<Byte>, offset: nat, a: seq<Byte>, b: seq<Byte>,
                     n: nat)
    requires Settled(c, oldBacking, newBacking, offset)
    requires n <= |a| && n <= |b| && a[..n] == b[..n]
    requires HoldsBacking(oldBacking, offset, a) && HoldsBacking(newBacking, offset, b)
    ensures Settled(c, oldBacking, newBacking, offset + n)
  {
    forall k: nat | offset <= k < offset + n ensures At(oldBacking, k) == At(newBacking, k) {
      var i := k - offset;
      assert a[..n][i] == b[..n][i];
      assert a[i] == At(oldBacking, offset + i) && b[i] == At(newBacking, offset + i);
    }
  }

  /** `buf` holds what the backing file reads as from `offset` on. */
  ghost predicate HoldsBacking(backing: seq<Byte>, offset: nat, buf: seq<Byte>) {
    forall k: nat :: k < |buf| ==> buf[k] == At(backing, offset + k)
  }

  lemma HoldsPart(backing: seq<Byte>, offset: nat, buf: seq<Byte>, lo: nat, hi: nat)
    requires lo <= hi <= |buf| && HoldsBacking(backing, offset, buf)
    ensures HoldsBacking(backing, offset + lo, buf[lo..hi])
  {
    forall k: nat | k < hi - lo ensures buf[lo..hi][k] == At(backing, offset + lo + k) {
      assert buf[lo + k] == At(backing, offset + (lo + k));
    }
  }

  /** Copying up what the backing file holds, completely or in part, into a run that the original
      overlay left to the backing file. */
  lemma CopyUp(original: Cow, c: Cow, oldBacking: seq<Byte>, newBacking: seq<Byte>, g: nat, offset: nat,
               buf: seq<Byte>, done: nat)
    requires g > 0 && SameReads(c, oldBacking, original, oldBacking) && offset + |buf| <= |c.alloc|
    requires forall k: nat :: offset <= k < offset + |buf| ==> !original.alloc[k]
    requires HoldsBacking(oldBacking, offset, buf) && done <= |buf|
    requires Settled(c, oldBacking, newBacking, offset)
    ensures var c' := Written(c, oldBacking, g, offset, buf[..done]);
      && SameReads(c', oldBacking, original, oldBacking)
      && (done == |buf| ==> Settled(c', oldBacking, newBacking, offset + |buf|))
  {
    forall k: nat | k < done ensures buf[..done][k] == Reads(c, oldBacking, offset + k) {
      assert Reads(c, oldBacking, offset + k) == Reads(original, oldBacking, offset + k);
    }
    RewriteKeepsReads(c, oldBacking, g, offset, buf[..done]);
    SameReadsTransitive(Written(c, oldBacking, g, offset, buf[..done]), c, original, oldBacking);
    WrittenSettles(c, oldBacking, newBacking, g, offset, buf[..done]);
  }

  lemma SameReadsTransitive(a: Cow, b: Cow, c: Cow, backing: seq<Byte>)
    requires SameReads(a, backing, b, backing) && SameReads(b, backing, c, backing)
    ensures SameReads(a, backing, c, backing)
  {
    forall k: nat | k < |a.alloc| ensures Reads(a, backing, k) == Reads(c, backing, k) {
      assert Reads(a, backing, k) == Reads(b, backing, k);
    }
  }

  /** Where the loop stands: the overlay reads as the original one did, and is settled below `limit`. */
  ghost predicate Progress(c: Cow, original: Cow, oldBacking: seq<Byte>, newBacking: seq<Byte>, limit: nat) {
    SameReads(c, oldBacking, original, oldBacking) && Settled(c, oldBacking, newBacking, limit)
  }

  /** One chunk that differs: qemu-img.c:4129-4141. */
  method CopyChunk(o: Overlay, offset: nat, chunk: seq<Byte>, ghost original: Cow, ghost newBacking: seq<Byte>)
    returns (ok: bool)
    requires o.Ok() && offset + |chunk| <= |o.alloc|
    requires Progress(o.Layer(), original, o.backing, newBacking, offset)
    requires forall k: nat :: offset <= k < offset + |chunk| ==> !original.alloc[k]
    requires HoldsBacking(o.backing, offset, chunk)
    modifies o
    ensures o.Ok() && SameReads(o.Layer(), o.backing, original, o.backing)
    ensures ok ==> Progress(o.Layer(), original, o.backing, newBacking, offset + |chunk|)
  {
    ghost var before, done := o.Layer(), 0;
    ok, done := o.Write(offset, chunk);
    CopyUp(original, before, o.backing, newBacking, o.g, offset, chunk, done);
  }

  /** qemu-img.c:4123-4147: copies up every chunk of the unallocated run at `offset` in which the two
      backing files differ. */
  method CopyDifferences(o: Overlay, offset: nat, bufOld: seq<Byte>, bufNew: seq<Byte>,
                         ghost original: Cow, ghost newBacking: seq<Byte>) returns (ok: bool)
    requires o.Ok() && offset + |bufOld| <= |o.alloc| && |bufNew| == |bufOld| <= IO_BUF_SIZE
    requires HoldsBacking(o.backing, offset, bufOld) && HoldsBacking(newBacking, offset, bufNew)
    requires Progress(o.Layer(), original, o.backing, newBacking, offset)
    requires forall k: nat :: offset <= k < offset + |bufOld| ==> !original.alloc[k]
    modifies o
    ensures o.Ok() && SameReads(o.Layer(), o.backing, original, o.backing)
    ensures ok ==> Progress(o.Layer(), original, o.backing, newBacking, offset + |bufOld|)
  {
    var n := |bufOld|;
    var oldEof := offset >= |o.backing|;
    var written := 0;
    while written < n
      invariant 0 <= written <= n
      invariant o.Ok() && Progress(o.Layer(), original, o.backing, newBacking, offset + written)
      invariant oldEof ==> offset + written >= |o.backing|
    {
      var differ, pnum := CompareBuffers(bufOld[written..], bufNew[written..], o.align);
      if differ {
        var chunk := if oldEof then seq(pnum, (k: nat) => 0) else bufOld[written..written + pnum];
        HoldsPart(o.backing, offset, bufOld, written, written + pnum);
        ok := CopyChunk(o, offset + written, chunk, original, newBacking);
        if !ok {
          return;
        }
      } else {
        HoldsPart(o.backing, offset, bufOld, written, n);
        HoldsPart(newBacking, offset, bufNew, written, n);
        EqualSettles(o.Layer(), o.backing, newBacking, offset + written, bufOld[written..], bufNew[written..], pnum);
      }
      written := written + pnum;
      if offset + written >= |o.backing| {
        oldEof := true;
      }
    }
    ok := true;
  }

  /** Position `k` is in a block that the run [offset, offset + n) touches. */
  ghost predicate SharesBlock(offset: nat, n: nat, align: nat, k: nat)
    requires align > 0
  {
    exists j: nat :: offset <= j < offset + n && Down(j, align) == Down(k, align)
  }

  lemma TouchedSharesBlock(offset: nat, n: nat, align: nat, k: nat)
    requires align > 0 && n > 0 && Touched(offset, n, align, k)
    ensures SharesBlock(offset, n, align, k)
  {
    DownProps(offset, align);
    if k < offset {
      SameBlock(Down(offset, align), k, align);
      assert Down(offset, align) == Down(k, align);
    } else if k < offset + n {
      assert Down(k, align) == Down(k, align);
    } else {
      UpBlock(offset + n, k, align);
      assert Down(offset + n - 1, align) == Down(k, align);
    }
  }

  /** qemu-img.c:4082-4085: extends an unallocated run to block boundaries.  The extended run stays
      within the blocks of the given one.  It ends after `offset`, so that the loop moves on, exactly
      when the part of the block before `offset` fits in the buffer. */
  method ExtendRun(offset: nat, n: nat, size: nat, align: nat) returns (start: nat, len: nat)
    requires 0 < align && 0 < n && offset + n <= size
    ensures start <= offset && start + len <= size && 0 < len <= IO_BUF_SIZE
    ensures offset < start + len <==> offset - Down(offset, align) < IO_BUF_SIZE
    ensures Aligned(start, align)
    ensures Aligned(start + len, align) || start + len == size || len == IO_BUF_SIZE
    ensures forall k: nat :: start <= k < start + len ==> SharesBlock(offset, n, align, k)
  {
    DownProps(offset, align);
    start := Down(offset, align);
    var m := n + (offset - start);
    UpProps(start + m, align);
    m := m + (Up(start + m, align) - (start + m));
    len := Min(m, Min(size - start, IO_BUF_SIZE));
    forall k: nat | start <= k < start + len ensures SharesBlock(offset, n, align, k) {
      TouchedSharesBlock(offset, n, align, k);
    }
  }

  /** A run that shares its blocks with an unallocated run is unallocated. */
  lemma SharedUnallocated(alloc: seq<bool>, g: nat, offset: nat, n: nat, start: nat, len: nat)
    requires g > 0 && BlockUniform(alloc, g) && offset + n <= |alloc| && start + len <= |alloc|
    requires forall k: nat :: offset <= k < offset + n ==> !alloc[k]
    requires forall k: nat :: start <= k < start + len ==> SharesBlock(offset, n, g, k)
    ensures forall k: nat :: start <= k < start + len ==> !alloc[k]
  {
    forall k: nat | start <= k < start + len ensures !alloc[k] {
      assert SharesBlock(offset, n, g, k);
      var j: nat :| offset <= j < offset + n && Down(j, g) == Down(k, g);
      assert alloc[j] == alloc[k];
    }
  }

  /** What is uniform per unit of allocation is uniform per part of it. */
  lemma FinerUniform(alloc: seq<bool>, g: nat, align: nat)
    requires g > 0 && align > 0 && Aligned(g, align) && BlockUniform(alloc, g)
    ensures BlockUniform(alloc, align)
  {
    forall i: nat, j: nat | i < |alloc| && j < |alloc| && Down(i, align) == Down(j, align)
      ensures alloc[i] == alloc[j]
    {
      SmallerBlocks(i, j, g, align);
    }
  }

  lemma SettledMonotone(c: Cow, oldBacking: seq<Byte>, newBacking: seq<Byte>, limit: nat, limit': nat)
    requires limit' <= limit && Settled(c, oldBacking, newBacking, limit)
    ensures Settled(c, oldBacking, newBacking, limit')
  {
  }

  /** qemu-img.c:4027-4149, for any unit of allocation that is a multiple of write_align.  `inChain`: the new
      backing file is part of the old one's chain.  Whether or not the loop ends early on an error, the
      overlay reads as before through the old backing file; when it ends without one, it reads the same
      through the new backing file too. */
  method ImgRebase(o: Overlay, newBacking: seq<Byte>, inChain: bool) returns (ok: bool)
    requires o.Ok() && o.align <= IO_BUF_SIZE
    modifies o
    ensures o.Ok() && |o.alloc| == old(|o.alloc|)
    ensures SameReads(o.Layer(), o.backing, old(o.Layer()), o.backing)
    ensures ok ==> SameReads(o.Layer(), newBacking, old(o.Layer()), o.backing)
  {
    var size := |o.alloc|;
    var offset := 0;
    while offset < size
      invariant 0 <= offset <= size && |o.alloc| == size
      invariant o.Ok()
      invariant SameReads(o.Layer(), o.backing, old(o.Layer()), o.backing)
      invariant Settled(o.Layer(), o.backing, newBacking, offset)
      decreases size - offset
    {
      var n := Min(IO_BUF_SIZE, size - offset);
      var failed, ret, pnum := o.IsAllocated(offset, n);
      if failed {
        return false;
      }
      n := pnum;
      if ret {
        offset := offset + n;
        continue;
      }
      if inChain {
        failed, ret, pnum := AllocatedAbove(o.backing, newBacking, offset, n);
        if failed {
          return false;
        }
        if !ret && pnum > 0 {
          offset := offset + pnum;
          continue;
        }
        if pnum > 0 {
          n := pnum;
        }
      }
      var start, len := ExtendRun(offset, n, size, o.align);
      DownProps(offset, o.align);
      FinerUniform(o.alloc, o.g, o.align);
      SharedUnallocated(o.alloc, o.align, offset, n, start, len);
      assert forall k: nat :: start <= k < start + len ==> !o.alloc[k];
      SettledMonotone(o.Layer(), o.backing, newBacking, offset, start);
      var ok1, bufOld, _ := ReadBacking(o.backing, start, len);
      if !ok1 {
        return false;
      }
      var ok2, bufNew, _ := ReadBacking(newBacking, start, len);
      if !ok2 {
        return false;
      }
      ghost var before := o.Layer();
      ok := CopyDifferences(o, start, bufOld, bufNew, before, newBacking);
      SameReadsTransitive(o.Layer(), before, old(o.Layer()), o.backing);
      if !ok {
        return;
      }
      offset := start + len;
    }
    SettledMayMove(o.Layer(), o.backing, newBacking);
    ok := true;
  }
}
