/** Byte buffers and the two scans of them that qemu-img is built on. */
module Buffers {
  import opened Align
  import opened Common

  type Byte = b: int | 0 <= b < 256

  const SECTOR_SIZE: nat := 512
  const IO_BUF_SIZE: nat := 2 * 1024 * 1024

  predicate IsZero(buf: seq<Byte>) {
    forall k :: 0 <= k < |buf| ==> buf[k] == 0
  }

  /** The chunk of `buf` that starts at `i`: `size` bytes, or what is left. */
  function Chunk(buf: seq<Byte>, i: nat, size: nat): (c: seq<Byte>)
    requires i <= |buf|
    ensures |c| == Min(size, |buf| - i)
  {
    buf[i..Min(i + size, |buf|)]
  }

  /** The first sector boundary of `buf` whose sector holds a non-zero byte, or -1. */
  method FindNonzero(buf: seq<Byte>) returns (r: int)
    ensures r == -1 <==> IsZero(buf)
    ensures -1 <= r < |buf|
    ensures r >= 0 ==> r % SECTOR_SIZE == 0 && IsZero(buf[..r]) && !IsZero(Chunk(buf, r, SECTOR_SIZE))
  {
    var n := |buf|;
    var end := n / SECTOR_SIZE * SECTOR_SIZE;
    var i := 0;
    while i < end
      invariant 0 <= i <= end && i % SECTOR_SIZE == 0
      invariant IsZero(buf[..i])
    {
      if !IsZero(buf[i..i + SECTOR_SIZE]) {
        assert buf[i..i + SECTOR_SIZE] == Chunk(buf, i, SECTOR_SIZE);
        NotZeroSlice(buf, i, i + SECTOR_SIZE);
        return i;
      }
      assert buf[..i + SECTOR_SIZE] == buf[..i] + buf[i..i + SECTOR_SIZE];
      i := i + SECTOR_SIZE;
    }
    assert buf == buf[..i] + buf[i..];
    assert buf[i..i + (n - end)] == buf[i..];
    if i < n && !IsZero(buf[i..i + (n - end)]) {
      assert buf[i..i + (n - end)] == Chunk(buf, i, SECTOR_SIZE);
      NotZeroSlice(buf, i, n);
      return i;
    }
    assert IsZero(buf[i..]);
    return -1;
  }

  lemma NotZeroSlice(buf: seq<Byte>, lo: nat, hi: nat)
    requires lo <= hi <= |buf| && !IsZero(buf[lo..hi])
    ensures !IsZero(buf)
  {
    var k :| 0 <= k < hi - lo && buf[lo..hi][k] != 0;
    assert buf[lo + k] != 0;
  }

  /** Do the chunks of the two buffers that start at `i` differ? */
  predicate Differs(a: seq<Byte>, b: seq<Byte>, i: nat, size: nat)
    requires |a| == |b| && i <= |a|
  {
    Chunk(a, i, size) != Chunk(b, i, size)
  }

  /** All chunks that start before `n` differ, or all of them agree. */
  ghost predicate AllDiffer(a: seq<Byte>, b: seq<Byte>, n: nat, size: nat, differ: bool)
    requires |a| == |b| && n <= |a| && size > 0
  {
    forall i {:trigger Differs(a, b, i, size)} :: 0 <= i < n && Aligned(i, size) ==> Differs(a, b, i, size) == differ
  }

  lemma PrefixGrows(a: seq<Byte>, b: seq<Byte>, i: nat, len: nat)
    requires |a| == |b| && i + len <= |a|
    ensures a[..i] == b[..i] && a[i..i + len] == b[i..i + len] ==> a[..i + len] == b[..i + len]
  {
    assert a[..i + len] == a[..i] + a[i..i + len];
    assert b[..i + len] == b[..i] + b[i..i + len];
  }

  /** Compares two buffers chunk by chunk: `pnum` is the longest run of chunks from the start that
      have the same matching status as the first chunk. */
  method CompareBuffers(a: seq<Byte>, b: seq<Byte>, size: nat) returns (differ: bool, pnum: nat)
    requires |a| == |b| > 0
    ensures var chsize := if size == 0 then SECTOR_SIZE else size;
      && 0 < pnum <= |a|
      && (pnum < |a| ==> Aligned(pnum, chsize) && Differs(a, b, pnum, chsize) != differ)
      && AllDiffer(a, b, pnum, chsize, differ)
    ensures !differ ==> a[..pnum] == b[..pnum]
  {
    var chsize := if size == 0 then SECTOR_SIZE else size;
    var bytes := |a|;
    var i := Min(bytes, chsize);
    differ := a[..i] != b[..i];
    assert a[..i] == Chunk(a, 0, chsize) && b[..i] == Chunk(b, 0, chsize);
    MultipleAligned(0, chsize);
    MultipleAligned(1, chsize);
    OneChunk(a, b, 0, chsize);
    while i < bytes
      invariant 0 < i <= bytes
      invariant i < bytes ==> Aligned(i, chsize)
      invariant AllDiffer(a, b, i, chsize, differ)
      invariant !differ ==> a[..i] == b[..i]
    {
      var len := Min(bytes - i, chsize);
      assert a[i..i + len] == Chunk(a, i, chsize) && b[i..i + len] == Chunk(b, i, chsize);
      if (a[i..i + len] != b[i..i + len]) != differ {
        break;
      }
      PrefixGrows(a, b, i, len);
      OneChunk(a, b, i, chsize);
      SumAligned(i, chsize, chsize);
      i := i + len;
    }
    pnum := i;
  }

  /** Within the chunk that starts at `i` no other chunk starts. */
  lemma OneChunk(a: seq<Byte>, b: seq<Byte>, i: nat, size: nat)
    requires |a| == |b| && i < |a| && size > 0 && Aligned(i, size)
    ensures Aligned(size, size)
    ensures forall j :: i <= j < i + size && j < |a| && Aligned(j, size) ==>
      Differs(a, b, j, size) == Differs(a, b, i, size)
  {
    MultipleAligned(1, size);
    forall j | i < j < i + size ensures !Aligned(j, size) {
      NoMultipleBetween(i, j, size);
    }
  }
}
