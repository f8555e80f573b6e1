/** The sequential parts of `qemu-img convert`: how a buffer is split into data and holes, how the
    next chunk is classified and sized, how it is read and how one write request is chosen.

    Everything is measured in sectors.  The content of a sector is one opaque value, 0 standing for
    512 zero bytes. */
module ConvertParts {
  import opened Align
  import opened Common

  type Sector = nat
  const ZERO: Sector := 0

  const REQUEST_MAX_SECTORS: nat := 0x7fff_ffff / 512

  predicate IsZero(buf: seq<Sector>) {
    forall k :: 0 <= k < |buf| ==> buf[k] == ZERO
  }

  // ----- Splitting a buffer into data and holes -----

  /** Bitwise and. */
  function And(x: nat, y: nat): (r: nat)
    ensures r <= x && r <= y
  {
    if x == 0 || y == 0 then 0 else x % 2 * (y % 2) + 2 * And(x / 2, y / 2)
  }

  function Pow2(k: nat): (r: nat)
    ensures r > 0
  {
    if k == 0 then 1 else 2 * Pow2(k - 1)
  }

  predicate IsPow2(a: nat) {
    exists k: nat :: k <= a && a == Pow2(k)
  }

  /** Masking with a power of two less one takes the remainder. */
  lemma {:induction false} AndMask(x: nat, k: nat)
    ensures And(x, Pow2(k) - 1) == x % Pow2(k)
  {
    if k == 0 {
      assert And(x, 0) == 0 && x % 1 == 0;
    } else {
      var m := Pow2(k - 1);
      calc {
        And(x, Pow2(k) - 1);
      ==  { AndOdd(x, m); }
        x % 2 + 2 * And(x / 2, m - 1);
      ==  { AndMask(x / 2, k - 1); }
        x % 2 + 2 * (x / 2 % m);
      ==  { HalfRemainder(x, m); }
        x % (2 * m);
      }
    }
  }

  lemma AndOdd(x: nat, m: nat)
    requires m > 0
    ensures And(x, 2 * m - 1) == x % 2 + 2 * And(x / 2, m - 1)
  {
    assert (2 * m - 1) % 2 == 1 && (2 * m - 1) / 2 == m - 1;
  }

  predicate ZeroRange(buf: seq<Sector>, lo: nat, hi: nat)
    requires hi <= |buf|
  {
    forall k :: lo <= k < hi ==> buf[k] == ZERO
  }

  /** Runs of zeroes within lo..hi have at most `most` sectors. */
  ghost predicate Dense(buf: seq<Sector>, lo: nat, hi: nat, most: nat)
    requires hi <= |buf|
  {
    forall x, y {:trigger ZeroRange(buf, x, y)} ::
      lo <= x <= y <= hi && ZeroRange(buf, x, y) ==> y - x <= most
  }

  /** The buffer starts with exactly `i` zero sectors, and then there is data. */
  predicate LeadingZeroes(buf: seq<Sector>, i: nat) {
    0 < i < |buf| && ZeroRange(buf, 0, i) && buf[i] != ZERO
  }

  /** The zeroes at the start lie in the alignment unit of the data after them. */
  ghost predicate StartsShort(buf: seq<Sector>, sectorNum: nat, alignment: nat)
    requires alignment > 0
  {
    exists i: nat :: LeadingZeroes(buf, i) && i <= And(sectorNum + i, alignment - 1)
  }

  /** Data was reported: it holds data, and no run of zeroes in it fills an alignment unit. */
  ghost predicate DataPiece(buf: seq<Sector>, pnum: nat, alignment: nat)
    requires pnum <= |buf| && alignment > 0
  {
    !ZeroRange(buf, 0, pnum) && Dense(buf, 0, pnum, alignment - 1)
  }

  /** A run of zeroes between data. */
  ghost predicate HoleAt(buf: seq<Sector>, x: nat, y: nat) {
    0 < x < y < |buf| && buf[x - 1] != ZERO && ZeroRange(buf, x, y) && buf[y] != ZERO
  }

  /** Runs of zeroes between data lie within one alignment unit. */
  ghost predicate HolesFit(buf: seq<Sector>, pnum: nat, sectorNum: nat, alignment: nat)
    requires alignment > 0
  {
    forall x: nat, y: nat {:trigger HoleAt(buf, x, y)} ::
      HoleAt(buf, x, y) && y < pnum ==> Down(sectorNum + y, alignment) <= sectorNum + x
  }

  /** The zeroes at the start end with `i`, and the hole ends where `i` is rounded down to. */
  predicate HoleBefore(buf: seq<Sector>, i: nat, pnum: nat, sectorNum: nat, alignment: nat)
    requires alignment > 0
  {
    LeadingZeroes(buf, i) && pnum <= i && i - pnum == And(sectorNum + i, alignment - 1)
  }

  /** A hole was reported: it ends with the buffer, or less than an alignment unit before the next data. */
  ghost predicate HolePiece(buf: seq<Sector>, pnum: nat, sectorNum: nat, alignment: nat)
    requires pnum <= |buf| && alignment > 0
  {
    && ZeroRange(buf, 0, pnum)
    && (pnum < |buf| ==> exists i: nat :: HoleBefore(buf, i, pnum, sectorNum, alignment))
  }

  /** What is_allocated_sectors answers: when it reports data, what a piece of data or a hole is, that it ends
      aligned or with the buffer, and that data goes on after zeroes only within an alignment unit. */
  ghost predicate FirstRun(buf: seq<Sector>, sectorNum: nat, alignment: nat, ret: bool, pnum: nat)
    requires buf != [] && alignment > 0 && pnum <= |buf|
  {
    && 0 < pnum
    && (ret <==> buf[0] != ZERO || StartsShort(buf, sectorNum, alignment))
    && (if ret then DataPiece(buf, pnum, alignment) else HolePiece(buf, pnum, sectorNum, alignment))
    && (IsPow2(alignment) && pnum < |buf| ==> Aligned(sectorNum + pnum, alignment))
    && (IsPow2(alignment) && ret ==> HolesFit(buf, pnum, sectorNum, alignment))
  }

  /** qemu-img.c:1160-1211.  A buffer that starts with data is reported as data.  One that starts with zeroes
      is reported as data exactly if these are too few to end aligned before the data. */
  method IsAllocatedSectors(buf: seq<Sector>, sectorNum: nat, alignment: nat) returns (ret: bool, pnum: nat)
    requires alignment > 0
    ensures buf == [] ==> !ret && pnum == 0
    ensures pnum <= |buf| && (buf != [] ==> FirstRun(buf, sectorNum, alignment, ret, pnum))
  {
    var n := |buf|;
    if n == 0 {
      return false, 0;
    }
    var isZero := buf[0] == ZERO;
    var i := 1;
    while i < n && (buf[i] == ZERO) == isZero
      invariant 1 <= i <= n
      invariant forall j :: 0 <= j < i ==> (buf[j] == ZERO) == isZero
    {
      i := i + 1;
    }
    if i == n {
      AllSame(buf, sectorNum, alignment);
      return !isZero, i;
    }
    var tail := And(sectorNum + i, alignment - 1);
    ghost var run := i;
    if tail != 0 {
      if isZero && i <= tail {
        isZero := false;
      }
      if !isZero {
        i := Min(i + (alignment - tail), n);
      } else {
        i := i - tail;
      }
    }
    if isZero {
      HoleFirst(buf, run, i, sectorNum, alignment);
    } else {
      DataFirst(buf, run, i, sectorNum, alignment);
    }
    return !isZero, i;
  }

  /** The comment above is_allocated_sectors promises false here, as the first sector is zero. */
  method ShortHoleIsData() returns (ret: bool, pnum: nat)
    ensures ret && pnum == 2
  {
    var buf := [ZERO, 7];
    assert Pow2(1) == 2;
    AndMask(1, 1);
    assert LeadingZeroes(buf, 1);
    ret, pnum := IsAllocatedSectors(buf, 0, 2);
    assert !ZeroRange(buf, 0, pnum);
  }

  /** The buffer starts with exactly `i` sectors of one kind, and goes on. */
  predicate FirstKind(buf: seq<Sector>, i: nat) {
    && 0 < i < |buf| && (buf[i] == ZERO) != (buf[0] == ZERO)
    && forall j :: 0 <= j < i ==> (buf[j] == ZERO) == (buf[0] == ZERO)
  }

  /** A buffer of one kind. */
  lemma AllSame(buf: seq<Sector>, sectorNum: nat, alignment: nat)
    requires buf != [] && alignment > 0 && forall j :: 0 <= j < |buf| ==> (buf[j] == ZERO) == (buf[0] == ZERO)
    ensures FirstRun(buf, sectorNum, alignment, buf[0] != ZERO, |buf|)
  {
    if buf[0] != ZERO {
      DataThenTail(buf, |buf|, |buf|, alignment);
    }
    forall x: nat, y: nat ensures !HoleAt(buf, x, y) {
      NoHole(buf, x, y);
    }
    forall i: nat ensures !LeadingZeroes(buf, i) {}
  }

  lemma NoHole(buf: seq<Sector>, x: nat, y: nat)
    requires forall j :: 0 <= j < |buf| ==> (buf[j] == ZERO) == (buf[0] == ZERO)
    ensures !HoleAt(buf, x, y)
  {
    if 0 < x < y < |buf| && ZeroRange(buf, x, y) {
      FirstIsZero(buf, x, y);
    }
  }

  /** Zeroes first, and enough of them. */
  lemma HoleFirst(buf: seq<Sector>, i: nat, p: nat, sectorNum: nat, alignment: nat)
    requires alignment > 0 && FirstKind(buf, i) && buf[0] == ZERO
    requires 0 < p <= i && p == i - And(sectorNum + i, alignment - 1)
    ensures FirstRun(buf, sectorNum, alignment, false, p)
  {
    assert HoleBefore(buf, i, p, sectorNum, alignment);
    ShortOrNot(buf, sectorNum, alignment, i);
    RoundedEnds(sectorNum, i, alignment);
  }

  /** How far a first run of `i` sectors is taken as data. */
  function Extended(buf: seq<Sector>, i: nat, sectorNum: nat, alignment: nat): nat
    requires alignment > 0
  {
    var tail := And(sectorNum + i, alignment - 1);
    if tail == 0 then i else Min(i + (alignment - tail), |buf|)
  }

  /** Data first, or zeroes that are written with it. */
  lemma DataFirst(buf: seq<Sector>, i: nat, p: nat, sectorNum: nat, alignment: nat)
    requires alignment > 0 && FirstKind(buf, i) && p == Extended(buf, i, sectorNum, alignment)
    requires buf[0] == ZERO ==> i <= And(sectorNum + i, alignment - 1)
    ensures p <= |buf| && FirstRun(buf, sectorNum, alignment, true, p)
  {
    DataEnds(buf, i, p, sectorNum, alignment);
    DataPieceFirst(buf, i, p, sectorNum, alignment);
    TailFits(buf, i, p, sectorNum, alignment);
  }

  lemma DataEnds(buf: seq<Sector>, i: nat, p: nat, sectorNum: nat, alignment: nat)
    requires alignment > 0 && FirstKind(buf, i) && p == Extended(buf, i, sectorNum, alignment)
    ensures i <= p <= |buf| && (IsPow2(alignment) && p < |buf| ==> Aligned(sectorNum + p, alignment))
  {
    RoundedEnds(sectorNum, i, alignment);
  }

  lemma DataPieceFirst(buf: seq<Sector>, i: nat, p: nat, sectorNum: nat, alignment: nat)
    requires alignment > 0 && FirstKind(buf, i) && p == Extended(buf, i, sectorNum, alignment) && p <= |buf|
    requires buf[0] == ZERO ==> i <= And(sectorNum + i, alignment - 1)
    ensures DataPiece(buf, p, alignment) && (buf[0] == ZERO ==> StartsShort(buf, sectorNum, alignment))
  {
    if buf[0] == ZERO {
      assert LeadingZeroes(buf, i);
      ShortPiece(buf, i, p, alignment);
    } else {
      DataThenTail(buf, i, p, alignment);
    }
  }

  /** A first run that is rounded up to the next boundary. */
  lemma TailFits(buf: seq<Sector>, i: nat, p: nat, sectorNum: nat, alignment: nat)
    requires alignment > 0 && FirstKind(buf, i) && p <= i + (alignment - And(sectorNum + i, alignment - 1))
    ensures IsPow2(alignment) ==> HolesFit(buf, p, sectorNum, alignment)
  {
    if IsPow2(alignment) {
      var tail := And(sectorNum + i, alignment - 1);
      MaskDown(sectorNum + i, alignment);
      var b := sectorNum + i - tail;
      forall x: nat, y: nat | HoleAt(buf, x, y) && y < p
        ensures Down(sectorNum + y, alignment) <= sectorNum + x
      {
        AfterFirst(buf, i, x, y);
        SameBlock(b, sectorNum + y, alignment);
      }
    }
  }

  lemma AfterFirst(buf: seq<Sector>, i: nat, x: nat, y: nat)
    requires FirstKind(buf, i) && HoleAt(buf, x, y)
    ensures i <= x
  {
    assert buf[x] == ZERO;
  }

  /** Taking off the masked bits rounds down. */
  lemma MaskDown(x: nat, alignment: nat)
    requires alignment > 0 && IsPow2(alignment)
    ensures And(x, alignment - 1) <= x && And(x, alignment - 1) < alignment
    ensures Down(x, alignment) == x - And(x, alignment - 1) && Aligned(x - And(x, alignment - 1), alignment)
  {
    var k: nat :| k <= alignment && alignment == Pow2(k);
    AndMask(x, k);
    DownRemainder(x, alignment);
    DownProps(x, alignment);
  }

  lemma FirstIsZero(buf: seq<Sector>, x: nat, y: nat)
    requires x < y <= |buf| && ZeroRange(buf, x, y)
    ensures buf[x] == ZERO
  {}

  /** There is one way to start with zeroes. */
  lemma ShortOrNot(buf: seq<Sector>, sectorNum: nat, alignment: nat, i: nat)
    requires alignment > 0 && LeadingZeroes(buf, i)
    ensures StartsShort(buf, sectorNum, alignment) <==> i <= And(sectorNum + i, alignment - 1)
  {
    forall k: nat | LeadingZeroes(buf, k) ensures k == i {}
  }

  lemma ShortPiece(buf: seq<Sector>, i: nat, p: nat, alignment: nat)
    requires LeadingZeroes(buf, i) && i < alignment && i < p <= |buf| && p <= alignment
    ensures DataPiece(buf, p, alignment)
  {
    assert !ZeroRange(buf, 0, p);
    forall x, y | 0 <= x <= y <= p && ZeroRange(buf, x, y) ensures y - x <= alignment - 1 {
      assert !(x <= i < y);
    }
  }

  lemma DataThenTail(buf: seq<Sector>, i: nat, p: nat, alignment: nat)
    requires 0 < i <= p <= |buf| && p - i < alignment && forall j :: 0 <= j < i ==> buf[j] != ZERO
    ensures DataPiece(buf, p, alignment)
  {
    assert buf[0] != ZERO;
    forall x, y | 0 <= x <= y <= p && ZeroRange(buf, x, y) ensures y - x <= alignment - 1 {
      if x < y {
        FirstIsZero(buf, x, y);
      }
    }
  }

  /** Where a piece that is rounded down or up ends. */
  lemma RoundedEnds(sectorNum: nat, i: nat, alignment: nat)
    requires alignment > 0
    ensures var tail := And(sectorNum + i, alignment - 1);
      IsPow2(alignment) ==>
        && (tail <= i ==> Aligned(sectorNum + (i - tail), alignment))
        && Aligned(sectorNum + (i + (alignment - tail)), alignment)
  {
    if IsPow2(alignment) {
      var k: nat :| k <= alignment && alignment == Pow2(k);
      var x := sectorNum + i;
      AndMask(x, k);
      var tail := x % alignment;
      if tail <= i {
        RoundedDown(x, sectorNum + (i - tail), alignment);
      }
      RoundedUp(x, sectorNum + (i + (alignment - tail)), alignment);
    }
  }

  lemma RoundedDown(x: nat, y: nat, m: nat)
    requires m > 0 && y == x - x % m
    ensures Aligned(y, m)
  {
    DropRemainder(x, m);
  }

  lemma RoundedUp(x: nat, y: nat, m: nat)
    requires m > 0 && y == x - x % m + m
    ensures Aligned(y, m)
  {
    DropRemainder(x, m);
  }

  /** Holes of this length are not worth splitting a request for. */
  function Ignored(n: nat, minimum: nat): nat {
    if Min(n, minimum) == 0 then 0 else Min(n, minimum) - 1
  }

  /** Where the data is found to end: so many zeroes that they count as a hole, or nothing but zeroes. */
  ghost predicate EndsAtHole(buf: seq<Sector>, pnum: nat, minimum: nat)
    requires pnum <= |buf|
  {
    var min := Min(|buf|, minimum);
    ZeroRange(buf, pnum, |buf|) || (pnum + min <= |buf| && ZeroRange(buf, pnum, pnum + min))
  }

  /** Which holes data swallows: exactly those of which, rounded to whole alignment units, nothing is left or
      fewer than `minimum` sectors. */
  ghost predicate Swallows(buf: seq<Sector>, pnum: nat, sectorNum: nat, minimum: nat, alignment: nat)
    requires alignment > 0
  {
    forall x: nat, y: nat {:trigger HoleAt(buf, x, y)} :: HoleAt(buf, x, y) && x <= pnum ==>
      (y < pnum <==> Small(sectorNum + x, sectorNum + y, Ignored(|buf|, minimum), alignment))
  }

  /** At most `most` sectors of x..y are left when it is rounded to whole alignment units. */
  predicate Small(x: nat, y: nat, most: nat, alignment: nat)
    requires alignment > 0
  {
    Down(y, alignment) <= Up(x, alignment) + most
  }

  /** The data ends where its last sector is rounded up to. */
  ghost predicate RoundedUpEnd(buf: seq<Sector>, pnum: nat, alignment: nat)
    requires pnum <= |buf|
  {
    forall x: nat {:trigger ZeroRange(buf, x, pnum)} :: x <= pnum && ZeroRange(buf, x, pnum) ==> pnum - x < alignment
  }

  /** What is_allocated_sectors_min reports as data: it swallows exactly the small holes, stops before a hole
      or before zeroes up to the end, and ends aligned, less than an alignment unit after its last sector. */
  ghost predicate DataRun(buf: seq<Sector>, pnum: nat, sectorNum: nat, minimum: nat, alignment: nat)
    requires pnum <= |buf| && alignment > 0
  {
    && Swallows(buf, pnum, sectorNum, minimum, alignment)
    && EndsAtHole(buf, pnum, minimum)
    && RoundedUpEnd(buf, pnum, alignment)
    && Dense(buf, 0, pnum, Ignored(|buf|, minimum) + 2 * (alignment - 1))
    && (pnum < |buf| ==> Aligned(sectorNum + pnum, alignment))
  }

  /** qemu-img.c:1218-1255: like IsAllocatedSectors, but data swallows small holes. */
  method IsAllocatedSectorsMin(buf: seq<Sector>, minimum: nat, sectorNum: nat, alignment: nat)
    returns (ret: bool, pnum: nat)
    requires alignment > 0
    ensures buf == [] ==> !ret && pnum == 0
    ensures buf != [] ==> 0 < pnum <= |buf|
    ensures buf != [] ==> (ret <==> buf[0] != ZERO || StartsShort(buf, sectorNum, alignment))
    ensures !ret ==> HolePiece(buf, pnum, sectorNum, alignment)
    ensures ret && pnum < |buf| ==> buf[pnum] == ZERO
    ensures ret && IsPow2(alignment) ==> DataRun(buf, pnum, sectorNum, minimum, alignment)
    ensures IsPow2(alignment) && pnum < |buf| ==> Aligned(sectorNum + pnum, alignment)
  {
    var n := |buf|;
    var min := Min(n, minimum);
    ret, pnum := IsAllocatedSectors(buf, sectorNum, alignment);
    if !ret {
      return;
    }
    var used := pnum;
    var checked := used;
    FirstPiece(buf, used, sectorNum, minimum, alignment);
    while checked < n
      invariant 0 < used <= checked <= n
      invariant used < checked ==> buf[used] == ZERO
      invariant IsPow2(alignment) ==> Holding(buf, used, checked, sectorNum, minimum, alignment)
    {
      var r, p := IsAllocatedSectors(buf[checked..], sectorNum + checked, alignment);
      if used == checked && !r {
        FirstIsZero(buf[checked..], 0, p);
      }
      if IsPow2(alignment) {
        NextPiece(buf, used, checked, r, p, sectorNum, minimum, alignment);
      }
      checked := checked + p;
      if r {
        used := checked;
      } else if p >= min {
        break;
      }
    }
    return true, used;
  }

  /** The comment above is_allocated_sectors_min promises that a hole of up to `minimum` sectors is ignored.  It is,
      unless it has exactly that many and starts and ends aligned. */
  lemma UpToMinimumIff(buf: seq<Sector>, pnum: nat, minimum: nat, sectorNum: nat, alignment: nat, x: nat, y: nat)
    requires pnum <= |buf| && alignment > 0 && DataRun(buf, pnum, sectorNum, minimum, alignment)
    requires HoleAt(buf, x, y) && x <= pnum && y - x <= minimum
    ensures y < pnum <==>
      !(y - x == minimum && Aligned(sectorNum + x, alignment) && Aligned(sectorNum + y, alignment))
  {
    UpProps(sectorNum + x, alignment);
    DownProps(sectorNum + y, alignment);
  }

  /** A hole of exactly `minimum` sectors ends the data, although there is more. */
  method HoleOfMinimumEndsData() returns (ret: bool, pnum: nat)
    ensures ret && pnum == 1
  {
    var buf := [7, ZERO, 7];
    assert Pow2(0) == 1;
    ret, pnum := IsAllocatedSectorsMin(buf, 1, 0, 1);
    assert ZeroRange(buf, 1, 2);
  }

  ghost predicate InHand(buf: seq<Sector>, used: nat, checked: nat, sectorNum: nat, small: nat, alignment: nat)
    requires alignment > 0
  {
    && Gathered(buf, used, checked, sectorNum, small, alignment)
    && Swallowed(buf, used, sectorNum, small, alignment)
    && (used < |buf| ==> Aligned(sectorNum + used, alignment))
  }

  ghost predicate Holding(buf: seq<Sector>, used: nat, checked: nat, sectorNum: nat, minimum: nat, alignment: nat)
    requires alignment > 0
  {
    && InHand(buf, used, checked, sectorNum, Ignored(|buf|, minimum), alignment)
    && (checked == |buf| ==> DataRun(buf, used, sectorNum, minimum, alignment))
  }

  /** What an answer for the sectors from `checked` on makes of it. */
  lemma NextPiece(buf: seq<Sector>, used: nat, checked: nat, r: bool, p: nat, sectorNum: nat, minimum: nat,
                  alignment: nat)
    requires alignment > 0 && IsPow2(alignment) && checked < |buf| && p <= |buf| - checked
    requires Holding(buf, used, checked, sectorNum, minimum, alignment)
    requires FirstRun(buf[checked..], sectorNum + checked, alignment, r, p)
    ensures r ==> Holding(buf, checked + p, checked + p, sectorNum, minimum, alignment)
    ensures !r && p < Min(|buf|, minimum) ==> Holding(buf, used, checked + p, sectorNum, minimum, alignment)
    ensures !r && p >= Min(|buf|, minimum) ==> DataRun(buf, used, sectorNum, minimum, alignment)
  {
    var small := Ignored(|buf|, minimum);
    if r {
      MoreData(buf, used, checked, p, sectorNum, small, alignment);
      MoreSwallowed(buf, used, checked, p, sectorNum, small, alignment);
      AtTheEnd(buf, checked + p, checked + p, sectorNum, minimum, alignment);
    } else {
      NoHoleAfterHole(buf, used, checked, sectorNum, small, alignment);
      HoleAfterData(buf, used, p, sectorNum, alignment);
      if p >= Min(|buf|, minimum) {
        StopsThere(buf, used, p, sectorNum, minimum, alignment);
      } else {
        AtTheEnd(buf, used, checked + p, sectorNum, minimum, alignment);
      }
    }
  }

  /** Holes before `used` are small. */
  ghost predicate Swallowed(buf: seq<Sector>, used: nat, sectorNum: nat, small: nat, alignment: nat)
    requires alignment > 0
  {
    forall x: nat, y: nat {:trigger HoleAt(buf, x, y)} ::
      HoleAt(buf, x, y) && y < used ==> Small(sectorNum + x, sectorNum + y, small, alignment)
  }

  lemma MoreSwallowed(buf: seq<Sector>, used: nat, checked: nat, p: nat, sectorNum: nat, small: nat, alignment: nat)
    requires alignment > 0 && IsPow2(alignment) && checked < |buf| && p <= |buf| - checked
    requires InHand(buf, used, checked, sectorNum, small, alignment)
    requires FirstRun(buf[checked..], sectorNum + checked, alignment, true, p)
    ensures Swallowed(buf, checked + p, sectorNum, small, alignment)
  {
    forall x: nat, y: nat | HoleAt(buf, x, y) && y < checked + p
      ensures Small(sectorNum + x, sectorNum + y, small, alignment)
    {
      if used < x {
        HoleInPiece(buf, used, checked, p, sectorNum, small, alignment, x, y);
      } else if used <= y {
        HoleAcross(buf, used, checked, p, sectorNum, small, alignment, x, y);
      }
    }
  }

  /** A hole that starts after data within the next piece. */
  lemma HoleInPiece(buf: seq<Sector>, used: nat, checked: nat, p: nat, sectorNum: nat, small: nat, alignment: nat,
                    x: nat, y: nat)
    requires alignment > 0 && IsPow2(alignment) && used <= checked < |buf| && p <= |buf| - checked
    requires ZeroRange(buf, used, checked)
    requires FirstRun(buf[checked..], sectorNum + checked, alignment, true, p)
    requires HoleAt(buf, x, y) && used < x && y < checked + p
    ensures Small(sectorNum + x, sectorNum + y, small, alignment)
  {
    var rest := buf[checked..];
    assert checked < x;
    RangeOfRest(buf, checked, x - checked, y - checked);
    assert rest[x - checked - 1] == buf[x - 1] && rest[y - checked] == buf[y];
    assert HoleAt(rest, x - checked, y - checked);
    assert sectorNum + checked + (y - checked) == sectorNum + y;
    UpProps(sectorNum + x, alignment);
  }

  /** A hole that the piece before it runs into: its first sector is rounded up to `used`. */
  lemma HoleFrom(buf: seq<Sector>, used: nat, sectorNum: nat, alignment: nat, x: nat, y: nat)
    requires alignment > 0 && used < |buf| && Aligned(sectorNum + used, alignment)
    requires RoundedUpEnd(buf, used, alignment) && HoleAt(buf, x, y) && x <= used <= y
    ensures Up(sectorNum + x, alignment) == sectorNum + used
  {
    assert ZeroRange(buf, x, used);
    UpIs(sectorNum + x, sectorNum + used, alignment);
  }

  /** A hole that ends in the next piece. */
  lemma HoleAcross(buf: seq<Sector>, used: nat, checked: nat, p: nat, sectorNum: nat, small: nat, alignment: nat,
                   x: nat, y: nat)
    requires alignment > 0 && IsPow2(alignment) && checked < |buf| && p <= |buf| - checked
    requires InHand(buf, used, checked, sectorNum, small, alignment)
    requires FirstRun(buf[checked..], sectorNum + checked, alignment, true, p)
    requires HoleAt(buf, x, y) && x <= used <= y < checked + p
    ensures Small(sectorNum + x, sectorNum + y, small, alignment)
  {
    HoleFrom(buf, used, sectorNum, alignment, x, y);
    assert checked <= y;
    DownProps(sectorNum + y, alignment);
    if checked < y {
      RestStarts(buf, checked, x, y);
      ShortOrNot(buf[checked..], sectorNum + checked, alignment, y - checked);
      MaskDown(sectorNum + y, alignment);
      assert sectorNum + checked + (y - checked) == sectorNum + y;
    }
  }

  /** What is left of a hole starts with zeroes. */
  lemma RestStarts(buf: seq<Sector>, at: nat, x: nat, y: nat)
    requires HoleAt(buf, x, y) && x <= at < y
    ensures LeadingZeroes(buf[at..], y - at) && buf[at..][0] == ZERO
  {
    RangeOfRest(buf, at, 0, y - at);
    assert buf[at..][y - at] == buf[y];
  }

  /** A hole that ends the data is not small. */
  lemma StopsThere(buf: seq<Sector>, used: nat, p: nat, sectorNum: nat, minimum: nat, alignment: nat)
    requires alignment > 0 && IsPow2(alignment) && used < |buf| && p <= |buf| - used
    requires InHand(buf, used, used, sectorNum, Ignored(|buf|, minimum), alignment)
    requires FirstRun(buf[used..], sectorNum + used, alignment, false, p) && p >= Min(|buf|, minimum)
    ensures Swallows(buf, used, sectorNum, minimum, alignment)
  {
    var small := Ignored(|buf|, minimum);
    forall x: nat, y: nat | HoleAt(buf, x, y) && x <= used
      ensures y < used <==> Small(sectorNum + x, sectorNum + y, small, alignment)
    {
      if used <= y {
        HoleLeft(buf, used, p, sectorNum, alignment, x, y);
      }
    }
  }

  lemma HoleLeft(buf: seq<Sector>, used: nat, p: nat, sectorNum: nat, alignment: nat, x: nat, y: nat)
    requires alignment > 0 && IsPow2(alignment) && used < |buf| && p <= |buf| - used
    requires Aligned(sectorNum + used, alignment) && RoundedUpEnd(buf, used, alignment)
    requires FirstRun(buf[used..], sectorNum + used, alignment, false, p)
    requires HoleAt(buf, x, y) && x <= used <= y
    ensures Down(sectorNum + y, alignment) == Up(sectorNum + x, alignment) + p
  {
    var rest := buf[used..];
    HoleFrom(buf, used, sectorNum, alignment, x, y);
    assert rest[0] == buf[used];
    RestStarts(buf, used, x, y);
    assert p <= y - used;
    var i: nat :| HoleBefore(rest, i, p, sectorNum + used, alignment);
    assert i == y - used;
    MaskDown(sectorNum + y, alignment);
    assert sectorNum + used + i == sectorNum + y;
  }

  /** When nothing is left to look at, only zeroes come after the data. */
  lemma AtTheEnd(buf: seq<Sector>, used: nat, checked: nat, sectorNum: nat, minimum: nat, alignment: nat)
    requires alignment > 0 && InHand(buf, used, checked, sectorNum, Ignored(|buf|, minimum), alignment)
    ensures Holding(buf, used, checked, sectorNum, minimum, alignment)
  {
    if checked == |buf| {
      forall x: nat, y: nat | HoleAt(buf, x, y) ensures y < used {}
    }
  }

  /** What is in hand during the loop: data up to `used` with small holes in it, then up to `checked` one
      small hole, after which there is data or nothing. */
  ghost predicate Gathered(buf: seq<Sector>, used: nat, checked: nat, sectorNum: nat, small: nat, alignment: nat)
    requires alignment > 0
  {
    && 0 < used <= checked <= |buf| && checked - used <= small && ZeroRange(buf, used, checked)
    && Dense(buf, 0, used, small + 2 * (alignment - 1))
    && RoundedUpEnd(buf, used, alignment)
    && (used < checked < |buf| ==>
         buf[checked] != ZERO || StartsShort(buf[checked..], sectorNum + checked, alignment))
  }

  lemma FirstPiece(buf: seq<Sector>, used: nat, sectorNum: nat, minimum: nat, alignment: nat)
    requires buf != [] && used <= |buf| && alignment > 0 && FirstRun(buf, sectorNum, alignment, true, used)
    ensures IsPow2(alignment) ==> Holding(buf, used, used, sectorNum, minimum, alignment)
  {
    var small := Ignored(|buf|, minimum);
    if IsPow2(alignment) {
      forall x: nat, y: nat | HoleAt(buf, x, y) && y < used
        ensures Small(sectorNum + x, sectorNum + y, small, alignment)
      {
        UpProps(sectorNum + x, alignment);
      }
      AtTheEnd(buf, used, used, sectorNum, minimum, alignment);
    }
  }

  /** After a hole comes data, or nothing. */
  lemma NoHoleAfterHole(buf: seq<Sector>, used: nat, checked: nat, sectorNum: nat, small: nat, alignment: nat)
    requires alignment > 0 && Gathered(buf, used, checked, sectorNum, small, alignment) && checked < |buf|
    requires buf[checked] == ZERO && !StartsShort(buf[checked..], sectorNum + checked, alignment)
    ensures used == checked
  {}

  lemma HoleAfterData(buf: seq<Sector>, used: nat, p: nat, sectorNum: nat, alignment: nat)
    requires alignment > 0 && IsPow2(alignment) && used + p <= |buf| && 0 < p
    requires HolePiece(buf[used..], p, sectorNum + used, alignment)
    requires used + p < |buf| ==> Aligned(sectorNum + used + p, alignment)
    ensures ZeroRange(buf, used, used + p)
    ensures used + p < |buf| ==>
      buf[used + p] != ZERO || StartsShort(buf[used + p..], sectorNum + used + p, alignment)
  {
    var rest := buf[used..];
    RangeOfRest(buf, used, 0, p);
    if used + p < |buf| && buf[used + p] == ZERO {
      var i: nat :| HoleBefore(rest, i, p, sectorNum + used, alignment);
      NextStartsShort(buf, used, p, i, sectorNum, alignment);
    }
  }

  lemma RangeOfRest(buf: seq<Sector>, at: nat, lo: nat, hi: nat)
    requires at <= |buf| && lo <= hi <= |buf| - at
    ensures ZeroRange(buf[at..], lo, hi) <==> ZeroRange(buf, at + lo, at + hi)
  {
    var rest := buf[at..];
    forall k | lo <= k < hi ensures rest[k] == buf[at + k] {}
    if ZeroRange(rest, lo, hi) {
      forall k | at + lo <= k < at + hi ensures buf[k] == ZERO {
        assert rest[k - at] == ZERO;
      }
    }
  }

  lemma NextStartsShort(buf: seq<Sector>, used: nat, p: nat, i: nat, sectorNum: nat, alignment: nat)
    requires alignment > 0 && used + p < |buf| && buf[used + p] == ZERO
    requires HoleBefore(buf[used..], i, p, sectorNum + used, alignment)
    ensures StartsShort(buf[used + p..], sectorNum + used + p, alignment)
  {
    assert buf[used..][i] == buf[used + i] && buf[used..][p] == buf[used + p];
    RangeOfRest(buf, used, 0, i);
    assert ZeroRange(buf, used + p, used + i);
    RangeOfRest(buf, used + p, 0, i - p);
    assert buf[used + p..][i - p] == buf[used + i];
    assert LeadingZeroes(buf[used + p..], i - p);
  }

  lemma MoreData(buf: seq<Sector>, used: nat, checked: nat, p: nat, sectorNum: nat, small: nat, alignment: nat)
    requires alignment > 0 && Gathered(buf, used, checked, sectorNum, small, alignment)
    requires 0 < p && checked + p <= |buf| && DataPiece(buf[checked..], p, alignment)
    ensures Gathered(buf, checked + p, checked + p, sectorNum, small, alignment)
  {
    var used' := checked + p;
    forall x, y | 0 <= x <= y <= used' && ZeroRange(buf, x, y) ensures y - x <= small + 2 * (alignment - 1) {
      ZeroesAcross(buf, used, checked, p, sectorNum, small, alignment, x, y);
    }
    forall x | 0 <= x <= used' && ZeroRange(buf, x, used') ensures used' - x < alignment {
      PieceHasData(buf, checked, p, alignment, x);
    }
  }

  lemma PieceZeroes(buf: seq<Sector>, checked: nat, p: nat, alignment: nat, x: nat, y: nat)
    requires alignment > 0 && checked + p <= |buf| && DataPiece(buf[checked..], p, alignment)
    requires checked <= x <= y <= checked + p && ZeroRange(buf, x, y)
    ensures y - x < alignment
  {
    RangeOfRest(buf, checked, x - checked, y - checked);
    assert ZeroRange(buf[checked..], x - checked, y - checked);
  }

  lemma PieceHasData(buf: seq<Sector>, checked: nat, p: nat, alignment: nat, x: nat)
    requires alignment > 0 && checked + p <= |buf| && DataPiece(buf[checked..], p, alignment)
    requires x <= checked + p && ZeroRange(buf, x, checked + p)
    ensures checked < x && checked + p - x < alignment
  {
    RangeOfRest(buf, checked, 0, p);
    if checked < x {
      PieceZeroes(buf, checked, p, alignment, x, checked + p);
    }
  }

  /** A run of zeroes that is at most the end of one piece of data, a small hole and the start of the next. */
  lemma ZeroesAcross(buf: seq<Sector>, used: nat, checked: nat, p: nat, sectorNum: nat, small: nat, alignment: nat,
                     x: nat, y: nat)
    requires alignment > 0 && Gathered(buf, used, checked, sectorNum, small, alignment)
    requires 0 < p && checked + p <= |buf| && DataPiece(buf[checked..], p, alignment)
    requires x <= y <= checked + p && ZeroRange(buf, x, y)
    ensures y - x <= small + 2 * (alignment - 1)
  {
    if y > checked {
      var from := if x < checked then checked else x;
      assert ZeroRange(buf, from, y);
      PieceZeroes(buf, checked, p, alignment, from, y);
    }
    if x <= used && used < y {
      assert ZeroRange(buf, x, used);
    }
  }

  // ----- The conversion job -----

  datatype BlockStatus = Data | Zero | Backing

  /** What is fixed during the copy.  `src` are the source images, `initial` is what the target reads
      as before the copy, through its backing file if it has one; `targetBackingSectors` is negative
      when the length of that backing file is unknown. */
  datatype Config = Config(
    src: seq<seq<Sector>>,
    srcAlignment: seq<nat>,
    initial: seq<Sector>,
    minSparse: nat,
    alignment: nat,
    hasZeroInit: bool,
    compressed: bool,
    targetHasBacking: bool,
    targetBackingSectors: int,
    wrInOrder: bool,
    salvage: bool,
    clusterSectors: nat,
    bufSectors: nat)

  /** The sources one after the other. */
  function Flat(src: seq<seq<Sector>>): seq<Sector> {
    if src == [] then [] else src[0] + Flat(src[1..])
  }

  function Total(c: Config): nat {
    |Flat(c.src)|
  }

  /** What img_convert checks or sets up before the copy starts: a target that starts as zeroes has
      no backing file, past its backing file a target reads as zeroes, and a compressed target is
      written one cluster at a time. */
  ghost predicate Valid(c: Config) {
    && |c.srcAlignment| == |c.src|
    && (forall i :: 0 <= i < |c.src| ==> c.srcAlignment[i] > 0)
    && Total(c) <= |c.initial|
    && c.alignment > 0
    && c.bufSectors > 0
    && (c.compressed ==> c.clusterSectors == c.bufSectors)
    && (c.hasZeroInit ==> !c.targetHasBacking && IsZero(c.initial))
    && (c.targetBackingSectors >= 0 ==>
          c.targetHasBacking && forall k :: c.targetBackingSectors <= k < |c.initial| ==> c.initial[k] == ZERO)
  }

  /** Sectors lo..hi deserve the status: their data is zero, or what the target shows already. */
  predicate Deserves(c: Config, status: BlockStatus, lo: nat, hi: nat)
    requires hi <= Total(c) <= |c.initial|
  {
    match status
    case Data => true
    case Zero => forall k :: lo <= k < hi ==> Flat(c.src)[k] == ZERO
    case Backing => c.targetHasBacking && forall k :: lo <= k < hi ==> Flat(c.src)[k] == c.initial[k]
  }

  // ----- Finding the source of a sector -----

  /** The first sector of source `i`. */
  function Start(src: seq<seq<Sector>>, i: nat): nat
    requires i <= |src|
  {
    if i == 0 then 0 else Start(src, i - 1) + |src[i - 1]|
  }

  lemma {:induction false} StartShift(src: seq<seq<Sector>>, i: nat)
    requires 0 < i <= |src|
    ensures Start(src, i) == |src[0]| + Start(src[1..], i - 1)
  {
    if i > 1 {
      StartShift(src, i - 1);
    }
  }

  lemma {:induction false} FlatLength(src: seq<seq<Sector>>)
    ensures |Flat(src)| == Start(src, |src|)
  {
    if src != [] {
      FlatLength(src[1..]);
      StartShift(src, |src|);
    }
  }

  lemma {:induction false} FlatSlice(src: seq<seq<Sector>>, i: nat)
    requires i < |src|
    ensures Start(src, i) + |src[i]| <= |Flat(src)|
    ensures Flat(src)[Start(src, i)..Start(src, i) + |src[i]|] == src[i]
  {
    if i > 0 {
      FlatSlice(src[1..], i - 1);
      StartShift(src, i);
      var lo := Start(src[1..], i - 1);
      assert Flat(src)[|src[0]| + lo..|src[0]| + lo + |src[i]|] == Flat(src[1..])[lo..lo + |src[i]|];
    }
  }

  /** qemu-img.c:1701-1711 */
  method SelectPart(src: seq<seq<Sector>>, sectorNum: nat) returns (cur: nat, offset: nat)
    requires sectorNum < |Flat(src)|
    ensures cur < |src| && offset == Start(src, cur) <= sectorNum < offset + |src[cur]|
  {
    FlatLength(src);
    cur, offset := 0, 0;
    while cur < |src| && sectorNum - offset >= |src[cur]|
      invariant cur <= |src| && offset == Start(src, cur) <= sectorNum
    {
      offset := offset + |src[cur]|;
      cur := cur + 1;
    }
  }

  // ----- Sizing and classifying the next chunk -----

  datatype Answer = Failed | Run(zero: bool, data: bool, count: nat)

  /** What bdrv_block_status_above may answer for [at, at + n) of the concatenated sources, of which
      the selected source covers what is before `end`.  A run that is neither zero nor data is
      allocated nowhere above the base, so it reads as what the target's backing file shows. */
  predicate Honest(c: Config, at: nat, n: nat, end: nat, answer: Answer)
    requires at <= end <= Total(c) <= |c.initial|
  {
    match answer
    case Failed => true
    case Run(zero, data, count) =>
      && 0 < count <= n && at + count <= end
      && (zero ==> forall k :: at <= k < at + count ==> Flat(c.src)[k] == ZERO)
      && (!zero && !data && c.targetHasBacking ==> forall k :: at <= k < at + count ==> Flat(c.src)[k] == c.initial[k])
  }

  /** Any honest answer. */
  method BlockStatusAbove(c: Config, at: nat, n: nat, end: nat) returns (answer: Answer)
    requires n > 0 && at < end <= Total(c) <= |c.initial|
    ensures Honest(c, at, n, end, answer)
  {
    var zero: bool, data: bool, failed: bool := *, *, *;
    var count: nat :| 0 < count <= n && at + count <= end;
    answer := if failed then Failed else Run(zero, data, count);
    if !Honest(c, at, n, end, answer) {
      answer := Run(false, true, count);
    }
  }

  /** A chunk that one coroutine may take: it is not empty, within the image, deserves its status, fits
      the buffer if it has to be read, and a compressed target gets whole clusters. */
  ghost predicate ChunkOk(c: Config, sectorNum: nat, n: nat, status: BlockStatus)
    requires Valid(c)
  {
    && 0 < n && sectorNum + n <= Total(c)
    && Deserves(c, status, sectorNum, sectorNum + n)
    && (status.Data? || (c.minSparse == 0 && status.Zero?) ==> n <= c.bufSectors)
    && (c.compressed ==> Aligned(sectorNum + n, c.clusterSectors) || sectorNum + n == Total(c))
  }

  /** The cached answer: every sector in [sectorNum, next) deserves the status. */
  ghost predicate CacheOk(c: Config, sectorNum: nat, status: BlockStatus, next: nat)
    requires Valid(c)
  {
    next <= Total(c) && (sectorNum < next ==> Deserves(c, status, sectorNum, next))
  }

  class ImgConvertState {
    const c: Config
    var status: BlockStatus
    var nextStatus: nat        // sector_next_status

    constructor (c: Config)
      ensures this.c == c && nextStatus == 0
    {
      this.c, status, nextStatus := c, Data, 0;
    }

    /** qemu-img.c:1736-1797: asks for the status of the sectors from `sectorNum` on, on shorter and
        shorter ranges while that fails in salvage mode, and caches the answer. */
    method QueryStatus(sectorNum: nat, n0: nat, postBackingZero: bool) returns (n: int)
      requires Valid(c) && 0 < n0 && sectorNum + n0 <= Total(c)
      requires postBackingZero ==> 0 <= c.targetBackingSectors <= sectorNum
      modifies this
      ensures n == -1 || 0 < n <= n0
      ensures n > 0 ==> nextStatus == sectorNum + n && CacheOk(c, sectorNum, status, nextStatus)
      ensures n == -1 ==> status == old(status) && nextStatus == old(nextStatus) && !c.salvage
    {
      var cur, offset := SelectPart(c.src, sectorNum);
      FlatSlice(c.src, cur);
      var want := n0;
      var answer := BlockStatusAbove(c, sectorNum, want, offset + |c.src[cur]|);
      while answer.Failed?
        invariant 0 < want <= n0
        invariant Honest(c, sectorNum, want, offset + |c.src[cur]|, answer)
        invariant status == old(status) && nextStatus == old(nextStatus)
        decreases want, if answer.Failed? then 1 else 0
      {
        if !c.salvage {
          return -1;
        }
        if want == 1 {
          answer := Run(false, true, 1);
        } else {
          want := (want + 3) / 4;
          answer := BlockStatusAbove(c, sectorNum, want, offset + |c.src[cur]|);
        }
      }
      n := answer.count;
      var tail := (sectorNum - offset + n) % c.srcAlignment[cur];
      if n > tail {
        n := n - tail;
      }
      if answer.zero {
        status := if postBackingZero then Backing else Zero;
      } else if answer.data {
        status := Data;
      } else {
        status := if c.targetHasBacking then Backing else Data;
      }
      nextStatus := sectorNum + n;
    }

    /** qemu-img.c:1714-1818, and the cap for fully allocated targets at 2009-2011: the size of the
        next chunk, whose status is then in `status`, or -1. */
    method IterationSectors(sectorNum: nat) returns (n: int)
      requires Valid(c) && sectorNum < Total(c)
      requires CacheOk(c, sectorNum, status, nextStatus)
      requires c.compressed ==> Aligned(sectorNum, c.clusterSectors)
      modifies this
      ensures n > 0 ==> ChunkOk(c, sectorNum, n, status) && CacheOk(c, sectorNum + n, status, nextStatus)
      ensures n > 0 || n == -1
      ensures n == -1 ==> status == old(status) && nextStatus == old(nextStatus) && !c.salvage
    {
      n := Min(Total(c) - sectorNum, REQUEST_MAX_SECTORS);
      var postBackingZero := false;
      if c.targetBackingSectors >= 0 {
        if sectorNum >= c.targetBackingSectors {
          postBackingZero := true;
        } else if sectorNum + n > c.targetBackingSectors {
          n := c.targetBackingSectors - sectorNum;
        }
      }
      if nextStatus <= sectorNum {
        n := QueryStatus(sectorNum, n, postBackingZero);
        if n == -1 {
          return;
        }
      }
      n := Min(n, nextStatus - sectorNum);
      if status == Data {
        n := Min(n, c.bufSectors);
      }
      if c.compressed {
        n, status := WholeClusters(c, sectorNum, n, status);
      }
      if c.minSparse == 0 && status == Zero {
        n := Min(n, c.bufSectors);
        if c.compressed {
          MultipleAligned(1, c.clusterSectors);
          SumAligned(sectorNum, c.clusterSectors, c.clusterSectors);
        }
      }
    }
  }

  /** qemu-img.c:1803-1815: a compressed target is written in whole clusters; a cluster of which only part
      has the status is taken as data. */
  method WholeClusters(c: Config, sectorNum: nat, n: nat, status: BlockStatus) returns (n': nat, status': BlockStatus)
    requires Valid(c) && c.compressed && 0 < n && sectorNum + n <= Total(c) && Aligned(sectorNum, c.clusterSectors)
    ensures 0 < n' && sectorNum + n' <= Total(c)
    ensures Aligned(sectorNum + n', c.clusterSectors) || sectorNum + n' == Total(c)
    ensures if n < c.clusterSectors then status' == Data && n' <= c.clusterSectors else status' == status && n' <= n
  {
    n', status' := n, status;
    if n < c.clusterSectors {
      n' := Min(c.clusterSectors, Total(c) - sectorNum);
      status' := Data;
      MultipleAligned(1, c.clusterSectors);
      SumAligned(sectorNum, c.clusterSectors, c.clusterSectors);
    } else {
      DownProps(n, c.clusterSectors);
      SumAligned(sectorNum, Down(n, c.clusterSectors), c.clusterSectors);
      n' := Down(n, c.clusterSectors);
    }
  }

  // ----- Reading a chunk -----

  /** `buf` is what the sources hold from `sectorNum` on, except that sectors in `bad` were unreadable
      and became zeroes. */
  ghost predicate Loaded(c: Config, sectorNum: nat, buf: seq<Sector>, bad: set<nat>) {
    sectorNum + |buf| <= Total(c) &&
    forall k: nat :: k < |buf| ==>
      buf[k] == Flat(c.src)[sectorNum + k] || (buf[k] == ZERO && sectorNum + k in bad)
  }

  lemma LoadedAppend(c: Config, sectorNum: nat, buf: seq<Sector>, bad: set<nat>, more: seq<Sector>, bad': set<nat>)
    requires Loaded(c, sectorNum, buf, bad) && Loaded(c, sectorNum + |buf|, more, bad')
    ensures Loaded(c, sectorNum, buf + more, bad + bad')
  {
    forall k: nat | k < |buf + more|
      ensures (buf + more)[k] == Flat(c.src)[sectorNum + k] || ((buf + more)[k] == ZERO && sectorNum + k in bad + bad')
    {
      if k >= |buf| {
        assert (buf + more)[k] == more[k - |buf|];
        assert sectorNum + k == sectorNum + |buf| + (k - |buf|);
      }
    }
  }

  /** qemu-img.c:1820-1871: reads across source boundaries; in salvage mode a failed request is repeated
      sector by sector and unreadable sectors become zeroes. */
  method CoRead(c: Config, sectorNum: nat, nbSectors: nat) returns (ret: int, buf: seq<Sector>, ghost bad: set<nat>)
    requires sectorNum + nbSectors <= Total(c) && nbSectors <= c.bufSectors
    ensures ret == 0 || (ret == -1 && !c.salvage)
    ensures ret == 0 ==> |buf| == nbSectors && Loaded(c, sectorNum, buf, bad)
    ensures bad != {} ==> c.salvage
  {
    buf, bad := [], {};
    var singleReadUntil := 0;
    while |buf| < nbSectors
      invariant |buf| <= nbSectors && Loaded(c, sectorNum, buf, bad)
      invariant bad != {} ==> c.salvage
      decreases nbSectors - |buf|, if singleReadUntil > PartOffset(c.src, sectorNum + |buf|) then 0 else 1
    {
      var at := sectorNum + |buf|;
      var cur, partStart := SelectPart(c.src, at);
      FlatSlice(c.src, cur);
      PartOffsetIs(c.src, at, cur);
      var offset := at - partStart;
      var n := Min(nbSectors - |buf|, |c.src[cur]| - offset);
      if singleReadUntil > offset {
        n := 1;
      }
      var failed: bool := *;
      var data := c.src[cur][offset..offset + n];
      PartLoaded(c, cur, offset, n);
      if failed {
        if !c.salvage {
          return -1, buf, bad;
        }
        if n > 1 {
          singleReadUntil := offset + n;
          continue;
        }
        data := [ZERO];
        LoadedAppend(c, sectorNum, buf, bad, data, {at});
        bad := bad + {at};
      } else {
        LoadedAppend(c, sectorNum, buf, bad, data, {});
        assert bad + {} == bad;
      }
      buf := buf + data;
    }
    ret := 0;
  }

  /** The position of a sector within its source. */
  ghost function PartOffset(src: seq<seq<Sector>>, sectorNum: nat): nat {
    if src == [] then sectorNum
    else if sectorNum < |src[0]| then sectorNum
    else PartOffset(src[1..], sectorNum - |src[0]|)
  }

  lemma {:induction false} PartOffsetIs(src: seq<seq<Sector>>, sectorNum: nat, i: nat)
    requires i < |src| && Start(src, i) <= sectorNum < Start(src, i) + |src[i]|
    ensures PartOffset(src, sectorNum) == sectorNum - Start(src, i)
  {
    if i > 0 {
      StartShift(src, i);
      PartOffsetIs(src[1..], sectorNum - |src[0]|, i - 1);
    }
  }

  lemma PartLoaded(c: Config, i: nat, offset: nat, n: nat)
    requires i < |c.src| && offset + n <= |c.src[i]|
    ensures Loaded(c, Start(c.src, i) + offset, c.src[i][offset..offset + n], {})
  {
    FlatSlice(c.src, i);
    var lo := Start(c.src, i);
    var part := c.src[i][offset..offset + n];
    forall k: nat | k < |part| ensures part[k] == Flat(c.src)[lo + offset + k] {
      assert Flat(c.src)[lo..lo + |c.src[i]|][offset + k] == Flat(c.src)[lo + offset + k];
    }
  }

  // ----- Choosing a write request -----

  datatype Request = Skip | Write | WriteZeroes

  /** The request for the first `m` of `n` remaining sectors, whose data is in `data` if the status is
      Data: sectors are skipped only if the target shows the right thing already, zeroes are written
      only over a hole, and without -S 0 nothing is skipped. */
  ghost predicate RequestOk(c: Config, status: BlockStatus, data: seq<Sector>, n: nat, m: nat, request: Request) {
    && 0 < m <= n
    && (status.Data? ==> |data| == n)
    && var hole := status.Zero? || (status.Data? && IsZero(data[..m]));
       match request
       case Skip => (status.Backing? && c.targetHasBacking && m == n) || (hole && c.hasZeroInit)
       case Write => status.Data? && (c.compressed || c.minSparse == 0 ==> m == n)
       case WriteZeroes => hole && !c.hasZeroInit && (c.minSparse == 0 ==> status.Zero?)
  }

  /** qemu-img.c:1881-1920: one pass of the loop of convert_co_write. */
  method ChooseRequest(c: Config, status: BlockStatus, data: seq<Sector>, sectorNum: nat, n: nat)
    returns (m: nat, request: Request)
    requires Valid(c) && 0 < n
    requires status.Data? ==> |data| == n
    requires status.Backing? ==> c.targetHasBacking
    ensures RequestOk(c, status, data, n, m, request)
  {
    m := n;
    if status == Backing {
      return m, Skip;
    }
    if status == Data {
      var isData := c.minSparse == 0;
      if !isData && !c.compressed {
        isData, m := IsAllocatedSectorsMin(data, c.minSparse, sectorNum, c.alignment);
      } else if !isData {
        isData := !IsZero(data);
        assert data[..n] == data;
      }
      if isData {
        return m, Write;
      }
    }
    return m, if c.hasZeroInit then Skip else WriteZeroes;
  }
}
