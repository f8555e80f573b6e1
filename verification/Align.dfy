/** Alignment arithmetic: QEMU_ALIGN_DOWN, QEMU_ALIGN_UP and multiples of a run-time modulus. */
module Align {

  function Down(x: nat, m: nat): nat
    requires m > 0
  {
    x / m * m
  }

  function Up(x: nat, m: nat): nat
    requires m > 0
  {
    Down(x + m - 1, m)
  }

  predicate Aligned(x: nat, m: nat)
    requires m > 0
  {
    x % m == 0
  }

  lemma {:induction false} Gap(a: nat, b: nat, m: nat)
    requires a < b
    ensures a * m + m <= b * m
    decreases b - a
  {
    NextMultiple(b - 1, m);
    if a < b - 1 {
      Gap(a, b - 1, m);
    }
  }

  lemma NextMultiple(q: nat, m: nat)
    ensures (q + 1) * m == q * m + m
  {
  }

  lemma QuotientUnique(q: nat, r: nat, d: nat, e: nat, m: nat)
    requires q * m + r == d * m + e && r < m && e < m
    ensures q == d && r == e
  {
    if q < d {
      Gap(q, d, m);
    } else if d < q {
      Gap(d, q, m);
    }
  }

  lemma DivUnique(x: nat, m: nat, q: nat, r: nat)
    requires m > 0 && x == q * m + r && r < m
    ensures x / m == q && x % m == r
  {
    QuotientUnique(q, r, x / m, x % m, m);
  }

  lemma MultipleAligned(q: nat, m: nat)
    requires m > 0
    ensures Aligned(q * m, m) && q * m / m == q
  {
    DivUnique(q * m, m, q, 0);
  }

  lemma SumAligned(x: nat, y: nat, m: nat)
    requires m > 0 && Aligned(x, m) && Aligned(y, m)
    ensures Aligned(x + y, m)
  {
    assert x + y == (x / m + y / m) * m;
    MultipleAligned(x / m + y / m, m);
  }

  lemma DivOrder(x: nat, y: nat, m: nat)
    requires m > 0 && x <= y
    ensures x / m <= y / m
  {
    if x / m > y / m {
      Gap(y / m, x / m, m);
    }
  }

  /** Between two neighbouring multiples there is no multiple. */
  lemma NoMultipleBetween(x: nat, y: nat, m: nat)
    requires m > 0 && Aligned(x, m) && x < y < x + m
    ensures !Aligned(y, m)
  {
    DivUnique(y, m, x / m, y - x);
  }

  lemma DownProps(x: nat, m: nat)
    requires m > 0
    ensures Down(x, m) <= x < Down(x, m) + m
    ensures Aligned(Down(x, m), m)
    ensures Aligned(x, m) ==> Down(x, m) == x
  {
    MultipleAligned(x / m, m);
  }

  lemma UpProps(x: nat, m: nat)
    requires m > 0
    ensures x <= Up(x, m) < x + m
    ensures Aligned(Up(x, m), m)
    ensures Aligned(x, m) ==> Up(x, m) == x
  {
    DownProps(x + m - 1, m);
    if Aligned(x, m) {
      DivUnique(x + m - 1, m, x / m, m - 1);
    }
  }

  /** All positions of one aligned block round down to the block's start. */
  lemma SameBlock(x: nat, y: nat, m: nat)
    requires m > 0 && Aligned(x, m) && x <= y < x + m
    ensures Down(y, m) == x
  {
    DivUnique(y, m, x / m, y - x);
  }

  lemma AlignedBelow(lo: nat, x: nat, m: nat)
    requires m > 0 && Aligned(lo, m) && lo <= x
    ensures lo <= Down(x, m)
  {
    DivOrder(lo, x, m);
    if lo / m < x / m {
      Gap(lo / m, x / m, m);
    }
  }

  /** An aligned range that holds a position holds the whole block of it. */
  lemma WholeBlock(lo: nat, hi: nat, i: nat, j: nat, m: nat)
    requires m > 0 && Aligned(lo, m) && Aligned(hi, m) && lo <= i < hi && Down(i, m) == Down(j, m)
    ensures lo <= j < hi
  {
    AlignedBelow(lo, i, m);
    DownProps(i, m);
    DownProps(j, m);
    if hi <= j {
      AlignedBelow(hi, j, m);
    }
  }

  /** A multiple of a multiple is a multiple. */
  lemma DivisorAligned(x: nat, g: nat, m: nat)
    requires m > 0 && g > 0 && Aligned(g, m) && Aligned(x, g)
    ensures Aligned(x, m)
  {
    var q, d := x / g, g / m;
    assert x == q * g && g == d * m;
    Associate(q, d, m);
    MultipleAligned(q * d, m);
  }

  lemma Associate(q: nat, d: nat, m: nat)
    ensures q * (d * m) == q * d * m
  {
  }

  /** Blocks of a divisor lie within blocks of the multiple. */
  lemma SmallerBlocks(i: nat, j: nat, g: nat, m: nat)
    requires m > 0 && g > 0 && Aligned(g, m) && Down(i, m) == Down(j, m)
    ensures Down(i, g) == Down(j, g)
  {
    var b := Down(i, g);
    DownProps(i, g);
    DivisorAligned(b, g, m);
    SumAligned(b, g, m);
    WholeBlock(b, b + g, i, j, m);
    SameBlock(b, j, g);
  }

  /** Rounding up stays in the block of the last position. */
  lemma UpBlock(x: nat, k: nat, m: nat)
    requires m > 0 && 0 < x <= k < Up(x, m)
    ensures Down(k, m) == Down(x - 1, m)
  {
    var b := Down(x - 1, m);
    DownProps(x - 1, m);
    DivUnique(x - 1 + m, m, (x - 1) / m + 1, (x - 1) % m);
    assert Up(x, m) == b + m;
    SameBlock(b, k, m);
  }

  lemma DropRemainder(x: nat, m: nat)
    requires m > 0
    ensures x % m <= x && Aligned(x - x % m, m) && Aligned(x - x % m + m, m)
  {
    var q := x / m;
    assert x == q * m + x % m;
    MultipleAligned(q, m);
    assert (q + 1) * m == q * m + m;
    MultipleAligned(q + 1, m);
  }

  lemma DownRemainder(x: nat, m: nat)
    requires m > 0
    ensures Down(x, m) == x - x % m
  {
  }

  /** The multiple that lies less than `m` above `x`. */
  lemma UpIs(x: nat, y: nat, m: nat)
    requires m > 0 && Aligned(y, m) && x <= y < x + m
    ensures Up(x, m) == y
  {
    SameBlock(y, x + m - 1, m);
  }

  lemma HalfRemainder(x: nat, m: nat)
    requires m > 0
    ensures x % (2 * m) == x % 2 + 2 * (x / 2 % m)
  {
    var h := x / 2;
    var q, r := h / m, h % m;
    assert h == q * m + r;
    Twice(q, m);
    DivUnique(x, 2 * m, q, x % 2 + 2 * r);
  }

  lemma Twice(q: nat, m: nat)
    ensures q * (2 * m) == 2 * (q * m)
  {
  }
}
