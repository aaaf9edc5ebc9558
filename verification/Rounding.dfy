/**
 Rounding a quotient to the nearest integer, ties to the even one, as Python's `round` does.
 */
module Rounding {
  import opened Modular

  function RoundHalfEven(n: int, d: int): int
    requires d > 0
  {
    var q, r := n / d, n % d;
    if 2 * r < d || (2 * r == d && q % 2 == 0) then q else q + 1
  }

  /** `v` is the integer nearest to `n / d`, and of two nearest ones the even one. */
  predicate IsNearest(n: int, d: int, v: int) {
    var e := d * v - n;
    -d < 2 * e < d || ((2 * e == d || 2 * e == -d) && v % 2 == 0)
  }

  lemma QuotientBounds(n: int, d: int)
    requires d > 0
    ensures n == d * (n / d) + n % d && 0 <= n % d < d
    ensures d * (n / d + 1) == d * (n / d) + d
  {
  }

  lemma RoundedIsNearest(n: int, d: int)
    requires d > 0
    ensures IsNearest(n, d, RoundHalfEven(n, d))
  {
    QuotientBounds(n, d);
  }

  lemma FarApart(d: int, v: int, w: int)
    requires d > 0 && v < w
    ensures d * v + d <= d * w
    ensures v + 1 < w ==> d * v + 2 * d <= d * w
  {
    var k := w - v;
    assert d * w == d * v + k * d;
    MulAtLeast(k, d);
    if k > 1 {
      MulAtLeast(k - 1, d);
      assert k * d == (k - 1) * d + d;
    }
  }

  /** There is only one such integer. */
  lemma NearestIsUnique(n: int, d: int, v: int, w: int)
    requires d > 0 && IsNearest(n, d, v) && IsNearest(n, d, w)
    ensures v == w
  {
    if v < w {
      FarApart(d, v, w);
    } else if w < v {
      FarApart(d, w, v);
    }
  }

  lemma RoundIffNearest(n: int, d: int, v: int)
    requires d > 0
    ensures v == RoundHalfEven(n, d) <==> IsNearest(n, d, v)
  {
    RoundedIsNearest(n, d);
    if IsNearest(n, d, v) {
      NearestIsUnique(n, d, v, RoundHalfEven(n, d));
    }
  }
}
