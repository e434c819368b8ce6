/** Integer helpers for the arithmetic of the tracker.

    Python's `int(a / n)` divides in floating point and then truncates toward
    zero, while Dafny's `/` on `int` floors for a positive divisor; the two
    differ for negative dividends, so the truncating division is spelled out. */
module Numeric {

  /** `int(a / n)` for a positive divisor: the quotient truncated toward zero. */
  function TruncDiv(a: int, n: int): (q: int)
    requires n > 0
    ensures 0 <= a ==> 0 <= q * n <= a < q * n + n
    ensures a < 0 ==> q * n - n < a <= q * n <= 0
  {
    if a >= 0 then FloorDiv(a, n); a / n
    else FloorDiv(-a, n); -((-a) / n)
  }

  /** Dafny's `/` on non-negative operands: the largest multiple of `n` not above `a`. */
  lemma FloorDiv(a: int, n: int)
    requires a >= 0 && n > 0
    ensures 0 <= (a / n) * n <= a < (a / n) * n + n
  {
    var q, r := a / n, a % n;
    assert a == q * n + r && 0 <= r < n;
  }

  /** `int(x)` for a float `x` (treated as an exact real): truncation toward zero. */
  function TruncReal(x: real): (r: int)
    ensures 0.0 <= x ==> 0 <= r && r as real <= x < r as real + 1.0
    ensures x < 0.0 ==> r <= 0 && r as real - 1.0 < x <= r as real
  {
    if x >= 0.0 then x.Floor else -((-x).Floor)
  }

  /** Sum of a sequence, accumulated left to right as the Python loops do. */
  function Sum(xs: seq<int>): int
  {
    if |xs| == 0 then 0 else Sum(xs[..|xs| - 1]) + xs[|xs| - 1]
  }

  /** Smallest element (Python's `min`). */
  function Min(xs: seq<int>): (m: int)
    requires |xs| > 0
    ensures forall i :: 0 <= i < |xs| ==> m <= xs[i]
    ensures exists i :: 0 <= i < |xs| && xs[i] == m
  {
    if |xs| == 1 then xs[0]
    else
      var rest := Min(xs[..|xs| - 1]);
      if xs[|xs| - 1] < rest then xs[|xs| - 1] else rest
  }

  /** Largest element (Python's `max`). */
  function Max(xs: seq<int>): (m: int)
    requires |xs| > 0
    ensures forall i :: 0 <= i < |xs| ==> xs[i] <= m
    ensures exists i :: 0 <= i < |xs| && xs[i] == m
  {
    if |xs| == 1 then xs[0]
    else
      var rest := Max(xs[..|xs| - 1]);
      if xs[|xs| - 1] > rest then xs[|xs| - 1] else rest
  }

  /** Appending one element adds it to the sum. */
  lemma SumSnoc(xs: seq<int>, x: int)
    ensures Sum(xs + [x]) == Sum(xs) + x
  {
    assert (xs + [x])[..|xs|] == xs;
  }

  /** A truncated quotient of a value lying in `[lo * n, hi * n]` lies in `[lo, hi]`. */
  lemma TruncDivBetween(a: int, n: int, lo: int, hi: int)
    requires n > 0
    requires lo * n <= a <= hi * n
    ensures lo <= TruncDiv(a, n) <= hi
  {
    QuotientBetween(a, n, TruncDiv(a, n), lo, hi);
  }

  /** Any `q` with `q * n` within `n` of `a` (on either side) is squeezed
      into `[lo, hi]` as `a` is into `[lo * n, hi * n]`. */
  lemma QuotientBetween(a: int, n: int, q: int, lo: int, hi: int)
    requires n > 0
    requires lo * n <= a <= hi * n
    requires q * n - n < a < q * n + n
    ensures lo <= q <= hi
  {
    var qn, hn := q * n, hi * n;
    if q < lo {
      assert (q + 1) * n == qn + n;
      MulMonotone(q + 1, lo, n);
      assert false;
    }
    if q > hi {
      assert (hi + 1) * n == hn + n;
      MulMonotone(hi + 1, q, n);
      assert false;
    }
  }

  /** Multiplying by a positive factor preserves order. */
  lemma MulMonotone(a: int, b: int, n: int)
    requires n > 0 && a <= b
    ensures a * n <= b * n
  {
  }

  /** Dividing an exact multiple gives the factor back. */
  lemma TruncDivExact(c: int, n: int)
    requires n > 0
    ensures TruncDiv(c * n, n) == c
  {
    TruncDivBetween(c * n, n, c, c);
  }

  /** Every element in `[lo, hi]` puts the sum in `[lo * |xs|, hi * |xs|]`. */
  lemma {:induction false} SumBetween(xs: seq<int>, lo: int, hi: int)
    requires forall i :: 0 <= i < |xs| ==> lo <= xs[i] <= hi
    ensures lo * |xs| <= Sum(xs) <= hi * |xs|
  {
    if |xs| > 0 {
      var init := xs[..|xs| - 1];
      SumBetween(init, lo, hi);
      assert lo * |xs| == lo * |init| + lo;
      assert hi * |xs| == hi * |init| + hi;
    }
  }

  /** A constant sequence sums to its length times the constant. */
  lemma {:induction false} SumConstant(xs: seq<int>, c: int)
    requires forall i :: 0 <= i < |xs| ==> xs[i] == c
    ensures Sum(xs) == c * |xs|
  {
    SumBetween(xs, c, c);
  }

  /** The truncated mean of a non-empty sequence lies between its minimum and maximum. */
  lemma MeanWithin(xs: seq<int>)
    requires |xs| > 0
    ensures Min(xs) <= TruncDiv(Sum(xs), |xs|) <= Max(xs)
  {
    SumBetween(xs, Min(xs), Max(xs));
    TruncDivBetween(Sum(xs), |xs|, Min(xs), Max(xs));
  }

  /** Truncation toward zero is monotone. */
  lemma TruncRealMonotone(x: real, y: real)
    requires x <= y
    ensures TruncReal(x) <= TruncReal(y)
  {
  }

  /** Truncating an integer-valued real gives the integer back. */
  lemma TruncRealOfInt(n: int)
    ensures TruncReal(n as real) == n
  {
  }

  /** Truncating `n / 2` computed in reals agrees with the integer truncating division. */
  lemma TruncRealHalf(n: int)
    ensures TruncReal(n as real / 2.0) == TruncDiv(n, 2)
  {
    var q := TruncDiv(n, 2);
    if n >= 0 {
      assert q as real <= n as real / 2.0 < q as real + 1.0;
    } else {
      assert q as real - 1.0 < n as real / 2.0 <= q as real;
    }
  }
}
