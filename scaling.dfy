/**
 * Minimum, maximum and the linear rescaling that turns a word frequency into
 * a node size and an edge weight into a link thickness. JavaScript numbers are
 * modelled as exact reals.
 */
module Scaling {

  /** `Math.min(...s)` on a non-empty list. */
  function MinOf(s: seq<real>): (m: real)
    requires |s| > 0
    ensures m in s
    ensures forall i :: 0 <= i < |s| ==> m <= s[i]
  {
    if |s| == 1 then s[0]
    else
      var rest := MinOf(s[1..]);
      if s[0] <= rest then s[0] else rest
  }

  /** `Math.max(...s)` on a non-empty list. */
  function MaxOf(s: seq<real>): (m: real)
    requires |s| > 0
    ensures m in s
    ensures forall i :: 0 <= i < |s| ==> s[i] <= m
  {
    if |s| == 1 then s[0]
    else
      var rest := MaxOf(s[1..]);
      if s[0] >= rest then s[0] else rest
  }

  /**
   * The normalised position of `v` between `lo` and `hi`; when the range is
   * degenerate (`hi == lo`) the value is taken to be 1 instead of dividing by zero.
   */
  function Normalize(v: real, lo: real, hi: real): (n: real)
    ensures lo <= v <= hi ==> 0.0 <= n <= 1.0
    ensures lo == hi ==> n == 1.0
    ensures lo != hi && v == lo ==> n == 0.0
    ensures lo != hi && v == hi ==> n == 1.0
  {
    if hi == lo then 1.0 else (v - lo) / (hi - lo)
  }

  /** `base + Normalize(v, lo, hi) * span`: maps [lo, hi] onto [base, base + span]. */
  function Rescale(v: real, lo: real, hi: real, base: real, span: real): (r: real)
    requires span >= 0.0
    ensures lo <= v <= hi ==> base <= r <= base + span
    ensures lo == hi ==> r == base + span
    ensures lo != hi && v == lo ==> r == base
    ensures lo != hi && v == hi ==> r == base + span
  {
    var n := Normalize(v, lo, hi);
    ScaleFraction(n, span);
    base + n * span
  }

  /** A fraction in [0, 1] of a non-negative span stays within the span. */
  lemma ScaleFraction(n: real, span: real)
    requires span >= 0.0
    ensures 0.0 <= n <= 1.0 ==> 0.0 <= n * span <= span
  {
    if 0.0 <= n <= 1.0 {
      assert span - n * span == (1.0 - n) * span;
    }
  }

  /** On a proper range the rescaling is order-preserving, strictly so when the span is positive. */
  lemma RescaleMonotone(u: real, v: real, lo: real, hi: real, base: real, span: real)
    requires span >= 0.0 && lo < hi && u <= v
    ensures Rescale(u, lo, hi, base, span) <= Rescale(v, lo, hi, base, span)
    ensures span > 0.0 && u < v ==> Rescale(u, lo, hi, base, span) < Rescale(v, lo, hi, base, span)
  {
    var d := hi - lo;
    var q := (v - u) / d;
    assert Normalize(v, lo, hi) - Normalize(u, lo, hi) == q;
    assert q >= 0.0;
    assert Rescale(v, lo, hi, base, span) - Rescale(u, lo, hi, base, span) == q * span;
    assert u < v ==> q > 0.0;
  }

  /**
   * The rescaling is affine: for outputs `a, b, c, d` of inputs `u, v, x, y`,
   * the difference of two outputs is proportional to the difference of the
   * inputs, with one factor for the whole range.
   */
  lemma RescaleAffine(a: real, b: real, c: real, d: real, u: real, v: real, x: real, y: real,
                      lo: real, hi: real, base: real, span: real)
    requires span >= 0.0
    requires a == Rescale(u, lo, hi, base, span) && b == Rescale(v, lo, hi, base, span)
    requires c == Rescale(x, lo, hi, base, span) && d == Rescale(y, lo, hi, base, span)
    ensures (a - b) * (x - y) == (c - d) * (u - v)
  {
    if lo != hi {
      var k := span / (hi - lo);
      assert a - b == (u - v) * k;
      assert c - d == (x - y) * k;
    }
  }
}
