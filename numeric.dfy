/** Exact sums over sequences of reals (Python's `sum` over floats, without rounding). */
module Numeric {

  /** The sum of `s`, accumulated from the left as a `for` loop does. */
  function Sum(s: seq<real>): real
  {
    if s == [] then 0.0 else Sum(s[..|s| - 1]) + s[|s| - 1]
  }

  /** Every element of `s` divided by `t` (numpy's `v / total`). */
  function Scaled(s: seq<real>, t: real): (r: seq<real>)
    requires t != 0.0
    ensures |r| == |s|
    ensures forall i :: 0 <= i < |s| ==> r[i] * t == s[i]
  {
    seq(|s|, i requires 0 <= i < |s| => s[i] / t)
  }

  /** A sequence of `n` copies of `v` (numpy's `np.ones(n) / n` and friends). */
  function Constant(n: nat, v: real): (r: seq<real>)
    ensures |r| == n
    ensures forall i :: 0 <= i < n ==> r[i] == v
  {
    seq(n, i => v)
  }

  predicate AllNonNegative(s: seq<real>)
  {
    forall i :: 0 <= i < |s| ==> s[i] >= 0.0
  }

  /** Dividing every element by `t` divides the sum by `t`. */
  lemma {:induction false} SumScaled(s: seq<real>, t: real)
    requires t != 0.0
    ensures Sum(Scaled(s, t)) == Sum(s) / t
  {
    if s != [] {
      var n := |s| - 1;
      assert Scaled(s, t)[..n] == Scaled(s[..n], t);
      SumScaled(s[..n], t);
      calc {
        Sum(Scaled(s, t));
        Sum(Scaled(s[..n], t)) + s[n] / t;
        Sum(s[..n]) / t + s[n] / t;
        (Sum(s[..n]) + s[n]) / t;
      }
    }
  }

  /** `n` copies of `v` add up to `n * v`. */
  lemma {:induction false} SumConstant(n: nat, v: real)
    ensures Sum(Constant(n, v)) == n as real * v
  {
    if n > 0 {
      assert Constant(n, v)[..n - 1] == Constant(n - 1, v);
      SumConstant(n - 1, v);
    }
  }

  /** A sum of non-negative terms is non-negative and bounds each of its terms. */
  lemma {:induction false} SumBoundsElements(s: seq<real>)
    requires AllNonNegative(s)
    ensures Sum(s) >= 0.0
    ensures forall i :: 0 <= i < |s| ==> s[i] <= Sum(s)
  {
    if s != [] {
      var n := |s| - 1;
      assert AllNonNegative(s[..n]) by {
        forall i | 0 <= i < n ensures s[..n][i] >= 0.0 {
          assert s[..n][i] == s[i];
        }
      }
      SumBoundsElements(s[..n]);
      assert Sum(s) == Sum(s[..n]) + s[n];
      assert s[n] >= 0.0;
      forall i | 0 <= i < |s| ensures s[i] <= Sum(s) {
        if i < n {
          assert s[..n][i] == s[i];
          assert s[i] <= Sum(s[..n]);
        }
      }
    }
  }

  /** What `x == y / t` tells about `x` when `t` is positive: it lies in [0, 1]
      when `0 <= y <= t`, and is at least `y` when `y >= 0` and `t <= 1`. */
  lemma QuotientBounds(x: real, t: real, y: real)
    requires t > 0.0 && x * t == y
    ensures 0.0 <= y <= t ==> 0.0 <= x <= 1.0
    ensures 0.0 <= y && t <= 1.0 ==> x >= y
  {
    if y >= 0.0 {
      assert x >= 0.0;
      if t <= 1.0 {
        FractionBounds(x, t);
      }
    }
  }

  /** A fraction in [0, 1] of a non-negative amount lies between 0 and that amount. */
  lemma FractionBounds(x: real, f: real)
    requires x >= 0.0 && 0.0 <= f <= 1.0
    ensures 0.0 <= x * f <= x
  {
    assert x - x * f == x * (1.0 - f);
    assert x * (1.0 - f) >= 0.0;
  }
}
