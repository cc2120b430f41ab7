/**
 * The two hand-written metrics of `RiskEngine`: each asset's share of portfolio
 * risk and the diversification ratio.  Square roots are not computed: the
 * portfolio volatility `vol` is an input tied to the covariance matrix by
 * `vol * vol == wᵀ·Cov·w`; the individual volatilities `σᵢ` are inputs too, and
 * the bound on the ratio takes `Cov[i][j] <= σᵢ * σⱼ` as its assumption.
 * Weights and covariance rows are in the column order of the returns frame.
 */
module Risk {
  import opened Numeric

  /** Element-wise products `a[i] * b[i]`. */
  function Products(a: seq<real>, b: seq<real>): (p: seq<real>)
    requires |a| == |b|
    ensures |p| == |a|
    ensures forall i :: 0 <= i < |a| ==> p[i] == a[i] * b[i]
  {
    seq(|a|, i requires 0 <= i < |a| => a[i] * b[i])
  }

  /** `k * a` for a scalar `k`. */
  function Times(k: real, a: seq<real>): (r: seq<real>)
    ensures |r| == |a|
    ensures forall i :: 0 <= i < |a| ==> r[i] == k * a[i]
  {
    seq(|a|, i requires 0 <= i < |a| => k * a[i])
  }

  /** `np.dot` of two vectors. */
  function Dot(a: seq<real>, b: seq<real>): real
    requires |a| == |b|
  {
    Sum(Products(a, b))
  }

  predicate IsSquare(cov: seq<seq<real>>, n: nat)
  {
    |cov| == n && forall i :: 0 <= i < n ==> |cov[i]| == n
  }

  /** `np.dot(cov, w)`. */
  function MatVec(cov: seq<seq<real>>, w: seq<real>): (m: seq<real>)
    requires IsSquare(cov, |w|)
    ensures |m| == |w|
  {
    seq(|w|, i requires 0 <= i < |w| => Dot(cov[i], w))
  }

  lemma MatVecAt(cov: seq<seq<real>>, w: seq<real>, i: int)
    requires IsSquare(cov, |w|) && 0 <= i < |w|
    ensures MatVec(cov, w)[i] == Dot(cov[i], w)
  {
  }

  /** The portfolio variance `wᵀ·Cov·w`. */
  function Quad(w: seq<real>, cov: seq<seq<real>>): real
    requires IsSquare(cov, |w|)
  {
    Dot(w, MatVec(cov, w))
  }

  /** `np.ones(n) / n`; with no assets the array is empty and nothing is divided. */
  function EqualShares(n: nat): (s: seq<real>)
    ensures |s| == n
    ensures forall i :: 0 <= i < n ==> s[i] == 1.0 / n as real
    ensures n > 0 ==> Sum(s) == 1.0
  {
    if n == 0 then []
    else
      SumConstant(n, 1.0 / n as real);
      Constant(n, 1.0 / n as real)
  }

  /** The raw contributions `w * (Cov·w / vol)`. */
  function RawContributions(w: seq<real>, cov: seq<seq<real>>, vol: real): (raw: seq<real>)
    requires IsSquare(cov, |w|) && vol != 0.0
    ensures |raw| == |w|
  {
    Products(w, Scaled(MatVec(cov, w), vol))
  }

  /** `calculate_risk_contribution` before rounding, in column order: every
      asset gets `1 / n` when the volatility is zero; otherwise each share is the
      asset's part `w[i] * (Cov·w)[i]` of the variance `wᵀ·Cov·w`.  The shares
      of a non-empty portfolio add up to one. */
  function RiskContribution(w: seq<real>, cov: seq<seq<real>>, vol: real): (shares: seq<real>)
    requires IsSquare(cov, |w|)
    requires vol >= 0.0 && vol * vol == Quad(w, cov)
    ensures |shares| == |w|
    ensures |w| > 0 ==> Sum(shares) == 1.0
    ensures vol == 0.0 ==> forall i :: 0 <= i < |w| ==> shares[i] == 1.0 / |w| as real
    ensures vol > 0.0 ==> VarianceParts(shares, w, cov)
  {
    if vol == 0.0 then EqualShares(|w|) else VarianceShares(w, cov, vol)
  }

  /** Each share is the asset's part `w[i] * (Cov·w)[i]` of `wᵀ·Cov·w`. */
  predicate VarianceParts(shares: seq<real>, w: seq<real>, cov: seq<seq<real>>)
    requires IsSquare(cov, |w|) && |shares| == |w|
  {
    forall i :: 0 <= i < |w| ==> shares[i] * Quad(w, cov) == w[i] * MatVec(cov, w)[i]
  }

  /** The positive-volatility branch: the raw contributions over their total.
      The source falls back to equal shares when that total is not positive,
      but the total is `vol` itself (`RawContributionsTotal`), so that branch
      is never taken. */
  function VarianceShares(w: seq<real>, cov: seq<seq<real>>, vol: real): (shares: seq<real>)
    requires IsSquare(cov, |w|)
    requires vol > 0.0 && vol * vol == Quad(w, cov)
    ensures |shares| == |w|
    ensures Sum(shares) == 1.0
    ensures VarianceParts(shares, w, cov)
  {
    var raw := RawContributions(w, cov, vol);
    PositiveVolatilityShares(w, cov, vol);
    var total := Sum(raw);
    if total > 0.0 then Scaled(raw, total) else assert false; []
  }

  /** `calculate_diversification_ratio` before rounding. */
  function DiversificationRatio(w: seq<real>, sigmas: seq<real>, vol: real): (ratio: real)
    requires |sigmas| == |w|
    ensures !(vol > 0.0) ==> ratio == 1.0
    ensures vol > 0.0 ==> ratio * vol == Dot(w, sigmas)
  {
    if vol > 0.0 then Dot(w, sigmas) / vol else 1.0
  }

  // ---------------------------------------------------------------------------
  // Vector lemmas
  // ---------------------------------------------------------------------------

  lemma {:induction false} SumScaledProducts(a: seq<real>, b: seq<real>, t: real)
    requires |a| == |b| && t != 0.0
    ensures Sum(Products(a, Scaled(b, t))) == Dot(a, b) / t
  {
    var p := Products(a, Scaled(b, t));
    forall i | 0 <= i < |a| ensures p[i] == Scaled(Products(a, b), t)[i] {
      var x := Scaled(b, t)[i];
      assert x * t == b[i];
      assert (a[i] * x) * t == a[i] * b[i];
    }
    assert p == Scaled(Products(a, b), t);
    SumScaled(Products(a, b), t);
  }

  lemma {:induction false} DotSymmetric(a: seq<real>, b: seq<real>)
    requires |a| == |b|
    ensures Dot(a, b) == Dot(b, a)
  {
    assert Products(a, b) == Products(b, a);
  }

  /** Splitting off the last term of a dot product. */
  lemma DotLast(a: seq<real>, b: seq<real>)
    requires |a| == |b| && |a| > 0
    ensures Dot(a, b) == Dot(a[..|a| - 1], b[..|b| - 1]) + a[|a| - 1] * b[|b| - 1]
  {
    var n := |a| - 1;
    var p := Products(a, b);
    forall i | 0 <= i < n ensures p[..n][i] == Products(a[..n], b[..n])[i] {
      assert a[..n][i] == a[i] && b[..n][i] == b[i];
    }
    assert p[..n] == Products(a[..n], b[..n]);
  }

  /** Against a non-negative vector, a pointwise smaller vector has the smaller dot product. */
  lemma {:induction false} DotMonotone(a: seq<real>, b: seq<real>, c: seq<real>)
    requires |a| == |b| == |c|
    requires forall i :: 0 <= i < |a| ==> a[i] <= b[i] && c[i] >= 0.0
    ensures Dot(a, c) <= Dot(b, c)
  {
    if |a| > 0 {
      var n := |a| - 1;
      DotLast(a, c);
      DotLast(b, c);
      DotMonotone(a[..n], b[..n], c[..n]);
      assert a[n] * c[n] <= b[n] * c[n];
    }
  }

  /** `Dot(k·a, b) == k · Dot(a, b)`. */
  lemma {:induction false} DotScaleLeft(k: real, a: seq<real>, b: seq<real>)
    requires |a| == |b|
    ensures Dot(Times(k, a), b) == k * Dot(a, b)
  {
    var ka := Times(k, a);
    if |a| > 0 {
      var n := |a| - 1;
      DotLast(ka, b);
      DotLast(a, b);
      forall i | 0 <= i < n ensures ka[..n][i] == Times(k, a[..n])[i] {
        assert a[..n][i] == a[i];
      }
      assert ka[..n] == Times(k, a[..n]);
      DotScaleLeft(k, a[..n], b[..n]);
      ScaleLast(k, Dot(a[..n], b[..n]), a[n], b[n]);
    }
  }

  lemma ScaleLast(k: real, d: real, x: real, y: real)
    ensures k * d + (k * x) * y == k * (d + x * y)
  {
  }

  // ---------------------------------------------------------------------------
  // Risk contribution
  // ---------------------------------------------------------------------------

  /** The raw contributions add up to the portfolio volatility (Euler's
      decomposition of `vol`), so with a positive `vol` the `total > 0` branch is
      always the one taken. */
  lemma RawContributionsTotal(w: seq<real>, cov: seq<seq<real>>, vol: real)
    requires IsSquare(cov, |w|)
    requires vol > 0.0 && vol * vol == Quad(w, cov)
    ensures Sum(RawContributions(w, cov, vol)) == vol
  {
    SumScaledProducts(w, MatVec(cov, w), vol);
    assert Quad(w, cov) / vol == vol;
  }

  /** With positive volatility the raw contributions total `vol`, and their
      quotients by it add up to one and are the assets' parts of the variance. */
  lemma PositiveVolatilityShares(w: seq<real>, cov: seq<seq<real>>, vol: real)
    requires IsSquare(cov, |w|)
    requires vol > 0.0 && vol * vol == Quad(w, cov)
    ensures Sum(RawContributions(w, cov, vol)) == vol
    ensures Sum(Scaled(RawContributions(w, cov, vol), vol)) == 1.0
    ensures VarianceParts(Scaled(RawContributions(w, cov, vol), vol), w, cov)
  {
    RawContributionsTotal(w, cov, vol);
    SharesSumToOne(RawContributions(w, cov, vol), vol);
    SharesAreVarianceParts(w, cov, vol);
  }

  /** Each raw contribution over their positive total: the shares add up to one. */
  lemma SharesSumToOne(raw: seq<real>, total: real)
    requires total > 0.0 && Sum(raw) == total
    ensures Sum(Scaled(raw, total)) == 1.0
  {
    SumScaled(raw, total);
    SelfQuotient(Sum(raw), total);
  }

  lemma SelfQuotient(x: real, t: real)
    requires t != 0.0 && x == t
    ensures x / t == 1.0
  {
  }

  /** One share, unfolded: `s = (w·x)/vol` with `x = m/vol` is `w·m / vol²`. */
  lemma ShareOfVariance(wi: real, mi: real, vol: real, q: real, x: real, s: real)
    requires vol > 0.0 && vol * vol == q
    requires x * vol == mi && s * vol == wi * x
    ensures s * q == wi * mi
  {
    calc {
      s * q;
      (s * vol) * vol;
      (wi * x) * vol;
      wi * (x * vol);
      wi * mi;
    }
  }

  /** With positive volatility each raw contribution over `vol` is the asset's
      part of the portfolio variance, `w[i] * (Cov·w)[i] / wᵀ·Cov·w`. */
  lemma SharesAreVarianceParts(w: seq<real>, cov: seq<seq<real>>, vol: real)
    requires IsSquare(cov, |w|)
    requires vol > 0.0 && vol * vol == Quad(w, cov)
    ensures forall i :: 0 <= i < |w| ==> Scaled(RawContributions(w, cov, vol), vol)[i] * Quad(w, cov) == w[i] * MatVec(cov, w)[i]
  {
    forall i | 0 <= i < |w| ensures Scaled(RawContributions(w, cov, vol), vol)[i] * Quad(w, cov) == w[i] * MatVec(cov, w)[i] {
      ShareIsVariancePart(w, cov, vol, i);
    }
  }

  lemma ShareIsVariancePart(w: seq<real>, cov: seq<seq<real>>, vol: real, i: int)
    requires IsSquare(cov, |w|)
    requires vol > 0.0 && vol * vol == Quad(w, cov)
    requires 0 <= i < |w|
    ensures Scaled(RawContributions(w, cov, vol), vol)[i] * Quad(w, cov) == w[i] * MatVec(cov, w)[i]
  {
    var m := MatVec(cov, w);
    ShareTerms(w, m, vol, i);
    ShareOfVariance(w[i], m[i], vol, Quad(w, cov), Scaled(m, vol)[i], Scaled(Products(w, Scaled(m, vol)), vol)[i]);
  }

  /** The two divisions by `vol` behind one share, as products. */
  lemma ShareTerms(w: seq<real>, m: seq<real>, vol: real, i: int)
    requires |m| == |w| && vol != 0.0 && 0 <= i < |w|
    ensures Scaled(m, vol)[i] * vol == m[i]
    ensures Scaled(Products(w, Scaled(m, vol)), vol)[i] * vol == w[i] * Scaled(m, vol)[i]
  {
  }

  // ---------------------------------------------------------------------------
  // Diversification ratio
  // ---------------------------------------------------------------------------

  lemma DotNonNegative(a: seq<real>, b: seq<real>)
    requires |a| == |b| && AllNonNegative(a) && AllNonNegative(b)
    ensures Dot(a, b) >= 0.0
  {
    var p := Products(a, b);
    forall i | 0 <= i < |p| ensures p[i] >= 0.0 {
      assert p[i] == a[i] * b[i];
    }
    SumBoundsElements(p);
  }

  /** For non-negative reals, `x² <= y²` gives `x <= y`. */
  lemma SquareMonotone(x: real, y: real)
    requires x >= 0.0 && y >= 0.0 && x * x <= y * y
    ensures x <= y
  {
    if x > y {
      calc {
        x * x;
      >  { assert x * (x - y) > 0.0; }
        x * y;
      >= { assert (x - y) * y >= 0.0; }
        y * y;
      }
    }
  }

  /** One row of the covariance bound: `(Cov·w)[i] <= σᵢ · Σ σⱼwⱼ`. */
  lemma ProductCommutes(x: real, y: real, p: real)
    requires p == y * x
    ensures x * y == p
  {
  }

  lemma RowBelowScaledVols(row: seq<real>, sigma: real, sigmas: seq<real>, w: seq<real>)
    requires |row| == |sigmas| == |w|
    requires AllNonNegative(w)
    requires forall j :: 0 <= j < |w| ==> row[j] <= sigma * sigmas[j]
    ensures Dot(row, w) <= sigma * Dot(sigmas, w)
  {
    var bound := Times(sigma, sigmas);
    DotMonotone(row, bound, w);
    DotScaleLeft(sigma, sigmas, w);
  }

  /** `wᵀ·Cov·w <= (Σ wᵢσᵢ)²` for long-only weights, given the covariance bound
      `Cov[i][j] <= σᵢσⱼ` that every covariance matrix satisfies. */
  lemma QuadBelowWeightedVolSquared(w: seq<real>, cov: seq<seq<real>>, sigmas: seq<real>)
    requires IsSquare(cov, |w|) && |sigmas| == |w|
    requires AllNonNegative(w)
    requires forall i, j :: 0 <= i < |w| && 0 <= j < |w| ==> cov[i][j] <= sigmas[i] * sigmas[j]
    ensures Quad(w, cov) <= Dot(w, sigmas) * Dot(w, sigmas)
  {
    var d := Dot(sigmas, w);
    var m := MatVec(cov, w);
    var bound := Times(d, sigmas);
    MatVecBelowBound(w, cov, sigmas);
    calc {
      Quad(w, cov);
    ==
      Dot(w, m);
    == { DotSymmetric(w, m); }
      Dot(m, w);
    <= { DotMonotone(m, bound, w); }
      Dot(bound, w);
    == { DotScaleLeft(d, sigmas, w); }
      d * d;
    == { DotSymmetric(w, sigmas); }
      Dot(w, sigmas) * Dot(w, sigmas);
    }
  }

  lemma MatVecBelowBound(w: seq<real>, cov: seq<seq<real>>, sigmas: seq<real>)
    requires IsSquare(cov, |w|) && |sigmas| == |w|
    requires AllNonNegative(w)
    requires forall i, j :: 0 <= i < |w| && 0 <= j < |w| ==> cov[i][j] <= sigmas[i] * sigmas[j]
    ensures forall i :: 0 <= i < |w| ==> MatVec(cov, w)[i] <= Times(Dot(sigmas, w), sigmas)[i]
  {
    forall i | 0 <= i < |w| ensures MatVec(cov, w)[i] <= Times(Dot(sigmas, w), sigmas)[i] {
      MatVecEntryBelowBound(w, cov, sigmas, i);
    }
  }

  lemma MatVecEntryBelowBound(w: seq<real>, cov: seq<seq<real>>, sigmas: seq<real>, i: int)
    requires IsSquare(cov, |w|) && |sigmas| == |w| && 0 <= i < |w|
    requires AllNonNegative(w)
    requires forall j :: 0 <= j < |w| ==> cov[i][j] <= sigmas[i] * sigmas[j]
    ensures MatVec(cov, w)[i] <= Times(Dot(sigmas, w), sigmas)[i]
  {
    MatVecAt(cov, w, i);
    RowBelowScaledVols(cov[i], sigmas[i], sigmas, w);
    ProductCommutes(sigmas[i], Dot(sigmas, w), Times(Dot(sigmas, w), sigmas)[i]);
  }


  /** The ratio is at least one for long-only weights: a portfolio is never
      more volatile than the weighted sum of its assets' volatilities. */
  lemma DiversificationRatioAtLeastOne(w: seq<real>, cov: seq<seq<real>>, sigmas: seq<real>, vol: real)
    requires IsSquare(cov, |w|) && |sigmas| == |w|
    requires AllNonNegative(w) && AllNonNegative(sigmas)
    requires forall i, j :: 0 <= i < |w| && 0 <= j < |w| ==> cov[i][j] <= sigmas[i] * sigmas[j]
    requires vol >= 0.0 && vol * vol == Quad(w, cov)
    ensures DiversificationRatio(w, sigmas, vol) >= 1.0
  {
    if vol > 0.0 {
      QuadBelowWeightedVolSquared(w, cov, sigmas);
      var d := Dot(w, sigmas);
      DotNonNegative(w, sigmas);
      SquareMonotone(vol, d);
      QuotientBounds(DiversificationRatio(w, sigmas, vol), vol, d);
      assert DiversificationRatio(w, sigmas, vol) * vol == d;
    }
  }
}
