/**
 * Post-hoc weight-constraint enforcement of the HRP builder: the minimum-weight
 * step, the single-pass maximum-weight cap for the aggressive strategy, and the
 * final normalisation.
 *
 * The weight dictionary is modelled as an array of its values in key order; its
 * keys live beside it and are never touched.  Each step is specified by a
 * function on the values (`MinStep`, `CapStep`, `Normalize`); the in-place
 * methods are proved to compute exactly those functions, and the lemmas state
 * what the steps promise.  Arithmetic is exact (`real`), so rounding is absent.
 */
module Constraints {
  import opened Common
  import opened Numeric
  import opened Strategy

  // ---------------------------------------------------------------------------
  // Aggregates used by both steps
  // ---------------------------------------------------------------------------

  /** Some weight lies strictly below `bound`. */
  predicate HasBelow(s: seq<real>, bound: real)
  {
    exists i :: 0 <= i < |s| && s[i] < bound
  }

  /** Total shortfall of the weights lying below `floor`. */
  function Deficit(s: seq<real>, floor: real): (d: real)
    ensures d >= 0.0
  {
    if s == [] then 0.0
    else Deficit(s[..|s| - 1], floor) + (if s[|s| - 1] < floor then floor - s[|s| - 1] else 0.0)
  }

  /** Total amount by which the weights at or above `floor` exceed it. */
  function Surplus(s: seq<real>, floor: real): (r: real)
    ensures r >= 0.0
  {
    if s == [] then 0.0
    else Surplus(s[..|s| - 1], floor) + (if s[|s| - 1] >= floor then s[|s| - 1] - floor else 0.0)
  }

  /** Total amount by which the weights above `cap` exceed it. */
  function Excess(s: seq<real>, cap: real): (e: real)
    ensures e >= 0.0
  {
    if s == [] then 0.0
    else Excess(s[..|s| - 1], cap) + (if s[|s| - 1] > cap then s[|s| - 1] - cap else 0.0)
  }

  /** Sum of the weights lying strictly below `cap`. */
  function BelowTotal(s: seq<real>, cap: real): real
  {
    if s == [] then 0.0
    else BelowTotal(s[..|s| - 1], cap) + (if s[|s| - 1] < cap then s[|s| - 1] else 0.0)
  }

  // ---------------------------------------------------------------------------
  // Minimum-weight step
  // ---------------------------------------------------------------------------

  /** The share of its surplus that every asset at or above the floor gives up. */
  function ReductionFactor(deficit: real, surplus: real): real
  {
    if surplus > 0.0 then deficit / surplus else 0.0
  }

  /** Every weight below `floor` raised to it; every other weight cut by `factor`
      of its surplus over `floor`. */
  function Raised(s: seq<real>, floor: real, factor: real): (r: seq<real>)
    ensures |r| == |s|
  {
    seq(|s|, i requires 0 <= i < |s| => if s[i] < floor then floor else s[i] - (s[i] - floor) * factor)
  }

  /** The minimum step changes anything only when it is forced, some weight is
      below the floor and the surplus covers the deficit. */
  predicate MinStepApplies(s: seq<real>, forceMinWeight: bool)
  {
    forceMinWeight && HasBelow(s, MIN_WEIGHT) && Surplus(s, MIN_WEIGHT) >= Deficit(s, MIN_WEIGHT)
  }

  /** The weights after the minimum-weight block. */
  function MinStep(s: seq<real>, forceMinWeight: bool): (r: seq<real>)
    ensures |r| == |s|
  {
    if MinStepApplies(s, forceMinWeight)
    then Raised(s, MIN_WEIGHT, ReductionFactor(Deficit(s, MIN_WEIGHT), Surplus(s, MIN_WEIGHT)))
    else s
  }

  /** The minimum-weight block, in place. */
  method EnforceMinWeight(w: array<real>, forceMinWeight: bool)
    modifies w
    ensures w[..] == MinStep(old(w[..]), forceMinWeight)
  {
    if !forceMinWeight {
      return;
    }
    // `below_min` and `above_min` are read from the untouched dictionary
    var before := w[..];
    var anyBelow, deficit, surplus := TallyFloor(before);
    if anyBelow && surplus >= deficit {
      LiftToFloor(w);
      var factor := if surplus > 0.0 then deficit / surplus else 0.0;
      CutSurplus(w, before, factor);
    }
  }

  /** `below_min` is non-empty, and the `deficit` and `surplus` sums. */
  method TallyFloor(s: seq<real>) returns (anyBelow: bool, deficit: real, surplus: real)
    ensures anyBelow <==> HasBelow(s, MIN_WEIGHT)
    ensures deficit == Deficit(s, MIN_WEIGHT)
    ensures surplus == Surplus(s, MIN_WEIGHT)
  {
    anyBelow, deficit, surplus := false, 0.0, 0.0;
    for i := 0 to |s|
      invariant anyBelow <==> HasBelow(s[..i], MIN_WEIGHT)
      invariant deficit == Deficit(s[..i], MIN_WEIGHT)
      invariant surplus == Surplus(s[..i], MIN_WEIGHT)
    {
      assert s[..i + 1][..i] == s[..i];
      if s[i] < MIN_WEIGHT {
        assert s[..i + 1][i] == s[i];
        anyBelow, deficit := true, deficit + (MIN_WEIGHT - s[i]);
      } else {
        surplus := surplus + (s[i] - MIN_WEIGHT);
        if anyBelow {
          var j :| 0 <= j < i && s[..i][j] < MIN_WEIGHT;
          assert s[..i + 1][j] < MIN_WEIGHT;
        }
        if HasBelow(s[..i + 1], MIN_WEIGHT) {
          var j :| 0 <= j < i + 1 && s[..i + 1][j] < MIN_WEIGHT;
          assert s[..i][j] < MIN_WEIGHT;
        }
      }
    }
    assert s[..|s|] == s;
  }

  /** The weights with every one below `floor` set to it. */
  function Lifted(s: seq<real>, floor: real): (r: seq<real>)
    ensures |r| == |s|
  {
    seq(|s|, i requires 0 <= i < |s| => if s[i] < floor then floor else s[i])
  }

  /** `for k in below_min: weights_dict[k] = min_w`. */
  method LiftToFloor(w: array<real>)
    modifies w
    ensures w[..] == Lifted(old(w[..]), MIN_WEIGHT)
  {
    ghost var before := w[..];
    for i := 0 to w.Length
      invariant forall j :: 0 <= j < i ==> w[j] == Lifted(before, MIN_WEIGHT)[j]
      invariant forall j :: i <= j < w.Length ==> w[j] == before[j]
    {
      if w[i] < MIN_WEIGHT {
        w[i] := MIN_WEIGHT;
      }
    }
  }

  /** `for k in above_min: weights_dict[k] -= (weights_dict[k] - min_w) * reduction_factor`,
      where `above_min` was computed from `before`. */
  method CutSurplus(w: array<real>, before: seq<real>, factor: real)
    requires w[..] == Lifted(before, MIN_WEIGHT)
    modifies w
    ensures w[..] == Raised(before, MIN_WEIGHT, factor)
  {
    for i := 0 to w.Length
      invariant forall j :: 0 <= j < i ==> w[j] == Raised(before, MIN_WEIGHT, factor)[j]
      invariant forall j :: i <= j < w.Length ==> w[j] == Lifted(before, MIN_WEIGHT)[j]
    {
      if before[i] >= MIN_WEIGHT {
        w[i] := w[i] - (w[i] - MIN_WEIGHT) * factor;
      }
    }
  }

  // ---------------------------------------------------------------------------
  // Maximum-weight step (aggressive strategy only, one pass)
  // ---------------------------------------------------------------------------

  /** Every weight above `cap` lowered to it. */
  function Capped(s: seq<real>, cap: real): (r: seq<real>)
    ensures |r| == |s|
  {
    seq(|s|, i requires 0 <= i < |s| => if s[i] > cap then cap else s[i])
  }

  /** `excess` handed to the weights below `cap`, each in proportion to its share of `total`. */
  function Spread(s: seq<real>, cap: real, excess: real, total: real): (r: seq<real>)
    requires total != 0.0
    ensures |r| == |s|
  {
    seq(|s|, i requires 0 <= i < |s| => if s[i] < cap then s[i] + excess * (s[i] / total) else s[i])
  }

  /** The weights after the maximum-weight block. */
  function CapStep(s: seq<real>, objective: string): (r: seq<real>)
    ensures |r| == |s|
  {
    if objective != AGGRESSIVE_GROWTH || !(Excess(s, MAX_WEIGHT) > 0.0) then s
    else
      var c := Capped(s, MAX_WEIGHT);
      if HasBelow(c, MAX_WEIGHT) && BelowTotal(c, MAX_WEIGHT) > 0.0
      then Spread(c, MAX_WEIGHT, Excess(s, MAX_WEIGHT), BelowTotal(c, MAX_WEIGHT))
      else c
  }

  /** The maximum-weight block, in place. */
  method CapMaxWeight(w: array<real>, objective: string)
    modifies w
    ensures w[..] == CapStep(old(w[..]), objective)
  {
    if objective != AGGRESSIVE_GROWTH {
      return;
    }
    var excess := ExcessOf(w);
    if excess > 0.0 {
      LowerToCap(w);
      // `below_max` and `total_below` are read from the capped dictionary
      var anyBelow, totalBelow := BelowCapOf(w);
      if anyBelow && totalBelow > 0.0 {
        SpreadExcess(w, excess, totalBelow);
      }
    }
  }

  /** `sum(max(0, v - max_w) for v in weights_dict.values())`. */
  method ExcessOf(w: array<real>) returns (excess: real)
    ensures excess == Excess(w[..], MAX_WEIGHT)
  {
    excess := 0.0;
    for i := 0 to w.Length
      invariant excess == Excess(w[..i], MAX_WEIGHT)
    {
      assert w[..i + 1][..i] == w[..i];
      excess := excess + (if w[i] - MAX_WEIGHT > 0.0 then w[i] - MAX_WEIGHT else 0.0);
    }
    assert w[..w.Length] == w[..];
  }

  /** Every weight above the cap set to the cap. */
  method LowerToCap(w: array<real>)
    modifies w
    ensures w[..] == Capped(old(w[..]), MAX_WEIGHT)
  {
    for i := 0 to w.Length
      invariant forall j :: 0 <= j < i ==> w[j] == Capped(old(w[..]), MAX_WEIGHT)[j]
      invariant forall j :: i <= j < w.Length ==> w[j] == old(w[j])
    {
      if w[i] > MAX_WEIGHT {
        w[i] := MAX_WEIGHT;
      }
    }
  }

  /** Whether `below_max` is non-empty, and `sum(below_max.values())`. */
  method BelowCapOf(w: array<real>) returns (anyBelow: bool, totalBelow: real)
    ensures anyBelow <==> HasBelow(w[..], MAX_WEIGHT)
    ensures totalBelow == BelowTotal(w[..], MAX_WEIGHT)
  {
    anyBelow, totalBelow := false, 0.0;
    for i := 0 to w.Length
      invariant anyBelow <==> HasBelow(w[..i], MAX_WEIGHT)
      invariant totalBelow == BelowTotal(w[..i], MAX_WEIGHT)
    {
      assert w[..i + 1][..i] == w[..i];
      if w[i] < MAX_WEIGHT {
        assert w[..i + 1][i] == w[i];
        anyBelow, totalBelow := true, totalBelow + w[i];
      } else {
        if anyBelow {
          var j :| 0 <= j < i && w[..i][j] < MAX_WEIGHT;
          assert w[..i + 1][j] < MAX_WEIGHT;
        }
        if HasBelow(w[..i + 1], MAX_WEIGHT) {
          var j :| 0 <= j < i + 1 && w[..i + 1][j] < MAX_WEIGHT;
          assert w[..i][j] < MAX_WEIGHT;
        }
      }
    }
    assert w[..w.Length] == w[..];
  }

  /** `weights_dict[k] += excess * (weights_dict[k] / total_below)` for every key below the cap. */
  method SpreadExcess(w: array<real>, excess: real, totalBelow: real)
    requires totalBelow != 0.0
    modifies w
    ensures w[..] == Spread(old(w[..]), MAX_WEIGHT, excess, totalBelow)
  {
    for i := 0 to w.Length
      invariant forall j :: 0 <= j < i ==> w[j] == Spread(old(w[..]), MAX_WEIGHT, excess, totalBelow)[j]
      invariant forall j :: i <= j < w.Length ==> w[j] == old(w[j])
    {
      if w[i] < MAX_WEIGHT {
        w[i] := w[i] + excess * (w[i] / totalBelow);
      }
    }
  }

  // ---------------------------------------------------------------------------
  // Normalisation
  // ---------------------------------------------------------------------------

  /** Division of every weight by the total; `None` is the ZeroDivisionError that
      a zero total raises.  An empty frame divides nothing and gives an empty
      result. */
  function Normalize(s: seq<real>): (r: Option<seq<real>>)
    ensures r.None? <==> s != [] && Sum(s) == 0.0
    ensures r.Some? ==> |r.value| == |s|
    ensures r.Some? && s != [] ==> Sum(r.value) == 1.0
    ensures r.Some? ==> forall i :: 0 <= i < |s| ==> r.value[i] * Sum(s) == s[i]
  {
    var total := Sum(s);
    if s == [] then Some([])
    else if total == 0.0 then None
    else
      SumScaled(s, total);
      Some(Scaled(s, total))
  }

  /** The whole post-processing block of the HRP builder: minimum step, cap step,
      normalisation (before rounding). */
  function PostProcess(s: seq<real>, objective: string, forceMinWeight: bool): Option<seq<real>>
  {
    Normalize(CapStep(MinStep(s, forceMinWeight), objective))
  }

  // ---------------------------------------------------------------------------
  // Sum bookkeeping
  // ---------------------------------------------------------------------------

  /** Total cut taken from the weights at or above `floor`. */
  function Cuts(s: seq<real>, floor: real, factor: real): real
  {
    if s == [] then 0.0
    else Cuts(s[..|s| - 1], floor, factor) + (if s[|s| - 1] >= floor then (s[|s| - 1] - floor) * factor else 0.0)
  }

  /** Raising and cutting moves `Deficit` in and the cuts out. */
  lemma {:induction false} SumRaised(s: seq<real>, floor: real, factor: real)
    ensures Sum(Raised(s, floor, factor)) == Sum(s) + Deficit(s, floor) - Cuts(s, floor, factor)
  {
    if s != [] {
      var n := |s| - 1;
      SumRaisedStep(s, floor, factor);
      SumRaised(s[..n], floor, factor);
    } else {
      assert Raised(s, floor, factor) == [];
    }
  }

  /** Splitting off the last raised weight. */
  lemma SumRaisedStep(s: seq<real>, floor: real, factor: real)
    requires s != []
    ensures Sum(Raised(s, floor, factor))
         == Sum(Raised(s[..|s| - 1], floor, factor)) + Raised(s, floor, factor)[|s| - 1]
  {
    var n := |s| - 1;
    var r, r' := Raised(s, floor, factor), Raised(s[..n], floor, factor);
    forall i | 0 <= i < n ensures r[..n][i] == r'[i] {
      assert s[..n][i] == s[i];
    }
    assert r[..n] == r';
  }

  /** The cuts are `factor` times the surplus. */
  lemma {:induction false} CutsScaleSurplus(s: seq<real>, floor: real, factor: real)
    ensures Cuts(s, floor, factor) == factor * Surplus(s, floor)
  {
    if s != [] {
      var n := |s| - 1;
      CutsScaleSurplus(s[..n], floor, factor);
      var p' := Surplus(s[..n], floor);
      if s[n] >= floor {
        assert factor * (p' + (s[n] - floor)) == factor * p' + (s[n] - floor) * factor;
      }
    }
  }

  /** Surplus minus deficit is the amount by which the total exceeds `|s|` floors. */
  lemma {:induction false} SurplusMinusDeficit(s: seq<real>, floor: real)
    ensures Surplus(s, floor) - Deficit(s, floor) == Sum(s) - |s| as real * floor
  {
    if s != [] {
      SurplusMinusDeficit(s[..|s| - 1], floor);
    }
  }

  /** A weight below the floor makes the deficit positive. */
  lemma {:induction false} DeficitPositive(s: seq<real>, floor: real)
    requires HasBelow(s, floor)
    ensures Deficit(s, floor) > 0.0
  {
    var n := |s| - 1;
    if s[n] >= floor {
      var i :| 0 <= i < |s| && s[i] < floor;
      assert s[..n][i] == s[i];
      DeficitPositive(s[..n], floor);
    }
  }

  /** Capping removes exactly the excess from the total. */
  lemma {:induction false} SumCapped(s: seq<real>, cap: real)
    ensures Sum(Capped(s, cap)) == Sum(s) - Excess(s, cap)
  {
    if s != [] {
      var n := |s| - 1;
      assert Capped(s, cap)[..n] == Capped(s[..n], cap);
      SumCapped(s[..n], cap);
    }
  }

  /** Total gain handed to the weights below `cap`. */
  function Gains(s: seq<real>, cap: real, excess: real, total: real): real
    requires total != 0.0
  {
    if s == [] then 0.0
    else Gains(s[..|s| - 1], cap, excess, total) + (if s[|s| - 1] < cap then excess * (s[|s| - 1] / total) else 0.0)
  }

  /** Spreading adds the gains to the total. */
  lemma {:induction false} SumSpread(s: seq<real>, cap: real, excess: real, total: real)
    requires total != 0.0
    ensures Sum(Spread(s, cap, excess, total)) == Sum(s) + Gains(s, cap, excess, total)
  {
    if s != [] {
      var n := |s| - 1;
      var r, r' := Spread(s, cap, excess, total), Spread(s[..n], cap, excess, total);
      forall i | 0 <= i < n ensures r[i] == r'[i] {
        assert s[..n][i] == s[i];
      }
      assert r[..n] == r';
      SumSpread(s[..n], cap, excess, total);
    } else {
      assert Spread(s, cap, excess, total) == [];
    }
  }

  /** The gains are `excess` times the below-cap share of `total`. */
  lemma {:induction false} GainsShareExcess(s: seq<real>, cap: real, excess: real, total: real)
    requires total != 0.0
    ensures Gains(s, cap, excess, total) == excess * (BelowTotal(s, cap) / total)
  {
    if s != [] {
      var n := |s| - 1;
      GainsShareExcess(s[..n], cap, excess, total);
      var g, b := Gains(s[..n], cap, excess, total), BelowTotal(s[..n], cap);
      if s[n] < cap {
        assert Gains(s, cap, excess, total) == g + excess * (s[n] / total);
        assert BelowTotal(s, cap) == b + s[n];
        ShareStep(g, b, s[n], excess, total);
      } else {
        assert Gains(s, cap, excess, total) == g && BelowTotal(s, cap) == b;
      }
    }
  }

  /** One more below-cap weight adds its share of `excess`. */
  lemma ShareStep(g: real, b: real, v: real, excess: real, total: real)
    requires total != 0.0 && g == excess * (b / total)
    ensures g + excess * (v / total) == excess * ((b + v) / total)
  {
    assert (b + v) / total == b / total + v / total;
  }

  lemma TimesOne(x: real, t: real)
    requires t != 0.0
    ensures x * (t / t) == x
  {
    assert t / t == 1.0;
  }

  /** Spreading over the whole below-cap total adds exactly `excess`. */
  lemma SpreadAddsExcess(s: seq<real>, cap: real, excess: real)
    requires BelowTotal(s, cap) > 0.0
    ensures Sum(Spread(s, cap, excess, BelowTotal(s, cap))) == Sum(s) + excess
  {
    var t := BelowTotal(s, cap);
    SumSpread(s, cap, excess, t);
    GainsShareExcess(s, cap, excess, t);
    var g := Gains(s, cap, excess, t);
    assert g == excess * (t / t);
    TimesOne(excess, t);
  }

  /** The excess is positive exactly when some weight is above the cap. */
  lemma {:induction false} ExcessPositiveIff(s: seq<real>, cap: real)
    ensures Excess(s, cap) > 0.0 <==> exists i :: 0 <= i < |s| && s[i] > cap
  {
    if s != [] {
      var n := |s| - 1;
      ExcessPositiveIff(s[..n], cap);
      if Excess(s[..n], cap) > 0.0 {
        var i :| 0 <= i < n && s[..n][i] > cap;
        assert s[i] > cap;
      }
      if exists i :: 0 <= i < |s| && s[i] > cap {
        var i :| 0 <= i < |s| && s[i] > cap;
        if i < n { assert s[..n][i] > cap; }
      }
    }
  }

  /** Capping leaves the weights below the cap, and so their total, as they were. */
  lemma {:induction false} CappedKeepsBelow(s: seq<real>, cap: real)
    ensures BelowTotal(Capped(s, cap), cap) == BelowTotal(s, cap)
    ensures HasBelow(Capped(s, cap), cap) <==> HasBelow(s, cap)
  {
    if s != [] {
      var n := |s| - 1;
      assert Capped(s, cap)[..n] == Capped(s[..n], cap);
      CappedKeepsBelow(s[..n], cap);
    }
    if HasBelow(s, cap) {
      var i :| 0 <= i < |s| && s[i] < cap;
      assert Capped(s, cap)[i] < cap;
    }
    if HasBelow(Capped(s, cap), cap) {
      var i :| 0 <= i < |s| && Capped(s, cap)[i] < cap;
      assert s[i] < cap;
    }
  }

  /** A positive total of the non-negative weights below `bound` needs one of them. */
  lemma {:induction false} BelowTotalWitness(s: seq<real>, cap: real)
    requires BelowTotal(s, cap) > 0.0
    ensures HasBelow(s, cap)
  {
    var n := |s| - 1;
    if !(s[n] < cap) {
      BelowTotalWitness(s[..n], cap);
      var i :| 0 <= i < n && s[..n][i] < cap;
      assert s[i] < cap;
    }
  }

  // ---------------------------------------------------------------------------
  // What the minimum step promises
  // ---------------------------------------------------------------------------

  /** When the step applies, every weight that was below the floor ends exactly on
      it, and every other weight is cut but stays at or above the floor, because
      the reduction factor is at most one. */
  lemma MinStepSuccess(s: seq<real>)
    requires MinStepApplies(s, true)
    ensures var r := MinStep(s, true);
      && (forall i :: 0 <= i < |s| && s[i] < MIN_WEIGHT ==> r[i] == MIN_WEIGHT)
      && (forall i :: 0 <= i < |s| && s[i] >= MIN_WEIGHT ==> MIN_WEIGHT <= r[i] <= s[i])
  {
    var d, p := Deficit(s, MIN_WEIGHT), Surplus(s, MIN_WEIGHT);
    DeficitPositive(s, MIN_WEIGHT);
    var f := ReductionFactor(d, p);
    ReductionFactorBounds(d, p);
    var r := Raised(s, MIN_WEIGHT, f);
    assert MinStep(s, true) == r;
    forall i | 0 <= i < |s| && s[i] >= MIN_WEIGHT
      ensures MIN_WEIGHT <= r[i] <= s[i]
    {
      CutKeepsFloor(s[i], MIN_WEIGHT, f);
    }
  }

  /** With a positive deficit covered by the surplus, the reduction factor is a
      fraction that turns the surplus into exactly the deficit. */
  lemma ReductionFactorBounds(d: real, p: real)
    requires 0.0 < d <= p
    ensures 0.0 <= ReductionFactor(d, p) <= 1.0
    ensures ReductionFactor(d, p) * p == d
  {
    var f := d / p;
    assert f * p == d;
    QuotientBounds(f, p, d);
  }

  /** Giving up a fraction in [0, 1] of the surplus over `floor` stays between
      `floor` and the original weight. */
  lemma CutKeepsFloor(v: real, floor: real, f: real)
    requires v >= floor && 0.0 <= f <= 1.0
    ensures floor <= v - (v - floor) * f <= v
  {
    var x := v - floor;
    FractionBounds(x, f);
    CutBounds(v, floor, x * f);
  }

  lemma CutBounds(v: real, floor: real, c: real)
    requires 0.0 <= c <= v - floor
    ensures floor <= v - c <= v
  {
  }

  /** The step never changes the total: the cuts add up to the deficit. */
  lemma MinStepConserves(s: seq<real>, forceMinWeight: bool)
    ensures Sum(MinStep(s, forceMinWeight)) == Sum(s)
  {
    if MinStepApplies(s, forceMinWeight) {
      var d, p := Deficit(s, MIN_WEIGHT), Surplus(s, MIN_WEIGHT);
      DeficitPositive(s, MIN_WEIGHT);
      var f := ReductionFactor(d, p);
      ReductionFactorBounds(d, p);
      assert MinStep(s, forceMinWeight) == Raised(s, MIN_WEIGHT, f);
      SumRaised(s, MIN_WEIGHT, f);
      CutsScaleSurplus(s, MIN_WEIGHT, f);
    }
  }

  /** The step changes some weight exactly when it is forced, some weight is below
      the floor and the surplus covers the deficit; otherwise it is the identity. */
  lemma MinStepChangesIff(s: seq<real>, forceMinWeight: bool)
    ensures MinStep(s, forceMinWeight) != s <==> MinStepApplies(s, forceMinWeight)
  {
    if MinStepApplies(s, forceMinWeight) {
      var i :| 0 <= i < |s| && s[i] < MIN_WEIGHT;
      assert MinStep(s, forceMinWeight)[i] == MIN_WEIGHT != s[i];
    }
  }

  /** With a total of one and at most twenty assets the surplus always covers the
      deficit, so a forced step lifts every weight to the floor. */
  lemma MinStepFeasible(s: seq<real>)
    requires Sum(s) == 1.0 && |s| <= 20
    ensures forall i :: 0 <= i < |s| ==> MinStep(s, true)[i] >= MIN_WEIGHT
  {
    SurplusMinusDeficit(s, MIN_WEIGHT);
    if MinStepApplies(s, true) {
      MinStepSuccess(s);
    }
  }

  // ---------------------------------------------------------------------------
  // What the cap step promises
  // ---------------------------------------------------------------------------

  /** For the aggressive strategy every weight above the cap ends exactly on it, a
      weight on the cap stays there, only weights below the cap can gain, and a
      non-negative weight below the cap does not lose. */
  lemma CapStepBounds(s: seq<real>)
    ensures var r := CapStep(s, AGGRESSIVE_GROWTH);
      && (forall i :: 0 <= i < |s| && s[i] >= MAX_WEIGHT ==> r[i] == MAX_WEIGHT)
      && (forall i :: 0 <= i < |s| && r[i] > s[i] ==> s[i] < MAX_WEIGHT)
      && (forall i :: 0 <= i < |s| && 0.0 <= s[i] < MAX_WEIGHT ==> r[i] >= s[i])
  {
    var r := CapStep(s, AGGRESSIVE_GROWTH);
    ExcessPositiveIff(s, MAX_WEIGHT);
    if Excess(s, MAX_WEIGHT) > 0.0 {
      var c := Capped(s, MAX_WEIGHT);
      var t := BelowTotal(c, MAX_WEIGHT);
      if HasBelow(c, MAX_WEIGHT) && t > 0.0 {
        forall i | 0 <= i < |s| && 0.0 <= s[i] < MAX_WEIGHT ensures r[i] >= s[i] {
          assert r[i] == s[i] + Excess(s, MAX_WEIGHT) * (s[i] / t);
          assert s[i] / t >= 0.0;
        }
      }
    }
  }

  /** The cap step keeps the total whenever the weights below the cap have a
      positive total, and loses exactly the excess otherwise. */
  lemma CapStepTotal(s: seq<real>)
    ensures BelowTotal(s, MAX_WEIGHT) > 0.0 ==> Sum(CapStep(s, AGGRESSIVE_GROWTH)) == Sum(s)
    ensures BelowTotal(s, MAX_WEIGHT) <= 0.0 ==> Sum(CapStep(s, AGGRESSIVE_GROWTH)) == Sum(s) - Excess(s, MAX_WEIGHT)
  {
    var e := Excess(s, MAX_WEIGHT);
    if e > 0.0 {
      var c := Capped(s, MAX_WEIGHT);
      SumCapped(s, MAX_WEIGHT);
      CappedKeepsBelow(s, MAX_WEIGHT);
      var t := BelowTotal(c, MAX_WEIGHT);
      if t > 0.0 {
        BelowTotalWitness(s, MAX_WEIGHT);
        assert CapStep(s, AGGRESSIVE_GROWTH) == Spread(c, MAX_WEIGHT, e, t);
        SpreadAddsExcess(c, MAX_WEIGHT, e);
      } else {
        assert CapStep(s, AGGRESSIVE_GROWTH) == c;
      }
    }
  }

  /** The cap step is skipped entirely for the other strategies. */
  lemma CapStepSkipped(s: seq<real>, objective: string)
    requires objective != AGGRESSIVE_GROWTH
    ensures CapStep(s, objective) == s
  {
  }

  /** A single pass does not enforce the cap: three assets 0.6 / 0.3 / 0.1 (a
      feasible case, three caps exceed one) leave the second asset at 0.4875. */
  lemma CapStepSinglePass()
    ensures CapStep([0.6, 0.3, 0.1], AGGRESSIVE_GROWTH) == [0.35, 0.4875, 0.1625]
    ensures PostProcess([0.6, 0.3, 0.1], AGGRESSIVE_GROWTH, false) == Some([0.35, 0.4875, 0.1625])
    ensures 0.4875 > MAX_WEIGHT
  {
    var s := [0.6, 0.3, 0.1];
    assert s[..2] == [0.6, 0.3] && s[..2][..1] == [0.6] && [0.6][..0] == [];
    assert Excess([0.6], MAX_WEIGHT) == 0.25;
    assert Excess(s, MAX_WEIGHT) == 0.25;
    var c := Capped(s, MAX_WEIGHT);
    assert c == [0.35, 0.3, 0.1];
    assert c[..2] == [0.35, 0.3] && c[..2][..1] == [0.35] && [0.35][..0] == [];
    assert BelowTotal([0.35], MAX_WEIGHT) == 0.0;
    assert BelowTotal([0.35, 0.3], MAX_WEIGHT) == 0.3;
    assert BelowTotal(c, MAX_WEIGHT) == 0.4;
    assert c[1] < MAX_WEIGHT;
    var r := Spread(c, MAX_WEIGHT, 0.25, 0.4);
    assert r == [0.35, 0.4875, 0.1625];
    assert r[..2] == [0.35, 0.4875] && r[..2][..1] == [0.35] && [0.35][..0] == [];
    assert Sum([0.35]) == 0.35;
    assert Sum([0.35, 0.4875]) == 0.8375;
    assert Sum(r) == 1.0;
    assert Scaled(r, 1.0) == r;
  }

  // ---------------------------------------------------------------------------
  // What normalisation and the whole block promise
  // ---------------------------------------------------------------------------

  /** Normalising non-negative weights with a positive total gives weights in [0, 1]. */
  lemma NormalizeBounds(s: seq<real>)
    requires AllNonNegative(s) && Sum(s) > 0.0
    ensures Normalize(s).Some?
    ensures forall i :: 0 <= i < |s| ==> 0.0 <= Normalize(s).value[i] <= 1.0
  {
    SumBoundsElements(s);
    ScaledBounds(s, Sum(s));
  }

  lemma ScaledBounds(s: seq<real>, t: real)
    requires t > 0.0
    requires forall i :: 0 <= i < |s| ==> 0.0 <= s[i] <= t
    ensures forall i :: 0 <= i < |s| ==> 0.0 <= Scaled(s, t)[i] <= 1.0
  {
    forall i | 0 <= i < |s| ensures 0.0 <= Scaled(s, t)[i] <= 1.0 {
      QuotientBounds(Scaled(s, t)[i], t, s[i]);
    }
  }

  /** Both steps keep non-negative weights non-negative and a positive total positive. */
  lemma StepsKeepDistribution(s: seq<real>, objective: string, forceMinWeight: bool)
    requires AllNonNegative(s) && Sum(s) > 0.0
    ensures AllNonNegative(CapStep(MinStep(s, forceMinWeight), objective))
    ensures Sum(CapStep(MinStep(s, forceMinWeight), objective)) > 0.0
  {
    var m := MinStep(s, forceMinWeight);
    MinStepConserves(s, forceMinWeight);
    if MinStepApplies(s, forceMinWeight) {
      MinStepSuccess(s);
    }
    assert AllNonNegative(m);
    if objective == AGGRESSIVE_GROWTH {
      var r := CapStep(m, objective);
      CapStepBounds(m);
      assert AllNonNegative(r);
      CapStepTotal(m);
      if BelowTotal(m, MAX_WEIGHT) <= 0.0 && Excess(m, MAX_WEIGHT) > 0.0 {
        ExcessPositiveIff(m, MAX_WEIGHT);
        var i :| 0 <= i < |m| && m[i] > MAX_WEIGHT;
        SumBoundsElements(r);
        assert r[i] == MAX_WEIGHT;
      }
    }
  }

  /** Non-negative solver weights with a positive total come out of the block as
      weights in [0, 1] summing to one, one per input weight. */
  lemma PostProcessDistribution(s: seq<real>, objective: string, forceMinWeight: bool)
    requires AllNonNegative(s) && Sum(s) > 0.0
    ensures PostProcess(s, objective, forceMinWeight).Some?
    ensures var r := PostProcess(s, objective, forceMinWeight).value;
      |r| == |s| && Sum(r) == 1.0 && forall i :: 0 <= i < |r| ==> 0.0 <= r[i] <= 1.0
  {
    StepsKeepDistribution(s, objective, forceMinWeight);
    NormalizeBounds(CapStep(MinStep(s, forceMinWeight), objective));
  }

  /** The cap step keeps every weight at or above the floor, and never raises the total. */
  lemma StepsKeepFloor(m: seq<real>, objective: string)
    requires forall i :: 0 <= i < |m| ==> m[i] >= MIN_WEIGHT
    ensures forall i :: 0 <= i < |m| ==> CapStep(m, objective)[i] >= MIN_WEIGHT
    ensures Sum(CapStep(m, objective)) <= Sum(m)
  {
    if objective == AGGRESSIVE_GROWTH {
      CapStepBounds(m);
      CapStepTotal(m);
    }
  }

  /** With a forced floor, solver weights that are non-negative and sum to one, and
      at most twenty assets, every final weight is at least 0.05 whatever the
      strategy. */
  lemma PostProcessHonoursFloor(s: seq<real>, objective: string)
    requires AllNonNegative(s) && Sum(s) == 1.0 && |s| <= 20
    ensures PostProcess(s, objective, true).Some?
    ensures forall i :: 0 <= i < |s| ==> PostProcess(s, objective, true).value[i] >= MIN_WEIGHT
  {
    var m := MinStep(s, true);
    MinStepFeasible(s);
    MinStepConserves(s, true);
    StepsKeepFloor(m, objective);
    StepsKeepDistribution(s, objective, true);
    NormalizeLifts(CapStep(m, objective));
  }

  /** Normalising non-negative weights whose total lies in (0, 1] never lowers one. */
  lemma NormalizeLifts(c: seq<real>)
    requires AllNonNegative(c) && 0.0 < Sum(c) <= 1.0
    ensures Normalize(c).Some?
    ensures forall i :: 0 <= i < |c| ==> Normalize(c).value[i] >= c[i]
  {
    var t := Sum(c);
    var r := Normalize(c).value;
    forall i | 0 <= i < |c| ensures r[i] >= c[i] {
      ShareAtLeastWeight(r[i], t, c[i]);
    }
  }

  /** Dividing a non-negative weight by a total in (0, 1] does not lower it. */
  lemma ShareAtLeastWeight(x: real, t: real, y: real)
    requires 0.0 < t <= 1.0 && y >= 0.0 && x * t == y
    ensures x >= y
  {
    QuotientBounds(x, t, y);
  }
}
