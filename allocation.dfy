/**
 * `PortfolioArchitect`: the HRP builder with its post-hoc weight constraints,
 * the mean-variance fallback, the cascade between them, and the field
 * `cluster_order` they set.
 *
 * The two Riskfolio solvers are parameters: each maps the request the strategy
 * tables build to what the library produced — it raised, it returned `None`, or
 * it returned a weights frame (a list of asset/weight rows, possibly empty).  The
 * HRP outcome also carries the result of probing `port.sort_order`, `None`
 * standing for a missing attribute, a `None` value or a raising probe alike.
 */
module Allocation {
  import opened Common
  import opened Numeric
  import opened Strategy
  import opened Constraints

  /** One row of a weights frame, or one entry of a weights dictionary. */
  datatype Row = Row(asset: string, weight: real)

  datatype SolverOutcome = Raised | ReturnedNone | Returned(rows: seq<Row>)

  datatype HrpOutcome = HrpOutcome(weights: SolverOutcome, sortOrder: Option<seq<string>>)

  /** Why a builder raised. */
  datatype AllocationError =
    | SolverRaised       // the library call itself raised
    | HrpEmpty           // "HRP returned empty weights"
    | MeanVarianceFailed // "Mean-Variance optimization failed"
    | ZeroTotal          // ZeroDivisionError: the weights add up to zero

  function Assets(rows: seq<Row>): (a: seq<string>)
    ensures |a| == |rows|
    ensures forall i :: 0 <= i < |rows| ==> a[i] == rows[i].asset
  {
    seq(|rows|, i requires 0 <= i < |rows| => rows[i].asset)
  }

  function Weights(rows: seq<Row>): (w: seq<real>)
    ensures |w| == |rows|
    ensures forall i :: 0 <= i < |rows| ==> w[i] == rows[i].weight
  {
    seq(|rows|, i requires 0 <= i < |rows| => rows[i].weight)
  }

  /** The same assets, in the same order, carrying new weights. */
  function WithWeights(rows: seq<Row>, w: seq<real>): (r: seq<Row>)
    requires |w| == |rows|
    ensures Assets(r) == Assets(rows) && Weights(r) == w
  {
    var r := seq(|rows|, i requires 0 <= i < |rows| => Row(rows[i].asset, w[i]));
    assert Assets(r) == Assets(rows);
    assert Weights(r) == w;
    r
  }

  // ---------------------------------------------------------------------------
  // Specifications of the two builders and the cascade
  // ---------------------------------------------------------------------------

  /** `_build_hrp` from the solver's answer on: the emptiness check, the
      constraint steps, normalisation, then the cluster order (the probed
      `sort_order`, else the architect's tickers). */
  function HrpResult(outcome: HrpOutcome, objective: string, forceMinWeight: bool, tickers: seq<string>)
    : Result<(seq<Row>, seq<string>), AllocationError>
  {
    match outcome.weights
    case Raised => Err(SolverRaised)
    case ReturnedNone => Err(HrpEmpty)
    case Returned(rows) =>
      if rows == [] then Err(HrpEmpty)
      else
        match PostProcess(Weights(rows), objective, forceMinWeight)
        case None => Err(ZeroTotal)
        case Some(w) => Ok((WithWeights(rows, w), outcome.sortOrder.GetOr(tickers)))
  }

  /** `_build_mean_variance` from the solver's answer on: the emptiness check
      and normalisation, without any constraint step. */
  function MeanVarianceResult(outcome: SolverOutcome): Result<seq<Row>, AllocationError>
  {
    match outcome
    case Raised => Err(SolverRaised)
    case ReturnedNone => Err(MeanVarianceFailed)
    case Returned(rows) =>
      if rows == [] then Err(MeanVarianceFailed)
      else
        match Normalize(Weights(rows))
        case None => Err(ZeroTotal)
        case Some(w) => Ok(WithWeights(rows, w))
  }

  /** `build_portfolio`: the weights it returns (or the error escaping it) and
      the value `cluster_order` holds afterwards, given its value before. */
  function Cascade(hrp: HrpOutcome, mv: SolverOutcome, objective: string, forceMinWeight: bool,
                   tickers: seq<string>, prior: Option<seq<string>>)
    : (Result<seq<Row>, AllocationError>, Option<seq<string>>)
  {
    match HrpResult(hrp, objective, forceMinWeight, tickers)
    case Ok((rows, order)) => (Ok(rows), Some(order))
    case Err(_) =>
      var m := MeanVarianceResult(mv);
      (m, if m.Ok? then Some(tickers) else prior)
  }

  /** `architect.cluster_order or list(weights.keys())`: `None` and the empty
      list are both falsy. */
  function DisplayOrder(clusterOrder: Option<seq<string>>, weights: seq<Row>): (order: seq<string>)
    ensures clusterOrder.Some? && clusterOrder.value != [] ==> order == clusterOrder.value
    ensures clusterOrder.None? || clusterOrder.value == [] ==> order == Assets(weights)
  {
    if clusterOrder.Some? && clusterOrder.value != [] then clusterOrder.value else Assets(weights)
  }

  // ---------------------------------------------------------------------------
  // The class
  // ---------------------------------------------------------------------------

  class PortfolioArchitect {
    const tickers: seq<string>
    const forceMinWeight: bool
    var clusterOrder: Option<seq<string>>

    constructor (tickers: seq<string>, forceMinWeight: bool)
      ensures this.tickers == tickers && this.forceMinWeight == forceMinWeight
      ensures clusterOrder == None
    {
      this.tickers := tickers;
      this.forceMinWeight := forceMinWeight;
      clusterOrder := None;
    }

    /** `_build_hrp`: asks the solver with the strategy's risk measure and
        linkage, then applies the constraints to an array of the weights in place. */
    method BuildHrp(objective: string, hrp: HrpRequest -> HrpOutcome)
      returns (r: Result<(seq<Row>, seq<string>), AllocationError>)
      ensures r == HrpResult(hrp(HrpRequestFor(objective)), objective, forceMinWeight, tickers)
    {
      var outcome := hrp(HrpRequestFor(objective));
      if !outcome.weights.Returned? || outcome.weights.rows == [] {
        r := if outcome.weights.Raised? then Err(SolverRaised) else Err(HrpEmpty);
        return;
      }
      var rows := outcome.weights.rows;
      var w := new real[|rows|](i requires 0 <= i < |rows| => rows[i].weight);
      assert w[..] == Weights(rows);
      EnforceMinWeight(w, forceMinWeight);
      CapMaxWeight(w, objective);
      var normalized := Normalize(w[..]);
      if normalized.None? {
        r := Err(ZeroTotal);
      } else {
        var order := if outcome.sortOrder.Some? then outcome.sortOrder.value else tickers;
        r := Ok((WithWeights(rows, normalized.value), order));
      }
    }

    /** `_build_mean_variance`: on success the cluster order becomes the tickers;
        when it raises, `cluster_order` is left as it was. */
    method BuildMeanVariance(objective: string, mv: MvRequest -> SolverOutcome)
      returns (r: Result<seq<Row>, AllocationError>)
      modifies this
      ensures r == MeanVarianceResult(mv(MvRequestFor(objective, forceMinWeight)))
      ensures clusterOrder == if r.Ok? then Some(tickers) else old(clusterOrder)
    {
      var outcome := mv(MvRequestFor(objective, forceMinWeight));
      if !outcome.Returned? || outcome.rows == [] {
        r := if outcome.Raised? then Err(SolverRaised) else Err(MeanVarianceFailed);
        return;
      }
      var normalized := Normalize(Weights(outcome.rows));
      if normalized.None? {
        r := Err(ZeroTotal);
        return;
      }
      r := Ok(WithWeights(outcome.rows, normalized.value));
      clusterOrder := Some(tickers);
    }

    /** `build_portfolio`: HRP first; any exception it raises sends the call
        to the mean-variance builder, whose own exceptions escape. */
    method BuildPortfolio(objective: string, hrp: HrpRequest -> HrpOutcome, mv: MvRequest -> SolverOutcome)
      returns (r: Result<seq<Row>, AllocationError>)
      modifies this
      ensures (r, clusterOrder) == Cascade(hrp(HrpRequestFor(objective)), mv(MvRequestFor(objective, forceMinWeight)),
                                           objective, forceMinWeight, tickers, old(clusterOrder))
    {
      var built := BuildHrp(objective, hrp);
      if built.Ok? {
        clusterOrder := Some(built.value.1);
        r := Ok(built.value.0);
      } else {
        r := BuildMeanVariance(objective, mv);
      }
    }
  }

  // ---------------------------------------------------------------------------
  // Properties
  // ---------------------------------------------------------------------------

  /** When HRP succeeds its weights are returned, and `cluster_order` becomes
      the dendrogram order, or the tickers when none could be read. */
  lemma CascadePrefersHrp(hrp: HrpOutcome, mv: SolverOutcome, objective: string, forceMinWeight: bool,
                          tickers: seq<string>, prior: Option<seq<string>>)
    requires HrpResult(hrp, objective, forceMinWeight, tickers).Ok?
    ensures var (r, order) := Cascade(hrp, mv, objective, forceMinWeight, tickers, prior);
      r == Ok(HrpResult(hrp, objective, forceMinWeight, tickers).value.0) &&
      order == Some(hrp.sortOrder.GetOr(tickers))
  {
  }

  /** When HRP raises, the result is the mean-variance one; `cluster_order`
      becomes the tickers if that succeeds and keeps its old value otherwise. */
  lemma CascadeFallsBack(hrp: HrpOutcome, mv: SolverOutcome, objective: string, forceMinWeight: bool,
                         tickers: seq<string>, prior: Option<seq<string>>)
    requires HrpResult(hrp, objective, forceMinWeight, tickers).Err?
    ensures var (r, order) := Cascade(hrp, mv, objective, forceMinWeight, tickers, prior);
      r == MeanVarianceResult(mv) &&
      (r.Ok? ==> order == Some(tickers)) &&
      (r.Err? ==> order == prior)
  {
  }

  /** The cascade fails exactly when both builders fail. */
  lemma CascadeFailsIff(hrp: HrpOutcome, mv: SolverOutcome, objective: string, forceMinWeight: bool,
                        tickers: seq<string>, prior: Option<seq<string>>)
    ensures Cascade(hrp, mv, objective, forceMinWeight, tickers, prior).0.Err? <==>
      HrpResult(hrp, objective, forceMinWeight, tickers).Err? && MeanVarianceResult(mv).Err?
  {
  }

  /** Whichever builder answers, the weights are the solver's assets, unchanged
      and in order, and (before rounding) they add up to one.  In particular a
      successful build is never empty, so the endpoint's "failed to converge"
      check is never reached after a success. */
  lemma CascadeWeightsAreDistribution(hrp: HrpOutcome, mv: SolverOutcome, objective: string, forceMinWeight: bool,
                                      tickers: seq<string>, prior: Option<seq<string>>)
    requires Cascade(hrp, mv, objective, forceMinWeight, tickers, prior).0.Ok?
    ensures var rows := Cascade(hrp, mv, objective, forceMinWeight, tickers, prior).0.value;
      rows != [] && Sum(Weights(rows)) == 1.0 &&
      ((HrpResult(hrp, objective, forceMinWeight, tickers).Ok? && Assets(rows) == Assets(hrp.weights.rows)) ||
       (HrpResult(hrp, objective, forceMinWeight, tickers).Err? && Assets(rows) == Assets(mv.rows)))
  {
    match HrpResult(hrp, objective, forceMinWeight, tickers)
    case Ok(_) =>
      var rows := hrp.weights.rows;
      assert PostProcess(Weights(rows), objective, forceMinWeight).Some?;
    case Err(_) =>
      assert Normalize(Weights(mv.rows)).Some?;
  }

  /** An HRP frame of non-negative weights with a positive total never makes
      HRP raise, and every final weight lies in [0, 1]. */
  lemma HrpSucceedsOnDistribution(outcome: HrpOutcome, objective: string, forceMinWeight: bool, tickers: seq<string>)
    requires outcome.weights.Returned? && outcome.weights.rows != []
    requires AllNonNegative(Weights(outcome.weights.rows)) && Sum(Weights(outcome.weights.rows)) > 0.0
    ensures HrpResult(outcome, objective, forceMinWeight, tickers).Ok?
    ensures var (rows, order) := HrpResult(outcome, objective, forceMinWeight, tickers).value;
      Assets(rows) == Assets(outcome.weights.rows) &&
      (forall i :: 0 <= i < |rows| ==> 0.0 <= rows[i].weight <= 1.0) &&
      order == outcome.sortOrder.GetOr(tickers)
  {
    PostProcessDistribution(Weights(outcome.weights.rows), objective, forceMinWeight);
  }

  /** With `force_min_weight`, an HRP frame that is a distribution over at most
      twenty assets ends with every weight at least 0.05, whatever the
      strategy: the single-pass cap never pushes a weight below the floor. */
  lemma HrpHonoursFloor(outcome: HrpOutcome, objective: string, tickers: seq<string>)
    requires outcome.weights.Returned? && outcome.weights.rows != [] && |outcome.weights.rows| <= 20
    requires AllNonNegative(Weights(outcome.weights.rows)) && Sum(Weights(outcome.weights.rows)) == 1.0
    ensures HrpResult(outcome, objective, true, tickers).Ok?
    ensures var rows := HrpResult(outcome, objective, true, tickers).value.0;
      forall i :: 0 <= i < |rows| ==> rows[i].weight >= MIN_WEIGHT
  {
    PostProcessHonoursFloor(Weights(outcome.weights.rows), objective);
  }

  /** The order shown to the front end is never empty once weights exist, and
      it is the architect's cluster order whenever that is a non-empty list. */
  lemma DisplayOrderNonEmpty(clusterOrder: Option<seq<string>>, weights: seq<Row>)
    requires weights != []
    ensures DisplayOrder(clusterOrder, weights) != []
  {
  }

  /** A dendrogram order that came back empty is replaced by the weight keys. */
  lemma EmptySortOrderShowsKeys(hrp: HrpOutcome, mv: SolverOutcome, objective: string, forceMinWeight: bool,
                                tickers: seq<string>, prior: Option<seq<string>>)
    requires HrpResult(hrp, objective, forceMinWeight, tickers).Ok?
    requires hrp.sortOrder == Some([])
    ensures var (r, order) := Cascade(hrp, mv, objective, forceMinWeight, tickers, prior);
      DisplayOrder(order, r.value) == Assets(hrp.weights.rows)
  {
  }
}
