/**
 * The strategy tables of `PortfolioArchitect`: which risk measure, linkage and
 * optimisation objective each strategy name selects, and the per-asset weight
 * bounds handed to the mean-variance solver.  Strategy names are plain strings,
 * as in the request body; an unknown name falls back to each table's default.
 */
module Strategy {

  const SAFETY_FIRST: string := "safety_first"
  const SMART_BALANCE: string := "smart_balance"
  const AGGRESSIVE_GROWTH: string := "aggressive_growth"

  /** The floor applied when `force_min_weight` is set, and the aggressive cap. */
  const MIN_WEIGHT: real := 0.05
  const MAX_WEIGHT: real := 0.35

  /** The annual risk-free rate handed to both solvers. */
  const RISK_FREE_RATE: real := 0.04

  /** Riskfolio's `rm` codes: 'MV' (variance) and 'CVaR'. */
  datatype RiskMeasure = Variance | CVaR

  /** Agglomerative linkage of the clustering step. */
  datatype Linkage = Ward | Single

  /** Riskfolio's `obj` codes for the classic mean-variance model. */
  datatype MvObjective = MinRisk | Sharpe | MaxRet

  /** What the HRP solver is asked for (model 'HRP', Pearson codependence, leaf ordering). */
  datatype HrpRequest = HrpRequest(rm: RiskMeasure, linkage: Linkage, riskFree: real)

  /** What the mean-variance solver is asked for: box bounds, risk measure, objective. */
  datatype MvRequest = MvRequest(lower: real, upper: real, rm: RiskMeasure, obj: MvObjective, riskFree: real)

  predicate IsKnownObjective(objective: string)
  {
    objective == SAFETY_FIRST || objective == SMART_BALANCE || objective == AGGRESSIVE_GROWTH
  }

  /** `rm_map` of the HRP builder, default 'MV'. */
  function HrpRiskMeasure(objective: string): (rm: RiskMeasure)
    ensures rm == CVaR <==> objective == SAFETY_FIRST
  {
    if objective == SAFETY_FIRST then CVaR
    else if objective == SMART_BALANCE then Variance
    else if objective == AGGRESSIVE_GROWTH then Variance
    else Variance
  }

  /** `linkage_map` of the HRP builder, default 'ward'. */
  function HrpLinkage(objective: string): (linkage: Linkage)
    ensures linkage == Single <==> objective == AGGRESSIVE_GROWTH
  {
    if objective == SAFETY_FIRST then Ward
    else if objective == SMART_BALANCE then Ward
    else if objective == AGGRESSIVE_GROWTH then Single
    else Ward
  }

  /** `rm_map` of the mean-variance builder: every entry and the default are 'MV'. */
  function MvRiskMeasure(objective: string): (rm: RiskMeasure)
    ensures rm == Variance
  {
    if objective == SAFETY_FIRST then Variance
    else if objective == SMART_BALANCE then Variance
    else if objective == AGGRESSIVE_GROWTH then Variance
    else Variance
  }

  /** `obj_map` of the mean-variance builder, default 'Sharpe'. */
  function MvObjectiveFor(objective: string): (obj: MvObjective)
    ensures obj == MinRisk <==> objective == SAFETY_FIRST
    ensures obj == MaxRet <==> objective == AGGRESSIVE_GROWTH
    ensures obj == Sharpe <==> !(objective == SAFETY_FIRST || objective == AGGRESSIVE_GROWTH)
  {
    if objective == SAFETY_FIRST then MinRisk
    else if objective == SMART_BALANCE then Sharpe
    else if objective == AGGRESSIVE_GROWTH then MaxRet
    else Sharpe
  }

  /** `min_w` of the mean-variance builder. */
  function LowerBound(forceMinWeight: bool): (lower: real)
    ensures lower == MIN_WEIGHT <==> forceMinWeight
    ensures !forceMinWeight ==> lower == 0.0
  {
    if forceMinWeight then MIN_WEIGHT else 0.0
  }

  /** `max_w` of the mean-variance builder. */
  function UpperBound(objective: string): (upper: real)
    ensures upper == MAX_WEIGHT <==> objective == AGGRESSIVE_GROWTH
    ensures objective != AGGRESSIVE_GROWTH ==> upper == 1.0
  {
    if objective == AGGRESSIVE_GROWTH then MAX_WEIGHT else 1.0
  }

  function HrpRequestFor(objective: string): (req: HrpRequest)
    ensures req.rm == HrpRiskMeasure(objective) && req.linkage == HrpLinkage(objective)
    ensures req.riskFree == RISK_FREE_RATE
  {
    HrpRequest(HrpRiskMeasure(objective), HrpLinkage(objective), RISK_FREE_RATE)
  }

  function MvRequestFor(objective: string, forceMinWeight: bool): (req: MvRequest)
    ensures req.lower == LowerBound(forceMinWeight) && req.upper == UpperBound(objective)
    ensures req.rm == Variance && req.obj == MvObjectiveFor(objective)
    ensures req.riskFree == RISK_FREE_RATE
  {
    MvRequest(LowerBound(forceMinWeight), UpperBound(objective), MvRiskMeasure(objective),
              MvObjectiveFor(objective), RISK_FREE_RATE)
  }

  /** An unrecognised strategy name is treated as variance / Ward linkage / Sharpe. */
  lemma UnknownObjectiveDefaults(objective: string)
    requires !IsKnownObjective(objective)
    ensures HrpRequestFor(objective) == HrpRequest(Variance, Ward, RISK_FREE_RATE)
    ensures MvRequestFor(objective, false) == MvRequest(0.0, 1.0, Variance, Sharpe, RISK_FREE_RATE)
    ensures MvRequestFor(objective, true) == MvRequest(MIN_WEIGHT, 1.0, Variance, Sharpe, RISK_FREE_RATE)
  {
  }
}
