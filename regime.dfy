/**
 * The thresholds of `MarketRegime.get_status`.  The Mahalanobis score itself
 * (weekly returns, pseudo-inverse covariance) is computed by foreign numeric
 * code and is an input here; the score is reported unclamped.
 */
module Regime {

  const CALM_BELOW: real := 12.0
  const CHOPPY_BELOW: real := 25.0

  datatype Color = Green | Yellow | Red
  datatype Message = Calm | Choppy | Turbulent

  /** The dictionary `get_status` returns, before its score is rounded. */
  datatype Status = Status(score: real, color: Color, message: Message)

  /** How agitated a label is: Calm < Choppy < Turbulent. */
  function Severity(m: Message): nat
  {
    match m
    case Calm => 0
    case Choppy => 1
    case Turbulent => 2
  }

  function GetStatus(score: real): (st: Status)
    ensures st.score == score
    ensures st.message == Calm <==> score < CALM_BELOW
    ensures st.message == Choppy <==> CALM_BELOW <= score < CHOPPY_BELOW
    ensures st.message == Turbulent <==> CHOPPY_BELOW <= score
    ensures st.color == Green <==> st.message == Calm
    ensures st.color == Yellow <==> st.message == Choppy
    ensures st.color == Red <==> st.message == Turbulent
  {
    if score < CALM_BELOW then Status(score, Green, Calm)
    else if score < CHOPPY_BELOW then Status(score, Yellow, Choppy)
    else Status(score, Red, Turbulent)
  }

  /** A larger distance from the mean never yields a calmer label. */
  lemma GetStatusMonotone(a: real, b: real)
    requires a <= b
    ensures Severity(GetStatus(a).message) <= Severity(GetStatus(b).message)
  {
  }

  /** Without a clamp, arbitrarily large scores are reported as they are. */
  lemma ScoreIsNotClamped(score: real)
    requires score >= 1000.0
    ensures GetStatus(score) == Status(score, Red, Turbulent)
  {
  }
}
