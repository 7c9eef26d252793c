/** Result states, results and metrics (check/result.go). */
module Results {
  import opened Clock

  datatype ResultState = StateOk | StateWarn | StateCrit | StateUnknown {

    /** True if this state takes the place of z. */
    predicate Overrides(z: ResultState) {
      match this
      case StateOk => z == StateUnknown
      case StateWarn => z == StateUnknown || z == StateOk
      case StateCrit => z == StateUnknown || z == StateOk || z == StateWarn
      case StateUnknown => false
    }

    /** The order UNKNOWN < OK < WARN < CRIT. */
    function Rank(): nat {
      match this
      case StateUnknown => 0
      case StateOk => 1
      case StateWarn => 2
      case StateCrit => 3
    }
  }

  datatype MetricType = Counter | Gauge

  datatype ResultMetric = ResultMetric(name: string, value: string, kind: MetricType)

  datatype Result = Result(state: ResultState, reasonCode: string, metrics: seq<ResultMetric>, time: Time)

  function MakeUnknownResult(reasonCode: string, now: Time): Result {
    Result(StateUnknown, reasonCode, [], now)
  }

  /** Overrides is exactly "is worse than", so folding with it computes a maximum. */
  lemma OverridesIsWorse(s: ResultState, z: ResultState)
    ensures s.Overrides(z) <==> z.Rank() < s.Rank()
    ensures s.Rank() == z.Rank() <==> s == z
    ensures StateUnknown.Rank() < StateOk.Rank() < StateWarn.Rank() < StateCrit.Rank()
  {
  }
}
