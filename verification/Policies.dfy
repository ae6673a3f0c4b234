/** The settings that govern the composition controller of one group. */
module Policies {
  import opened Wrappers

  /** How a compound group is executed, from the cheapest to the most careful way. */
  datatype Model = Standard | TwoPhase | Sequential

  /** The escalation ladder, one rung up and one rung down. */
  function RungAbove(m: Model): Option<Model> {
    match m
    case Standard => Some(TwoPhase)
    case TwoPhase => Some(Sequential)
    case Sequential => None
  }

  function RungBelow(m: Model): Option<Model> {
    match m
    case Standard => None
    case TwoPhase => Some(Standard)
    case Sequential => Some(TwoPhase)
  }

  function LadderFrom(m: Model): seq<Model> {
    match m
    case Standard => [Standard, TwoPhase, Sequential]
    case TwoPhase => [TwoPhase, Sequential]
    case Sequential => [Sequential]
  }

  datatype ModelChoice = Explicit(model: Model) | Automatic

  datatype Weights = Weights(overhead: real, agents: real, output: real, tools: real, depth: real)

  datatype PolicyFields = PolicyFields(
    composeAt: real, decomposeAt: real, confidence: real, minObservations: int, windowSize: int,
    scoreWeights: Option<Weights>, errorRateThreshold: real, contextUtilThreshold: real,
    latencyThreshold: Option<real>, qualityFloor: Option<real>, executionModel: ModelChoice,
    twoPhaseThreshold: int, sequentialThreshold: int,
    escalationEnabled: bool, escalationMinFailures: int, escalationDecayWindow: int)

  /** The settings a policy can be constructed with. */
  predicate Accepted(p: PolicyFields) {
    && 0.0 < p.composeAt <= 1.0
    && 0.0 <= p.decomposeAt < p.composeAt
    && 0.0 < p.confidence <= 1.0
    && p.minObservations >= 1
    && p.windowSize >= 1
    && (p.scoreWeights.Some? ==>
      var w := p.scoreWeights.value;
      w.overhead >= 0.0 && w.agents >= 0.0 && w.output >= 0.0 && w.tools >= 0.0 && w.depth >= 0.0)
    && 0.0 < p.errorRateThreshold <= 1.0
    && 0.0 < p.contextUtilThreshold <= 1.0
    && (p.latencyThreshold.Some? ==> p.latencyThreshold.value > 0.0)
    && (p.qualityFloor.Some? ==> 0.0 <= p.qualityFloor.value <= 1.0)
    && 0 < p.twoPhaseThreshold < p.sequentialThreshold
    && p.escalationMinFailures >= 1
    && p.escalationDecayWindow >= 1
  }

  /** A policy, by default the one with the built-in settings. */
  type Policy = p: PolicyFields | Accepted(p)
    witness PolicyFields(0.40, 0.15, 0.80, 3, 10, None, 0.15, 0.85, None, None, Explicit(Standard), 1500, 3500, true, 2,
                         5)
}
