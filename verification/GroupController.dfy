/** The composition controller of one group: rolling observations, a confidence vote, cooldown and efficiency gates. */
module GroupController {
  import opened Wrappers
  import opened Policies
  import opened Series

  datatype Level = Fine | Compound

  /** What was measured during one execution of the group. */
  datatype Signal = Signal(
    overheadRatio: real, agentCount: nat, avgOutputTokens: real, toolCallsPerAgent: real, dependencyDepth: int,
    errorRate: real, contextUtilization: real, latencyMs: real, totalTokens: int)

  /** Everything the controller remembers about a group. */
  datatype Controller = Controller(
    observations: seq<real>, mode: Level, confidence: real, lastScore: real,
    latencyFine: seq<real>, latencyCompound: seq<real>, tokensFine: seq<int>, tokensCompound: seq<int>,
    qualityScores: seq<real>, avgOutputFine: seq<real>, modelOverride: Option<Model>,
    revertFloor: nat, revertCount: nat, failureStreak: nat, successStreak: nat, lastFineOutput: Option<string>)

  const FRESH := Controller([], Fine, 0.0, 0.0, [], [], [], [], [], [], None, 0, 0, 0, 0, None)

  // ----- the composition score ----------------------------------------------------------------

  function AtMostOne(x: real): real {
    if x < 1.0 then x else 1.0
  }

  /** The depth of the chain relative to the longest possible one. */
  function RelativeDepth(s: Signal): real {
    AtMostOne(s.dependencyDepth as real / (if s.agentCount > 2 then s.agentCount - 1 else 1) as real)
  }

  function WeightedSum(w: Weights, overhead: real, agents: real, output: real, tools: real, depth: real): real {
    w.overhead * overhead + w.agents * agents + w.output * output + w.tools * tools - w.depth * depth
  }

  function CompositionScore(s: Signal, w: Weights): (score: real)
    ensures 0.0 <= score <= 1.0
  {
    var sum := AtMostOne(WeightedSum(
      w, s.overheadRatio, AtMostOne(s.agentCount as real / 4.0), AtMostOne(s.avgOutputTokens / 300.0),
      AtMostOne(s.toolCallsPerAgent / 3.0), RelativeDepth(s)));
    if sum > 0.0 then sum else 0.0
  }

  predicate Scored(p: Policy, signal: Option<Signal>) {
    signal.Some? && p.scoreWeights.Some?
  }

  /** Context pressure forces 0, errors force 1; otherwise the weighted score counts, or the bare overhead. */
  function ObservedValue(p: Policy, overhead: real, signal: Option<Signal>): real {
    if !Scored(p, signal) then overhead
    else if signal.value.contextUtilization >= p.contextUtilThreshold then 0.0
    else if signal.value.errorRate >= p.errorRateThreshold then 1.0
    else CompositionScore(signal.value, p.scoreWeights.value)
  }

  // ----- one observation ----------------------------------------------------------------------

  function MeanTokens(s: seq<int>, w: nat): Option<real>
    requires w >= 1
  {
    Mean(seq(|s|, i requires 0 <= i < |s| => s[i] as real), w)
  }

  function Observed(p: Policy, c: Controller, overhead: real, signal: Option<Signal>): Controller {
    var value := ObservedValue(p, overhead, signal);
    c.(observations := c.observations + [value], lastScore := if Scored(p, signal) then value else c.lastScore)
  }

  /** What the run cost counts towards the mode the group is in. */
  function Measured(c: Controller, signal: Signal): Controller {
    var latency := if signal.latencyMs > 0.0 then [signal.latencyMs] else [];
    var tokens := if signal.totalTokens > 0 then [signal.totalTokens] else [];
    if c.mode.Compound?
    then c.(latencyCompound := c.latencyCompound + latency, tokensCompound := c.tokensCompound + tokens)
    else c.(latencyFine := c.latencyFine + latency, tokensFine := c.tokensFine + tokens)
  }

  /** The observation and the measurements have been noted. */
  function Noted(p: Policy, c: Controller, overhead: real, signal: Option<Signal>): Controller {
    var seen := Observed(p, c, overhead, signal);
    if signal.None? then seen else Measured(seen, signal.value)
  }

  /** Back to fine, with the cooldown counted from here. */
  function Reverted(c: Controller): Controller {
    c.(mode := Fine, confidence := 0.0, revertFloor := |c.observations|, revertCount := c.revertCount + 1)
  }

  function Patience(p: Policy, reverts: nat): nat {
    p.minObservations * (if 1 + reverts < 5 then 1 + reverts else 5)
  }

  /** Enough observations since the last revert. */
  predicate Enough(p: Policy, c: Controller) {
    |c.observations| - c.revertFloor >= Patience(p, c.revertCount)
  }

  function Window(p: Policy, c: Controller): seq<real> {
    Last(c.observations, p.windowSize)
  }

  /** The share of the window that votes for leaving the current mode. */
  function Vote(p: Policy, c: Controller): real
    requires c.observations != []
  {
    var w := Window(p, c);
    var votes := if c.mode.Fine? then CountAtLeast(w, p.composeAt) else CountAtMost(w, p.decomposeAt);
    votes as real / |w| as real
  }

  predicate Convinced(p: Policy, c: Controller)
    requires c.observations != []
  {
    Enough(p, c) && Vote(p, c) >= p.confidence
  }

  function GateOne(p: Policy, c: Controller, switching: bool): Controller
    requires c.observations != []
  {
    if !Enough(p, c) then c.(confidence := 0.0)
    else if !switching || !Convinced(p, c) then c.(confidence := Vote(p, c))
    else if c.mode.Fine? then c.(mode := Compound, confidence := 0.0)
    else Reverted(c)
  }

  predicate TooSlow(p: Policy, c: Controller) {
    && p.latencyThreshold.Some?
    && var mean := Mean(c.latencyCompound, p.windowSize);
    && mean.Some? && mean.value > p.latencyThreshold.value
  }

  predicate NoGain(p: Policy, c: Controller) {
    && |c.tokensFine| >= 2 && |c.tokensCompound| >= 2
    && MeanTokens(c.tokensCompound, p.windowSize).value >= MeanTokens(c.tokensFine, p.windowSize).value
  }

  function EfficiencyGates(p: Policy, c: Controller, switching: bool): Controller {
    if switching && c.mode.Compound? && (TooSlow(p, c) || NoGain(p, c)) then Reverted(c) else c
  }

  /** The controller after one observation. */
  function Record(p: Policy, c: Controller, overhead: real, switching: bool, signal: Option<Signal>): Controller {
    EfficiencyGates(p, GateOne(p, Noted(p, c, overhead, signal), switching), switching)
  }

  datatype Advice = Compose | Decompose | Maintain

  function Recommendation(p: Policy, c: Controller): Advice {
    if p.qualityFloor.Some? && |c.qualityScores| >= 2
      && Mean(c.qualityScores, p.windowSize).value < p.qualityFloor.value
    then Decompose
    else if c.confidence >= p.confidence && |c.observations| >= p.minObservations
    then if c.mode.Fine? then Compose else Decompose
    else Maintain
  }

  // ----- the stored state ---------------------------------------------------------------------

  class GroupControllerState {
    var observations: seq<real>
    var mode: Level
    var confidence: real
    var lastScore: real
    var latencyFine: seq<real>
    var latencyCompound: seq<real>
    var tokensFine: seq<int>
    var tokensCompound: seq<int>
    var qualityScores: seq<real>
    var avgOutputFine: seq<real>
    var modelOverride: Option<Model>
    var revertFloor: nat
    var revertCount: nat
    var failureStreak: nat
    var successStreak: nat
    var lastFineOutput: Option<string>

    function View(): Controller
      reads this
    {
      Controller(observations, mode, confidence, lastScore, latencyFine, latencyCompound, tokensFine, tokensCompound,
                 qualityScores, avgOutputFine, modelOverride, revertFloor, revertCount, failureStreak, successStreak,
                 lastFineOutput)
    }

    constructor ()
      ensures View() == FRESH
    {
      observations, mode, confidence, lastScore := [], Fine, 0.0, 0.0;
      latencyFine, latencyCompound, tokensFine, tokensCompound := [], [], [], [];
      qualityScores, avgOutputFine, modelOverride := [], [], None;
      revertFloor, revertCount, failureStreak, successStreak := 0, 0, 0, 0;
      lastFineOutput := None;
    }

    method DoRevert()
      modifies this
      ensures View() == Reverted(old(View()))
    {
      mode := Fine;
      confidence := 0.0;
      revertFloor := |observations|;
      revertCount := revertCount + 1;
    }

    method NoteValue(p: Policy, overhead: real, signal: Option<Signal>)
      modifies this
      ensures View() == Observed(p, old(View()), overhead, signal)
    {
      var value := overhead;
      if signal.Some? && p.scoreWeights.Some? {
        value := CompositionScore(signal.value, p.scoreWeights.value);
        if signal.value.contextUtilization >= p.contextUtilThreshold {
          value := 0.0;
        } else if signal.value.errorRate >= p.errorRateThreshold {
          value := 1.0;
        }
        lastScore := value;
      }
      observations := observations + [value];
    }

    method NoteCost(signal: Signal)
      modifies this
      ensures View() == Measured(old(View()), signal)
    {
      if signal.latencyMs > 0.0 {
        if mode == Compound {
          latencyCompound := latencyCompound + [signal.latencyMs];
        } else {
          latencyFine := latencyFine + [signal.latencyMs];
        }
      }
      if signal.totalTokens > 0 {
        if mode == Compound {
          tokensCompound := tokensCompound + [signal.totalTokens];
        } else {
          tokensFine := tokensFine + [signal.totalTokens];
        }
      }
    }

    method SwitchByVote(p: Policy, switching: bool)
      requires observations != []
      modifies this
      ensures View() == GateOne(p, old(View()), switching)
    {
      var window := Last(observations, p.windowSize);
      var since := |observations| - revertFloor;
      var factor := if 1 + revertCount < 5 then 1 + revertCount else 5;
      if since >= p.minObservations * factor {
        if mode == Fine {
          var above := CountAtLeast(window, p.composeAt);
          confidence := above as real / |window| as real;
          if switching && confidence >= p.confidence {
            mode := Compound;
            confidence := 0.0;
          }
        } else {
          var below := CountAtMost(window, p.decomposeAt);
          confidence := below as real / |window| as real;
          if switching && confidence >= p.confidence {
            DoRevert();
          }
        }
      } else {
        confidence := 0.0;
      }
    }

    method CheckEfficiency(p: Policy, switching: bool)
      modifies this
      ensures View() == EfficiencyGates(p, old(View()), switching)
    {
      if switching && mode == Compound {
        if p.latencyThreshold.Some? {
          var mean := Mean(latencyCompound, p.windowSize);
          if mean.Some? && mean.value > p.latencyThreshold.value {
            DoRevert();
          }
        }
        if mode == Compound {
          var fine, compound := MeanTokens(tokensFine, p.windowSize), MeanTokens(tokensCompound, p.windowSize);
          if fine.Some? && compound.Some? && |tokensFine| >= 2 && |tokensCompound| >= 2
            && compound.value >= fine.value {
            DoRevert();
          }
        }
      }
    }

    method RecordAndMaybeSwitch(p: Policy, overhead: real, switching: bool, signal: Option<Signal>)
      modifies this
      ensures View() == Record(p, old(View()), overhead, switching, signal)
    {
      NoteValue(p, overhead, signal);
      if signal.Some? {
        NoteCost(signal.value);
      }
      SwitchByVote(p, switching);
      CheckEfficiency(p, switching);
    }
  }

  /** More overhead, output or tools never lower the score of a group, a deeper dependency chain never raises it. */
  lemma ScoreIsMonotone(s: Signal, t: Signal, w: Weights)
    requires w.overhead >= 0.0 && w.output >= 0.0 && w.tools >= 0.0 && w.depth >= 0.0
    requires s.agentCount == t.agentCount && s.overheadRatio <= t.overheadRatio
      && s.avgOutputTokens <= t.avgOutputTokens
    requires s.toolCallsPerAgent <= t.toolCallsPerAgent && s.dependencyDepth >= t.dependencyDepth
    ensures CompositionScore(s, w) <= CompositionScore(t, w)
  {
    Quotient(t.dependencyDepth as real, s.dependencyDepth as real,
             (if s.agentCount > 2 then s.agentCount - 1 else 1) as real);
    SumIsMonotone(w, AtMostOne(s.agentCount as real / 4.0), s.overheadRatio, t.overheadRatio,
                  AtMostOne(s.avgOutputTokens / 300.0), AtMostOne(t.avgOutputTokens / 300.0),
                  AtMostOne(s.toolCallsPerAgent / 3.0), AtMostOne(t.toolCallsPerAgent / 3.0), RelativeDepth(s),
                  RelativeDepth(t));
    hide WeightedSum, RelativeDepth;
  }

  lemma SumIsMonotone(w: Weights, agents: real, o1: real, o2: real, p1: real, p2: real, t1: real, t2: real, d1: real,
                      d2: real)
    requires w.overhead >= 0.0 && w.output >= 0.0 && w.tools >= 0.0 && w.depth >= 0.0
    requires o1 <= o2 && p1 <= p2 && t1 <= t2 && d1 >= d2
    ensures WeightedSum(w, o1, agents, p1, t1, d1) <= WeightedSum(w, o2, agents, p2, t2, d2)
  {
    Times(w.overhead, o1, o2);
    Times(w.output, p1, p2);
    Times(w.tools, t1, t2);
    Times(w.depth, d2, d1);
  }

  lemma Times(w: real, x: real, y: real)
    requires w >= 0.0 && x <= y
    ensures w * x <= w * y
  {
  }

  lemma Quotient(x: real, y: real, d: real)
    requires x <= y && d > 0.0
    ensures x / d <= y / d
  {
  }

  // ----- what one observation can do ----------------------------------------------------------

  /** Compound mode survives an observation exactly when the vote puts or leaves the group there
      and both efficiency gates are satisfied. */
  lemma CompoundIsEfficient(p: Policy, c: Controller, overhead: real, signal: Option<Signal>)
    ensures
      var n := Noted(p, c, overhead, signal);
      var r := Record(p, c, overhead, true, signal);
      && (r.mode.Compound? <==> (c.mode.Compound? != Convinced(p, n)) && !TooSlow(p, n) && !NoGain(p, n))
      && (r.mode.Compound? && p.latencyThreshold.Some? && r.latencyCompound != [] ==>
            Average(Last(r.latencyCompound, p.windowSize)) <= p.latencyThreshold.value)
      && (r.mode.Compound? && |r.tokensFine| >= 2 && |r.tokensCompound| >= 2 ==>
            MeanTokens(r.tokensCompound, p.windowSize).value < MeanTokens(r.tokensFine, p.windowSize).value)
  {
  }

  /** Without permission to switch, an observation changes no mode and reverts nothing. */
  lemma ObservingOnlyKeepsMode(p: Policy, c: Controller, overhead: real, signal: Option<Signal>)
    ensures
      var r := Record(p, c, overhead, false, signal);
      r.mode == c.mode && r.revertCount == c.revertCount && r.revertFloor == c.revertFloor
  {
  }
}
