/** What a single run leaves on record and what decides, in terms of the run, the policy and plain sums. */
module ControllerLaws {
  import opened Wrappers
  import opened Policies
  import opened Series
  import opened GroupController
  import opened QualityGate
  import opened ControllerRuns

  // ----- the composition score ----------------------------------------------------------------

  /** Within the usual sizes the score is the weighted sum, cut off at 0 and 1. */
  lemma ScoreOfModerateGroup(s: Signal, w: Weights, agents: real, output: real, tools: real, depth: real)
    requires s.agentCount <= 4 && s.avgOutputTokens <= 300.0 && s.toolCallsPerAgent <= 3.0
    requires s.dependencyDepth <= Links(s)
    requires agents * 4.0 == s.agentCount as real && output * 300.0 == s.avgOutputTokens
    requires tools * 3.0 == s.toolCallsPerAgent
    requires depth * Links(s) as real == s.dependencyDepth as real
    ensures
      var sum := w.overhead * s.overheadRatio + w.agents * agents + w.output * output + w.tools * tools
        - w.depth * depth;
      && (sum <= 0.0 ==> CompositionScore(s, w) == 0.0)
      && (0.0 <= sum <= 1.0 ==> CompositionScore(s, w) == sum)
      && (sum >= 1.0 ==> CompositionScore(s, w) == 1.0)
  {
    hide *;
    DepthIs(s, depth);
    AtMost(s.agentCount as real, 4.0, agents);
    AtMost(s.avgOutputTokens, 300.0, output);
    AtMost(s.toolCallsPerAgent, 3.0, tools);
    ScoreOfParts(s, w, agents, output, tools, depth);
  }

  function Links(s: Signal): nat {
    if s.agentCount > 2 then s.agentCount - 1 else 1
  }

  lemma DepthIs(s: Signal, depth: real)
    requires depth * Links(s) as real == s.dependencyDepth as real
    ensures s.dependencyDepth <= Links(s) ==> RelativeDepth(s) == depth
    ensures s.dependencyDepth >= Links(s) ==> RelativeDepth(s) == 1.0
  {
    hide AtMostOne;
    AtMost(s.dependencyDepth as real, Links(s) as real, depth);
  }

  lemma SameParts(s: Signal, t: Signal, w: Weights)
    requires s.overheadRatio == t.overheadRatio && RelativeDepth(s) == RelativeDepth(t)
    requires AtMostOne(s.agentCount as real / 4.0) == AtMostOne(t.agentCount as real / 4.0)
    requires AtMostOne(s.avgOutputTokens / 300.0) == AtMostOne(t.avgOutputTokens / 300.0)
    requires AtMostOne(s.toolCallsPerAgent / 3.0) == AtMostOne(t.toolCallsPerAgent / 3.0)
    ensures CompositionScore(s, w) == CompositionScore(t, w)
  {
    hide RelativeDepth, WeightedSum, AtMostOne;
  }

  lemma DeepestIs(s: Signal)
    requires s.dependencyDepth >= Links(s)
    ensures RelativeDepth(s) == 1.0
  {
    hide RelativeDepth;
    var links := Links(s) as real;
    DepthIs(s, s.dependencyDepth as real / links);
  }

  lemma ScoreOfParts(s: Signal, w: Weights, agents: real, output: real, tools: real, depth: real)
    requires AtMostOne(s.agentCount as real / 4.0) == agents && AtMostOne(s.avgOutputTokens / 300.0) == output
    requires AtMostOne(s.toolCallsPerAgent / 3.0) == tools && RelativeDepth(s) == depth
    ensures
      var sum := w.overhead * s.overheadRatio + w.agents * agents + w.output * output + w.tools * tools
        - w.depth * depth;
      && (sum <= 0.0 ==> CompositionScore(s, w) == 0.0)
      && (0.0 <= sum <= 1.0 ==> CompositionScore(s, w) == sum)
      && (sum >= 1.0 ==> CompositionScore(s, w) == 1.0)
  {
    hide RelativeDepth, AtMostOne;
    SumIs(w, s.overheadRatio, agents, output, tools, depth);
    var sum := WeightedSum(w, s.overheadRatio, agents, output, tools, depth);
    hide WeightedSum;
    Clamped(sum);
  }

  lemma Clamped(sum: real)
    ensures AtMostOne(sum) == if sum <= 1.0 then sum else 1.0
  {
  }

  lemma SumIs(w: Weights, overhead: real, agents: real, output: real, tools: real, depth: real)
    ensures WeightedSum(w, overhead, agents, output, tools, depth)
         == w.overhead * overhead + w.agents * agents + w.output * output + w.tools * tools - w.depth * depth
  {
  }

  /** Beyond them nothing counts any more. */
  lemma ScoreSaturates(s: Signal, w: Weights)
    ensures s.avgOutputTokens >= 300.0 ==> CompositionScore(s, w) == CompositionScore(s.(avgOutputTokens := 300.0), w)
    ensures s.toolCallsPerAgent >= 3.0 ==> CompositionScore(s, w) == CompositionScore(s.(toolCallsPerAgent := 3.0), w)
    ensures s.dependencyDepth >= Links(s) ==>
      && CompositionScore(s, w) == CompositionScore(s.(dependencyDepth := Links(s)), w)
      && (s.agentCount >= 4 ==>
        CompositionScore(s, w) == CompositionScore(s.(agentCount := 4, dependencyDepth := 3), w))
  {
    hide CompositionScore;
    if s.avgOutputTokens >= 300.0 {
      SameParts(s, s.(avgOutputTokens := 300.0), w);
    }
    if s.toolCallsPerAgent >= 3.0 {
      SameParts(s, s.(toolCallsPerAgent := 3.0), w);
    }
    if s.dependencyDepth >= Links(s) {
      var t := s.(dependencyDepth := Links(s));
      var u := s.(agentCount := 4, dependencyDepth := 3);
      DeepestIs(s);
      DeepestIs(t);
      DeepestIs(u);
      hide RelativeDepth;
      SameParts(s, t, w);
      if s.agentCount >= 4 {
        SameParts(s, u, w);
      }
    }
  }

  /** Cutting off a share at 1, the share being given by its product. */
  lemma AtMost(x: real, y: real, share: real)
    requires y > 0.0 && share * y == x
    ensures x / y == share
    ensures x <= y ==> AtMostOne(x / y) == share
    ensures x >= y ==> AtMostOne(x / y) == 1.0
  {
    var q := x / y;
    assert q * y == x;
    Cancel(q, share, y);
    Cancel(q, 1.0, y);
    Grows(q, y);
  }

  lemma Cancel(a: real, b: real, y: real)
    requires y > 0.0
    ensures a * y == b * y <==> a == b
  {
    if a < b {
      assert a * y < b * y;
    } else if a > b {
      assert a * y > b * y;
    }
  }

  lemma Grows(q: real, y: real)
    requires y > 0.0
    ensures q * y <= y <==> q <= 1.0
    ensures q * y >= y <==> q >= 1.0
  {
    if q < 1.0 {
      assert q * y < y;
    } else if q > 1.0 {
      assert q * y > y;
    }
  }

  // ----- what is observed ---------------------------------------------------------------------

  /** Context pressure counts as nothing whatever else happened, errors count as everything, and any other scored run
      as its score; a run without measurements or without weights counts as its overhead. */
  lemma WhatIsObserved(p: Policy, c: Controller, overhead: real, switching: bool, signal: Option<Signal>)
    ensures
      var r := Record(p, c, overhead, switching, signal);
      && |r.observations| == |c.observations| + 1 && c.observations <= r.observations
      && var x := r.observations[|c.observations|];
      && (signal.None? || p.scoreWeights.None? ==> x == overhead && r.lastScore == c.lastScore)
      && (signal.Some? && p.scoreWeights.Some? ==>
            var pressed := signal.value.contextUtilization >= p.contextUtilThreshold;
            var erroneous := signal.value.errorRate >= p.errorRateThreshold;
            && r.lastScore == x && 0.0 <= x <= 1.0
            && (pressed ==> x == 0.0)
            && (!pressed && erroneous ==> x == 1.0)
            && (!pressed && !erroneous ==> x == CompositionScore(signal.value, p.scoreWeights.value)))
  {
    var n := Noted(p, c, overhead, signal);
    GatesKeep(p, n, switching);
    GatesKeepScore(p, n, switching);
    hide GateOne, EfficiencyGates, CompositionScore;
  }

  lemma GatesKeepScore(p: Policy, c: Controller, switching: bool)
    requires c.observations != []
    ensures EfficiencyGates(p, GateOne(p, c, switching), switching).lastScore == c.lastScore
  {
    hide Vote, TooSlow, NoGain, Enough;
  }

  /** And a run adds one such observation, of nothing if it has not been measured. */
  lemma WhatARunAdds(p: Policy, g: Group, c: Controller, run: Run)
    ensures
      var d := PostRun(p, g, c, run);
      && |d.observations| == |c.observations| + 1 && c.observations <= d.observations
      && (run.signal.None? ==> d.observations[|c.observations|] == 0.0)
      && (run.signal.Some? && p.scoreWeights.None? ==>
            d.observations[|c.observations|] == run.signal.value.overheadRatio)
      && (run.signal.Some? && p.scoreWeights.Some? ==>
            d.observations[|c.observations|] ==
              Record(p, c, 0.0, false, run.signal).observations[|c.observations|])
  {
    RunObserves(p, g, c, run);
    WhatIsObserved(p, c, 0.0, false, run.signal);
    ScoreAlone(p, c, run.signal);
    hide PostRun, Observation, Voting, Record;
  }

  lemma ScoreAlone(p: Policy, c: Controller, signal: Option<Signal>)
    ensures Record(p, c, 0.0, false, signal).observations == c.observations + [ObservedValue(p, 0.0, signal)]
  {
    GatesKeep(p, Noted(p, c, 0.0, signal), false);
    hide GateOne, EfficiencyGates, ObservedValue;
  }

  /** The costs of a run count towards the mode the group was in before it. */
  lemma WhatItCost(p: Policy, c: Controller, overhead: real, switching: bool, signal: Option<Signal>)
    ensures
      var r := Record(p, c, overhead, switching, signal);
      var latency := if signal.Some? && signal.value.latencyMs > 0.0 then [signal.value.latencyMs] else [];
      var tokens := if signal.Some? && signal.value.totalTokens > 0 then [signal.value.totalTokens] else [];
      && (c.mode.Fine? ==>
            && r.latencyFine == c.latencyFine + latency && r.tokensFine == c.tokensFine + tokens
            && r.latencyCompound == c.latencyCompound && r.tokensCompound == c.tokensCompound)
      && (c.mode.Compound? ==>
            && r.latencyCompound == c.latencyCompound + latency && r.tokensCompound == c.tokensCompound + tokens
            && r.latencyFine == c.latencyFine && r.tokensFine == c.tokensFine)
  {
    GatesKeepCosts(p, Noted(p, c, overhead, signal), switching);
    hide GateOne, EfficiencyGates, ObservedValue;
  }

  lemma GatesKeepCosts(p: Policy, c: Controller, switching: bool)
    requires c.observations != []
    ensures
      var d := EfficiencyGates(p, GateOne(p, c, switching), switching);
      && d.latencyFine == c.latencyFine && d.latencyCompound == c.latencyCompound
      && d.tokensFine == c.tokensFine && d.tokensCompound == c.tokensCompound
  {
    hide Vote, TooSlow, NoGain, Enough;
  }

  // ----- the gates in sums --------------------------------------------------------------------

  function TokenSum(s: seq<int>): int {
    if s == [] then 0 else TokenSum(s[..|s| - 1]) + s[|s| - 1]
  }

  lemma {:induction false} TokenSums(s: seq<int>)
    ensures Sum(seq(|s|, i requires 0 <= i < |s| => s[i] as real)) == TokenSum(s) as real
  {
    var reals := seq(|s|, i requires 0 <= i < |s| => s[i] as real);
    if s != [] {
      var front := s[..|s| - 1];
      TokenSums(front);
      assert reals == seq(|front|, i requires 0 <= i < |front| => front[i] as real) + [s[|s| - 1] as real];
      SumOfParts(seq(|front|, i requires 0 <= i < |front| => front[i] as real), [s[|s| - 1] as real],
                 s[|s| - 1] as real);
    }
  }

  lemma MeanTokensIs(s: seq<int>, w: nat)
    requires w >= 1 && s != []
    ensures MeanTokens(s, w).Some? && Last(s, w) != []
    ensures MeanTokens(s, w).value == TokenSum(Last(s, w)) as real / |Last(s, w)| as real
  {
    var reals := seq(|s|, i requires 0 <= i < |s| => s[i] as real);
    var last := Last(s, w);
    assert Last(reals, w) == seq(|last|, i requires 0 <= i < |last| => last[i] as real);
    TokenSums(last);
    hide Sum, TokenSum;
  }

  lemma Whole(x: int, n: int)
    ensures x as real * n as real == (x * n) as real
  {
  }

  lemma Crosswise(x: int, m: nat, y: int, n: nat)
    requires m > 0 && n > 0
    ensures x as real / m as real >= y as real / n as real <==> x * n >= y * m
  {
    var a, b, j, k := x as real / m as real, y as real / n as real, m as real, n as real;
    assert a * j == x as real && b * k == y as real;
    Scaled(a, b, j * k);
    assert a * (j * k) == x as real * k && b * (j * k) == y as real * j;
    Whole(x, n);
    Whole(y, m);
  }

  lemma Scaled(a: real, b: real, k: real)
    requires k > 0.0
    ensures a >= b <==> a * k >= b * k
  {
    if a < b {
      assert a * k < b * k;
    } else {
      assert a * k >= b * k;
    }
  }

  lemma SlowInSums(p: Policy, c: Controller)
    ensures
      var w := Last(c.latencyCompound, p.windowSize);
      TooSlow(p, c) <==>
        p.latencyThreshold.Some? && c.latencyCompound != [] && Sum(w) > p.latencyThreshold.value * |w| as real
  {
    hide Mean, Last, Sum;
    if p.latencyThreshold.Some? {
      MeanAgainst(c.latencyCompound, p.windowSize, p.latencyThreshold.value);
    }
  }

  lemma GainInSums(p: Policy, c: Controller)
    ensures
      var fine, compound := Last(c.tokensFine, p.windowSize), Last(c.tokensCompound, p.windowSize);
      NoGain(p, c) <==>
        && |c.tokensFine| >= 2 && |c.tokensCompound| >= 2
        && TokenSum(compound) * |fine| >= TokenSum(fine) * |compound|
  {
    if |c.tokensFine| >= 2 && |c.tokensCompound| >= 2 {
      var fine, compound := Last(c.tokensFine, p.windowSize), Last(c.tokensCompound, p.windowSize);
      MeanTokensIs(c.tokensFine, p.windowSize);
      MeanTokensIs(c.tokensCompound, p.windowSize);
      hide *;
      Crosswise(TokenSum(compound), |compound|, TokenSum(fine), |fine|);
    }
  }

  /** A group is compound after a run in automatic mode exactly when the vote puts or leaves it there, compound runs
      have been within the latency threshold, and they have been cheaper than fine runs; the latter two are sums over
      the last entries, cross-multiplied, and need an entry and two of each kind. */
  lemma WhenCompoundRunsPay(p: Policy, c: Controller, overhead: real, signal: Option<Signal>)
    ensures
      var n := Noted(p, c, overhead, signal);
      var slow, fine, compound := Last(n.latencyCompound, p.windowSize), Last(n.tokensFine, p.windowSize),
                                  Last(n.tokensCompound, p.windowSize);
      Record(p, c, overhead, true, signal).mode.Compound? <==>
        && (c.mode.Compound? != Convinced(p, n))
        && (p.latencyThreshold.Some? && n.latencyCompound != [] ==>
              Sum(slow) <= p.latencyThreshold.value * |slow| as real)
        && (|n.tokensFine| >= 2 && |n.tokensCompound| >= 2 ==>
              TokenSum(compound) * |fine| < TokenSum(fine) * |compound|)
  {
    var n := Noted(p, c, overhead, signal);
    NotedKeeps(p, c, overhead, signal);
    CompoundIsEfficient(p, c, overhead, signal);
    SlowInSums(p, n);
    GainInSums(p, n);
    hide *;
  }

  // ----- what is advised ----------------------------------------------------------------------

  /** The quality of the group gives no alarm. */
  predicate GoodQuality(p: Policy, c: Controller) {
    p.qualityFloor.Some? && |c.qualityScores| >= 2 ==>
      var w := Last(c.qualityScores, p.windowSize);
      Sum(w) >= p.qualityFloor.value * |w| as real
  }

  lemma AdviceByConfidence(p: Policy, c: Controller)
    requires GoodQuality(p, c)
    ensures Recommendation(p, c) ==
      if c.confidence < p.confidence || |c.observations| < p.minObservations then Maintain
      else if c.mode.Fine? then Compose else Decompose
  {
    if p.qualityFloor.Some? {
      MeanAgainst(c.qualityScores, p.windowSize, p.qualityFloor.value);
    }
    hide Mean, Sum, Last;
  }

  /** What the vote leaves behind, with and without permission to switch. */
  lemma VoteIsShown(p: Policy, c: Controller)
    requires c.observations != []
    ensures GateOne(p, c, false) == c.(confidence := if Enough(p, c) then Vote(p, c) else 0.0)
    ensures GateOne(p, c, true) ==
      if !Convinced(p, c) then GateOne(p, c, false)
      else if c.mode.Fine? then c.(mode := Compound, confidence := 0.0) else Reverted(c)
    ensures Convinced(p, c) <==> GateOne(p, c, false).confidence >= p.confidence
    ensures Convinced(p, c) ==> |c.observations| >= p.minObservations
  {
    PatienceIsLong(p, c.revertCount);
    hide Vote, Patience;
  }

  lemma GatesAdvise(p: Policy, n: Controller)
    requires n.observations != [] && GoodQuality(p, n)
    ensures
      var watched := EfficiencyGates(p, GateOne(p, n, false), false);
      var acted := EfficiencyGates(p, GateOne(p, n, true), true);
      && (Recommendation(p, watched) == Compose <==>
            n.mode.Fine? && (acted.mode.Compound? || acted.revertCount == n.revertCount + 1))
      && (Recommendation(p, watched) == Decompose <==> n.mode.Compound? && Convinced(p, n))
      && (Recommendation(p, watched) == Decompose ==> acted == Reverted(n))
      && Recommendation(p, acted) == Maintain
  {
    var watched := EfficiencyGates(p, GateOne(p, n, false), false);
    var acted := EfficiencyGates(p, GateOne(p, n, true), true);
    VoteIsShown(p, n);
    assert watched == GateOne(p, n, false);
    GatesKeep(p, n, true);
    hide GateOne, TooSlow, NoGain, Convinced, Recommendation;
    SameQuality(p, n, watched);
    SameQuality(p, n, acted);
    AdviceByConfidence(p, watched);
    AdviceByConfidence(p, acted);
    hide GoodQuality;
  }

  lemma SameQuality(p: Policy, c: Controller, d: Controller)
    requires GoodQuality(p, c) && c.qualityScores == d.qualityScores
    ensures GoodQuality(p, d)
  {
    hide Sum, Last;
  }

  /** Watching a group without touching it, the controller advises exactly the step that it would take if it might, as
      long as quality gives no alarm; and when it may act it leaves nothing to advise. */
  lemma AdviceAnticipates(p: Policy, c: Controller, overhead: real, signal: Option<Signal>)
    requires GoodQuality(p, c)
    ensures
      var watched, acted := Record(p, c, overhead, false, signal), Record(p, c, overhead, true, signal);
      && (Recommendation(p, watched) == Compose <==>
            c.mode.Fine? && (acted.mode.Compound? || acted.revertCount == c.revertCount + 1))
      && (Recommendation(p, watched) == Decompose <==> c.mode.Compound? && Convinced(p, Noted(p, c, overhead, signal)))
      && (Recommendation(p, watched) == Decompose ==> acted == Reverted(Noted(p, c, overhead, signal)))
      && Recommendation(p, acted) == Maintain
  {
    var n := Noted(p, c, overhead, signal);
    NotedKeeps(p, c, overhead, signal);
    hide Noted, GateOne, EfficiencyGates, Convinced, Recommendation, GoodQuality;
    SameQuality(p, c, n);
    GatesAdvise(p, n);
  }

  lemma NotedKeeps(p: Policy, c: Controller, overhead: real, signal: Option<Signal>)
    ensures SameLadder(c, Noted(p, c, overhead, signal)) && SameCooling(c, Noted(p, c, overhead, signal))
    ensures Noted(p, c, overhead, signal).observations != []
  {
    hide ObservedValue;
  }

  lemma PatienceIsLong(p: Policy, reverts: nat)
    ensures Patience(p, reverts) >= p.minObservations
  {
    var factor := if 1 + reverts < 5 then 1 + reverts else 5;
    assert p.minObservations * factor >= p.minObservations * 1;
  }

  // ----- under context pressure ---------------------------------------------------------------

  /** The run filled the context of its agents. */
  predicate Pressed(p: Policy, run: Run) {
    run.signal.Some? && p.scoreWeights.Some? && run.signal.value.contextUtilization >= p.contextUtilThreshold
  }

  lemma {:induction false} PressureLeavesZeros(p: Policy, g: Group, c: Controller, runs: seq<Run>)
    requires forall r :: r in runs ==> Pressed(p, r)
    ensures
      var after := After(p, g, c, runs).observations;
      && |after| == |c.observations| + |runs| && c.observations <= after
      && forall i :: |c.observations| <= i < |after| ==> after[i] == 0.0
    decreases |runs|
  {
    if runs != [] {
      var k := |runs| - 1;
      assert forall r :: r in runs[..k] ==> r in runs;
      PressureLeavesZeros(p, g, c, runs[..k]);
      assert runs[k] in runs;
      RunObserves(p, g, After(p, g, c, runs[..k]), runs[k]);
      hide PostRun, Voting, Observation;
    }
  }

  lemma {:induction false} ZerosVote(s: seq<real>, low: real, high: real)
    requires 0.0 <= low && 0.0 < high && forall i :: 0 <= i < |s| ==> s[i] == 0.0
    ensures CountAtLeast(s, high) == 0 && CountAtMost(s, low) == |s|
  {
    if s != [] {
      ZerosVote(s[1..], low, high);
    }
  }

  lemma Unanimous(n: nat)
    requires n > 0
    ensures 0.0 / n as real == 0.0 && n as real / n as real == 1.0
  {
  }

  lemma ZerosDecide(p: Policy, v: Controller)
    requires v.observations != []
    requires forall i :: 0 <= i < |Last(v.observations, p.windowSize)| ==> Last(v.observations, p.windowSize)[i] == 0.0
    ensures Convinced(p, v) <==> v.mode.Compound? && Enough(p, v)
  {
    var w := Last(v.observations, p.windowSize);
    ZerosVote(w, p.decomposeAt, p.composeAt);
    LastEntries(v.observations, p.windowSize);
    Unanimous(|w|);
    hide CountAtLeast, CountAtMost, Enough, Last;
  }

  lemma PressedWindow(p: Policy, g: Group, c: Controller, runs: seq<Run>, run: Run)
    requires Pressed(p, run) && forall r :: r in runs ==> Pressed(p, r)
    requires c.observations == [] || |runs| + 1 >= p.windowSize
    ensures
      var v := Voting(p, After(p, g, c, runs), run);
      var w := Last(v.observations, p.windowSize);
      v.observations != [] && forall i :: 0 <= i < |w| ==> w[i] == 0.0
  {
    PressureLeavesZeros(p, g, c, runs);
    var before := After(p, g, c, runs);
    VotingKeeps(p, before, run);
    var s := Voting(p, before, run).observations;
    assert s == before.observations + [0.0];
    LastEntries(s, p.windowSize);
    hide After, Voting, Last;
  }

  /** While every run in the window was made under context pressure, the controller never composes a group, and takes a
      compound group back to fine as soon as its cooldown is over. */
  lemma PressureDecomposes(p: Policy, g: Group, c: Controller, runs: seq<Run>, run: Run)
    requires Pressed(p, run) && forall r :: r in runs ==> Pressed(p, r)
    requires c.observations == [] || |runs| + 1 >= p.windowSize
    ensures
      var before, after := After(p, g, c, runs), PostRun(p, g, After(p, g, c, runs), run);
      && (before.mode.Fine? ==> after.mode.Fine? && after.revertCount == before.revertCount)
      && (before.mode.Compound? && run.mode.Auto?
          && |before.observations| + 1 - before.revertFloor
             >= p.minObservations * (if before.revertCount < 4 then before.revertCount + 1 else 5)
          ==> after.mode.Fine? && after.revertCount == before.revertCount + 1
              && after.revertFloor == |before.observations| + 1 && after.confidence == 0.0)
  {
    hide After;
    PressedWindow(p, g, c, runs, run);
    PressedRun(p, g, After(p, g, c, runs), run);
  }

  lemma PressedRun(p: Policy, g: Group, c: Controller, run: Run)
    requires
      var v := Voting(p, c, run);
      var w := Last(v.observations, p.windowSize);
      v.observations != [] && forall i :: 0 <= i < |w| ==> w[i] == 0.0
    ensures
      var after := PostRun(p, g, c, run);
      && (c.mode.Fine? ==> after.mode.Fine? && after.revertCount == c.revertCount)
      && (c.mode.Compound? && run.mode.Auto?
          && |c.observations| + 1 - c.revertFloor
             >= p.minObservations * (if c.revertCount < 4 then c.revertCount + 1 else 5)
          ==> after.mode.Fine? && after.revertCount == c.revertCount + 1
              && after.revertFloor == |c.observations| + 1 && after.confidence == 0.0)
  {
    var v := Voting(p, c, run);
    ZerosDecide(p, v);
    hide Last;
    VotingKeeps(p, c, run);
    hide ObservedValue;
    var patience := p.minObservations * (if c.revertCount < 4 then c.revertCount + 1 else 5);
    assert Enough(p, v) <==> |c.observations| + 1 - c.revertFloor >= patience;
    hide Enough;
    assert Observation(p, c, run) == EfficiencyGates(p, GateOne(p, v, run.mode.Auto?), run.mode.Auto?);
    hide Voting, Observation;
    VoteIsShown(p, v);
    hide Convinced, TooSlow, NoGain, GateOne;
    if Observation(p, c, run).mode.Fine? {
      JudgingStops(p, g, c, run);
    }
  }

  /** Nobody judges a run that ends in fine mode, unless it began compound; and judging then changes no more than the
      ladder. */
  lemma JudgingStops(p: Policy, g: Group, c: Controller, run: Run)
    requires Observation(p, c, run).mode.Fine?
    ensures SameCooling(Observation(p, c, run), PostRun(p, g, c, run))
    ensures PostRun(p, g, c, run).confidence == Observation(p, c, run).confidence
  {
    hide Observation, StartModel, ShadowQuality, DecidingScore;
  }

  // ----- the baseline -------------------------------------------------------------------------

  /** Only a run in fine mode, forced or chosen, leaves its output behind as the baseline for later comparisons. */
  lemma WhatStaysOfAnOutput(p: Policy, g: Group, c: Controller, run: Run)
    ensures
      var d := PostRun(p, g, c, run);
      var fine := run.mode.AlwaysFine? || (!run.mode.AlwaysCompound? && c.mode.Fine?);
      && d.lastFineOutput == (if fine then run.output else c.lastFineOutput)
      && d.avgOutputFine == c.avgOutputFine +
           if fine && run.signal.Some? && run.signal.value.avgOutputTokens > 0.0
           then [run.signal.value.avgOutputTokens] else []
  {
    ObservationKeepsBaseline(p, c, run);
    hide Observation, ShadowQuality, StartModel, FirstAccepted, Scores, DecidingScore;
  }

  lemma ObservationKeepsBaseline(p: Policy, c: Controller, run: Run)
    ensures
      var based, seen := Baseline(c, LevelOf(run.mode, c), run.output, run.signal), Observation(p, c, run);
      seen.lastFineOutput == based.lastFineOutput && seen.avgOutputFine == based.avgOutputFine
  {
    var based := Baseline(c, LevelOf(run.mode, c), run.output, run.signal);
    GatesKeepBaseline(p, Noted(p, based, Overhead(run.signal), run.signal), run.mode.Auto?);
    hide Baseline, ObservedValue, GateOne, EfficiencyGates;
  }

  lemma GatesKeepBaseline(p: Policy, c: Controller, switching: bool)
    requires c.observations != []
    ensures
      var d := EfficiencyGates(p, GateOne(p, c, switching), switching);
      d.lastFineOutput == c.lastFineOutput && d.avgOutputFine == c.avgOutputFine
  {
    hide Vote, TooSlow, NoGain, Enough;
  }

  /** A run whose mode was not left to the controller is only observed: it changes no mode, no model and no streak, and
      nobody judges it. */
  lemma ForcedRunsOnlyObserve(p: Policy, g: Group, c: Controller, run: Run)
    requires !run.mode.Auto?
    ensures
      var d := PostRun(p, g, c, run);
      && SameCooling(c, d) && SameLadder(c, d)
      && |d.observations| == |c.observations| + 1
  {
    ObservationKeeps(p, c, run);
    RunObserves(p, g, c, run);
    ObservingOnlyKeepsMode(p, Baseline(c, LevelOf(run.mode, c), run.output, run.signal), Overhead(run.signal),
                           run.signal);
    hide Record, ObservedValue, Voting;
  }

  // ----- the reactive gate --------------------------------------------------------------------

  function TextOr(text: Option<string>, other: string): string {
    match text
    case Some(s) => s
    case None => other
  }

  /** The run is compared with the baseline: it ran compound, by the controller's own choice, under an evaluator, and
      there is a baseline. */
  predicate Compared(c: Controller, run: Run) {
    run.mode.Auto? && run.judge.Some? && c.mode.Compound? && c.lastFineOutput.Some?
  }

  /** The verdict compares the last fine output, first, with what this run said; silence counts as an empty text. */
  function VerdictOn(c: Controller, run: Run): real
    requires Compared(c, run)
  {
    run.judge.value(c.lastFineOutput.value, TextOr(run.output, ""))
  }

  lemma ComparedIsJudged(p: Policy, c: Controller, run: Run)
    requires c.mode.Compound?
    ensures Compared(c, run) <==> Judged(p, c, run)
    ensures Compared(c, run) ==>
      run.judge.value(Observation(p, c, run).lastFineOutput.value, OrEmpty(run.output)) == VerdictOn(c, run)
  {
    ObservationKeepsBaseline(p, c, run);
    hide Observation;
  }

  /** Every verdict goes on record, and nothing else does: a compound run that nobody compares leaves scores, streaks
      and model alone. */
  lemma EveryVerdictIsRecorded(p: Policy, g: Group, c: Controller, run: Run)
    requires c.mode.Compound?
    ensures
      var d := PostRun(p, g, c, run);
      && (Compared(c, run) ==> d.qualityScores == c.qualityScores + [VerdictOn(c, run)])
      && (!Compared(c, run) ==> SameLadder(c, d))
      && (!p.escalationEnabled || p.qualityFloor.None? ==> SameLadder(c, d.(qualityScores := c.qualityScores)))
  {
    ComparedIsJudged(p, c, run);
    ObservationKeeps(p, c, run);
    hide Observation, DecidingScore;
  }

  function VerdictWindow(p: Policy, c: Controller, run: Run): seq<real>
    requires Compared(c, run)
  {
    Last(c.qualityScores + [VerdictOn(c, run)], p.windowSize)
  }

  /** The verdicts of the window, this one included, miss the floor on average; if they add up to nothing, the last one
      speaks for itself. */
  predicate FailsOnAverage(p: Policy, c: Controller, run: Run)
    requires Compared(c, run) && p.qualityFloor.Some?
  {
    var w := VerdictWindow(p, c, run);
    if Sum(w) == 0.0 then VerdictOn(c, run) < p.qualityFloor.value
    else Sum(w) < p.qualityFloor.value * |w| as real
  }

  lemma DecidingInSums(p: Policy, scores: seq<real>, latest: real, floor: real)
    requires scores != []
    ensures
      var w := Last(scores, p.windowSize);
      DecidingScore(p, scores, latest) < floor <==>
        if Sum(w) == 0.0 then latest < floor else Sum(w) < floor * |w| as real
  {
    MeanAgainst(scores, p.windowSize, floor);
    hide Mean, Sum, Last;
  }

  lemma FailsIs(p: Policy, c: Controller, run: Run)
    requires Compared(c, run) && p.qualityFloor.Some?
    ensures
      var w := VerdictWindow(p, c, run);
      FailsOnAverage(p, c, run) <==>
        if Sum(w) == 0.0 then VerdictOn(c, run) < p.qualityFloor.value else Sum(w) < p.qualityFloor.value * |w| as real
  {
    hide Sum, VerdictOn, Compared, VerdictWindow;
  }

  lemma BelowIs(p: Policy, c: Controller, run: Run)
    requires Compared(c, run) && Escalates(p)
    ensures Weighed(p, c, run) && p.qualityFloor.Some?
    ensures Below(p, c, run) <==>
      DecidingScore(p, c.qualityScores + [VerdictOn(c, run)], VerdictOn(c, run)) < p.qualityFloor.value
  {
    ComparedIsCompound(c, run);
    ComparedIsJudged(p, c, run);
    ObservationKeeps(p, c, run);
    hide Observation, DecidingScore, VerdictOn, Compared, Judged, Voting;
  }

  lemma DecidedByWindow(p: Policy, c: Controller, run: Run)
    requires Compared(c, run) && p.qualityFloor.Some?
    ensures
      var w := VerdictWindow(p, c, run);
      DecidingScore(p, c.qualityScores + [VerdictOn(c, run)], VerdictOn(c, run)) < p.qualityFloor.value <==>
        if Sum(w) == 0.0 then VerdictOn(c, run) < p.qualityFloor.value else Sum(w) < p.qualityFloor.value * |w| as real
  {
    hide DecidingScore, VerdictOn, Compared, Sum, Last;
    DecidingInSums(p, c.qualityScores + [VerdictOn(c, run)], VerdictOn(c, run), p.qualityFloor.value);
  }

  lemma AverageIsBelow(p: Policy, c: Controller, run: Run)
    requires Compared(c, run) && Escalates(p)
    ensures Weighed(p, c, run) && p.qualityFloor.Some? && (Below(p, c, run) <==> FailsOnAverage(p, c, run))
  {
    hide *;
    BelowIs(p, c, run);
    DecidedByWindow(p, c, run);
    FailsIs(p, c, run);
  }

  lemma ComparedIsCompound(c: Controller, run: Run)
    requires Compared(c, run)
    ensures c.mode.Compound? && run.judge.Some?
  {
  }

  /** What a verdict does to the ladder. It counts as a failure exactly when the window fails on average. Enough
      failures in a row take the group one rung up, from the model it has been given or else the one its policy names;
      without either, and at the top, they only pile up. Enough passes in a row take it one rung down. */
  lemma VerdictsMoveTheModel(p: Policy, g: Group, c: Controller, run: Run)
    requires Compared(c, run) && p.escalationEnabled && p.qualityFloor.Some?
    ensures
      var d := PostRun(p, g, c, run);
      var from := if c.modelOverride.Some? then c.modelOverride
                  else if p.executionModel.Explicit? then Some(p.executionModel.model) else None;
      if FailsOnAverage(p, c, run) then
        d.successStreak == 0 &&
        if c.failureStreak + 1 >= p.escalationMinFailures && (from == Some(Standard) || from == Some(TwoPhase))
        then d.failureStreak == 0 && d.modelOverride == Some(if from == Some(Standard) then TwoPhase else Sequential)
        else d.failureStreak == c.failureStreak + 1 && d.modelOverride == c.modelOverride
      else
        d.failureStreak == 0 &&
        if c.successStreak + 1 >= p.escalationDecayWindow && c.modelOverride.Some?
        then d.successStreak == 0 && d.modelOverride == (
               if c.modelOverride == Some(Sequential) then Some(TwoPhase)
               else if c.modelOverride == Some(TwoPhase) then Some(Standard) else None)
        else d.successStreak == c.successStreak + 1 && d.modelOverride == c.modelOverride
  {
    AverageIsBelow(p, c, run);
    WeighedReacts(p, g, c, run);
    ComparedIsJudged(p, c, run);
    var seen := Observation(p, c, run);
    hide FailsOnAverage, PostRun, Observation, DecidingScore, VerdictOn, Compared;
    assert Below(p, c, run) <==>
      DecidingScore(p, seen.qualityScores + [VerdictOn(c, run)], VerdictOn(c, run)) < p.qualityFloor.value;
    hide Below, Weighed;
  }

  /** A bad verdict that its window outweighs ends the streak of failures and never moves the group up. */
  lemma OutweighedVerdict(p: Policy, g: Group, c: Controller, run: Run)
    requires Compared(c, run) && p.escalationEnabled && p.qualityFloor.Some?
    requires
      var w := VerdictWindow(p, c, run);
      VerdictOn(c, run) < p.qualityFloor.value && Sum(w) != 0.0 && Sum(w) >= p.qualityFloor.value * |w| as real
    ensures
      var d := PostRun(p, g, c, run);
      && d.failureStreak == 0 && (d.successStreak == c.successStreak + 1 || d.successStreak == 0)
      && OverrideHeight(d.modelOverride) <= OverrideHeight(c.modelOverride)
  {
    hide *;
    VerdictsMoveTheModel(p, g, c, run);
    FailsIs(p, c, run);
    StepDownIsLower(c.modelOverride);
  }

  lemma StepDownIsLower(o: Option<Model>)
    ensures o.Some? ==>
      var lower :=
        if o == Some(Sequential) then Some(TwoPhase) else if o == Some(TwoPhase) then Some(Standard) else None;
      OverrideHeight(lower) < OverrideHeight(o)
  {
  }

  // ----- the shadow comparison ----------------------------------------------------------------

  /** Fine runs are not weighed: without a shadow comparison they leave scores, streaks and model alone. */
  lemma FineRunsAreNotJudged(p: Policy, g: Group, c: Controller, run: Run)
    requires c.mode.Fine?
    requires !run.mode.Auto? || run.judge.None? || p.qualityFloor.None? || Observation(p, c, run).mode.Fine?
    ensures SameLadder(c, PostRun(p, g, c, run)) && PostRun(p, g, c, run) == Observation(p, c, run)
  {
    ObservationKeeps(p, c, run);
    hide Observation, DecidingScore;
  }

  /** The models that a comparison starting here may try, cheapest first. */
  function Upwards(choice: ModelChoice, start: Model): (models: seq<Model>)
    ensures models != [] && models[0] == start
    ensures choice.Explicit? ==> models == [start]
    ensures choice.Automatic? ==>
      && models[|models| - 1] == Sequential
      && forall i :: 0 < i < |models| ==>
           (models[i] == TwoPhase && models[i - 1] == Standard)
             || (models[i] == Sequential && models[i - 1] == TwoPhase)
  {
    if choice.Explicit? then [start]
    else match start
      case Standard => [Standard, TwoPhase, Sequential]
      case TwoPhase => [TwoPhase, Sequential]
      case Sequential => [Sequential]
  }

  lemma CandidatesAre(p: Policy, start: Model)
    ensures Candidates(p, start) == Upwards(p.executionModel, start)
  {
  }

  /** How the shadow run of a model compares with what this run said. */
  function ShadowVerdict(run: Run, m: Model): real
    requires run.judge.Some?
  {
    run.judge.value(TextOr(run.output, ""), run.shadow(m))
  }

  /** The comparison tries the models upwards from the first and stops at the first one that meets the floor; all it
      tried is on record. That model is kept, as an override unless it was the first; if there is none, the group
      goes back to fine. */
  lemma ShadowRunsDecide(p: Policy, g: Group, c: Controller, run: Run, k: nat)
    requires run.mode.Auto? && run.judge.Some? && p.qualityFloor.Some? && c.mode.Fine?
    requires Observation(p, c, run).mode.Compound?
    requires
      var models := Upwards(p.executionModel, StartModel(p, g, c, run));
      && k <= |models|
      && (forall j :: 0 <= j < k ==> ShadowVerdict(run, models[j]) < p.qualityFloor.value)
      && (k < |models| ==> ShadowVerdict(run, models[k]) >= p.qualityFloor.value)
    ensures
      var models := Upwards(p.executionModel, StartModel(p, g, c, run));
      var d := PostRun(p, g, c, run);
      && d.mode == (if k < |models| then Compound else Fine)
      && d.revertCount == Observation(p, c, run).revertCount + (if k < |models| then 0 else 1)
      && d.modelOverride == (if 0 < k < |models| then Some(models[k]) else c.modelOverride)
      && |d.qualityScores| == |c.qualityScores| + (if k < |models| then k + 1 else k)
      && c.qualityScores <= d.qualityScores
      && forall j :: 0 <= j < |d.qualityScores| - |c.qualityScores| ==>
           d.qualityScores[|c.qualityScores| + j] == ShadowVerdict(run, models[j])
  {
    var start, quality := StartModel(p, g, c, run), ShadowQuality(run);
    var models := Candidates(p, start);
    CandidatesAre(p, start);
    ObservationKeeps(p, c, run);
    assert forall m :: quality(m) == ShadowVerdict(run, m);
    OneFirst(models, quality, p.qualityFloor.value);
    assert k < |models| ==> PassesFirst(models, quality, p.qualityFloor.value, k);
    assert k == FirstAccepted(models, quality, p.qualityFloor.value);
    hide Observation, StartModel, FirstAccepted, Upwards, PassesFirst, Reacted;
  }

  // ----- the execution model ------------------------------------------------------------------

  /** The model of a compound run: the override, or the one the policy names; if the policy leaves the choice open,
      sequential for a branching group that was passed along, and otherwise by how much the last ten fine runs have
      said, where too few runs count as few words and tools ask for two phases at least. */
  lemma ModelOfCompoundRun(p: Policy, g: Group, c: Controller, compiled: bool)
    ensures
      var said := Last(c.avgOutputFine, 10);
      var m := Resolve(p, g, c, Compound, compiled);
      && (c.modelOverride.Some? ==> m == c.modelOverride.value)
      && (c.modelOverride.None? && p.executionModel.Explicit? ==> m == p.executionModel.model)
      && (c.modelOverride.None? && p.executionModel.Automatic? ==>
            if compiled && g.branching then m == Sequential
            else if |c.avgOutputFine| < 3 || Sum(said) < p.twoPhaseThreshold as real * |said| as real
            then m == if g.hasTools then TwoPhase else Standard
            else m == if Sum(said) < p.sequentialThreshold as real * |said| as real then TwoPhase else Sequential)
  {
    MeanAgainst(c.avgOutputFine, 10, p.twoPhaseThreshold as real);
    MeanAgainst(c.avgOutputFine, 10, p.sequentialThreshold as real);
    hide Mean, Last, Sum;
  }

  /** A comparison starts from the model that a compound run would use if nobody looked at the group's branching, after
      this run's own output has been counted. */
  lemma WhereComparisonsStart(p: Policy, g: Group, c: Controller, run: Run)
    ensures StartModel(p, g, c, run) ==
      Resolve(p, Group(false, g.hasTools), c.(avgOutputFine := PostRun(p, g, c, run).avgOutputFine), Compound, true)
  {
    ObservationKeeps(p, c, run);
    ObservationKeepsBaseline(p, c, run);
    WhatStaysOfAnOutput(p, g, c, run);
    hide Observation, PostRun, Mean;
    assert Observation(p, c, run).avgOutputFine == PostRun(p, g, c, run).avgOutputFine;
  }
}
