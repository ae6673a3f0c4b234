/** What holds of a group's controller over every sequence of runs. */
module ControllerRuns {
  import opened Wrappers
  import opened Policies
  import opened Series
  import opened GroupController
  import opened QualityGate

  /** The controller after a sequence of runs under one policy. */
  function After(p: Policy, g: Group, c: Controller, runs: seq<Run>): Controller
    decreases |runs|
  {
    if runs == [] then c else
      var k := |runs| - 1;
      PostRun(p, g, After(p, g, c, runs[..k]), runs[k])
  }

  // ----- what each part of the step leaves alone ---------------------------------------------

  /** The state in which Gate 1 takes its vote. */
  function Voting(p: Policy, c: Controller, run: Run): Controller {
    Noted(p, Baseline(c, LevelOf(run.mode, c), run.output, run.signal), Overhead(run.signal), run.signal)
  }

  ghost predicate SameLadder(c: Controller, d: Controller) {
    && d.modelOverride == c.modelOverride && d.qualityScores == c.qualityScores
    && d.failureStreak == c.failureStreak && d.successStreak == c.successStreak
  }

  ghost predicate SameCooling(c: Controller, d: Controller) {
    d.mode == c.mode && d.revertFloor == c.revertFloor && d.revertCount == c.revertCount
  }

  ghost predicate SameSeries(c: Controller, d: Controller) {
    d.observations == c.observations && d.latencyCompound == c.latencyCompound
  }

  lemma VotingKeeps(p: Policy, c: Controller, run: Run)
    ensures
      var v := Voting(p, c, run);
      && SameLadder(c, v) && SameCooling(c, v)
      && v.observations == c.observations + [ObservedValue(p, Overhead(run.signal), run.signal)]
      && (c.mode.Fine? ==> v.latencyCompound == c.latencyCompound)
  {
    hide CompositionScore;
  }

  lemma GatesKeep(p: Policy, c: Controller, switching: bool)
    requires c.observations != []
    ensures
      var voted := GateOne(p, c, switching);
      var d := EfficiencyGates(p, voted, switching);
      SameLadder(c, d) && SameSeries(c, d) && SameSeries(voted, d)
  {
    hide Vote, TooSlow, NoGain, Enough;
  }

  lemma ObservationKeeps(p: Policy, c: Controller, run: Run)
    ensures
      var seen := Observation(p, c, run);
      && SameLadder(c, seen) && SameSeries(Voting(p, c, run), seen)
      && (c.mode.Fine? ==> seen.latencyCompound == c.latencyCompound)
  {
    VotingKeeps(p, c, run);
    GatesKeep(p, Voting(p, c, run), run.mode.Auto?);
    hide Noted, Baseline, EfficiencyGates, GateOne;
  }

  /** The quality gates come after the observation; only a failed shadow comparison still changes the mode. */
  lemma JudgingKeeps(p: Policy, g: Group, c: Controller, run: Run)
    ensures
      var seen, d := Observation(p, c, run), PostRun(p, g, c, run);
      && SameSeries(seen, d)
      && (SameCooling(seen, d) || (c.mode.Fine? && seen.mode.Compound? && SameCooling(Reverted(seen), d)))
  {
    hide Observation, Resolve, Quality, DecidingScore;
  }

  // ----- every run adds one observation -------------------------------------------------------

  lemma RunObserves(p: Policy, g: Group, c: Controller, run: Run)
    ensures PostRun(p, g, c, run).observations == c.observations + [ObservedValue(p, Overhead(run.signal), run.signal)]
    ensures Voting(p, c, run).observations == PostRun(p, g, c, run).observations
    ensures Observation(p, c, run).observations == PostRun(p, g, c, run).observations
  {
    VotingKeeps(p, c, run);
    ObservationKeeps(p, c, run);
    JudgingKeeps(p, g, c, run);
    hide PostRun, Voting, Observation, ObservedValue;
  }

  lemma {:induction false} RunsObserve(p: Policy, g: Group, c: Controller, runs: seq<Run>)
    ensures
      var after := After(p, g, c, runs);
      |after.observations| == |c.observations| + |runs| && c.observations <= after.observations
    decreases |runs|
  {
    if runs != [] {
      var k := |runs| - 1;
      RunsObserve(p, g, c, runs[..k]);
      RunObserves(p, g, After(p, g, c, runs[..k]), runs[k]);
      hide PostRun, Voting, Observation, ObservedValue;
    }
  }

  // ----- dwell time ---------------------------------------------------------------------------

  /** Gate 1 takes the group out of the mode it is in. */
  predicate GateOneLeaves(p: Policy, c: Controller, mode: Level, run: Run) {
    run.mode.Auto? && c.mode == mode && Convinced(p, Voting(p, c, run))
  }

  function WindowLength(p: Policy, c: Controller): nat {
    |Window(p, c)|
  }

  /** The votes among these observations for leaving a mode. */
  function Votes(p: Policy, mode: Level, w: seq<real>): nat {
    if mode.Fine? then CountAtLeast(w, p.composeAt) else CountAtMost(w, p.decomposeAt)
  }

  /** The votes behind such a switch, counted in the last entries of the history. */
  ghost predicate Outvoted(p: Policy, mode: Level, history: seq<real>, m: nat) {
    && 0 < m <= |history|
    && Votes(p, mode, history[|history| - m..|history|]) as real >= p.confidence * m as real
  }

  lemma VotesInWindow(p: Policy, v: Controller)
    requires v.observations != [] && Convinced(p, v)
    ensures Outvoted(p, v.mode, v.observations, WindowLength(p, v))
  {
    hide Enough, CountAtLeast, CountAtMost;
    var w := Window(p, v);
    assert w == v.observations[|v.observations| - |w|..|v.observations|];
    ShareIsCount(Votes(p, v.mode, w), |w|, p.confidence);
  }

  lemma GateOneOutvotes(p: Policy, c: Controller, mode: Level, run: Run)
    requires GateOneLeaves(p, c, mode, run)
    ensures
      var v := Voting(p, c, run);
      Outvoted(p, mode, v.observations, WindowLength(p, v)) && |v.observations| == |c.observations| + 1
  {
    VotingKeeps(p, c, run);
    VotesInWindow(p, Voting(p, c, run));
    hide Voting, Outvoted, Convinced, WindowLength;
  }

  /** No observation votes both ways. */
  lemma VotesExclude(p: Policy, mode: Level, other: Level, s: seq<real>, a: nat, b: nat, c: nat, d: nat)
    requires mode != other && a <= b <= d <= |s| && a <= c <= d
    ensures Votes(p, mode, s[a..b]) + Votes(p, other, s[c..d]) <= d - a
  {
    hide CountAtLeast, CountAtMost;
    TwoStretches(s, a, b, c, d, p.decomposeAt, p.composeAt);
  }

  /** The arithmetic of two opposite switches d observations apart. */
  lemma OppositeVotes(p: Policy, s: seq<real>, m1: nat, t: seq<real>, m2: nat, mode: Level, other: Level)
    requires s <= t && Outvoted(p, mode, s, m1) && Outvoted(p, other, t, m2) && mode != other
    requires |t| - m2 >= |s| - m1
    ensures |t| - |s| >= VotesNeeded(p.confidence, m1) + VotesNeeded(p.confidence, m2) - m1
  {
    hide Votes, VotesNeeded;
    assert s[|s| - m1..|s|] == t[|s| - m1..|s|];
    VotesExclude(p, mode, other, t, |s| - m1, |s|, |t| - m2, |t|);
    EnoughVotes(p.confidence, m1, Votes(p, mode, t[|s| - m1..|s|]));
    EnoughVotes(p.confidence, m2, Votes(p, other, t[|t| - m2..|t|]));
  }

  lemma WindowsGrow(p: Policy, c: Controller, d: Controller)
    requires |c.observations| <= |d.observations|
    ensures |d.observations| - WindowLength(p, d) >= |c.observations| - WindowLength(p, c)
    ensures |c.observations| >= p.windowSize ==> WindowLength(p, c) == p.windowSize
  {
  }

  lemma Distribute(a: real, x: real, y: real)
    ensures a * (x + y) == a * x + a * y
  {
  }

  /** Gate 1 takes the group out of a mode in run `first` and, after the runs between, back out of the other in run
      `last`. */
  ghost predicate SwitchesBack(p: Policy, g: Group, c: Controller, mode: Level, first: Run, between: seq<Run>,
                               last: Run) {
    && GateOneLeaves(p, c, mode, first)
    && var switched := After(p, g, PostRun(p, g, c, first), between);
    && switched.mode != mode && GateOneLeaves(p, switched, switched.mode, last)
  }

  lemma BothSwitches(p: Policy, g: Group, c: Controller, mode: Level, first: Run, between: seq<Run>, last: Run)
    requires SwitchesBack(p, g, c, mode, first, between, last)
    ensures
      var switched := After(p, g, PostRun(p, g, c, first), between);
      GateOneLeaves(p, c, mode, first) && switched.mode != mode && GateOneLeaves(p, switched, switched.mode, last)
  {
    hide PostRun, After, GateOneLeaves;
  }

  /** The two switches of SwitchesBack, counted in whole votes. */
  lemma VotesApart(p: Policy, g: Group, c: Controller, first: Run, between: seq<Run>, last: Run, mode: Level)
    requires SwitchesBack(p, g, c, mode, first, between, last)
    ensures
      var switched := After(p, g, PostRun(p, g, c, first), between);
      var m1 := WindowLength(p, Voting(p, c, first));
      var m2 := WindowLength(p, Voting(p, switched, last));
      && |between| + 1 >= VotesNeeded(p.confidence, m1) + VotesNeeded(p.confidence, m2) - m1
      && (|c.observations| + 1 >= p.windowSize ==> m1 == m2 == p.windowSize)
  {
    hide *;
    var c1 := PostRun(p, g, c, first);
    var c2 := After(p, g, c1, between);
    BothSwitches(p, g, c, mode, first, between, last);
    GateOneOutvotes(p, c, mode, first);
    GateOneOutvotes(p, c2, c2.mode, last);
    RunObserves(p, g, c, first);
    RunsObserve(p, g, c1, between);
    RunObserves(p, g, c2, last);
    var v1, v2 := Voting(p, c, first), Voting(p, c2, last);
    WindowsGrow(p, v1, v2);
    WindowsGrow(p, v2, v2);
    OppositeVotes(p, v1.observations, WindowLength(p, v1), v2.observations, WindowLength(p, v2), mode, c2.mode);
  }

  /** What the votes say in terms of the confidence, for any two windows and for two full ones. */
  lemma BoundsByConfidence(p: Policy, m1: nat, m2: nat, d: nat)
    requires d >= VotesNeeded(p.confidence, m1) + VotesNeeded(p.confidence, m2) - m1
    ensures d as real >= p.confidence * (m1 + m2) as real - m1 as real
    ensures m1 == m2 == p.windowSize ==>
      && d >= 2 * VotesNeeded(p.confidence, p.windowSize) - p.windowSize
      && d as real >= (2.0 * p.confidence - 1.0) * p.windowSize as real
  {
    hide VotesNeeded;
    Distribute(p.confidence, m1 as real, m2 as real);
  }

  /** Once Gate 1 has switched a group, it cannot switch it back before d further runs, where the two windows
      bound d from below: enough of the votes that led to the switch have to leave the window first. Votes
      are counted in whole numbers; the bounds by the confidence itself follow. */
  lemma DwellTime(p: Policy, g: Group, c: Controller, first: Run, between: seq<Run>, last: Run, mode: Level)
    requires SwitchesBack(p, g, c, mode, first, between, last)
    ensures
      var switched := After(p, g, PostRun(p, g, c, first), between);
      var m1 := WindowLength(p, Voting(p, c, first));
      var m2 := WindowLength(p, Voting(p, switched, last));
      && |between| + 1 >= VotesNeeded(p.confidence, m1) + VotesNeeded(p.confidence, m2) - m1
      && (|between| + 1) as real >= p.confidence * (m1 + m2) as real - m1 as real
      && (|c.observations| + 1 >= p.windowSize ==>
            && |between| + 1 >= 2 * VotesNeeded(p.confidence, p.windowSize) - p.windowSize
            && (|between| + 1) as real >= (2.0 * p.confidence - 1.0) * p.windowSize as real)
  {
    hide *;
    VotesApart(p, g, c, first, between, last, mode);
    var switched := After(p, g, PostRun(p, g, c, first), between);
    BoundsByConfidence(
      p, WindowLength(p, Voting(p, c, first)), WindowLength(p, Voting(p, switched, last)), |between| + 1);
  }

  // ----- cooldown -----------------------------------------------------------------------------

  /** What k reverts cost, in units of the smallest number of observations. */
  function Cooldown(k: nat): nat {
    if k == 0 then 0 else Cooldown(k - 1) + if k < 5 then k else 5
  }

  lemma {:induction false} CooldownIsLinear(k: nat)
    requires k >= 4
    ensures Cooldown(k) == 5 * k - 10
  {
    if k == 4 {
      assert Cooldown(1) == 1 && Cooldown(2) == 3 && Cooldown(3) == 6;
    } else {
      CooldownIsLinear(k - 1);
    }
  }

  ghost predicate Cooled(p: Policy, c: Controller) {
    && c.revertFloor <= |c.observations|
    && c.revertFloor >= p.minObservations * Cooldown(c.revertCount)
    && (c.mode.Compound? ==> Enough(p, c))
  }

  lemma RevertCools(p: Policy, c: Controller)
    requires Cooled(p, c) && Enough(p, c)
    ensures Cooled(p, Reverted(c))
  {
    var k := c.revertCount;
    assert Patience(p, k) == p.minObservations * (Cooldown(k + 1) - Cooldown(k));
    assert p.minObservations * Cooldown(k + 1) == p.minObservations * Cooldown(k) + Patience(p, k);
  }

  /** At most one revert, and only into fine mode with the cooldown restarted. */
  ghost predicate RevertsOnce(c: Controller, d: Controller) {
    || (d.revertCount == c.revertCount && d.revertFloor == c.revertFloor && (c.mode.Compound? ==> d.mode.Compound?))
    || (d.revertCount == c.revertCount + 1 && d.revertFloor == |d.observations| && d.mode.Fine?)
  }

  lemma GatesCool(p: Policy, c: Controller, switching: bool)
    requires Cooled(p, c) && c.observations != []
    ensures
      var d := EfficiencyGates(p, GateOne(p, c, switching), switching);
      Cooled(p, d) && RevertsOnce(c, d)
  {
    hide Vote, TooSlow, NoGain, Cooldown;
    if Enough(p, c) {
      RevertCools(p, c);
      RevertCools(p, c.(mode := Compound, confidence := 0.0));
      if c.mode.Compound? {
        RevertCools(p, c.(confidence := Vote(p, c)));
      }
    }
  }

  lemma ObservationCools(p: Policy, c: Controller, run: Run)
    requires Cooled(p, c)
    ensures Cooled(p, Observation(p, c, run)) && RevertsOnce(c, Observation(p, c, run))
  {
    VotingKeeps(p, c, run);
    var v := Voting(p, c, run);
    assert Observation(p, c, run) == EfficiencyGates(p, GateOne(p, v, run.mode.Auto?), run.mode.Auto?);
    hide Voting, Observation, EfficiencyGates, GateOne, Cooldown, SameLadder, ObservedValue;
    GatesCool(p, v, run.mode.Auto?);
  }

  lemma RunCools(p: Policy, g: Group, c: Controller, run: Run)
    requires Cooled(p, c)
    ensures Cooled(p, PostRun(p, g, c, run)) && RevertsOnce(c, PostRun(p, g, c, run))
  {
    ObservationCools(p, c, run);
    JudgingKeeps(p, g, c, run);
    hide PostRun, Observation, Cooldown;
    var seen := Observation(p, c, run);
    if seen.mode.Compound? {
      RevertCools(p, seen);
    }
  }

  /** In every history of a group, k reverts have been paid for with min_observations * (1 + 2 + 3 + 4 + 5 + 5 + ...)
      observations, whatever gates caused them. */
  lemma {:induction false} RevertsAreRare(p: Policy, g: Group, runs: seq<Run>)
    ensures
      var c := After(p, g, FRESH, runs);
      && Cooled(p, c) && |runs| == |c.observations|
      && |runs| >= p.minObservations * Cooldown(c.revertCount) && c.revertCount <= |runs|
    decreases |runs|
  {
    RunsObserve(p, g, FRESH, runs);
    if runs != [] {
      var k := |runs| - 1;
      RevertsAreRare(p, g, runs[..k]);
      RunCools(p, g, After(p, g, FRESH, runs[..k]), runs[k]);
      hide PostRun, Cooldown;
    } else {
      assert Cooldown(0) == 0;
    }
  }

  // ----- the shadow gate ----------------------------------------------------------------------

  /** The candidate at i passed after all earlier ones had failed. */
  ghost predicate PassesFirst(ladder: seq<Model>, quality: Model -> real, floor: real, i: int) {
    0 <= i < |ladder| && quality(ladder[i]) >= floor && forall j :: 0 <= j < i ==> quality(ladder[j]) < floor
  }

  lemma OneFirst(ladder: seq<Model>, quality: Model -> real, floor: real)
    ensures FirstAccepted(ladder, quality, floor) == |ladder| <==> forall i :: !PassesFirst(ladder, quality, floor, i)
    ensures forall i :: PassesFirst(ladder, quality, floor, i) ==> i == FirstAccepted(ladder, quality, floor)
  {
    var k := FirstAccepted(ladder, quality, floor);
    if k < |ladder| {
      assert PassesFirst(ladder, quality, floor, k);
    }
    forall i | PassesFirst(ladder, quality, floor, i) ensures i == k {
    }
  }

  /** The accepted candidate of a shadow comparison. */
  ghost predicate Accepts(p: Policy, g: Group, c: Controller, run: Run, i: int)
    requires run.judge.Some? && p.qualityFloor.Some?
  {
    PassesFirst(Candidates(p, StartModel(p, g, c, run)), ShadowQuality(run), p.qualityFloor.value, i)
  }

  /** With an evaluator and a floor, a fine group turns compound if and only if the controller switches it and
      some candidate model meets the floor after all cheaper candidates have missed it. */
  lemma ShadowGateDecides(p: Policy, g: Group, c: Controller, run: Run)
    requires run.mode.Auto? && run.judge.Some? && p.qualityFloor.Some? && c.mode.Fine?
    ensures PostRun(p, g, c, run).mode.Compound? <==>
            Observation(p, c, run).mode.Compound? && exists i :: Accepts(p, g, c, run, i)
  {
    OneFirst(Candidates(p, StartModel(p, g, c, run)), ShadowQuality(run), p.qualityFloor.value);
    hide Observation, StartModel, ShadowQuality;
    var k := FirstAccepted(Candidates(p, StartModel(p, g, c, run)), ShadowQuality(run), p.qualityFloor.value);
    assert Accepts(p, g, c, run, k) <==> k < |Candidates(p, StartModel(p, g, c, run))|;
  }

  /** The accepted model is the one the next compound run uses, unless the model is chosen automatically for a
      branching group without a fixed model and the first candidate, not sequential, was accepted: the shadow
      comparison does not look at the branching, the run does. */
  lemma NextRunUsesAccepted(p: Policy, g: Group, c: Controller, run: Run, i: int)
    requires run.mode.Auto? && run.judge.Some? && p.qualityFloor.Some? && c.mode.Fine?
    requires PostRun(p, g, c, run).mode.Compound? && Accepts(p, g, c, run, i)
    ensures
      var accepted := Candidates(p, StartModel(p, g, c, run))[i];
      Resolve(p, g, PostRun(p, g, c, run), Compound, true) == accepted <==>
        !(p.executionModel.Automatic? && c.modelOverride.None? && g.branching && i == 0 && accepted != Sequential)
  {
    var seen, start := Observation(p, c, run), StartModel(p, g, c, run);
    assert seen.modelOverride == c.modelOverride;
    var ladder := Candidates(p, start);
    OneFirst(ladder, ShadowQuality(run), p.qualityFloor.value);
    assert ladder[0] == start && (i > 0 ==> ladder[i] != start);
    hide Observation, ShadowQuality, FirstAccepted, VerbosityModel, Scores, PassesFirst;
  }

  /** One observation of pure coordination is enough for a policy that asks for no more. */
  lemma EagerSwitch(p: Policy, run: Run)
    requires p.minObservations == 1 && p.windowSize == 1 && p.scoreWeights.None? && p.latencyThreshold.None?
    requires run.mode.Auto? && run.signal == Some(Signal(1.0, 1, 0.0, 0.0, 0, 0.0, 0.0, 0.0, 0))
    ensures
      var seen := Observation(p, FRESH, run);
      seen.mode.Compound? && seen.avgOutputFine == [] && seen.modelOverride.None?
  {
    var v := Voting(p, FRESH, run);
    assert v == FRESH.(observations := [1.0], lastFineOutput := run.output);
    hide Voting, Noted, Baseline;
    assert Window(p, v) == [1.0] && CountAtLeast([1.0], p.composeAt) == 1;
  }

  /** An accepted model that the next run does not use. */
  lemma AcceptedButNotUsed() returns (p: Policy, g: Group, run: Run)
    ensures run.mode.Auto? && run.judge.Some? && p.qualityFloor.Some?
    ensures PostRun(p, g, FRESH, run).mode.Compound? && Accepts(p, g, FRESH, run, 0)
    ensures Resolve(p, g, PostRun(p, g, FRESH, run), Compound, true) != Candidates(p, StartModel(p, g, FRESH, run))[0]
  {
    p := PolicyFields(0.5, 0.1, 1.0, 1, 1, None, 1.0, 1.0, None, Some(0.5), Automatic, 1, 2, true, 1, 1);
    g := Group(true, false);
    run := Run(Auto, Some(Signal(1.0, 1, 0.0, 0.0, 0, 0.0, 0.0, 0.0, 0)), Some(""), Some((a, b) => 1.0), m => "");
    EagerSwitch(p, run);
    hide Observation;
    assert StartModel(p, g, FRESH, run) == Standard;
    assert Accepts(p, g, FRESH, run, 0);
    hide StartModel, PostRun, Accepts, ShadowQuality;
    ShadowGateDecides(p, g, FRESH, run);
    NextRunUsesAccepted(p, g, FRESH, run, 0);
  }

  /** Every run leaves the choice to the controller and has an evaluator. */
  ghost predicate Supervised(runs: seq<Run>) {
    forall i :: 0 <= i < |runs| ==> runs[i].mode.Auto? && runs[i].judge.Some?
  }

  /** In run k a shadow comparison accepted a model. */
  ghost predicate AcceptedIn(p: Policy, g: Group, runs: seq<Run>, k: int)
    requires Supervised(runs) && p.qualityFloor.Some?
  {
    && 0 <= k < |runs|
    && After(p, g, FRESH, runs[..k]).mode.Fine?
    && exists i :: Accepts(p, g, After(p, g, FRESH, runs[..k]), runs[k], i)
  }

  ghost predicate CompoundAfter(p: Policy, g: Group, runs: seq<Run>, j: nat) {
    j <= |runs| && After(p, g, FRESH, runs[..j]).mode.Compound?
  }

  /** A model was accepted in run k, and the group has been in compound mode since. */
  ghost predicate Vetted(p: Policy, g: Group, runs: seq<Run>, k: int)
    requires Supervised(runs) && p.qualityFloor.Some?
  {
    AcceptedIn(p, g, runs, k) && forall j :: k < j <= |runs| ==> CompoundAfter(p, g, runs, j)
  }

  lemma SamePast(p: Policy, g: Group, runs: seq<Run>, k: int)
    requires runs != [] && Supervised(runs) && Supervised(runs[..|runs| - 1]) && p.qualityFloor.Some?
    ensures AcceptedIn(p, g, runs[..|runs| - 1], k) ==> AcceptedIn(p, g, runs, k)
    ensures 0 <= k < |runs| && CompoundAfter(p, g, runs[..|runs| - 1], k) ==> CompoundAfter(p, g, runs, k)
  {
    if 0 <= k < |runs| {
      assert runs[..|runs| - 1][..k] == runs[..k];
    }
    hide After, Accepts;
  }

  lemma Whole(p: Policy, g: Group, runs: seq<Run>)
    ensures CompoundAfter(p, g, runs, |runs|) <==> After(p, g, FRESH, runs).mode.Compound?
  {
    assert runs[..|runs|] == runs;
    hide After;
  }

  lemma VettedLater(p: Policy, g: Group, runs: seq<Run>, k: int)
    requires runs != [] && Supervised(runs) && p.qualityFloor.Some? && After(p, g, FRESH, runs).mode.Compound?
    requires Supervised(runs[..|runs| - 1]) && Vetted(p, g, runs[..|runs| - 1], k)
    ensures Vetted(p, g, runs, k)
  {
    hide After, AcceptedIn, CompoundAfter, Supervised;
    SamePast(p, g, runs, k);
    Whole(p, g, runs);
    InsideRange(p, g, runs, k);
    forall j | k < j <= |runs| ensures CompoundAfter(p, g, runs, j) {
      SamePast(p, g, runs, j);
    }
  }

  lemma InsideRange(p: Policy, g: Group, runs: seq<Run>, k: int)
    requires runs != [] && Supervised(runs[..|runs| - 1]) && p.qualityFloor.Some?
      && AcceptedIn(p, g, runs[..|runs| - 1], k)
    ensures 0 <= k < |runs| - 1
  {
  }

  lemma VettedNow(p: Policy, g: Group, runs: seq<Run>)
    requires runs != [] && Supervised(runs) && p.qualityFloor.Some? && After(p, g, FRESH, runs).mode.Compound?
    requires After(p, g, FRESH, runs[..|runs| - 1]).mode.Fine?
    ensures Vetted(p, g, runs, |runs| - 1)
  {
    var n := |runs| - 1;
    var c := After(p, g, FRESH, runs[..n]);
    assert After(p, g, FRESH, runs) == PostRun(p, g, c, runs[n]);
    assert runs[n].mode.Auto? && runs[n].judge.Some?;
    hide PostRun, Accepts, After, CompoundAfter, Supervised;
    ShadowGateDecides(p, g, c, runs[n]);
    Whole(p, g, runs);
  }

  /** A supervised group is in compound mode only since a shadow comparison accepted a model. */
  lemma {:induction false} CompoundIsVetted(p: Policy, g: Group, runs: seq<Run>)
    requires Supervised(runs) && p.qualityFloor.Some? && After(p, g, FRESH, runs).mode.Compound?
    ensures exists k :: Vetted(p, g, runs, k)
    decreases |runs|
  {
    assert runs != [];
    var before := runs[..|runs| - 1];
    assert Supervised(before);
    hide *;
    if After(p, g, FRESH, before).mode.Fine? {
      VettedNow(p, g, runs);
    } else {
      CompoundIsVetted(p, g, before);
      var k :| Vetted(p, g, before, k);
      VettedLater(p, g, runs, k);
    }
  }

  // ----- efficiency ---------------------------------------------------------------------------

  /** The latency gate has closed for good. */
  predicate ShutOut(p: Policy, c: Controller) {
    c.mode.Fine? && TooSlow(p, c)
  }

  lemma ShutOutStays(p: Policy, g: Group, c: Controller, run: Run)
    requires ShutOut(p, c)
    ensures ShutOut(p, PostRun(p, g, c, run))
  {
    var seen := Observation(p, c, run);
    assert seen.latencyCompound == c.latencyCompound;
    assert ShutOut(p, seen);
    hide Observation, TooSlow;
    assert !Shadowed(p, c, run) && !Judged(p, c, run);
  }

  lemma SameLatency(p: Policy, c: Controller, d: Controller)
    requires c.latencyCompound == d.latencyCompound
    ensures TooSlow(p, c) == TooSlow(p, d)
  {
  }

  lemma LatencyShutsOut(p: Policy, g: Group, c: Controller, run: Run)
    requires run.mode.Auto? && TooSlow(p, Observation(p, c, run))
    ensures ShutOut(p, PostRun(p, g, c, run))
  {
    var seen, v := Observation(p, c, run), Voting(p, c, run);
    assert seen == EfficiencyGates(p, GateOne(p, v, true), true);
    GatesKeep(p, v, true);
    SameLatency(p, GateOne(p, v, true), seen);
    JudgingKeeps(p, g, c, run);
    SameLatency(p, seen, PostRun(p, g, c, run));
    hide Observation, TooSlow, PostRun, GateOne, Voting, NoGain;
    assert seen.mode.Fine?;
  }

  /** Once compound runs have been too slow on average, no later run ever ends in compound mode. */
  lemma {:induction false} TooSlowForever(p: Policy, g: Group, c: Controller, run: Run, runs: seq<Run>)
    requires run.mode.Auto? && TooSlow(p, Observation(p, c, run))
    ensures ShutOut(p, After(p, g, PostRun(p, g, c, run), runs))
    decreases |runs|
  {
    hide PostRun, ShutOut, TooSlow, Observation;
    if runs == [] {
      LatencyShutsOut(p, g, c, run);
    } else {
      var k := |runs| - 1;
      TooSlowForever(p, g, c, run, runs[..k]);
      ShutOutStays(p, g, After(p, g, PostRun(p, g, c, run), runs[..k]), runs[k]);
    }
  }

  /** What the evaluator says cannot take a group out of compound mode. */
  lemma QualityNeverReverts(p: Policy, g: Group, c: Controller, run: Run, judge: Option<(string, string) -> real>)
    requires c.mode.Compound?
    ensures PostRun(p, g, c, run.(judge := judge)).mode == PostRun(p, g, c, run).mode
    ensures PostRun(p, g, c, run).mode == Observation(p, c, run).mode
  {
    var other := run.(judge := judge);
    assert Observation(p, c, other) == Observation(p, c, run) by {
      hide Record;
    }
    JudgingKeeps(p, g, c, run);
    JudgingKeeps(p, g, c, other);
    hide Observation, PostRun;
  }

  /** The controller can recommend to decompose and stay in compound mode all the same. */
  lemma AdviceIsNotTaken(p: Policy, g: Group, c: Controller, run: Run)
    requires c.mode.Compound? && p.qualityFloor.Some? && |c.qualityScores| >= 2
    requires Mean(c.qualityScores, p.windowSize).value < p.qualityFloor.value
    requires !Convinced(p, Voting(p, c, run)) && !TooSlow(p, Voting(p, c, run)) && !NoGain(p, Voting(p, c, run))
    ensures Recommendation(p, c) == Decompose && PostRun(p, g, c, run).mode.Compound?
  {
    CompoundIsEfficient(p, Baseline(c, LevelOf(run.mode, c), run.output, run.signal), Overhead(run.signal), run.signal);
    QualityNeverReverts(p, g, c, run, None);
    hide PostRun;
  }

  // ----- the escalation ladder ----------------------------------------------------------------

  /** The run was scored against the fine baseline, with escalation in force. */
  predicate Weighed(p: Policy, c: Controller, run: Run) {
    Judged(p, c, run) && Escalates(p)
  }

  predicate Below(p: Policy, c: Controller, run: Run)
    requires Weighed(p, c, run)
  {
    var seen := Observation(p, c, run);
    var score := run.judge.value(seen.lastFineOutput.value, OrEmpty(run.output));
    DecidingScore(p, seen.qualityScores + [score], score) < p.qualityFloor.value
  }

  /** One rung up: only from a model that has one above, after enough misses. */
  predicate StepsUp(p: Policy, c: Controller, run: Run) {
    && Weighed(p, c, run) && Below(p, c, run)
    && c.failureStreak + 1 >= p.escalationMinFailures
    && CurrentModel(p, c).Some? && CurrentModel(p, c).value != Sequential
  }

  /** One rung down, or off the ladder, after enough passes. */
  predicate StepsDown(p: Policy, c: Controller, run: Run) {
    && Weighed(p, c, run) && !Below(p, c, run)
    && c.successStreak + 1 >= p.escalationDecayWindow && c.modelOverride.Some?
  }

  function Height(m: Model): int {
    match m
    case Standard => 0
    case TwoPhase => 1
    case Sequential => 2
  }

  /** Where an override stands on the ladder; none at all is one below standard. */
  function OverrideHeight(o: Option<Model>): int {
    if o.Some? then Height(o.value) else -1
  }

  lemma ReactionMoves(p: Policy, c: Controller, score: real)
    requires Escalates(p)
    ensures
      var d := Reacted(p, c, score);
      var below := DecidingScore(p, c.qualityScores + [score], score) < p.qualityFloor.value;
      var up := below && c.failureStreak + 1 >= p.escalationMinFailures && CurrentModel(p, c).Some?
        && CurrentModel(p, c).value != Sequential;
      var down := !below && c.successStreak + 1 >= p.escalationDecayWindow && c.modelOverride.Some?;
      && (up ==> d.modelOverride.Some? && Height(d.modelOverride.value) == Height(CurrentModel(p, c).value) + 1)
      && (down ==> OverrideHeight(d.modelOverride) == OverrideHeight(c.modelOverride) - 1)
      && (!up && !down ==> d.modelOverride == c.modelOverride)
      && (d.failureStreak, d.successStreak) == (
           if up || down then (0, 0)
           else if below then (c.failureStreak + 1, 0)
           else (0, c.successStreak + 1))
  {
    hide DecidingScore;
  }

  function Streaks(c: Controller): (nat, nat) {
    (c.failureStreak, c.successStreak)
  }

  /** A verdict ends the other streak; a move ends both. */
  function NextStreaks(p: Policy, c: Controller, run: Run): (nat, nat)
    requires Weighed(p, c, run)
  {
    if StepsUp(p, c, run) || StepsDown(p, c, run) then (0, 0)
    else if Below(p, c, run) then (c.failureStreak + 1, 0)
    else (0, c.successStreak + 1)
  }

  lemma UnweighedStays(p: Policy, g: Group, c: Controller, run: Run)
    requires !Weighed(p, c, run)
    ensures Streaks(PostRun(p, g, c, run)) == Streaks(c)
    ensures !Shadowed(p, c, run) ==> PostRun(p, g, c, run).modelOverride == c.modelOverride
  {
    ObservationKeeps(p, c, run);
    hide Observation, Resolve, Quality, FirstAccepted, Scores;
  }

  lemma WeighedReacts(p: Policy, g: Group, c: Controller, run: Run)
    requires Weighed(p, c, run)
    ensures
      var seen := Observation(p, c, run);
      && PostRun(p, g, c, run) == Reacted(p, seen, run.judge.value(seen.lastFineOutput.value, OrEmpty(run.output)))
      && SameLadder(c, seen) && CurrentModel(p, seen) == CurrentModel(p, c)
  {
    ObservationKeeps(p, c, run);
    hide Observation, Resolve, Quality, FirstAccepted, Scores, Reacted;
  }

  /** One run moves a group by at most one rung, and exactly when a streak is long enough; a group whose model
      is chosen automatically and never was fixed does not escalate. */
  lemma OneRungAtATime(p: Policy, g: Group, c: Controller, run: Run)
    ensures
      var d := PostRun(p, g, c, run);
      && (StepsUp(p, c, run) ==>
            d.modelOverride.Some? && Height(d.modelOverride.value) == Height(CurrentModel(p, c).value) + 1)
      && (StepsDown(p, c, run) ==> OverrideHeight(d.modelOverride) == OverrideHeight(c.modelOverride) - 1)
      && (!StepsUp(p, c, run) && !StepsDown(p, c, run) && !Shadowed(p, c, run) ==> d.modelOverride == c.modelOverride)
      && (p.executionModel.Automatic? && c.modelOverride.None? && !Shadowed(p, c, run) ==> d.modelOverride.None?)
      && (Weighed(p, c, run) ==> Streaks(d) == NextStreaks(p, c, run))
      && (!Weighed(p, c, run) ==> Streaks(d) == Streaks(c))
  {
    hide PostRun, Observation, DecidingScore, Reacted;
    var seen := Observation(p, c, run);
    if Weighed(p, c, run) {
      WeighedReacts(p, g, c, run);
      ReactionMoves(p, seen, run.judge.value(seen.lastFineOutput.value, OrEmpty(run.output)));
      assert c.mode.Compound?;
    } else {
      UnweighedStays(p, g, c, run);
    }
  }

  /** On the way down the ladder a group falls below the model its policy names exactly when it steps down from an
      override that is this very model, and there is a cheaper one. */
  lemma FallsBelowPolicy(p: Policy, g: Group, c: Controller, run: Run, m: Model)
    requires p.executionModel == Explicit(m) && Height(Resolve(p, g, c, Compound, true)) >= Height(m)
    ensures Height(Resolve(p, g, PostRun(p, g, c, run), Compound, true)) < Height(m) <==>
            StepsDown(p, c, run) && c.modelOverride == Some(m) && m != Standard
  {
    hide PostRun, StepsUp, StepsDown, Shadowed, Weighed, NextStreaks, VerbosityModel;
    OneRungAtATime(p, g, c, run);
    if Shadowed(p, c, run) {
      ExplicitStays(p, g, c, run);
    }
    StepsApart(p, c, run);
  }

  lemma StepsApart(p: Policy, c: Controller, run: Run)
    ensures !(StepsUp(p, c, run) && StepsDown(p, c, run))
    ensures StepsUp(p, c, run) || StepsDown(p, c, run) ==> !Shadowed(p, c, run)
    ensures StepsDown(p, c, run) ==> c.modelOverride.Some?
  {
    hide Observation;
  }

  /** With a model named by the policy, a shadow comparison fixes no other. */
  lemma ExplicitStays(p: Policy, g: Group, c: Controller, run: Run)
    requires p.executionModel.Explicit? && Shadowed(p, c, run)
    ensures PostRun(p, g, c, run).modelOverride == c.modelOverride
  {
    ObservationKeeps(p, c, run);
    hide Observation, Resolve, Quality, FirstAccepted, Scores;
  }

  function Ups(p: Policy, g: Group, c: Controller, runs: seq<Run>): nat
    decreases |runs|
  {
    if runs == [] then 0 else
      var k := |runs| - 1;
      Ups(p, g, c, runs[..k]) + if StepsUp(p, After(p, g, c, runs[..k]), runs[k]) then 1 else 0
  }

  function Downs(p: Policy, g: Group, c: Controller, runs: seq<Run>): nat
    decreases |runs|
  {
    if runs == [] then 0 else
      var k := |runs| - 1;
      Downs(p, g, c, runs[..k]) + if StepsDown(p, After(p, g, c, runs[..k]), runs[k]) then 1 else 0
  }

  function Evaluations(p: Policy, g: Group, c: Controller, runs: seq<Run>): nat
    decreases |runs|
  {
    if runs == [] then 0 else
      var k := |runs| - 1;
      Evaluations(p, g, c, runs[..k]) + if Weighed(p, After(p, g, c, runs[..k]), runs[k]) then 1 else 0
  }

  lemma Tally(p: Policy, g: Group, c: Controller, runs: seq<Run>)
    requires runs != []
    ensures
      var k := |runs| - 1;
      var before := After(p, g, c, runs[..k]);
      && After(p, g, c, runs) == PostRun(p, g, before, runs[k])
      && Ups(p, g, c, runs) == Ups(p, g, c, runs[..k]) + (if StepsUp(p, before, runs[k]) then 1 else 0)
      && Downs(p, g, c, runs) == Downs(p, g, c, runs[..k]) + (if StepsDown(p, before, runs[k]) then 1 else 0)
      && Evaluations(p, g, c, runs) == Evaluations(p, g, c, runs[..k]) + (if Weighed(p, before, runs[k]) then 1 else 0)
  {
    hide PostRun, StepsUp, StepsDown, Weighed;
  }

  /** The verdicts that the moves have used up. */
  function Spent(p: Policy, g: Group, c: Controller, runs: seq<Run>): int {
    Ups(p, g, c, runs) * p.escalationMinFailures + Downs(p, g, c, runs) * p.escalationDecayWindow
  }

  function Price(p: Policy, c: Controller, run: Run): int {
    (if StepsUp(p, c, run) then p.escalationMinFailures else 0)
      + (if StepsDown(p, c, run) then p.escalationDecayWindow else 0)
  }

  lemma SpentGrows(p: Policy, g: Group, c: Controller, runs: seq<Run>)
    requires runs != []
    ensures
      var k := |runs| - 1;
      Spent(p, g, c, runs) == Spent(p, g, c, runs[..k]) + Price(p, After(p, g, c, runs[..k]), runs[k])
  {
    hide Ups, Downs, StepsUp, StepsDown, After, PostRun, Evaluations, Weighed;
    var k := |runs| - 1;
    var before := After(p, g, c, runs[..k]);
    Tally(p, g, c, runs);
    Pays(Ups(p, g, c, runs[..k]), Downs(p, g, c, runs[..k]), StepsUp(p, before, runs[k]), StepsDown(p, before, runs[k]),
         p.escalationMinFailures, p.escalationDecayWindow);
  }

  lemma Pays(ups: nat, downs: nat, up: bool, down: bool, a: int, b: int)
    ensures (ups + if up then 1 else 0) * a + (downs + if down then 1 else 0) * b
         == ups * a + downs * b + (if up then a else 0) + (if down then b else 0)
  {
  }

  /** An evaluation lengthens the streaks by one at most; a move uses up its whole streak. */
  lemma StreaksPay(p: Policy, g: Group, c: Controller, run: Run)
    requires c.failureStreak == 0 || c.successStreak == 0
    ensures
      var d := PostRun(p, g, c, run);
      && (d.failureStreak == 0 || d.successStreak == 0)
      && Price(p, c, run) + d.failureStreak + d.successStreak
         <= c.failureStreak + c.successStreak + (if Weighed(p, c, run) then 1 else 0)
  {
    OneRungAtATime(p, g, c, run);
    hide PostRun, Weighed, Below;
  }

  /** Every move on the ladder has been earned by a streak of its own: escalations and de-escalations together
      never outrun the evaluations, and the two streaks exclude each other. */
  lemma {:induction false} MovesAreEarned(p: Policy, g: Group, runs: seq<Run>)
    ensures
      var c := After(p, g, FRESH, runs);
      && (c.failureStreak == 0 || c.successStreak == 0)
      && Spent(p, g, FRESH, runs) + c.failureStreak + c.successStreak <= Evaluations(p, g, FRESH, runs)
    decreases |runs|
  {
    if runs != [] {
      var k := |runs| - 1;
      hide *;
      MovesAreEarned(p, g, runs[..k]);
      StreaksPay(p, g, After(p, g, FRESH, runs[..k]), runs[k]);
      Tally(p, g, FRESH, runs);
      SpentGrows(p, g, FRESH, runs);
    }
  }
}
