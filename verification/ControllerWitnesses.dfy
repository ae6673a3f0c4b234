/** Histories of a group that reach the controller's limits. */
module ControllerWitnesses {
  import opened Wrappers
  import opened Policies
  import opened Series
  import opened GroupController
  import opened QualityGate
  import opened ControllerRuns

  /** A run that was all coordination, seen by an evaluator that always gives the same verdict. */
  function CostlyRun(verdict: Option<real>): Run {
    Run(Auto, Some(Signal(1.0, 1, 0.0, 0.0, 0, 0.0, 0.0, 0.0, 0)), Some(""),
        if verdict.Some? then Some((fine, compound) => verdict.value) else None, m => "")
  }

  /** A run that reported nothing. */
  function SilentRun(): Run {
    Run(Auto, None, Some(""), None, m => "")
  }

  lemma OneMore(p: Policy, g: Group, c: Controller, runs: seq<Run>, run: Run)
    ensures After(p, g, c, runs + [run]) == PostRun(p, g, After(p, g, c, runs), run)
  {
    assert (runs + [run])[..|runs|] == runs;
    hide PostRun;
  }

  // ----- below the policy's own model ---------------------------------------------------------

  /** A policy that acts on every single observation and verdict. */
  predicate Hasty(p: Policy) {
    && p.minObservations == 1 && p.windowSize == 1 && p.scoreWeights.None? && p.latencyThreshold.None?
    && p.qualityFloor.Some? && p.qualityFloor.value > 0.0
    && p.escalationEnabled && p.escalationMinFailures == 1 && p.escalationDecayWindow == 1
  }

  ghost predicate Judgeable(c: Controller) {
    c.mode.Compound? && c.lastFineOutput.Some? && c.tokensFine == []
  }

  lemma StaysCompound(p: Policy, c: Controller, run: Run)
    requires Hasty(p) && Judgeable(c) && run.mode.Auto? && run.signal == CostlyRun(None).signal
    ensures Judgeable(Observation(p, c, run))
  {
    VotingKeeps(p, c, run);
    var v := Voting(p, c, run);
    assert v.tokensFine == [] && v.lastFineOutput == c.lastFineOutput && v.observations == c.observations + [1.0];
    assert Observation(p, c, run) == EfficiencyGates(p, GateOne(p, v, true), true);
    hide Voting, Observation;
    assert Window(p, v) == [1.0] && CountAtMost([1.0], p.decomposeAt) == 0;
    hide Enough, Window, CountAtMost, CountAtLeast;
  }

  lemma VerdictDecides(p: Policy, scores: seq<real>, verdict: real)
    requires p.windowSize == 1
    ensures DecidingScore(p, scores + [verdict], verdict) == verdict
  {
    assert Last(scores + [verdict], 1) == [verdict];
    assert Sum([verdict]) == verdict + Sum([]);
  }

  /** Every verdict moves the group along the ladder at once. */
  lemma VerdictMoves(p: Policy, g: Group, c: Controller, verdict: real)
    requires Hasty(p) && Judgeable(c)
    ensures
      var run, d := CostlyRun(Some(verdict)), PostRun(p, g, c, CostlyRun(Some(verdict)));
      && Judgeable(d) && Weighed(p, c, run)
      && (StepsUp(p, c, run) <==>
            verdict < p.qualityFloor.value && CurrentModel(p, c).Some? && CurrentModel(p, c).value != Sequential)
      && (StepsDown(p, c, run) <==> verdict >= p.qualityFloor.value && c.modelOverride.Some?)
      && !Shadowed(p, c, run)
  {
    var run := CostlyRun(Some(verdict));
    StaysCompound(p, c, run);
    ReactionKeeps(p, g, c, run);
    hide Observation, PostRun, DecidingScore;
    VerdictDecides(p, Observation(p, c, run).qualityScores, verdict);
  }

  lemma ReactionKeeps(p: Policy, g: Group, c: Controller, run: Run)
    requires c.mode.Compound? && Judgeable(Observation(p, c, run))
    ensures Judgeable(PostRun(p, g, c, run))
  {
    hide Observation, DecidingScore;
  }

  /** The first run of a hasty group: the vote and the evaluator agree on compound mode. */
  lemma TurnsCompound(p: Policy, g: Group, verdict: real)
    requires Hasty(p) && p.executionModel.Explicit? && verdict >= p.qualityFloor.value
    ensures
      var c := PostRun(p, g, FRESH, CostlyRun(Some(verdict)));
      Judgeable(c) && c.modelOverride.None?
  {
    var run := CostlyRun(Some(verdict));
    EagerSwitch(p, run);
    var seen := Observation(p, FRESH, run);
    assert seen.lastFineOutput == Some("") && seen.tokensFine == [];
    hide Observation;
    assert Shadowed(p, FRESH, run);
    var quality := ShadowQuality(run);
    var start := StartModel(p, g, FRESH, run);
    assert FirstAccepted([start], quality, p.qualityFloor.value) == 0;
    hide FirstAccepted, StartModel;
  }

  /** The override after one verdict. */
  function Moved(p: Policy, c: Controller, verdict: real): Option<Model>
    requires Hasty(p)
  {
    if verdict >= p.qualityFloor.value then (if c.modelOverride.Some? then RungBelow(c.modelOverride.value) else None)
    else match CurrentModel(p, c)
      case Some(m) => if m == Sequential then c.modelOverride else RungAbove(m)
      case None => c.modelOverride
  }

  lemma OneVerdict(p: Policy, g: Group, c: Controller, verdict: real)
    requires Hasty(p) && Judgeable(c)
    ensures
      var d := PostRun(p, g, c, CostlyRun(Some(verdict)));
      Judgeable(d) && d.modelOverride == Moved(p, c, verdict)
  {
    VerdictMoves(p, g, c, verdict);
    OneRungAtATime(p, g, c, CostlyRun(Some(verdict)));
    hide PostRun, StepsUp, StepsDown, Weighed, Shadowed, Judgeable, NextStreaks;
  }

  lemma FourRuns(p: Policy, g: Group, c: Controller, r1: Run, r2: Run, r3: Run, r4: Run)
    ensures After(p, g, c, [r1, r2, r3, r4]) ==
      PostRun(p, g, PostRun(p, g, PostRun(p, g, PostRun(p, g, c, r1), r2), r3), r4)
  {
    assert After(p, g, c, []) == c;
    hide PostRun, After;
    OneMore(p, g, c, [], r1);
    OneMore(p, g, c, [r1], r2);
    OneMore(p, g, c, [r1, r2], r3);
    OneMore(p, g, c, [r1, r2, r3], r4);
    assert [] + [r1] == [r1] && [r1] + [r2] == [r1, r2] && [r1, r2] + [r3] == [r1, r2, r3];
    assert [r1, r2, r3] + [r4] == [r1, r2, r3, r4];
  }

  /** A policy that names the two-phase model, and a history after which the group runs with the standard one. */
  lemma FellBelowPolicy(p: Policy, g: Group)
    requires Hasty(p) && p.executionModel == Explicit(TwoPhase)
    ensures
      var runs := [CostlyRun(Some(1.0)), CostlyRun(Some(0.0)), CostlyRun(Some(1.0)), CostlyRun(Some(1.0))];
      var c := After(p, g, FRESH, runs);
      c.mode.Compound? && Resolve(p, g, c, Compound, true) == Standard
  {
    hide PostRun, After, CostlyRun, VerbosityModel;
    var good, bad := CostlyRun(Some(1.0)), CostlyRun(Some(0.0));
    FourRuns(p, g, FRESH, good, bad, good, good);
    TurnsCompound(p, g, 1.0);
    var c1 := PostRun(p, g, FRESH, good);
    OneVerdict(p, g, c1, 0.0);
    var c2 := PostRun(p, g, c1, bad);
    OneVerdict(p, g, c2, 1.0);
    var c3 := PostRun(p, g, c2, good);
    OneVerdict(p, g, c3, 1.0);
  }

  // ----- advice that is not taken -------------------------------------------------------------

  lemma ShadowScores(p: Policy, g: Group, verdict: real)
    requires Hasty(p) && p.executionModel.Explicit?
    requires Shadowed(p, FRESH, CostlyRun(Some(verdict)))
    ensures PostRun(p, g, FRESH, CostlyRun(Some(verdict))).qualityScores == [verdict]
  {
    var run := CostlyRun(Some(verdict));
    ObservationKeeps(p, FRESH, run);
    var quality, start := ShadowQuality(run), StartModel(p, g, FRESH, run);
    assert Scores([start], quality) == [verdict] && [start][..1] == [start];
    hide Observation, StartModel, ShadowQuality, Scores;
  }

  lemma ReactionScores(p: Policy, g: Group, c: Controller, verdict: real)
    requires Weighed(p, c, CostlyRun(Some(verdict))) && !Shadowed(p, c, CostlyRun(Some(verdict)))
    ensures PostRun(p, g, c, CostlyRun(Some(verdict))).qualityScores == c.qualityScores + [verdict]
  {
    ObservationKeeps(p, c, CostlyRun(Some(verdict)));
    hide Observation, DecidingScore;
  }

  lemma TwoRuns(p: Policy, g: Group, c: Controller, r1: Run, r2: Run)
    ensures After(p, g, c, [r1, r2]) == PostRun(p, g, PostRun(p, g, c, r1), r2)
  {
    assert After(p, g, c, []) == c;
    hide PostRun, After;
    OneMore(p, g, c, [], r1);
    OneMore(p, g, c, [r1], r2);
    assert [] + [r1] == [r1] && [r1] + [r2] == [r1, r2];
  }

  lemma BadScores(p: Policy, c: Controller)
    requires Hasty(p) && c.qualityScores == [1.0] + [0.0]
    ensures Recommendation(p, c) == Decompose
  {
    assert Last(c.qualityScores, 1) == [0.0];
    assert Sum([0.0]) == 0.0 + Sum([]);
  }

  /** Two runs from the fresh state after which the controller advises to decompose, and the next run leaves the group
      in compound mode whatever the evaluator says. */
  lemma AdviceWasNotTaken(p: Policy, g: Group, verdict: real)
    requires Hasty(p) && p.executionModel.Explicit?
    ensures
      var c := After(p, g, FRESH, [CostlyRun(Some(1.0)), CostlyRun(Some(0.0))]);
      && c.mode.Compound? && Recommendation(p, c) == Decompose
      && PostRun(p, g, c, CostlyRun(Some(verdict))).mode.Compound?
  {
    var good, bad := CostlyRun(Some(1.0)), CostlyRun(Some(0.0));
    TurnsCompound(p, g, 1.0);
    EagerSwitch(p, good);
    hide PostRun, After, CostlyRun, Observation, Weighed, Shadowed, Recommendation, VerbosityModel;
    TwoRuns(p, g, FRESH, good, bad);
    IsShadowed(p, 1.0);
    ShadowScores(p, g, 1.0);
    var c1 := PostRun(p, g, FRESH, good);
    VerdictMoves(p, g, c1, 0.0);
    ReactionScores(p, g, c1, 0.0);
    var c2 := PostRun(p, g, c1, bad);
    BadScores(p, c2);
    VerdictMoves(p, g, c2, verdict);
  }

  lemma IsShadowed(p: Policy, verdict: real)
    requires Hasty(p)
    ensures Shadowed(p, FRESH, CostlyRun(Some(verdict)))
  {
    EagerSwitch(p, CostlyRun(Some(verdict)));
    hide Observation;
  }

  // ----- switching back as soon as possible ---------------------------------------------------

  /** A policy that waits for a full window, in which h votes are needed. */
  predicate Patient(p: Policy, h: nat) {
    && p.scoreWeights.None? && p.latencyThreshold.None? && p.minObservations == p.windowSize
    && h == VotesNeeded(p.confidence, p.windowSize)
  }

  lemma Whole(p: Policy, h: nat)
    requires Patient(p, h)
    ensures 1 <= h <= p.windowSize < BackAt(p, h) <= p.windowSize + h
  {
    VotesOfMany(p.confidence, p.windowSize);
    hide VotesNeeded;
  }

  /** The run in which the group is switched back. */
  function BackAt(p: Policy, h: nat): nat {
    if 2 * h > p.windowSize then 2 * h else p.windowSize + 1
  }

  /** The first h runs cost much, all later ones report nothing. */
  function RunAt(h: nat, i: nat): Run {
    if i < h then CostlyRun(None) else SilentRun()
  }

  function Runs(h: nat, n: nat): seq<Run> {
    seq(n, i requires 0 <= i < n => RunAt(h, i))
  }

  function Values(h: nat, n: nat): seq<real> {
    seq(n, i requires 0 <= i < n => if i < h then 1.0 else 0.0)
  }

  lemma {:induction false} CountValues(h: nat, n: nat, low: real, high: real)
    requires h <= n && 0.0 <= low < 1.0 && 0.0 < high <= 1.0
    ensures CountAtLeast(Values(h, n), high) == h && CountAtMost(Values(h, n), low) == n - h
  {
    if n > 0 {
      var a := if h > 0 then h - 1 else 0;
      assert Values(h, n)[1..] == Values(a, n - 1);
      CountValues(a, n - 1, low, high);
    }
  }

  lemma SlidingValues(h: nat, w: nat, j: nat)
    requires j <= h
    ensures Last(Values(h, w + j), w) == Values(h - j, w)
  {
  }

  /** After n runs, none of them reverted. */
  ghost predicate At(c: Controller, h: nat, n: nat, mode: Level) {
    && c.observations == Values(h, n) && c.mode == mode
    && c.revertCount == 0 && c.revertFloor == 0 && c.tokensFine == []
  }

  lemma RunAtMoves(p: Policy, g: Group, c: Controller, h: nat, n: nat, mode: Level)
    requires Patient(p, h) && At(c, h, n, mode)
    ensures
      var v, d := Voting(p, c, RunAt(h, n)), PostRun(p, g, c, RunAt(h, n));
      && At(v, h, n + 1, mode)
      && (!Convinced(p, v) ==> At(d, h, n + 1, mode))
      && (Convinced(p, v) && mode.Fine? ==> At(d, h, n + 1, Compound))
  {
    var run := RunAt(h, n);
    var v := Voting(p, c, run);
    VotingKeeps(p, c, run);
    assert Values(h, n + 1) == Values(h, n) + [if n < h then 1.0 else 0.0];
    assert v.tokensFine == [];
    assert PostRun(p, g, c, run) == EfficiencyGates(p, GateOne(p, v, true), true);
    hide Voting, PostRun, Values, Convinced, Vote, Enough;
  }

  lemma VotesAt(p: Policy, v: Controller, h: nat, j: nat, mode: Level)
    requires Patient(p, h) && At(v, h, p.windowSize + j, mode) && j <= h <= p.windowSize
    ensures v.observations != []
    ensures Vote(p, v) == (if mode.Fine? then h - j else p.windowSize - h + j) as real / p.windowSize as real
  {
    hide CountAtLeast, CountAtMost, Last, VotesNeeded;
    var w := p.windowSize;
    SlidingValues(h, w, j);
    CountValues(h - j, w, p.decomposeAt, p.composeAt);
    assert |Values(h - j, w)| == w && v.observations != [];
    hide Values;
    assert Window(p, v) == Values(h - j, w);
    hide Window;
  }

  lemma VoteAt(p: Policy, v: Controller, h: nat, j: nat, mode: Level)
    requires Patient(p, h) && At(v, h, p.windowSize + j, mode) && j <= h
    ensures v.observations != []
    ensures Vote(p, v) >= p.confidence <==> if mode.Fine? then j == 0 else p.windowSize - h + j >= h
  {
    hide VotesNeeded, At, Vote;
    Whole(p, h);
    VotesAt(p, v, h, j, mode);
    Ratio(h - j, p.windowSize, p.confidence, h);
    Ratio(p.windowSize - h + j, p.windowSize, p.confidence, h);
  }

  lemma ConvincedAt(p: Policy, v: Controller, h: nat, n: nat, mode: Level)
    requires Patient(p, h) && At(v, h, n, mode) && 0 < n <= p.windowSize + h
    ensures v.observations != []
    ensures Convinced(p, v) <==> if mode.Fine? then n == p.windowSize else n >= 2 * h && n >= p.windowSize
  {
    if n >= p.windowSize {
      VoteAt(p, v, h, n - p.windowSize, mode);
    }
    hide Vote, VotesNeeded;
  }

  lemma Ratio(count: nat, w: nat, share: real, h: nat)
    requires w > 0 && share >= 0.0 && h == VotesNeeded(share, w)
    ensures count as real / w as real >= share <==> count >= h
  {
    EnoughVotes(share, w, count);
    hide VotesNeeded;
    var q := count as real / w as real;
    assert q * w as real == count as real;
    if q >= share {
      assert q * w as real >= share * w as real;
    } else {
      assert q * w as real < share * w as real;
    }
  }

  /** One run further, with or without a switch. */
  lemma AtNext(p: Policy, g: Group, h: nat, n: nat, mode: Level)
    requires Patient(p, h) && At(After(p, g, FRESH, Runs(h, n)), h, n, mode)
    requires if mode.Fine? then n < p.windowSize else p.windowSize <= n < BackAt(p, h) - 1
    ensures At(After(p, g, FRESH, Runs(h, n + 1)), h, n + 1, if n + 1 < p.windowSize then mode else Compound)
  {
    hide PostRun, After, Runs, RunAt, At, Convinced, Voting;
    Whole(p, h);
    hide Patient;
    var c := After(p, g, FRESH, Runs(h, n));
    NextRunAt(p, g, h, n);
    RunAtMoves(p, g, c, h, n, mode);
    ConvincedAt(p, Voting(p, c, RunAt(h, n)), h, n + 1, mode);
  }

  lemma {:induction false} FineUntilFull(p: Policy, g: Group, h: nat, n: nat)
    requires Patient(p, h) && n < p.windowSize
    ensures At(After(p, g, FRESH, Runs(h, n)), h, n, Fine)
    decreases n
  {
    if n > 0 {
      hide *;
      FineUntilFull(p, g, h, n - 1);
      AtNext(p, g, h, n - 1, Fine);
    }
  }

  lemma NextRunAt(p: Policy, g: Group, h: nat, n: nat)
    ensures After(p, g, FRESH, Runs(h, n + 1)) == PostRun(p, g, After(p, g, FRESH, Runs(h, n)), RunAt(h, n))
  {
    assert Runs(h, n + 1) == Runs(h, n) + [RunAt(h, n)];
    OneMore(p, g, FRESH, Runs(h, n), RunAt(h, n));
  }

  lemma {:induction false} CompoundWhileOutvoted(p: Policy, g: Group, h: nat, n: nat)
    requires Patient(p, h) && p.windowSize <= n < BackAt(p, h)
    ensures At(After(p, g, FRESH, Runs(h, n)), h, n, Compound)
    decreases n
  {
    hide *;
    Whole(p, h);
    if n == p.windowSize {
      FineUntilFull(p, g, h, n - 1);
      AtNext(p, g, h, n - 1, Fine);
    } else {
      CompoundWhileOutvoted(p, g, h, n - 1);
      AtNext(p, g, h, n - 1, Compound);
    }
  }

  lemma {:induction false} AfterBoth(p: Policy, g: Group, c: Controller, a: seq<Run>, b: seq<Run>)
    ensures After(p, g, c, a + b) == After(p, g, After(p, g, c, a), b)
    decreases |b|
  {
    hide PostRun;
    if b == [] {
      assert a + b == a;
    } else {
      var front, last := b[..|b| - 1], b[|b| - 1];
      assert a + b == a + front + [last] && b == front + [last];
      AfterBoth(p, g, c, a, front);
      OneMore(p, g, c, a + front, last);
    }
  }

  function Silence(k: nat): seq<Run> {
    seq(k, i => SilentRun())
  }

  lemma SilentTail(h: nat, n: nat, k: nat)
    requires h <= n
    ensures Runs(h, n + k) == Runs(h, n) + Silence(k) && RunAt(h, n) == SilentRun()
  {
  }

  lemma SwitchesAt(p: Policy, g: Group, h: nat, n: nat, mode: Level)
    requires Patient(p, h) && At(After(p, g, FRESH, Runs(h, n)), h, n, mode)
    requires n + 1 == if mode.Fine? then p.windowSize else BackAt(p, h)
    ensures GateOneLeaves(p, After(p, g, FRESH, Runs(h, n)), mode, RunAt(h, n))
  {
    Whole(p, h);
    hide PostRun, After, Runs, CostlyRun, Patient;
    var c := After(p, g, FRESH, Runs(h, n));
    RunAtMoves(p, g, c, h, n, mode);
    ConvincedAt(p, Voting(p, c, RunAt(h, n)), h, n + 1, mode);
    assert RunAt(h, n).mode.Auto? by { IsAuto(h, n); }
    hide Voting, Convinced, RunAt, Values;
  }

  lemma IsAuto(h: nat, n: nat)
    ensures RunAt(h, n).mode.Auto?
  {
  }

  /** The bound on the dwell time is reached for every window and every confidence: from the fresh state, Gate 1
      switches the group, and back after exactly 2h - window runs, or one if that is less, h being the votes
      needed. */
  lemma DwellBoundIsReached(p: Policy, g: Group, h: nat)
    returns (history: seq<Run>, first: Run, between: seq<Run>, last: Run)
    requires Patient(p, h)
    ensures SwitchesBack(p, g, After(p, g, FRESH, history), Fine, first, between, last)
    ensures |history| + 1 == p.windowSize
    ensures |between| + 1 == if 2 * h - p.windowSize > 1 then 2 * h - p.windowSize else 1
  {
    hide *;
    Whole(p, h);
    WayBack(p, h);
    var w, e := p.windowSize, BackAt(p, h) - 1;
    history, first, between, last := Runs(h, w - 1), RunAt(h, w - 1), Silence(e - w), SilentRun();
    FineUntilFull(p, g, h, w - 1);
    SwitchesAt(p, g, h, w - 1, Fine);
    NextRunAt(p, g, h, w - 1);
    CompoundWhileOutvoted(p, g, h, e);
    SwitchesAt(p, g, h, e, Compound);
    SilentTail(h, w, e - w);
    SilentTail(h, e, 0);
    AfterBoth(p, g, FRESH, Runs(h, w), between);
    ModeAt(After(p, g, FRESH, Runs(h, e)), h, e, Compound);
    BackAgain(p, g, After(p, g, FRESH, history), first, between, last);
    Lengths(h, w - 1, e - w);
  }

  lemma WayBack(p: Policy, h: nat)
    ensures BackAt(p, h) - p.windowSize == if 2 * h - p.windowSize > 1 then 2 * h - p.windowSize else 1
  {
  }

  lemma BackAgain(p: Policy, g: Group, c: Controller, first: Run, between: seq<Run>, last: Run)
    requires GateOneLeaves(p, c, Fine, first)
    requires
      var switched := After(p, g, PostRun(p, g, c, first), between);
      switched.mode == Compound && GateOneLeaves(p, switched, Compound, last)
    ensures SwitchesBack(p, g, c, Fine, first, between, last)
  {
    hide PostRun, After, GateOneLeaves;
  }

  lemma Lengths(h: nat, n: nat, k: nat)
    ensures |Runs(h, n)| == n && |Silence(k)| == k
  {
  }

  lemma ModeAt(c: Controller, h: nat, n: nat, mode: Level)
    requires At(c, h, n, mode)
    ensures c.mode == mode
  {
  }
}
