/** The controller step after a group has run: baseline, observation, shadow comparison, reactive quality gate. */
module QualityGate {
  import opened Wrappers
  import opened Policies
  import opened Series
  import opened GroupController

  datatype RunMode = AlwaysFine | AlwaysCompound | Auto | Observe

  /** How much of the group matters for choosing an execution model. */
  datatype Group = Group(branching: bool, hasTools: bool)

  /** One execution of the group, with the evaluator and the outputs that shadow runs would give. */
  datatype Run = Run(
    mode: RunMode, signal: Option<Signal>, output: Option<string>,
    judge: Option<(string, string) -> real>, shadow: Model -> string)

  function LevelOf(mode: RunMode, c: Controller): Level {
    match mode
    case AlwaysFine => Fine
    case AlwaysCompound => Compound
    case Auto => c.mode
    case Observe => c.mode
  }

  // ----- the execution model ------------------------------------------------------------------

  /** The model suggested by how much the agents say in fine runs, averaged over the last ten. */
  function VerbosityModel(p: Policy, g: Group, c: Controller): Model {
    var mean := if |c.avgOutputFine| < 3 then None else Mean(c.avgOutputFine, 10);
    if mean.None? || mean.value < p.twoPhaseThreshold as real then (if g.hasTools then TwoPhase else Standard)
    else if mean.value < p.sequentialThreshold as real then TwoPhase
    else Sequential
  }

  /** The model a group runs with; only a caller that passes the compiled group lets its branching count. */
  function Resolve(p: Policy, g: Group, c: Controller, level: Level, compiled: bool): Model {
    match p.executionModel
    case Explicit(m) => if c.modelOverride.Some? then c.modelOverride.value else m
    case Automatic =>
      if level.Fine? then Standard
      else if c.modelOverride.Some? then c.modelOverride.value
      else if compiled && g.branching then Sequential
      else VerbosityModel(p, g, c)
  }

  // ----- H1: the fine baseline ----------------------------------------------------------------

  function Baseline(c: Controller, level: Level, output: Option<string>, signal: Option<Signal>): Controller {
    if level.Compound? then c else
      var kept := c.(lastFineOutput := output);
      if signal.Some? && signal.value.avgOutputTokens > 0.0
      then kept.(avgOutputFine := c.avgOutputFine + [signal.value.avgOutputTokens])
      else kept
  }

  // ----- H2: shadow comparison before compound takes over -------------------------------------

  function Candidates(p: Policy, start: Model): seq<Model> {
    if p.executionModel.Automatic? then LadderFrom(start) else [start]
  }

  function Quality(judge: (string, string) -> real, fine: string, shadow: Model -> string): Model -> real {
    m => judge(fine, shadow(m))
  }

  /** The first candidate that meets the floor, or the number of candidates. */
  function FirstAccepted(ladder: seq<Model>, quality: Model -> real, floor: real): (i: nat)
    ensures i <= |ladder|
    ensures i < |ladder| ==> quality(ladder[i]) >= floor
    ensures forall j :: 0 <= j < i ==> quality(ladder[j]) < floor
  {
    if ladder == [] then 0
    else if quality(ladder[0]) >= floor then 0
    else
      assert forall j :: 0 < j < |ladder| ==> ladder[j] == ladder[1..][j - 1];
      1 + FirstAccepted(ladder[1..], quality, floor)
  }

  function Scores(ladder: seq<Model>, quality: Model -> real): seq<real> {
    seq(|ladder|, i requires 0 <= i < |ladder| => quality(ladder[i]))
  }

  function ShadowCompared(p: Policy, c: Controller, start: Model, quality: Model -> real): Controller
    requires p.qualityFloor.Some?
  {
    var ladder := Candidates(p, start);
    var i := FirstAccepted(ladder, quality, p.qualityFloor.value);
    var tried := if i < |ladder| then ladder[..i + 1] else ladder;
    var judged := c.(qualityScores := c.qualityScores + Scores(tried, quality));
    if i == |ladder| then Reverted(judged)
    else if p.executionModel.Automatic? && ladder[i] != start then judged.(modelOverride := Some(ladder[i]))
    else judged
  }

  // ----- H3: the reactive gate ----------------------------------------------------------------

  /** The model to escalate from; with automatic choice there is none until one has been fixed. */
  function CurrentModel(p: Policy, c: Controller): Option<Model> {
    if c.modelOverride.Some? then c.modelOverride
    else match p.executionModel
      case Explicit(m) => Some(m)
      case Automatic => None
  }

  function BelowFloor(p: Policy, c: Controller): Controller {
    var failed := c.(failureStreak := c.failureStreak + 1, successStreak := 0);
    var current := CurrentModel(p, c);
    if failed.failureStreak >= p.escalationMinFailures && current.Some? && RungAbove(current.value).Some?
    then failed.(modelOverride := RungAbove(current.value), failureStreak := 0)
    else failed
  }

  function AboveFloor(p: Policy, c: Controller): Controller {
    var passed := c.(failureStreak := 0, successStreak := c.successStreak + 1);
    if c.modelOverride.Some? && passed.successStreak >= p.escalationDecayWindow
    then passed.(modelOverride := RungBelow(c.modelOverride.value), successStreak := 0)
    else passed
  }

  predicate Escalates(p: Policy) {
    p.escalationEnabled && p.qualityFloor.Some?
  }

  /** The score that decides; a rolling mean of exactly zero gives way to the latest score. */
  function DecidingScore(p: Policy, scores: seq<real>, latest: real): real
    requires scores != []
  {
    var mean := Mean(scores, p.windowSize).value;
    if mean == 0.0 then latest else mean
  }

  function Reacted(p: Policy, c: Controller, score: real): Controller {
    var judged := c.(qualityScores := c.qualityScores + [score]);
    if !Escalates(p) then judged
    else if DecidingScore(p, judged.qualityScores, score) < p.qualityFloor.value then BelowFloor(p, judged)
    else AboveFloor(p, judged)
  }

  // ----- the whole step -----------------------------------------------------------------------

  function Overhead(signal: Option<Signal>): real {
    if signal.Some? then signal.value.overheadRatio else 0.0
  }

  /** Up to and including the observation. */
  function Observation(p: Policy, c: Controller, run: Run): Controller {
    var based := Baseline(c, LevelOf(run.mode, c), run.output, run.signal);
    Record(p, based, Overhead(run.signal), run.mode.Auto?, run.signal)
  }

  predicate Shadowed(p: Policy, c: Controller, run: Run) {
    && run.mode.Auto? && run.judge.Some? && p.qualityFloor.Some?
    && c.mode.Fine? && Observation(p, c, run).mode.Compound?
  }

  predicate Judged(p: Policy, c: Controller, run: Run) {
    && run.mode.Auto? && run.judge.Some?
    && c.mode.Compound? && Observation(p, c, run).lastFineOutput.Some?
  }

  function StartModel(p: Policy, g: Group, c: Controller, run: Run): Model {
    Resolve(p, g, Observation(p, c, run), Compound, false)
  }

  function ShadowQuality(run: Run): Model -> real
    requires run.judge.Some?
  {
    Quality(run.judge.value, OrEmpty(run.output), run.shadow)
  }

  function PostRun(p: Policy, g: Group, c: Controller, run: Run): Controller {
    var seen := Observation(p, c, run);
    if Shadowed(p, c, run)
    then ShadowCompared(p, seen, StartModel(p, g, c, run), ShadowQuality(run))
    else if Judged(p, c, run)
    then Reacted(p, seen, run.judge.value(seen.lastFineOutput.value, OrEmpty(run.output)))
    else seen
  }

  // ----- the step on the stored state ---------------------------------------------------------

  method StoreBaseline(s: GroupControllerState, level: Level, output: Option<string>, signal: Option<Signal>)
    modifies s
    ensures s.View() == Baseline(old(s.View()), level, output, signal)
  {
    if level == Fine {
      s.lastFineOutput := output;
      if signal.Some? && signal.value.avgOutputTokens > 0.0 {
        s.avgOutputFine := s.avgOutputFine + [signal.value.avgOutputTokens];
      }
    }
  }

  /** Shadow runs up the ladder until one is good enough. */
  method WalkLadder(s: GroupControllerState, ladder: seq<Model>, quality: Model -> real, floor: real)
    returns (accepted: Option<Model>)
    modifies s
    ensures
      var i := FirstAccepted(ladder, quality, floor);
      && s.View() == old(s.View()).(qualityScores := old(s.qualityScores)
                       + Scores(if i < |ladder| then ladder[..i + 1] else ladder, quality))
      && accepted == if i < |ladder| then Some(ladder[i]) else None
  {
    accepted := None;
    var k := 0;
    while k < |ladder| && accepted.None?
      invariant 0 <= k <= |ladder|
      invariant s.View() == old(s.View()).(qualityScores := old(s.qualityScores) + Scores(ladder[..k], quality))
      invariant accepted.None? ==> forall j :: 0 <= j < k ==> quality(ladder[j]) < floor
      invariant accepted.Some? ==>
        k > 0 && accepted.value == ladder[k - 1] && FirstAccepted(ladder, quality, floor) == k - 1
      decreases |ladder| - k, accepted.None?
    {
      var score := quality(ladder[k]);
      assert Scores(ladder[..k + 1], quality) == Scores(ladder[..k], quality) + [score];
      s.qualityScores := s.qualityScores + [score];
      if score >= floor {
        accepted := Some(ladder[k]);
      }
      k := k + 1;
    }
    assert k == |ladder| ==> ladder[..k] == ladder;
  }

  method CompareShadow(s: GroupControllerState, p: Policy, start: Model, quality: Model -> real)
    requires p.qualityFloor.Some?
    modifies s
    ensures s.View() == ShadowCompared(p, old(s.View()), start, quality)
  {
    var ladder := Candidates(p, start);
    var accepted := WalkLadder(s, ladder, quality, p.qualityFloor.value);
    if accepted.None? {
      s.DoRevert();
    } else if p.executionModel.Automatic? && accepted.value != start {
      s.modelOverride := accepted;
    }
  }

  method React(s: GroupControllerState, p: Policy, score: real)
    modifies s
    ensures s.View() == Reacted(p, old(s.View()), score)
  {
    s.qualityScores := s.qualityScores + [score];
    if p.escalationEnabled && p.qualityFloor.Some? {
      var mean := Mean(s.qualityScores, p.windowSize).value;
      if (if mean == 0.0 then score else mean) < p.qualityFloor.value {
        Escalate(s, p);
      } else {
        DeEscalate(s, p);
      }
    }
  }

  method Escalate(s: GroupControllerState, p: Policy)
    modifies s
    ensures s.View() == BelowFloor(p, old(s.View()))
  {
    s.failureStreak := s.failureStreak + 1;
    s.successStreak := 0;
    if s.failureStreak >= p.escalationMinFailures {
      var current := CurrentModel(p, s.View());
      if current.Some? && RungAbove(current.value).Some? {
        s.modelOverride := RungAbove(current.value);
        s.failureStreak := 0;
        s.successStreak := 0;
      }
    }
  }

  method DeEscalate(s: GroupControllerState, p: Policy)
    modifies s
    ensures s.View() == AboveFloor(p, old(s.View()))
  {
    s.failureStreak := 0;
    s.successStreak := s.successStreak + 1;
    if s.modelOverride.Some? && s.successStreak >= p.escalationDecayWindow {
      s.modelOverride := RungBelow(s.modelOverride.value);
      s.successStreak := 0;
    }
  }

  method PostRunControllerStep(s: GroupControllerState, p: Policy, g: Group, run: Run)
    modifies s
    ensures s.View() == PostRun(p, g, old(s.View()), run)
  {
    ghost var before := s.View();
    var level := LevelOf(run.mode, s.View());
    StoreBaseline(s, level, run.output, run.signal);
    var oldMode := s.mode;
    s.RecordAndMaybeSwitch(p, Overhead(run.signal), run.mode.Auto?, run.signal);
    assert s.View() == Observation(p, before, run);
    hide Record, Baseline, ShadowCompared, Reacted, Resolve, Quality, Observation;
    if run.mode.Auto? && run.judge.Some? && p.qualityFloor.Some? && oldMode == Fine && s.mode == Compound {
      var start := Resolve(p, g, s.View(), Compound, false);
      CompareShadow(s, p, start, Quality(run.judge.value, OrEmpty(run.output), run.shadow));
    } else if run.mode.Auto? && run.judge.Some? && level == Compound {
      if s.lastFineOutput.Some? {
        React(s, p, run.judge.value(s.lastFineOutput.value, OrEmpty(run.output)));
      }
    }
  }
}
