/** Pipelines whose groups are governed by the composition controller. */
module Governance {
  import opened Wrappers
  import opened Graphs
  import opened Checkpoint
  import opened Attempts
  import opened Semantics
  import opened ParallelExecutor
  import opened SerialExecutor
  import opened Policies
  import opened GroupController
  import opened QualityGate
  import opened ControllerRuns

  /** What governs a pipeline: policies and groups by name, and what is measured when a group runs. */
  datatype Rule = Rule(policy: Name -> Policy, group: Name -> Group,
                       measure: (Name, Controller, string, GroupResult) -> Run)

  /** The controller step of the plan is the controller's. */
  ghost predicate Governed(p: Plan<Controller>, rule: Rule) {
    forall n, c, task, r ::
      p.control(n, c, task, r) == PostRun(rule.policy(n), rule.group(n), c, rule.measure(n, c, task, r))
  }

  /** A run of the pipeline adds exactly one observation to the controller of every group it dispatched, reverts it
      at most once, keeps its cooldown account balanced, and leaves the controllers of replayed groups alone. */
  lemma OneObservationPerRun(p: Plan<Controller>, rule: Rule, sol: Results, dispatched: set<Name>,
                             before: map<Name, Controller>, after: map<Name, Controller>, n: Name)
    requires Governed(p, rule) && ControlledOnce(p, sol, dispatched, before, after)
    requires n in p.deps && n in p.start && Cooled(rule.policy(n), p.start[n])
    ensures n in before && n in after
    ensures n !in dispatched ==> after[n] == before[n]
    ensures n in dispatched ==>
              && |after[n].observations| == |p.start[n].observations| + 1
              && Cooled(rule.policy(n), after[n]) && RevertsOnce(p.start[n], after[n])
  {
    if n in dispatched {
      var task, r := TaskOf(p, sol, n), sol[n];
      var run := rule.measure(n, p.start[n], task, r);
      assert after[n] == p.control(n, p.start[n], task, r);
      hide PostRun, Cooled, RevertsOnce;
      RunCools(rule.policy(n), rule.group(n), p.start[n], run);
      RunObserves(rule.policy(n), rule.group(n), p.start[n], run);
    }
  }

  // ----- over many attempts, serial or parallel -----------------------------------------------

  /** What one attempt did to the controller of a group: nothing, or the step after the run it saw. */
  ghost predicate Leads(rule: Rule, n: Name, seen: Option<Run>, before: map<Name, Controller>,
                        after: map<Name, Controller>) {
    && n in before && n in after
    && after[n] == match seen
      case None => before[n]
      case Some(run) => PostRun(rule.policy(n), rule.group(n), before[n], run)
  }

  /** No step of this group has failed half-way. */
  ghost predicate Unspoilt(cs: Controllers<Controller>, dispatched: set<Name>, n: Name, after: map<Name, Controller>) {
    n in dispatched && n in after && n in cs.start && n in cs.stepped ==>
      after[n] == cs.start[n] || after[n] == cs.stepped[n]
  }

  /** Any attempt of the parallel executor, completed or cut short. */
  lemma ParallelLeads(p: Plan<Controller>, rule: Rule, sol: Results, spoilt: Name -> Controller, saved: set<Name>,
                      dispatched: set<Name>, before: map<Name, Controller>, after: map<Name, Controller>, n: Name)
    returns (seen: Option<Run>)
    requires Governed(p, rule) && n in before && n in p.deps
    requires StepsOnce(ControllersOf(p, sol, spoilt), dispatched, before, after)
    requires Unused(ControllersOf(p, sol, spoilt), saved, before) && dispatched !! saved
    requires Unspoilt(ControllersOf(p, sol, spoilt), dispatched, n, after)
    ensures Leads(rule, n, seen, before, after)
    ensures seen.Some? ==> n in dispatched && n in p.start && n in sol
                           && seen == Some(rule.measure(n, p.start[n], TaskOf(p, sol, n), sol[n]))
    ensures n in dispatched && ControlledOnce(p, sol, dispatched, before, after) ==>
              n in p.start && n in sol
              && Leads(rule, n, Some(rule.measure(n, p.start[n], TaskOf(p, sol, n), sol[n])), before, after)
  {
    var cs := ControllersOf(p, sol, spoilt);
    assert StepOnce(cs, n in dispatched, n, before, after[n]);
    hide PostRun;
    seen := None;
    if n in dispatched {
      assert n in cs.groups && before[n] == p.start[n];
      var run := rule.measure(n, p.start[n], TaskOf(p, sol, n), sol[n]);
      assert Controlled(p, sol, n) == p.control(n, p.start[n], TaskOf(p, sol, n), sol[n]);
      if after[n] != cs.start[n] {
        seen := Some(run);
      }
    }
  }

  lemma SerialStepIs(p: Plan<Controller>, rule: Rule, i: nat)
    requires Governed(p, rule) && Serial(p) && i < |p.order|
    ensures
      var n := p.order[i];
      && n in p.start
      && SerialControlled(p, i) == PostRun(rule.policy(n), rule.group(n), p.start[n],
                                           rule.measure(n, p.start[n], SerialTask(p, i + 1), SerialResult(p, i)))
  {
    hide PostRun, SerialTask, SerialResult, Distinct;
    assert p.order[i] in Elems(p.order);
    assert SerialControlled(p, i) ==
      p.control(p.order[i], p.start[p.order[i]], SerialTask(p, i + 1), SerialResult(p, i));
  }

  /** Any attempt of the serial executor; its controllers see the task with the group's own answer in it. */
  lemma SerialLeads(p: Plan<Controller>, rule: Rule, spoilt: Name -> Controller, saved: TaskFile,
                    dispatched: set<Name>, before: map<Name, Controller>, after: map<Name, Controller>, i: nat)
    returns (seen: Option<Run>)
    requires Governed(p, rule) && Serial(p) && i < |p.order| && p.order[i] in before
    requires StepsOnce(SerialControllers(p, spoilt), dispatched, before, after)
    requires Unused(SerialControllers(p, spoilt), saved.Keys, before) && dispatched !! saved.Keys
    requires Unspoilt(SerialControllers(p, spoilt), dispatched, p.order[i], after)
    ensures Leads(rule, p.order[i], seen, before, after)
    ensures seen.Some? ==> p.order[i] in dispatched && p.order[i] in p.start
                           && seen == Some(rule.measure(p.order[i], p.start[p.order[i]], SerialTask(p, i + 1),
                                                        SerialResult(p, i)))
    ensures p.order[i] !in saved && SerialControlledOnce(p, saved, before, after) ==>
              p.order[i] in p.start
              && Leads(rule, p.order[i],
                       Some(rule.measure(p.order[i], p.start[p.order[i]], SerialTask(p, i + 1), SerialResult(p, i))),
                       before, after)
  {
    var cs, n := SerialControllers(p, spoilt), p.order[i];
    assert StepOnce(cs, n in dispatched, n, before, after[n]);
    assert n in Elems(p.order) && IndexOf(p.order, n) == i;
    SerialStepIs(p, rule, i);
    hide PostRun, SerialTask, SerialResult, SerialControlled, Serial;
    seen := None;
    var run := rule.measure(n, p.start[n], SerialTask(p, i + 1), SerialResult(p, i));
    if n in dispatched {
      if after[n] != cs.start[n] {
        seen := Some(run);
      }
    }
  }

  /** The runs a controller saw, without the attempts in which its group was replayed or not reached. */
  function SeenRuns(seen: seq<Option<Run>>): seq<Run> {
    if seen == [] then [] else
      var last := seen[|seen| - 1];
      SeenRuns(seen[..|seen| - 1]) + if last.Some? then [last.value] else []
  }

  ghost predicate SeenHistory(rule: Rule, n: Name, seen: seq<Option<Run>>, states: seq<map<Name, Controller>>) {
    && |states| == |seen| + 1 && n in states[0]
    && forall i :: 0 <= i < |seen| ==> Leads(rule, n, seen[i], states[i], states[i + 1])
  }

  /** Over every sequence of attempts and runs, completed or cut short, serial or parallel, a group's controller is what
      the runs it has seen, one after the other, make of it. */
  lemma {:induction false} ControllerSeesRuns(rule: Rule, n: Name, seen: seq<Option<Run>>,
                                              states: seq<map<Name, Controller>>)
    requires SeenHistory(rule, n, seen, states)
    ensures n in states[|seen|]
    ensures states[|seen|][n] == After(rule.policy(n), rule.group(n), states[0][n], SeenRuns(seen))
    decreases |seen|
  {
    hide PostRun;
    if seen != [] {
      var k := |seen| - 1;
      assert Leads(rule, n, seen[k], states[k], states[k + 1]);
      ControllerSeesRuns(rule, n, seen[..k], states[..k + 1]);
      var front, all := SeenRuns(seen[..k]), SeenRuns(seen);
      if seen[k].Some? {
        assert all[..|all| - 1] == front;
      } else {
        assert all == front;
      }
    }
  }

  /** So the bounds carry over to pipelines: k reverts of a group take min_observations * (1 + 2 + 3 + ...) runs of
      it, and its moves on the ladder are paid for by its evaluations. */
  lemma BoundsCarryOver(rule: Rule, n: Name, seen: seq<Option<Run>>, states: seq<map<Name, Controller>>)
    requires SeenHistory(rule, n, seen, states) && states[0][n] == FRESH
    ensures n in states[|seen|]
    ensures
      var p, g, c, runs := rule.policy(n), rule.group(n), states[|seen|][n], SeenRuns(seen);
      && |runs| >= p.minObservations * Cooldown(c.revertCount)
      && Spent(p, g, FRESH, runs) + c.failureStreak + c.successStreak <= Evaluations(p, g, FRESH, runs)
  {
    ControllerSeesRuns(rule, n, seen, states);
    hide *;
    RevertsAreRare(rule.policy(n), rule.group(n), SeenRuns(seen));
    MovesAreEarned(rule.policy(n), rule.group(n), SeenRuns(seen));
  }
}
