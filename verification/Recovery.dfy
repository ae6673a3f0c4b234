/** Runs that are cut short again and again, and what the attempt that gets through returns. */
module Recovery {
  import opened Wrappers
  import opened Graphs
  import opened Levels
  import opened Pipelines
  import opened Checkpoint
  import opened Attempts
  import opened Semantics
  import opened Merging
  import opened ParallelExecutor

  /** Attempts a run until it completes, at most once more than there are interruptions to survive.
      The attempt that completes returns what the plan denotes, as if it had been the only one. No
      group is dispatched again once it is saved, and on a store that sees all attempts every group
      is saved exactly once. Over all attempts of a process, every controller takes at most one step. */
  method RunWithRetries<S>(p: Plan<S>, levels: seq<seq<Name>>, ck: PipelineCheckpoint, t: TaskId,
                           states: PipelineState<S>, spoilt: Name -> S, interruptions: seq<Interruption>)
    returns (r: RunResult, ghost completed: seq<Name>, ghost trail: Trail<S>)
    requires Runnable(p) && AreLevels(levels, p.order, GroupGraph(p.deps))
    requires ck.Valid() && Sound(p, Denotation(p), FileOf(ck.View(), t), states.memory)
    modifies ck, ck.disk, states
    ensures r.Completed? ==>
      Finishes(completed, levels) && (forall n :: n in completed ==> n in Denotation(p)) && Denotes(p, r, completed)
    ensures Recovers(t, ControllersOf(p, Denotation(p), spoilt), interruptions, ck.disk != null,
                     FileOf(old(ck.View()), t), old(ck.Log()), ck.Log(), old(states.memory), trail, r.Completed?)
    ensures trail.first == 0 ==> trail.memory == states.memory
    decreases |interruptions|
  {
    hide *;
    ghost var dispatched;
    ghost var saved, log, before := FileOf(ck.View(), t), ck.Log(), states.memory;
    ghost var cs, onDisk := ControllersOf(p, Denotation(p), spoilt), ck.disk != null;
    r, completed, dispatched := Execute(p, levels, ck, t, states, spoilt);
    ghost var a, middle, between := Attempt(saved, dispatched, FileOf(ck.View(), t)), ck.Log(), states.memory;
    if r.Completed? || interruptions == [] {
      trail := Trail([a], 0, between);
      OneAttempt(t, cs, interruptions, onDisk, a, log, middle, before, between, r.Completed?);
      return;
    }
    ghost var found, next, last;
    if interruptions[0].Raised? {
      NextFinds(ck, ck, t, interruptions[0]);
      found, next := a.left, middle;
      Inheriting(a.left, interruptions[0], onDisk);
      r, completed, trail := RunWithRetries(p, levels, ck, t, states, spoilt, interruptions[1..]);
      last := ck.Log();
    } else {
      var reopened := new PipelineCheckpoint(ck.disk);
      var restarted := new PipelineState(p.start);
      RestartIsSound(p, a.left, between, ck, reopened, t);
      NextFinds(ck, reopened, t, interruptions[0]);
      GroupsOfPlan(p, Denotation(p), spoilt);
      found, next := FileOf(reopened.View(), t), reopened.Log();
      r, completed, trail := RunWithRetries(p, levels, reopened, t, restarted, spoilt, interruptions[1..]);
      last := reopened.Log();
      if ck.disk != null {
        OneLog(ck, reopened);
      }
    }
    ExtendedBy(a, trail, interruptions[0]);
    AnotherAttempt(t, cs, interruptions, onDisk, a, log, middle, next, last, ck.Log(), before, between, found, trail,
                   r.Completed?);
    trail := Extended(a, trail, interruptions[0]);
  }

  lemma NextFinds(ck: PipelineCheckpoint, next: PipelineCheckpoint, t: TaskId, interruption: Interruption)
    requires ck.Valid() && next.disk == ck.disk
    requires if interruption.Raised? then next == ck else next.store == map[]
    ensures FileOf(next.View(), t) == Inherited(FileOf(ck.View(), t), interruption, ck.disk != null)
    ensures ck.disk != null || interruption.Raised? ==> next.Log() == ck.Log()
  {
    if interruption.Killed? {
      ReopenedView(ck, next);
    }
  }

  lemma OneLog(ck: PipelineCheckpoint, other: PipelineCheckpoint)
    requires ck.disk != null && other.disk == ck.disk
    ensures other.Log() == ck.Log()
  {
  }

  lemma ReopenedView(ck: PipelineCheckpoint, reopened: PipelineCheckpoint)
    requires ck.Valid() && reopened.disk == ck.disk && reopened.store == map[]
    ensures reopened.View() == if ck.disk == null then map[] else ck.View()
  {
  }

  /** A new process finds the files as they were left, or nothing, and unused controller states. */
  lemma RestartIsSound<S>(p: Plan<S>, saved: TaskFile, memory: map<Name, S>, ck: PipelineCheckpoint,
                          reopened: PipelineCheckpoint, t: TaskId)
    requires Runnable(p) && Sound(p, Denotation(p), saved, memory)
    requires ck.Valid() && saved == FileOf(ck.View(), t)
    requires reopened.disk == ck.disk && reopened.store == map[]
    ensures Sound(p, Denotation(p), FileOf(reopened.View(), t), p.start)
  {
    ReopenedView(ck, reopened);
    UnusedIsSound(p, saved, memory);
  }

  /** Before the first attempt nothing is saved and no controller state is used. */
  lemma FirstAttemptIsSound<S>(p: Plan<S>)
    requires Runnable(p)
    ensures Sound(p, Denotation(p), map[], p.start)
  {
  }

  lemma UnusedIsSound<S>(p: Plan<S>, saved: TaskFile, memory: map<Name, S>)
    requires Runnable(p) && Sound(p, Denotation(p), saved, memory)
    ensures Sound(p, Denotation(p), saved, p.start) && Sound(p, Denotation(p), map[], p.start)
  {
    FirstAttemptIsSound(p);
    hide Cyclic, Closed, Distinct, Solves;
  }

  /** Two completed runs return the same, however they were scheduled or interrupted, if and only
      if every output key is decided by the results of the plan. */
  lemma RunsAgree<S>(p: Plan<S>, levels: seq<seq<Name>>)
    requires Runnable(p) && AreLevels(levels, p.order, GroupGraph(p.deps))
    ensures (forall k :: Decided(Denotation(p), levels, k)) <==>
      (forall a, b, ra, rb ::
        Finishes(a, levels) && Finishes(b, levels) && Denotes(p, ra, a) && Denotes(p, rb, b) ==> ra == rb)
  {
    hide *;
    if forall k :: Decided(Denotation(p), levels, k) {
      AllRunsAgree(p, levels);
    } else {
      var k :| !Decided(Denotation(p), levels, k);
      SomeRunsDiffer(p, levels, k);
    }
  }

  lemma AllRunsAgree<S>(p: Plan<S>, levels: seq<seq<Name>>)
    requires Runnable(p) && AreLevels(levels, p.order, GroupGraph(p.deps))
    requires forall k :: Decided(Denotation(p), levels, k)
    ensures forall a, b, ra, rb ::
      Finishes(a, levels) && Finishes(b, levels) && Denotes(p, ra, a) && Denotes(p, rb, b) ==> ra == rb
  {
    hide *;
    LevelsAreKnown(p, levels);
    forall a, b, ra, rb | Finishes(a, levels) && Finishes(b, levels) && Denotes(p, ra, a) && Denotes(p, rb, b)
      ensures ra == rb {
      DecidedRunsAgree(p, levels, a, b, ra, rb);
    }
  }

  lemma SomeRunsDiffer<S>(p: Plan<S>, levels: seq<seq<Name>>, k: string)
    requires Runnable(p) && AreLevels(levels, p.order, GroupGraph(p.deps)) && !Decided(Denotation(p), levels, k)
    ensures exists a, b, ra, rb ::
      Finishes(a, levels) && Finishes(b, levels) && Denotes(p, ra, a) && Denotes(p, rb, b) && ra != rb
  {
    hide *;
    LevelsAreKnown(p, levels);
    var a, b := UndecidedDiffers(Denotation(p), levels, k);
    DifferentRuns(p, a, b, k);
  }

  lemma DecidedRunsAgree<S>(p: Plan<S>, levels: seq<seq<Name>>, a: seq<Name>, b: seq<Name>, ra: RunResult,
                            rb: RunResult)
    requires Runnable(p) && AllKnown(Denotation(p), levels) && forall k :: Decided(Denotation(p), levels, k)
    requires Finishes(a, levels) && Finishes(b, levels) && Denotes(p, ra, a) && Denotes(p, rb, b)
    ensures ra == rb
  {
    MergeIsScheduleFree(Denotation(p), levels);
    assert Merge(Denotation(p), a) == Merge(Denotation(p), b);
  }

  lemma DifferentRuns<S>(p: Plan<S>, a: seq<Name>, b: seq<Name>, k: string)
    requires Runnable(p) && forall n :: n in a || n in b ==> n in Denotation(p)
    requires k in Merge(Denotation(p), a) && k in Merge(Denotation(p), b)
    requires Merge(Denotation(p), a)[k] != Merge(Denotation(p), b)[k]
    ensures exists ra, rb :: Denotes(p, ra, a) && Denotes(p, rb, b) && ra != rb
  {
    var ra, rb := DenotedBy(p, a), DenotedBy(p, b);
    assert Denotes(p, ra, a) && Denotes(p, rb, b) && ra != rb;
  }

  ghost function DenotedBy<S>(p: Plan<S>, completed: seq<Name>): (r: RunResult)
    requires Runnable(p) && forall n :: n in completed ==> n in Denotation(p)
    ensures Denotes(p, r, completed)
  {
    var last := p.order[|p.order| - 1];
    assert last in Elems(p.order);
    Completed(OrEmpty(Denotation(p)[last].finalOutput), Merge(Denotation(p), completed))
  }

  lemma LevelsAreKnown<S>(p: Plan<S>, levels: seq<seq<Name>>)
    requires Runnable(p) && AreLevels(levels, p.order, GroupGraph(p.deps))
    ensures AllKnown(Denotation(p), levels)
  {
    hide Cyclic, Closed, Distinct, LongestChain;
    forall l, n | 0 <= l < |levels| && n in levels[l] ensures n in Denotation(p) {
      assert n in GroupGraph(p.deps);
    }
  }

  /** A plan for a built pipeline: the order and dependencies are those that were declared. */
  ghost predicate PlanFor<S>(p: Plan<S>, groups: seq<GroupSpec>) {
    p.order == GroupNames(groups) && p.deps == DeclaredDeps(groups) && p.start.Keys == Elems(GroupNames(groups))
  }

  /** A group of a built pipeline is run on the task with the outputs of exactly the groups it declares, in their order,
      or of the group before it if it declares nothing; its controller is told the same. */
  lemma RunsOnWhatItDeclares<S>(p: Plan<S>, groups: seq<GroupSpec>, i: nat, texts: map<Name, string>)
    requires PlanFor(p, groups) && Runnable(p) && i < |groups|
    requires
      var declared := if groups[i].dependsOn.Some? then groups[i].dependsOn.value
                      else if i > 0 then [groups[i - 1].name] else [];
      Left(Denotation(p), declared, texts)
    ensures
      var declared := if groups[i].dependsOn.Some? then groups[i].dependsOn.value
                      else if i > 0 then [groups[i - 1].name] else [];
      var n, task := groups[i].name, GroupTask(p.task, declared, texts);
      && n in p.deps && n in p.start && n in Denotation(p)
      && Denotation(p)[n] == p.run(n, p.start[n], task)
      && Controlled(p, Denotation(p), n) == p.control(n, p.start[n], task, Denotation(p)[n])
  {
    NamesApart(groups, i);
    DependsAsDeclared(groups, i);
    RunsOnItsDependencies(p, groups[i].name, texts);
    hide Runnable, DeclaredDeps, GroupTask, TaskOf, Left;
  }

  /** What a completed run returns: the final output of the group declared last, and under every key that any group
      writes the text of a group in the last level in which one does. */
  lemma WhatIsReturned<S>(p: Plan<S>, levels: seq<seq<Name>>, completed: seq<Name>, r: RunResult, k: string)
    returns (l: nat, n: Name)
    requires Runnable(p) && AreLevels(levels, p.order, GroupGraph(p.deps))
    requires Finishes(completed, levels) && Denotes(p, r, completed)
    ensures
      var last := p.order[|p.order| - 1];
      && r.Completed? && last in Denotation(p)
      && (Denotation(p)[last].finalOutput.Some? ==> r.finalOutput == Denotation(p)[last].finalOutput.value)
      && (Denotation(p)[last].finalOutput.None? ==> r.finalOutput == "")
    ensures k in r.stepOutputs <==> exists m :: m in p.order && m in Denotation(p) && k in Denotation(p)[m].outputs
    ensures k in r.stepOutputs ==>
      && l < |levels| && n in levels[l] && n in Denotation(p) && k in Denotation(p)[n].outputs
      && (Denotation(p)[n].outputs[k].Some? ==> r.stepOutputs[k] == Denotation(p)[n].outputs[k].value)
      && (Denotation(p)[n].outputs[k].None? ==> r.stepOutputs[k] == "")
      && forall j, m :: l < j < |levels| && m in levels[j] && m in Denotation(p) ==> k !in Denotation(p)[m].outputs
  {
    hide *;
    var sol := Denotation(p);
    l := 0;
    n := FinalIs(p, r, completed);
    LevelsAreKnown(p, levels);
    FinishedAreKnown(sol, completed, levels);
    FinishedAreAll(p, levels, completed);
    MergeHas(sol, completed, k);
    forall m ensures Writes(sol, m, k) <==> m in sol && k in sol[m].outputs {
      WrittenIs(sol, m, k);
    }
    if k in r.stepOutputs {
      l, n := LastLevelWins(sol, completed, levels, k);
      WrittenIs(sol, n, k);
    }
  }

  lemma FinalIs<S>(p: Plan<S>, r: RunResult, completed: seq<Name>) returns (last: Name)
    requires Runnable(p) && Denotes(p, r, completed)
    ensures p.order != [] && last == p.order[|p.order| - 1] && last in Denotation(p)
    ensures forall n :: n in completed ==> n in Denotation(p)
    ensures r.Completed? && r.stepOutputs == Merge(Denotation(p), completed)
    ensures Denotation(p)[last].finalOutput.Some? ==> r.finalOutput == Denotation(p)[last].finalOutput.value
    ensures Denotation(p)[last].finalOutput.None? ==> r.finalOutput == ""
  {
    last := p.order[|p.order| - 1];
    hide Merge, Cyclic, Closed, Distinct, Solves;
  }

  lemma {:induction false} FinishedAre(completed: seq<Name>, levels: seq<seq<Name>>, n: Name)
    requires Finishes(completed, levels)
    ensures n in completed <==> InLevels(levels, n)
    decreases |levels|
  {
    if levels != [] {
      var last := |levels| - 1;
      var k := |completed| - |levels[last]|;
      FinishedAre(completed[..k], levels[..last], n);
      SameMembers(completed[k..], levels[last]);
      assert completed == completed[..k] + completed[k..];
      if InLevels(levels[..last], n) {
        var l :| 0 <= l < last && n in levels[..last][l];
        assert n in levels[l];
      }
      if InLevels(levels, n) {
        var l :| 0 <= l < |levels| && n in levels[l];
        assert l < last ==> n in levels[..last][l];
      }
    }
  }

  lemma FinishedAreAll<S>(p: Plan<S>, levels: seq<seq<Name>>, completed: seq<Name>)
    requires Runnable(p) && AreLevels(levels, p.order, GroupGraph(p.deps)) && Finishes(completed, levels)
    ensures forall n :: n in completed <==> n in p.order
  {
    hide Cyclic, Closed, Distinct, LongestChain, Finishes;
    forall n ensures n in completed <==> n in p.order {
      FinishedAre(completed, levels, n);
      assert n in p.order <==> n in Elems(p.order);
      assert n in GroupGraph(p.deps) <==> n in p.order;
    }
  }

  /** From a built pipeline to its result, whatever earlier processes have left in the checkpoint. It runs unless it has
      no groups, a static group without agents or with two agents of one name, or two groups of one name. */
  method RunPipeline<S>(groups: seq<GroupSpec>, p: Plan<S>, ck: PipelineCheckpoint, t: TaskId, states: PipelineState<S>,
                        spoilt: Name -> S, interruptions: seq<Interruption>)
    returns (r: Result<RunResult, StartError>, ghost levels: seq<seq<Name>>, ghost completed: seq<Name>,
             ghost trail: Trail<S>)
    requires WellFormed(groups) && PlanFor(p, groups)
    requires ck.Valid() && (Runnable(p) ==> Sound(p, Denotation(p), FileOf(ck.View(), t), states.memory))
    modifies ck, ck.disk, states
    ensures r.Ok? <==> CanStart(groups) && Distinct(GroupNames(groups))
    ensures r.Ok? ==> Runnable(p) && AreLevels(levels, p.order, GroupGraph(p.deps))
    ensures r.Ok? && r.value.Completed? ==>
      Finishes(completed, levels) && (forall n :: n in completed ==> n in Denotation(p))
        && Denotes(p, r.value, completed)
    ensures r.Ok? ==>
      Recovers(t, ControllersOf(p, Denotation(p), spoilt), interruptions, ck.disk != null, FileOf(old(ck.View()), t),
               old(ck.Log()), ck.Log(), old(states.memory), trail, r.value.Completed?)
    ensures r.Err? ==> Explains(r.error, groups)
    ensures r.Err? ==> ck.View() == old(ck.View()) && ck.Log() == old(ck.Log()) && states.memory == old(states.memory)
  {
    hide *;
    completed, levels, trail := [], [], Trail([], 0, map[]);
    var planned := Prepare(groups);
    if planned.Err? {
      return Err(planned.error), levels, completed, trail;
    }
    levels := planned.value;
    StartsRunnable(p, groups);
    var result;
    result, completed, trail := RunWithRetries(p, planned.value, ck, t, states, spoilt, interruptions);
    r := Ok(result);
  }

  lemma StartsRunnable<S>(p: Plan<S>, groups: seq<GroupSpec>)
    requires WellFormed(groups) && PlanFor(p, groups) && CanStart(groups) && Distinct(GroupNames(groups))
    ensures Runnable(p) && p.order == GroupNames(groups) && GroupGraph(p.deps) == PipelineGraph(groups)
  {
    BuiltRuns(groups);
    hide WellFormed, Cyclic, Closed, Distinct, Staffed, Compiles;
  }
}
