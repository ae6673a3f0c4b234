/** The parallel executor: levels of workers that finish in any order, save what they finish, and
    may be cut short at any point and resumed from the checkpoint. */
module ParallelExecutor {
  import opened Wrappers
  import opened Graphs
  import opened Levels
  import opened Checkpoint
  import opened Attempts
  import opened Semantics
  import opened Merging

  /** The controller states of the groups, shared by all workers of a pipeline object. */
  class PipelineState<S> {
    var memory: map<Name, S>

    constructor (start: map<Name, S>)
      ensures memory == start
    {
      memory := start;
    }
  }

  /** What holds between any two attempts: whatever is saved is right, and a group that is not
      saved has not touched its controller state. */
  ghost predicate Sound<S>(p: Plan<S>, sol: Results, saved: TaskFile, memory: map<Name, S>) {
    && p.deps.Keys <= memory.Keys && p.deps.Keys <= p.start.Keys
    && (forall n :: n in saved ==> n in sol && saved[n] == ToEntry(sol[n]))
    && (forall n :: n in p.deps && n !in saved ==> memory[n] == p.start[n])
  }

  /** The controller state of a group after its one run. */
  ghost function Controlled<S>(p: Plan<S>, sol: Results, n: Name): S
    requires n in p.deps && n in p.start && n in sol
  {
    p.control(n, p.start[n], TaskOf(p, sol, n), sol[n])
  }

  /** The controller states of all groups after their one step. */
  ghost function AfterStep<S>(p: Plan<S>, sol: Results): map<Name, S> {
    map n | n in p.deps && n in p.start && n in sol :: Controlled(p, sol, n)
  }

  ghost function ControllersOf<S>(p: Plan<S>, sol: Results, spoilt: Name -> S): Controllers<S> {
    Controllers(p.deps.Keys, p.start, AfterStep(p, sol), spoilt)
  }

  lemma UnusedControllers<S>(p: Plan<S>, sol: Results, spoilt: Name -> S, saved: TaskFile, memory: map<Name, S>)
    requires Solves(p, sol) && Sound(p, sol, saved, memory)
    ensures Unused(ControllersOf(p, sol, spoilt), saved.Keys, memory)
  {
    hide Controlled, TaskOf;
  }

  // ----- what the orchestrator collects -------------------------------------------------------

  datatype Collected = Collected(groupOutputs: map<Name, string>, allOutputs: map<string, Option<string>>,
                                 groupResults: Results)

  function Collect(acc: Collected, n: Name, r: GroupResult): Collected {
    Collected(acc.groupOutputs[n := OrEmpty(r.finalOutput)], acc.allOutputs + r.outputs, acc.groupResults[n := r])
  }

  function Texted(outputs: map<string, Option<string>>): Outputs {
    map k | k in outputs :: OrEmpty(outputs[k])
  }

  ghost predicate HoldsFor(sol: Results, n: Name, completed: bool, text: Option<string>, result: Option<GroupResult>) {
    if completed then
      && n in sol && text == Some(OrEmpty(sol[n].finalOutput))
      && result.Some? && ToEntry(result.value) == ToEntry(sol[n])
    else text.None? && result.None?
  }

  /** The accumulators hold the results of the completed groups, up to unset texts. */
  ghost predicate Holds(sol: Results, acc: Collected, completed: seq<Name>) {
    && (forall n :: n in completed ==> n in sol)
    && (forall n :: HoldsFor(sol, n, n in completed, Get(acc.groupOutputs, n), Get(acc.groupResults, n)))
    && Texted(acc.allOutputs) == Merge(sol, completed)
  }

  lemma TextedAppend(outputs: map<string, Option<string>>, r: GroupResult)
    ensures Texted(outputs + r.outputs) == Texted(outputs) + ToEntry(r).outputs
  {
  }

  lemma MergeOne(sol: Results, completed: seq<Name>, n: Name)
    requires (forall m :: m in completed ==> m in sol) && n in sol
    ensures Merge(sol, completed + [n]) == Merge(sol, completed) + ToEntry(sol[n]).outputs
  {
    assert (completed + [n])[..|completed|] == completed;
  }

  lemma CollectOne(sol: Results, acc: Collected, completed: seq<Name>, n: Name, r: GroupResult)
    requires Holds(sol, acc, completed) && n in sol && ToEntry(r) == ToEntry(sol[n])
    ensures Holds(sol, Collect(acc, n, r), completed + [n])
  {
    TextedAppend(acc.allOutputs, r);
    MergeOne(sol, completed, n);
    var next := Collect(acc, n, r);
    assert ToEntry(r).finalOutput == OrEmpty(r.finalOutput)
      && ToEntry(sol[n]).finalOutput == OrEmpty(sol[n].finalOutput);
    assert HoldsFor(sol, n, true, Get(next.groupOutputs, n), Get(next.groupResults, n));
    hide Merge, Texted, ToEntry, OrEmpty, HoldsFor;
    forall m ensures HoldsFor(sol, m, m in completed + [n], Get(next.groupOutputs, m), Get(next.groupResults, m)) {
      assert HoldsFor(sol, m, m in completed, Get(acc.groupOutputs, m), Get(acc.groupResults, m));
    }
  }

  /** Looks up one group; it is either replayed or left to be dispatched. */
  method ResumeGroup<S>(ghost p: Plan<S>, ghost sol: Results, n: Name, acc0: Collected, ghost completed: seq<Name>,
                        ck: PipelineCheckpoint, t: TaskId, ghost memory: map<Name, S>)
    returns (found: bool, acc: Collected)
    requires ck.Valid() && Sound(p, sol, FileOf(ck.View(), t), memory) && Holds(sol, acc0, completed)
    modifies ck`store
    ensures ck.Valid() && ck.View() == old(ck.View()) && ck.Primed(t)
    ensures found <==> n in FileOf(ck.View(), t)
    ensures Holds(sol, acc, if found then completed + [n] else completed)
  {
    var entry := ck.LoadGroup(t, n);
    ghost var saved := FileOf(ck.View(), t);
    assert entry == Get(saved, n);
    hide Holds, Sound;
    found, acc := entry.Some?, acc0;
    if entry.Some? {
      ResumeOne(p, sol, saved, memory, acc, completed, n);
      acc := Collect(acc, n, Replayed(entry.value));
    }
  }

  /** Replays the groups of a level that are saved; the others are to be dispatched. */
  method ResumeLevel<S>(ghost p: Plan<S>, ghost sol: Results, level: seq<Name>, acc0: Collected,
                        ghost completed: seq<Name>, ck: PipelineCheckpoint, t: TaskId, ghost memory: map<Name, S>)
    returns (acc: Collected, ghost resumed: seq<Name>, dispatch: seq<Name>)
    requires ck.Valid() && Sound(p, sol, FileOf(ck.View(), t), memory) && Holds(sol, acc0, completed)
    modifies ck`store
    ensures ck.Valid() && ck.View() == old(ck.View()) && (level != [] ==> ck.Primed(t))
    ensures Holds(sol, acc, completed + resumed)
    ensures multiset(resumed) + multiset(dispatch) == multiset(level)
    ensures forall n :: n in resumed ==> n in FileOf(ck.View(), t)
    ensures forall n :: n in dispatch ==> n !in FileOf(ck.View(), t)
  {
    hide *;
    acc, resumed, dispatch := acc0, [], [];
    assert completed + resumed == completed;
    for i := 0 to |level|
      invariant ck.Valid() && ck.View() == old(ck.View()) && (i > 0 ==> ck.Primed(t))
      invariant Holds(sol, acc, completed + resumed)
      invariant multiset(resumed) + multiset(dispatch) == multiset(level[..i])
      invariant forall n :: n in resumed ==> n in FileOf(ck.View(), t)
      invariant forall n :: n in dispatch ==> n !in FileOf(ck.View(), t)
    {
      var found;
      found, acc := ResumeGroup(p, sol, level[i], acc, completed + resumed, ck, t, memory);
      assert level[..i + 1] == level[..i] + [level[i]];
      if found {
        assert completed + (resumed + [level[i]]) == completed + resumed + [level[i]];
        resumed := resumed + [level[i]];
      } else {
        dispatch := dispatch + [level[i]];
      }
    }
    assert level[..|level|] == level;
  }

  lemma ResumeOne<S>(p: Plan<S>, sol: Results, saved: TaskFile, memory: map<Name, S>, acc: Collected,
                     completed: seq<Name>, n: Name)
    requires Sound(p, sol, saved, memory) && Holds(sol, acc, completed) && n in saved
    ensures Holds(sol, Collect(acc, n, Replayed(saved[n])), completed + [n])
  {
    ReplayedIsSaved(saved[n]);
    CollectOne(sol, acc, completed, n, Replayed(saved[n]));
  }

  // ----- the workers of one level -------------------------------------------------------------

  /** Where a submitted group is: not started, run but not saved, saved but not through the
      controller step, or done and waiting to be collected. */
  datatype Stage = Waiting | Ran(result: GroupResult) | Kept(result: GroupResult) | Finished(result: GroupResult)

  ghost function StageNo(stage: Stage): nat {
    match stage case Waiting => 0 case Ran(_) => 1 case Kept(_) => 2 case Finished(_) => 3
  }

  ghost function At(stages: map<Name, Stage>, k: nat): set<Name> {
    set n | n in stages && StageNo(stages[n]) == k
  }

  ghost predicate StageHolds<S>(p: Plan<S>, sol: Results, n: Name, stage: Stage, entry: Option<Entry>, state: Option<S>)
    requires n in p.deps && n in p.start && n in sol
  {
    match stage
    case Waiting => entry.None?
    case Ran(r) => r == sol[n] && entry.None?
    case Kept(r) => r == sol[n] && entry.Some? && state == Some(p.start[n])
    case Finished(r) => r == sol[n] && entry.Some? && state == Some(Controlled(p, sol, n))
  }

  /** What a level, or a whole attempt, sets out from: what is saved, the controller states, and the states
      that controller steps leave behind when they fail. */
  datatype Outset<!S> = Outset(saved: TaskFile, memory: map<Name, S>, spoilt: Name -> S)

  /** The controller of a group that is run at most once: unused, after its step, or spoilt by a failing one. */
  ghost predicate SteppedOnce<S>(p: Plan<S>, sol: Results, spoilt: Name -> S, n: Name, state: Option<S>)
    requires n in p.deps && n in p.start && n in sol
  {
    state == Some(p.start[n]) || state == Some(Controlled(p, sol, n)) || state == Some(spoilt(n))
  }

  /** One group during the level, as far as anyone can see: its stage, whether it was collected,
      what is saved of it, and its controller state. No other group's data plays a part. */
  ghost predicate GroupHolds<S>(p: Plan<S>, sol: Results, tasks: map<Name, string>, before: Outset<S>, n: Name,
                                stage: Option<Stage>, done: bool, doomed: bool, entry: Option<Entry>,
                                state: Option<S>) {
    && (state.Some? <==> n in before.memory)
    && (n in p.deps ==> n in p.start && n in sol && state.Some?)
    && (entry.Some? ==> n in sol && entry.value == ToEntry(sol[n]))
    && (n in p.deps && entry.None? ==> state == Some(p.start[n]))
    && (n in before.saved ==> entry.Some?)
    && (n in tasks ==> n in p.deps && tasks[n] == TaskOf(p, sol, n) && SteppedOnce(p, sol, before.spoilt, n, state))
    && (n !in tasks ==> stage.None? && !done && entry == Get(before.saved, n) && state == Get(before.memory, n))
    && (n in tasks && stage.Some? ==> !done && StageHolds(p, sol, n, stage.value, entry, state))
    && (n in tasks && done ==> entry.Some? && state == Some(Controlled(p, sol, n)))
    && (n in tasks && !doomed ==> stage.Some? || done)
  }

  ghost predicate Working<S>(p: Plan<S>, sol: Results, tasks: map<Name, string>, before: Outset<S>,
                             stages: map<Name, Stage>, done: seq<Name>, doomed: bool, saved: TaskFile,
                             memory: map<Name, S>) {
    && Solves(p, sol) && Distinct(done)
    && forall n ::
      GroupHolds(p, sol, tasks, before, n, Get(stages, n), n in done, doomed, Get(saved, n), Get(memory, n))
  }

  lemma StartWork<S>(p: Plan<S>, sol: Results, tasks: map<Name, string>, saved: TaskFile, memory: map<Name, S>,
                     spoilt: Name -> S)
    requires Solves(p, sol) && Sound(p, sol, saved, memory)
    requires forall n :: n in tasks ==> n in p.deps && n !in saved && tasks[n] == TaskOf(p, sol, n)
    ensures Working(p, sol, tasks, Outset(saved, memory, spoilt), Untouched(tasks), [], false, saved, memory)
  {
  }

  /** A step of one group leaves the others as they are. */
  lemma StepOf<S>(p: Plan<S>, sol: Results, tasks: map<Name, string>, before: Outset<S>, stages: map<Name, Stage>,
                  done: seq<Name>, doomed: bool, saved: TaskFile, memory: map<Name, S>, n: Name,
                  stages': map<Name, Stage>, saved': TaskFile, memory': map<Name, S>)
    requires Working(p, sol, tasks, before, stages, done, doomed, saved, memory)
    requires forall m ::
      m != n ==>
        Get(stages', m) == Get(stages, m) && Get(saved', m) == Get(saved, m) && Get(memory', m) == Get(memory, m)
    requires GroupHolds(p, sol, tasks, before, n, Get(stages', n), n in done, doomed, Get(saved', n), Get(memory', n))
    ensures Working(p, sol, tasks, before, stages', done, doomed, saved', memory')
  {
    hide GroupHolds, Solves;
  }

  lemma At1<S>(p: Plan<S>, sol: Results, tasks: map<Name, string>, before: Outset<S>, stages: map<Name, Stage>,
               done: seq<Name>, doomed: bool, saved: TaskFile, memory: map<Name, S>, n: Name)
    requires Working(p, sol, tasks, before, stages, done, doomed, saved, memory) && n in stages
    ensures GroupHolds(p, sol, tasks, before, n, Some(stages[n]), n in done, doomed, Get(saved, n), Get(memory, n))
    ensures n in tasks && n in p.deps && n in p.start && n in sol && n in memory && n !in done
    ensures sol[n] == p.run(n, p.start[n], TaskOf(p, sol, n))
  {
    assert GroupHolds(p, sol, tasks, before, n, Get(stages, n), n in done, doomed, Get(saved, n), Get(memory, n));
  }

  lemma RunOne<S>(p: Plan<S>, sol: Results, tasks: map<Name, string>, before: Outset<S>, stages: map<Name, Stage>,
                  done: seq<Name>, doomed: bool, saved: TaskFile, memory: map<Name, S>, n: Name)
    requires Working(p, sol, tasks, before, stages, done, doomed, saved, memory) && n in stages && stages[n].Waiting?
    ensures n in tasks && n in memory
    ensures Working(p, sol, tasks, before, stages[n := Ran(p.run(n, memory[n], tasks[n]))], done, doomed, saved, memory)
  {
    hide Working;
    At1(p, sol, tasks, before, stages, done, doomed, saved, memory, n);
    StepOf(p, sol, tasks, before, stages, done, doomed, saved, memory, n,
           stages[n := Ran(p.run(n, memory[n], tasks[n]))], saved, memory);
  }

  lemma SaveOne<S>(p: Plan<S>, sol: Results, tasks: map<Name, string>, before: Outset<S>, stages: map<Name, Stage>,
                   done: seq<Name>, doomed: bool, saved: TaskFile, memory: map<Name, S>, n: Name)
    requires Working(p, sol, tasks, before, stages, done, doomed, saved, memory) && n in stages && stages[n].Ran?
    ensures Working(p, sol, tasks, before, stages[n := Kept(stages[n].result)], done, doomed,
                    saved[n := ToEntry(stages[n].result)], memory)
  {
    hide Working;
    At1(p, sol, tasks, before, stages, done, doomed, saved, memory, n);
    StepOf(p, sol, tasks, before, stages, done, doomed, saved, memory, n,
           stages[n := Kept(stages[n].result)], saved[n := ToEntry(stages[n].result)], memory);
  }

  lemma NotSavedYet<S>(p: Plan<S>, sol: Results, tasks: map<Name, string>, before: Outset<S>, stages: map<Name, Stage>,
                       done: seq<Name>, doomed: bool, saved: TaskFile, memory: map<Name, S>, n: Name)
    requires Working(p, sol, tasks, before, stages, done, doomed, saved, memory) && n in stages && stages[n].Ran?
    ensures n !in saved
  {
    At1(p, sol, tasks, before, stages, done, doomed, saved, memory, n);
    hide Working;
  }

  lemma ControlOne<S>(p: Plan<S>, sol: Results, tasks: map<Name, string>, before: Outset<S>, stages: map<Name, Stage>,
                      done: seq<Name>, doomed: bool, saved: TaskFile, memory: map<Name, S>, n: Name)
    requires Working(p, sol, tasks, before, stages, done, doomed, saved, memory) && n in stages && stages[n].Kept?
    ensures n in tasks && n in memory
    ensures Working(p, sol, tasks, before, stages[n := Finished(stages[n].result)], done, doomed, saved,
                    memory[n := p.control(n, memory[n], tasks[n], stages[n].result)])
  {
    hide Working;
    At1(p, sol, tasks, before, stages, done, doomed, saved, memory, n);
    StepOf(p, sol, tasks, before, stages, done, doomed, saved, memory, n, stages[n := Finished(stages[n].result)],
           saved, memory[n := p.control(n, memory[n], tasks[n], stages[n].result)]);
  }

  lemma CollectDone<S>(p: Plan<S>, sol: Results, tasks: map<Name, string>, before: Outset<S>, stages: map<Name, Stage>,
                       done: seq<Name>, doomed: bool, saved: TaskFile, memory: map<Name, S>, n: Name)
    requires Working(p, sol, tasks, before, stages, done, doomed, saved, memory) && n in stages && stages[n].Finished?
    ensures n in sol && stages[n].result == sol[n]
    ensures Working(p, sol, tasks, before, stages - {n}, done + [n], doomed, saved, memory)
  {
    At1(p, sol, tasks, before, stages, done, doomed, saved, memory, n);
    assert GroupHolds(p, sol, tasks, before, n, None, true, doomed, Get(saved, n), Get(memory, n));
    hide GroupHolds, Solves;
    forall m
      ensures GroupHolds(p, sol, tasks, before, m, Get(stages - {n}, m), m in done + [n], doomed, Get(saved, m),
                         Get(memory, m)) {
      assert GroupHolds(p, sol, tasks, before, m, Get(stages, m), m in done, doomed, Get(saved, m), Get(memory, m));
    }
  }

  /** A failing run leaves nothing behind, a failing controller step at most a spoilt state of its own group. */
  lemma FailOne<S>(p: Plan<S>, sol: Results, tasks: map<Name, string>, before: Outset<S>, stages: map<Name, Stage>,
                   done: seq<Name>, doomed: bool, saved: TaskFile, memory: map<Name, S>, n: Name)
    requires Working(p, sol, tasks, before, stages, done, doomed, saved, memory) && n in stages
    ensures n in memory
    ensures Working(p, sol, tasks, before, stages - {n}, done, true, saved,
                    if stages[n].Kept? then memory[n := before.spoilt(n)] else memory)
  {
    At1(p, sol, tasks, before, stages, done, doomed, saved, memory, n);
    var memory' := if stages[n].Kept? then memory[n := before.spoilt(n)] else memory;
    hide Solves, TaskOf, Controlled;
    forall m
      ensures GroupHolds(p, sol, tasks, before, m, Get(stages - {n}, m), m in done, true, Get(saved, m),
                         Get(memory', m)) {
      assert GroupHolds(p, sol, tasks, before, m, Get(stages, m), m in done, doomed, Get(saved, m), Get(memory, m));
    }
  }

  ghost function StepsLeft(stages: map<Name, Stage>): nat {
    4 * |At(stages, 0)| + 3 * |At(stages, 1)| + 2 * |At(stages, 2)| + |At(stages, 3)|
  }

  /** Every step brings the level closer to its end. */
  lemma Progress(stages: map<Name, Stage>, n: Name, removed: bool, s: map<Name, Stage>)
    requires n in stages
    requires if removed then s == stages - {n} else exists next :: Follows(stages[n], next) && s == stages[n := next]
    ensures StepsLeft(s) < StepsLeft(stages)
  {
    var k := StageNo(stages[n]);
    var others := stages - {n};
    Without(stages, n, 0);
    Without(stages, n, 1);
    Without(stages, n, 2);
    Without(stages, n, 3);
    if !removed {
      var next :| Follows(stages[n], next) && s == stages[n := next];
      assert s - {n} == others;
      Without(s, n, 0);
      Without(s, n, 1);
      Without(s, n, 2);
      Without(s, n, 3);
    }
  }

  lemma Without(stages: map<Name, Stage>, n: Name, k: nat)
    requires n in stages
    ensures |At(stages, k)| == |At(stages - {n}, k)| + if StageNo(stages[n]) == k then 1 else 0
  {
    assert At(stages, k) == At(stages - {n}, k) + if StageNo(stages[n]) == k then {n} else {};
    assert n !in At(stages - {n}, k);
  }

  /** A level at work: where its groups are, which were collected, what is saved, and the controller states. */
  datatype Floor<!S> = Floor(stages: map<Name, Stage>, done: seq<Name>, saved: TaskFile, memory: map<Name, S>)

  ghost function Step<S>(p: Plan<S>, tasks: map<Name, string>, f: Floor<S>, n: Name): Option<Floor<S>> {
    if n !in f.stages || n !in tasks || n !in f.memory then None
    else Some(match f.stages[n]
      case Waiting => f.(stages := f.stages[n := Ran(p.run(n, f.memory[n], tasks[n]))])
      case Ran(r) => f.(stages := f.stages[n := Kept(r)], saved := f.saved[n := ToEntry(r)])
      case Kept(r) => f.(stages := f.stages[n := Finished(r)],
                         memory := f.memory[n := p.control(n, f.memory[n], tasks[n], r)])
      case Finished(_) => f.(stages := f.stages - {n}, done := f.done + [n]))
  }

  /** Where a level stands after the groups have taken their steps in this order. */
  ghost function Played<S>(p: Plan<S>, tasks: map<Name, string>, f: Floor<S>, schedule: seq<Name>): Option<Floor<S>>
    decreases |schedule|
  {
    if schedule == [] then Some(f) else
      var before := Played(p, tasks, f, schedule[..|schedule| - 1]);
      if before.None? then None else Step(p, tasks, before.value, schedule[|schedule| - 1])
  }

  /** The group `n` takes its next step, and nothing fails. */
  ghost predicate StepsTo<S>(p: Plan<S>, tasks: map<Name, string>, f: Floor<S>, n: Name, next: Floor<S>) {
    Step(p, tasks, f, n) == Some(next)
  }

  ghost predicate Plays<S>(p: Plan<S>, tasks: map<Name, string>, f: Floor<S>, schedule: seq<Name>, end: Floor<S>) {
    Played(p, tasks, f, schedule) == Some(end)
  }

  lemma PlaysMore<S>(p: Plan<S>, tasks: map<Name, string>, f: Floor<S>, schedule: seq<Name>, middle: Floor<S>, n: Name,
                     end: Floor<S>)
    requires Plays(p, tasks, f, schedule, middle) && StepsTo(p, tasks, middle, n, end)
    ensures Plays(p, tasks, f, schedule + [n], end)
  {
    assert (schedule + [n])[..|schedule|] == schedule;
    hide Step;
  }

  function Untouched(tasks: map<Name, string>): map<Name, Stage> {
    map n | n in tasks :: Waiting
  }

  /** One group goes all its way while the others stand still. */
  lemma RunsAlone<S>(p: Plan<S>, tasks: map<Name, string>, f: Floor<S>, schedule: seq<Name>, g: Floor<S>, n: Name)
    returns (longer: seq<Name>, end: Floor<S>)
    requires Plays(p, tasks, f, schedule, g) && n in g.stages && g.stages[n] == Waiting && n in tasks && n in g.memory
    ensures Plays(p, tasks, f, longer, end)
    ensures end.stages == g.stages - {n} && end.done == g.done + [n] && end.memory.Keys == g.memory.Keys
  {
    var r := p.run(n, g.memory[n], tasks[n]);
    var ran := g.(stages := g.stages[n := Ran(r)]);
    var kept := ran.(stages := ran.stages[n := Kept(r)], saved := ran.saved[n := ToEntry(r)]);
    var finished := kept.(stages := kept.stages[n := Finished(r)],
                          memory := kept.memory[n := p.control(n, kept.memory[n], tasks[n], r)]);
    end := finished.(stages := finished.stages - {n}, done := finished.done + [n]);
    assert StepsTo(p, tasks, g, n, ran) && StepsTo(p, tasks, ran, n, kept);
    assert StepsTo(p, tasks, kept, n, finished) && StepsTo(p, tasks, finished, n, end);
    hide StepsTo, Step, Plays, ToEntry;
    PlaysMore(p, tasks, f, schedule, g, n, ran);
    PlaysMore(p, tasks, f, schedule + [n], ran, n, kept);
    PlaysMore(p, tasks, f, schedule + [n] + [n], kept, n, finished);
    PlaysMore(p, tasks, f, schedule + [n] + [n] + [n], finished, n, end);
    longer := schedule + [n] + [n] + [n] + [n];
  }

  lemma {:induction false} OrderSoFar<S>(p: Plan<S>, tasks: map<Name, string>, f: Floor<S>, order: seq<Name>)
    returns (schedule: seq<Name>, end: Floor<S>)
    requires f.stages == Untouched(tasks) && f.done == [] && tasks.Keys <= f.memory.Keys
    requires Distinct(order) && Elems(order) <= tasks.Keys
    ensures Plays(p, tasks, f, schedule, end)
    ensures end.stages == Untouched(tasks) - Elems(order) && end.done == order && end.memory.Keys == f.memory.Keys
    decreases |order|
  {
    if order == [] {
      schedule, end := [], f;
    } else {
      var front, last := order[..|order| - 1], order[|order| - 1];
      assert order == front + [last] && Elems(order) == Elems(front) + {last} && last !in front;
      var middle;
      schedule, middle := OrderSoFar(p, tasks, f, front);
      hide Plays, Distinct;
      schedule, end := RunsAlone(p, tasks, f, schedule, middle, last);
    }
  }

  /** Every order of completion can happen: for each permutation of the dispatched groups there is a
      schedule of their steps after which they have been collected in this order. */
  lemma EveryOrderCanHappen<S>(p: Plan<S>, tasks: map<Name, string>, saved: TaskFile, memory: map<Name, S>,
                               order: seq<Name>)
    returns (schedule: seq<Name>, end: Floor<S>)
    requires tasks.Keys <= memory.Keys && Distinct(order) && Elems(order) == tasks.Keys
    ensures Plays(p, tasks, Floor(Untouched(tasks), [], saved, memory), schedule, end)
    ensures end.stages == map[] && end.done == order
  {
    schedule, end := OrderSoFar(p, tasks, Floor(Untouched(tasks), [], saved, memory), order);
    hide Plays;
  }

  /** One atomic step of the worker of `n`. The flag `fails` says that the step raises instead. */
  method Advance<S>(p: Plan<S>, ghost sol: Results, tasks: map<Name, string>, ghost before: Outset<S>,
                    stages0: map<Name, Stage>, ghost done: seq<Name>, doomed0: bool, ck: PipelineCheckpoint, t: TaskId,
                    states: PipelineState<S>, n: Name, fails: bool, spoilt: Name -> S)
    returns (stages: map<Name, Stage>, doomed: bool)
    requires ck.Valid() && ck.Primed(t) && n in stages0 && (stages0[n].Finished? ==> fails) && before.spoilt == spoilt
    requires Working(p, sol, tasks, before, stages0, done, doomed0, FileOf(ck.View(), t), states.memory)
    modifies ck, ck.disk, states
    ensures ck.Valid() && ck.Primed(t) && ck.View() - {t} == old(ck.View()) - {t}
    ensures Working(p, sol, tasks, before, stages, done, doomed, FileOf(ck.View(), t), states.memory)
    ensures Logged(t, FileOf(old(ck.View()), t), old(ck.Log()), FileOf(ck.View(), t), ck.Log())
    ensures fails ==> stages == stages0 - {n}
    ensures !fails ==> exists next :: Follows(stages0[n], next) && stages == stages0[n := next]
    ensures !fails ==> doomed == doomed0
    ensures !fails ==> StepsTo(p, tasks, Floor(stages0, done, FileOf(old(ck.View()), t), old(states.memory)), n,
                               Floor(stages, done, FileOf(ck.View(), t), states.memory))
    ensures fails ==> doomed
  {
    hide *;
    ghost var saved, memory := FileOf(ck.View(), t), states.memory;
    stages, doomed := stages0, doomed0;
    NothingLogged(t, saved, ck.Log());
    At1(p, sol, tasks, before, stages, done, doomed, saved, memory, n);
    if fails {
      FailOne(p, sol, tasks, before, stages, done, doomed, saved, memory, n);
      if stages[n].Kept? {
        states.memory := states.memory[n := spoilt(n)];
      }
      doomed, stages := true, stages - {n};
    } else {
      match stages[n] {
        case Waiting =>
          RunOne(p, sol, tasks, before, stages, done, doomed, saved, memory, n);
          var r := p.run(n, states.memory[n], tasks[n]);
          NextStage(stages[n], Ran(r));
          Takes(p, tasks, Floor(stages, done, saved, memory), n);
          stages := stages[n := Ran(r)];
        case Ran(r) =>
          SaveOne(p, sol, tasks, before, stages, done, doomed, saved, memory, n);
          NotSavedYet(p, sol, tasks, before, stages, done, doomed, saved, memory, n);
          OneLogged(t, saved, ck.Log(), n, ToEntry(r));
          PutInFile(ck.View(), t, n, ToEntry(r));
          ck.SaveGroup(t, n, ToEntry(r));
          NextStage(stages[n], Kept(r));
          Takes(p, tasks, Floor(stages, done, saved, memory), n);
          stages := stages[n := Kept(r)];
        case Kept(r) =>
          ControlOne(p, sol, tasks, before, stages, done, doomed, saved, memory, n);
          states.memory := states.memory[n := p.control(n, states.memory[n], tasks[n], r)];
          NextStage(stages[n], Finished(r));
          Takes(p, tasks, Floor(stages, done, saved, memory), n);
          stages := stages[n := Finished(r)];
      }
    }
  }

  lemma Takes<S>(p: Plan<S>, tasks: map<Name, string>, f: Floor<S>, n: Name)
    requires n in f.stages && n in tasks && n in f.memory
    ensures f.stages[n].Waiting? ==>
      StepsTo(p, tasks, f, n, f.(stages := f.stages[n := Ran(p.run(n, f.memory[n], tasks[n]))]))
    ensures f.stages[n].Ran? ==>
      var r := f.stages[n].result;
      StepsTo(p, tasks, f, n, f.(stages := f.stages[n := Kept(r)], saved := f.saved[n := ToEntry(r)]))
    ensures f.stages[n].Kept? ==>
      var r := f.stages[n].result;
      StepsTo(p, tasks, f, n, f.(stages := f.stages[n := Finished(r)],
                                 memory := f.memory[n := p.control(n, f.memory[n], tasks[n], r)]))
    ensures f.stages[n].Finished? ==> StepsTo(p, tasks, f, n, f.(stages := f.stages - {n}, done := f.done + [n]))
  {
  }

  ghost predicate Follows(stage: Stage, next: Stage) {
    match stage
    case Waiting => next.Ran?
    case Ran(_) => next.Kept?
    case Kept(_) => next.Finished?
    case Finished(_) => false
  }

  lemma NextStage(stage: Stage, next: Stage)
    ensures Follows(stage, next) <==>
      (stage.Waiting? && next.Ran?) || (stage.Ran? && next.Kept?) || (stage.Kept? && next.Finished?)
  {
  }

  /** One atomic step of some worker, or the collection of one finished group. */
  method Turn<S>(p: Plan<S>, ghost sol: Results, tasks: map<Name, string>, ghost before: Outset<S>,
                 stages0: map<Name, Stage>, doomed0: bool, acc0: Collected, ghost completed: seq<Name>,
                 ghost done0: seq<Name>, ck: PipelineCheckpoint, t: TaskId, states: PipelineState<S>, spoilt: Name -> S)
    returns (stages: map<Name, Stage>, doomed: bool, acc: Collected, ghost done: seq<Name>, ghost n: Name)
    requires ck.Valid() && ck.Primed(t) && stages0 != map[] && Holds(sol, acc0, completed + done0)
    requires before.spoilt == spoilt
    requires Working(p, sol, tasks, before, stages0, done0, doomed0, FileOf(ck.View(), t), states.memory)
    modifies ck, ck.disk, states
    ensures ck.Valid() && ck.Primed(t) && ck.View() - {t} == old(ck.View()) - {t}
    ensures Working(p, sol, tasks, before, stages, done, doomed, FileOf(ck.View(), t), states.memory)
    ensures Logged(t, FileOf(old(ck.View()), t), old(ck.Log()), FileOf(ck.View(), t), ck.Log())
    ensures Holds(sol, acc, completed + done)
    ensures doomed0 ==> doomed
    ensures !doomed ==> StepsTo(p, tasks, Floor(stages0, done0, FileOf(old(ck.View()), t), old(states.memory)), n,
                                Floor(stages, done, FileOf(ck.View(), t), states.memory))
    ensures StepsLeft(stages) < StepsLeft(stages0)
  {
    hide *;
    var m :| m in stages0;
    n := m;
    var fails := *;
    acc, done := acc0, done0;
    if fails || !stages0[m].Finished? {
      stages, doomed := Advance(p, sol, tasks, before, stages0, done, doomed0, ck, t, states, m, fails, spoilt);
      Progress(stages0, m, fails, stages);
    } else {
      NothingLogged(t, FileOf(ck.View(), t), ck.Log());
      CollectDone(p, sol, tasks, before, stages0, done, doomed0, FileOf(ck.View(), t), states.memory, m);
      CollectOne(sol, acc, completed + done, m, stages0[m].result);
      Progress(stages0, m, true, stages0 - {m});
      assert completed + (done + [m]) == completed + done + [m];
      At1(p, sol, tasks, before, stages0, done, doomed0, FileOf(ck.View(), t), states.memory, m);
      Takes(p, tasks, Floor(stages0, done, FileOf(ck.View(), t), states.memory), m);
      acc, done := Collect(acc, m, stages0[m].result), done + [m];
      stages, doomed := stages0 - {m}, doomed0;
    }
  }

  /** Runs the submitted groups to their end, or until the attempt is cut short. Whose turn it is,
      and whether the attempt goes on, is left open: the loop stands for every order of completion
      and every point of interruption. */
  method RunWorkers<S>(p: Plan<S>, ghost sol: Results, tasks: map<Name, string>, acc0: Collected,
                       ghost completed: seq<Name>, ck: PipelineCheckpoint, t: TaskId, states: PipelineState<S>,
                       spoilt: Name -> S)
    returns (crashed: bool, acc: Collected, ghost done: seq<Name>, ghost schedule: seq<Name>)
    requires ck.Valid() && ck.Primed(t) && Holds(sol, acc0, completed)
    requires Solves(p, sol) && Sound(p, sol, FileOf(ck.View(), t), states.memory)
    requires forall n :: n in tasks ==> n in p.deps && n !in FileOf(ck.View(), t) && tasks[n] == TaskOf(p, sol, n)
    modifies ck, ck.disk, states
    ensures ck.Valid() && ck.Primed(t) && ck.View() - {t} == old(ck.View()) - {t}
    ensures Sound(p, sol, FileOf(ck.View(), t), states.memory)
    ensures Preserves(t, FileOf(old(ck.View()), t), old(ck.Log()), tasks.Keys, FileOf(ck.View(), t), ck.Log())
    ensures StepsOnce(ControllersOf(p, sol, spoilt), tasks.Keys, old(states.memory), states.memory)
    ensures !crashed ==> Holds(sol, acc, completed + done)
    ensures !crashed ==>
      Working(p, sol, tasks, Outset(FileOf(old(ck.View()), t), old(states.memory), spoilt), map[], done, false,
              FileOf(ck.View(), t), states.memory)
    ensures !crashed ==>
      Plays(p, tasks, Floor(Untouched(tasks), [], FileOf(old(ck.View()), t), old(states.memory)), schedule,
            Floor(map[], done, FileOf(ck.View(), t), states.memory))
  {
    hide *;
    ghost var before := Outset(FileOf(ck.View(), t), states.memory, spoilt);
    ghost var log := ck.Log();
    StartWork(p, sol, tasks, before.saved, before.memory, spoilt);
    NothingLogged(t, before.saved, log);
    acc, done := acc0, [];
    assert completed + done == completed;
    var doomed := false;
    crashed := false;
    var stages := Untouched(tasks);
    ghost var start := Floor(stages, [], before.saved, before.memory);
    schedule := [];
    StandsStill(p, tasks, start);
    while stages != map[]
      invariant !crashed
      invariant ck.Valid() && ck.Primed(t) && ck.View() - {t} == old(ck.View()) - {t}
      invariant Working(p, sol, tasks, before, stages, done, doomed, FileOf(ck.View(), t), states.memory)
      invariant Logged(t, before.saved, log, FileOf(ck.View(), t), ck.Log())
      invariant Holds(sol, acc, completed + done)
      invariant !doomed ==> Plays(p, tasks, start, schedule, Floor(stages, done, FileOf(ck.View(), t), states.memory))
      decreases StepsLeft(stages)
    {
      if * {
        crashed := true;
        break;
      }
      ghost var file, now := FileOf(ck.View(), t), ck.Log();
      ghost var floor := Floor(stages, done, file, states.memory);
      ghost var n;
      stages, doomed, acc, done, n :=
        Turn(p, sol, tasks, before, stages, doomed, acc, completed, done, ck, t, states, spoilt);
      if !doomed {
        PlaysMore(p, tasks, start, schedule, floor, n, Floor(stages, done, FileOf(ck.View(), t), states.memory));
      }
      schedule := schedule + [n];
      LoggedMore(t, before.saved, log, file, now, FileOf(ck.View(), t), ck.Log());
    }
    crashed := crashed || doomed;
    StillSound(p, sol, tasks, before, stages, done, doomed, FileOf(ck.View(), t), states.memory);
    WorkersPreserve(p, sol, tasks, before, stages, done, doomed, FileOf(ck.View(), t), states.memory, t, log, ck.Log());
    WorkersStepOnce(p, sol, tasks, before, stages, done, doomed, FileOf(ck.View(), t), states.memory);
  }

  lemma StandsStill<S>(p: Plan<S>, tasks: map<Name, string>, f: Floor<S>)
    ensures Plays(p, tasks, f, [], f)
  {
  }

  /** At any moment of a level, finished or not. */
  lemma WorkersPreserve<S>(p: Plan<S>, sol: Results, tasks: map<Name, string>, before: Outset<S>,
                           stages: map<Name, Stage>, done: seq<Name>, doomed: bool, saved: TaskFile,
                           memory: map<Name, S>, t: TaskId, from: SaveLog, to: SaveLog)
    requires Working(p, sol, tasks, before, stages, done, doomed, saved, memory)
    requires Logged(t, before.saved, from, saved, to) && forall n :: n in tasks ==> n !in before.saved
    ensures Preserves(t, before.saved, from, tasks.Keys, saved, to)
  {
    hide TaskOf, Controlled, StageHolds, Distinct, Logged;
    forall n
      ensures n in before.saved ==> Get(saved, n) == Some(before.saved[n])
      ensures n in saved && n !in before.saved ==> n in tasks
    {
      assert GroupHolds(p, sol, tasks, before, n, Get(stages, n), n in done, doomed, Get(saved, n), Get(memory, n));
    }
    assert forall n :: n in before.saved ==> Get(saved, n).Some?;
  }

  lemma WorkersStepOnce<S>(p: Plan<S>, sol: Results, tasks: map<Name, string>, before: Outset<S>,
                           stages: map<Name, Stage>, done: seq<Name>, doomed: bool, saved: TaskFile,
                           memory: map<Name, S>)
    requires Working(p, sol, tasks, before, stages, done, doomed, saved, memory)
    ensures StepsOnce(ControllersOf(p, sol, before.spoilt), tasks.Keys, before.memory, memory)
  {
    hide TaskOf, Controlled, StageHolds, Distinct, Solves;
    forall n
      ensures n in memory <==> n in before.memory
      ensures n in memory ==> StepOnce(ControllersOf(p, sol, before.spoilt), n in tasks, n, before.memory, memory[n])
    {
      assert GroupHolds(p, sol, tasks, before, n, Get(stages, n), n in done, doomed, Get(saved, n), Get(memory, n));
    }
  }

  lemma StillSound<S>(p: Plan<S>, sol: Results, tasks: map<Name, string>, before: Outset<S>, stages: map<Name, Stage>,
                      done: seq<Name>, doomed: bool, saved: TaskFile, memory: map<Name, S>)
    requires Working(p, sol, tasks, before, stages, done, doomed, saved, memory)
    ensures Sound(p, sol, saved, memory)
  {
    hide TaskOf, Controlled, StageHolds, Distinct;
    forall n | n in p.deps || n in saved
      ensures n in saved ==> n in sol && saved[n] == ToEntry(sol[n])
      ensures n in p.deps ==> n in memory && n in p.start && (n !in saved ==> memory[n] == p.start[n])
    {
      assert GroupHolds(p, sol, tasks, before, n, Get(stages, n), n in done, doomed, Get(saved, n), Get(memory, n));
    }
  }

  // ----- one level and the whole run ----------------------------------------------------------

  /** Builds the tasks of the groups to be dispatched from the outputs collected so far. */
  method Submit<S>(p: Plan<S>, ghost sol: Results, dispatch: seq<Name>, acc: Collected, ghost completed: seq<Name>)
    returns (tasks: map<Name, string>)
    requires Solves(p, sol) && Holds(sol, acc, completed)
    requires forall n :: n in dispatch ==> n in p.deps && forall d :: d in p.deps[n] ==> d in completed
    ensures forall n :: n in tasks <==> n in dispatch
    ensures forall n :: n in tasks ==> n in p.deps && tasks[n] == TaskOf(p, sol, n)
  {
    tasks := map[];
    hide Holds, Solves, TaskOf;
    for i := 0 to |dispatch|
      invariant forall n :: n in tasks <==> n in dispatch[..i]
      invariant forall n :: n in tasks ==> n in p.deps && tasks[n] == TaskOf(p, sol, n)
    {
      var n := dispatch[i];
      var task := BuildGroupTask(p.task, p.deps[n], acc.groupOutputs);
      TaskIsRight(p, sol, acc, completed, n);
      assert dispatch[..i + 1] == dispatch[..i] + [n];
      tasks := tasks[n := task];
    }
    assert dispatch[..|dispatch|] == dispatch;
  }

  lemma TaskIsRight<S>(p: Plan<S>, sol: Results, acc: Collected, completed: seq<Name>, n: Name)
    requires Solves(p, sol) && Holds(sol, acc, completed) && n in p.deps
    requires forall d :: d in p.deps[n] ==> d in completed
    ensures GroupTask(p.task, p.deps[n], acc.groupOutputs) == TaskOf(p, sol, n)
  {
    forall d | d in p.deps[n] ensures TextOf(acc.groupOutputs, d) == TextOf(Texts(sol), d) {
      assert HoldsFor(sol, d, d in completed, Get(acc.groupOutputs, d), Get(acc.groupResults, d));
    }
    TaskReadsOnlyDeps(p.task, p.deps[n], acc.groupOutputs, Texts(sol));
  }

  /** The dispatched groups, and no others, were run: each is saved and went through its controller
      step once, from the state it had before. */
  ghost predicate Dispatched<S>(p: Plan<S>, sol: Results, before: Outset<S>, dispatched: set<Name>, saved: TaskFile,
                                memory: map<Name, S>) {
    && saved.Keys == before.saved.Keys + dispatched
    && memory.Keys == before.memory.Keys
    && (forall n ::
      n in dispatched ==> n in p.deps && n in p.start && n in sol && n in memory && memory[n] == Controlled(p, sol, n))
    && (forall n :: n in memory && n !in dispatched ==> memory[n] == before.memory[n])
  }

  lemma WorkersDone<S>(p: Plan<S>, sol: Results, tasks: map<Name, string>, before: Outset<S>, done: seq<Name>,
                       saved: TaskFile, memory: map<Name, S>)
    requires Working(p, sol, tasks, before, map[], done, false, saved, memory)
    ensures Dispatched(p, sol, before, tasks.Keys, saved, memory)
    ensures Distinct(done) && forall n :: n in done <==> n in tasks
  {
    hide StageHolds, Controlled, TaskOf, Solves, Distinct;
    forall n ensures GroupHolds(p, sol, tasks, before, n, None, n in done, false, Get(saved, n), Get(memory, n)) {
      assert GroupHolds(p, sol, tasks, before, n, Get(map[], n), n in done, false, Get(saved, n), Get(memory, n));
    }
    forall n ensures n in saved <==> n in before.saved || n in tasks {
      assert GroupHolds(p, sol, tasks, before, n, None, n in done, false, Get(saved, n), Get(memory, n));
    }
    forall n ensures n in memory <==> n in before.memory {
      assert GroupHolds(p, sol, tasks, before, n, None, n in done, false, Get(saved, n), Get(memory, n));
    }
    assert saved.Keys == before.saved.Keys + tasks.Keys && memory.Keys == before.memory.Keys;
    forall n | n in tasks
      ensures n in p.deps && n in p.start && n in sol && n in memory && memory[n] == Controlled(p, sol, n) && n in done
    {
      assert GroupHolds(p, sol, tasks, before, n, None, n in done, false, Get(saved, n), Get(memory, n));
    }
    forall n | n !in tasks ensures n !in done && Get(memory, n) == Get(before.memory, n) {
      assert GroupHolds(p, sol, tasks, before, n, None, n in done, false, Get(saved, n), Get(memory, n));
    }
    assert forall n ::
      n in memory && n !in tasks ==>
        Get(memory, n) == Some(memory[n]) && Get(before.memory, n) == Some(before.memory[n]);
  }

  lemma {:induction false} DistinctSameElements(a: seq<Name>, b: seq<Name>)
    requires Distinct(a) && Distinct(b) && forall n :: n in a <==> n in b
    ensures multiset(a) == multiset(b)
  {
    forall n ensures multiset(a)[n] == multiset(b)[n] {
      DistinctCount(a, n);
      DistinctCount(b, n);
    }
  }

  lemma {:induction false} DistinctCount(a: seq<Name>, n: Name)
    requires Distinct(a)
    ensures multiset(a)[n] == if n in a then 1 else 0
  {
    if a != [] {
      var front, last := a[..|a| - 1], a[|a| - 1];
      assert a == front + [last];
      DistinctCount(front, n);
    }
  }

  lemma {:induction false} CountedDistinct(a: seq<Name>)
    requires forall n :: multiset(a)[n] <= 1
    ensures Distinct(a)
  {
    if a != [] {
      var front, last := a[..|a| - 1], a[|a| - 1];
      assert a == front + [last];
      assert forall n :: multiset(a)[n] == multiset(front)[n] + if n == last then 1 else 0;
      CountedDistinct(front);
      assert multiset(front)[last] == 0;
    }
  }

  lemma SplitLevel(level: seq<Name>, resumed: seq<Name>, dispatch: seq<Name>, done: seq<Name>)
    requires Distinct(level) && multiset(resumed) + multiset(dispatch) == multiset(level)
    requires Distinct(done) && forall n :: n in done <==> n in dispatch
    ensures multiset(resumed + done) == multiset(level)
  {
    forall n ensures multiset(dispatch)[n] <= 1 {
      DistinctCount(level, n);
    }
    CountedDistinct(dispatch);
    DistinctSameElements(done, dispatch);
  }

  lemma InSplit(level: seq<Name>, resumed: seq<Name>, dispatch: seq<Name>)
    requires multiset(resumed) + multiset(dispatch) == multiset(level)
    ensures forall n :: n in level <==> n in resumed || n in dispatch
  {
    forall n ensures n in level <==> n in resumed || n in dispatch {
      assert n in multiset(level) <==> n in multiset(resumed) || n in multiset(dispatch);
    }
  }

  /** One level: replay what is saved, run the rest. */
  method RunLevel<S>(p: Plan<S>, ghost sol: Results, level: seq<Name>, acc0: Collected, ghost completed: seq<Name>,
                     ck: PipelineCheckpoint, t: TaskId, states: PipelineState<S>, spoilt: Name -> S)
    returns (crashed: bool, acc: Collected, ghost more: seq<Name>, ghost dispatched: set<Name>)
    requires ck.Valid() && level != [] && Distinct(level) && Holds(sol, acc0, completed)
    requires Solves(p, sol) && Sound(p, sol, FileOf(ck.View(), t), states.memory)
    requires forall n :: n in level ==> n in p.deps && forall d :: d in p.deps[n] ==> d in completed
    modifies ck, ck.disk, states
    ensures ck.Valid() && ck.View() - {t} == old(ck.View()) - {t}
    ensures Sound(p, sol, FileOf(ck.View(), t), states.memory)
    ensures dispatched !! FileOf(old(ck.View()), t).Keys && dispatched <= p.deps.Keys
    ensures Preserves(t, FileOf(old(ck.View()), t), old(ck.Log()), dispatched, FileOf(ck.View(), t), ck.Log())
    ensures StepsOnce(ControllersOf(p, sol, spoilt), dispatched, old(states.memory), states.memory)
    ensures !crashed ==> Holds(sol, acc, completed + more) && multiset(more) == multiset(level)
    ensures !crashed ==>
      Dispatched(p, sol, Outset(FileOf(old(ck.View()), t), old(states.memory), spoilt), dispatched,
                 FileOf(ck.View(), t), states.memory)
    ensures !crashed ==> forall n :: n in level ==> n in FileOf(ck.View(), t)
  {
    hide *;
    ghost var resumed: seq<Name>;
    var dispatch: seq<Name>;
    acc, resumed, dispatch := ResumeLevel(p, sol, level, acc0, completed, ck, t, states.memory);
    InSplit(level, resumed, dispatch);
    ghost var before := Outset(FileOf(ck.View(), t), states.memory, spoilt);
    assert forall d :: d in completed ==> d in completed + resumed;
    var tasks := Submit(p, sol, dispatch, acc, completed + resumed);
    ghost var done: seq<Name>;
    ghost var schedule: seq<Name>;
    crashed, acc, done, schedule := RunWorkers(p, sol, tasks, acc, completed + resumed, ck, t, states, spoilt);
    more, dispatched := resumed + done, tasks.Keys;
    if !crashed {
      WorkersDone(p, sol, tasks, before, done, FileOf(ck.View(), t), states.memory);
      SplitLevel(level, resumed, dispatch, done);
      assert completed + resumed + done == completed + more;
      NowSaved(p, sol, before, dispatched, FileOf(ck.View(), t), states.memory);
    }
  }

  lemma NowSaved<S>(p: Plan<S>, sol: Results, before: Outset<S>, dispatched: set<Name>, saved: TaskFile,
                    memory: map<Name, S>)
    requires Dispatched(p, sol, before, dispatched, saved, memory)
    ensures forall n :: n in saved <==> n in before.saved || n in dispatched
  {
  }

  lemma DispatchedMore<S>(p: Plan<S>, sol: Results, before: Outset<S>, first: set<Name>, middle: Outset<S>,
                          second: set<Name>, saved: TaskFile, memory: map<Name, S>)
    requires Dispatched(p, sol, before, first, middle.saved, middle.memory)
    requires Dispatched(p, sol, middle, second, saved, memory) && second !! middle.saved.Keys
    ensures Dispatched(p, sol, before, first + second, saved, memory)
    ensures second !! before.saved.Keys
  {
    hide Controlled;
  }

  /** The levels as the executor needs them: each group after all of its dependencies. */
  ghost predicate Staged(levels: seq<seq<Name>>, deps: GroupDeps) {
    && (forall l :: 0 <= l < |levels| ==> levels[l] != [] && Distinct(levels[l]))
    && (forall l, n :: 0 <= l < |levels| && n in levels[l] ==> n in deps)
    && (forall l, n, d :: 0 <= l < |levels| && n in levels[l] && n in deps && d in deps[n] ==> InLevels(levels[..l], d))
    && (forall n :: n in deps ==> InLevels(levels, n))
  }

  ghost predicate InLevels(levels: seq<seq<Name>>, n: Name) {
    exists l :: 0 <= l < |levels| && n in levels[l]
  }

  lemma LevelsAreStaged(levels: seq<seq<Name>>, order: seq<Name>, deps: GroupDeps)
    requires AreLevels(levels, order, GroupGraph(deps)) && Distinct(order) && Closed(GroupGraph(deps))
    ensures Staged(levels, deps)
  {
    var g := GroupGraph(deps);
    assert g.Keys == deps.Keys;
    forall l, n, d | 0 <= l < |levels| && n in levels[l] && n in deps && d in deps[n] ensures InLevels(levels[..l], d) {
      EarlierLevel(levels, order, deps, l, n, d);
    }
    forall l | 0 <= l < |levels| ensures levels[l] != [] && Distinct(levels[l]) {
      assert levels[l] == Select(order, Elems(levels[l]));
    }
    forall n | n in deps ensures InLevels(levels, n) {
    }
    forall l, n | 0 <= l < |levels| && n in levels[l] ensures n in deps {
    }
    hide InLevels, AreLevels, Closed, Distinct;
  }

  lemma EarlierLevel(levels: seq<seq<Name>>, order: seq<Name>, deps: GroupDeps, l: nat, n: Name, d: Name)
    requires AreLevels(levels, order, GroupGraph(deps)) && Closed(GroupGraph(deps))
    requires l < |levels| && n in levels[l] && n in deps && d in deps[n]
    ensures InLevels(levels[..l], d)
  {
    var j := DependencyIsEarlier(levels, order, GroupGraph(deps), l, n, d);
    assert levels[..l][j] == levels[j];
  }

  /** How a run ends. */
  datatype RunResult = Completed(finalOutput: string, stepOutputs: Outputs) | Crashed

  function NothingCollected(): Collected {
    Collected(map[], map[], map[])
  }

  lemma FinishLevel(levels: seq<seq<Name>>, i: nat, completed: seq<Name>, more: seq<Name>)
    requires i < |levels| && Finishes(completed, levels[..i]) && multiset(more) == multiset(levels[i])
    requires forall n :: n in completed <==> InLevels(levels[..i], n)
    ensures Finishes(completed + more, levels[..i + 1])
    ensures forall n :: n in completed + more <==> InLevels(levels[..i + 1], n)
  {
    assert levels[..i + 1] == levels[..i] + [levels[i]];
    FinishMore(completed, levels[..i], more, levels[i]);
    SameMembers(more, levels[i]);
    forall n ensures InLevels(levels[..i + 1], n) <==> InLevels(levels[..i], n) || n in levels[i] {
      if InLevels(levels[..i], n) {
        var l :| 0 <= l < i && n in levels[..i][l];
        assert levels[..i + 1][l] == levels[l];
      }
      if n in levels[i] {
        assert levels[..i + 1][i] == levels[i];
      }
    }
  }

  lemma LevelIsReady(levels: seq<seq<Name>>, deps: GroupDeps, i: nat, completed: seq<Name>)
    requires Staged(levels, deps) && i < |levels| && forall n :: n in completed <==> InLevels(levels[..i], n)
    ensures levels[i] != [] && Distinct(levels[i])
    ensures forall n :: n in levels[i] ==> n in deps && forall d :: d in deps[n] ==> d in completed
  {
    hide InLevels;
  }

  lemma NothingYet<S>(p: Plan<S>, sol: Results, levels: seq<seq<Name>>, before: Outset<S>)
    ensures Holds(sol, NothingCollected(), []) && Finishes([], levels[..0])
    ensures Dispatched(p, sol, before, {}, before.saved, before.memory)
    ensures forall n :: !InLevels(levels[..0], n)
  {
  }

  lemma KeepsSaved<S>(p: Plan<S>, sol: Results, before: Outset<S>, dispatched: set<Name>, saved: TaskFile,
                      memory: map<Name, S>)
    requires Dispatched(p, sol, before, dispatched, saved, memory)
    ensures before.saved.Keys <= saved.Keys
  {
  }

  /** The level loop of a run. */
  method ExecuteLevels<S>(p: Plan<S>, ghost sol: Results, levels: seq<seq<Name>>, ck: PipelineCheckpoint, t: TaskId,
                          states: PipelineState<S>, spoilt: Name -> S)
    returns (crashed: bool, acc: Collected, ghost completed: seq<Name>, ghost dispatched: set<Name>)
    requires Solves(p, sol) && Staged(levels, p.deps)
    requires ck.Valid() && Sound(p, sol, FileOf(ck.View(), t), states.memory)
    modifies ck, ck.disk, states
    ensures ck.Valid() && ck.View() - {t} == old(ck.View()) - {t}
    ensures Sound(p, sol, FileOf(ck.View(), t), states.memory)
    ensures dispatched !! FileOf(old(ck.View()), t).Keys && dispatched <= p.deps.Keys
    ensures Preserves(t, FileOf(old(ck.View()), t), old(ck.Log()), dispatched, FileOf(ck.View(), t), ck.Log())
    ensures StepsOnce(ControllersOf(p, sol, spoilt), dispatched, old(states.memory), states.memory)
    ensures !crashed ==> Holds(sol, acc, completed) && Finishes(completed, levels)
    ensures !crashed ==> forall n :: n in completed <==> InLevels(levels, n)
    ensures !crashed ==> forall n :: n in completed ==> n in FileOf(ck.View(), t)
    ensures !crashed ==>
      Dispatched(p, sol, Outset(FileOf(old(ck.View()), t), old(states.memory), spoilt), dispatched,
                 FileOf(ck.View(), t), states.memory)
  {
    hide *;
    ghost var before := Outset(FileOf(ck.View(), t), states.memory, spoilt);
    acc, completed, dispatched := NothingCollected(), [], {};
    ghost var log := ck.Log();
    NothingYet(p, sol, levels, before);
    NothingLogged(t, before.saved, log);
    NobodySteps(ControllersOf(p, sol, spoilt), before.memory);
    for i := 0 to |levels|
      invariant ck.Valid() && ck.View() - {t} == old(ck.View()) - {t}
      invariant Sound(p, sol, FileOf(ck.View(), t), states.memory)
      invariant Holds(sol, acc, completed) && Finishes(completed, levels[..i])
      invariant forall n :: n in completed <==> InLevels(levels[..i], n)
      invariant forall n :: n in completed ==> n in FileOf(ck.View(), t)
      invariant Dispatched(p, sol, before, dispatched, FileOf(ck.View(), t), states.memory)
      invariant dispatched !! before.saved.Keys && dispatched <= p.deps.Keys
      invariant Preserves(t, before.saved, log, dispatched, FileOf(ck.View(), t), ck.Log())
      invariant StepsOnce(ControllersOf(p, sol, spoilt), dispatched, before.memory, states.memory)
    {
      LevelIsReady(levels, p.deps, i, completed);
      ghost var middle, now := Outset(FileOf(ck.View(), t), states.memory, spoilt), ck.Log();
      KeepsSaved(p, sol, before, dispatched, middle.saved, middle.memory);
      ghost var more: seq<Name>;
      ghost var here: set<Name>;
      crashed, acc, more, here := RunLevel(p, sol, levels[i], acc, completed, ck, t, states, spoilt);
      PreservesMore(t, before.saved, log, dispatched, middle.saved, now, here, FileOf(ck.View(), t), ck.Log());
      StepsOnceMore(ControllersOf(p, sol, spoilt), dispatched, here, before.memory, middle.memory, states.memory);
      if crashed {
        dispatched := dispatched + here;
        return;
      }
      DispatchedMore(p, sol, before, dispatched, middle, here, FileOf(ck.View(), t), states.memory);
      KeepsSaved(p, sol, middle, here, FileOf(ck.View(), t), states.memory);
      FinishLevel(levels, i, completed, more);
      SameMembers(more, levels[i]);
      completed, dispatched := completed + more, dispatched + here;
    }
    assert levels[..|levels|] == levels;
    crashed := false;
  }

  /** What a completed run says about the controller states. */
  ghost predicate ControlledOnce<S>(p: Plan<S>, sol: Results, dispatched: set<Name>, memory0: map<Name, S>,
                                    memory: map<Name, S>) {
    forall n :: n in p.deps ==>
      && n in p.start && n in sol && n in memory0 && n in memory
      && memory[n] == if n in dispatched then Controlled(p, sol, n) else memory0[n]
  }

  lemma AllSaved<S>(p: Plan<S>, sol: Results, levels: seq<seq<Name>>, before: Outset<S>, completed: seq<Name>,
                    dispatched: set<Name>, saved: TaskFile, memory: map<Name, S>)
    requires Solves(p, sol) && Staged(levels, p.deps) && p.deps.Keys <= before.memory.Keys
    requires forall n :: n in completed <==> InLevels(levels, n)
    requires forall n :: n in completed ==> n in saved
    requires Dispatched(p, sol, before, dispatched, saved, memory) && dispatched !! before.saved.Keys
    ensures forall n :: n in p.deps ==> n in completed && (n in dispatched <==> n !in before.saved)
    ensures ControlledOnce(p, sol, dispatched, before.memory, memory)
  {
    hide InLevels, Controlled, TaskOf;
    assert p.deps.Keys <= memory.Keys && sol.Keys == p.deps.Keys;
  }

  lemma AllHeld(sol: Results, acc: Collected, completed: seq<Name>, last: Name)
    requires Holds(sol, acc, completed) && last in completed
    ensures Texted(acc.allOutputs) == Merge(sol, completed) && forall n :: n in completed ==> n in sol
    ensures last in acc.groupResults && OrEmpty(acc.groupResults[last].finalOutput) == OrEmpty(sol[last].finalOutput)
  {
    assert HoldsFor(sol, last, last in completed, Get(acc.groupOutputs, last), Get(acc.groupResults, last));
    assert ToEntry(acc.groupResults[last]).finalOutput == ToEntry(sol[last]).finalOutput;
  }

  /** The result of a run that completed the groups in this order. */
  ghost predicate Denotes<S>(p: Plan<S>, r: RunResult, completed: seq<Name>)
    requires Runnable(p)
  {
    var sol, last := Denotation(p), p.order[|p.order| - 1];
    && last in sol && (forall n :: n in completed ==> n in sol)
    && r == Completed(OrEmpty(sol[last].finalOutput), Merge(sol, completed))
  }

  /** Clears the checkpoint and assembles the result of a run that went through all levels. */
  method Conclude<S>(p: Plan<S>, acc: Collected, ghost completed: seq<Name>, ck: PipelineCheckpoint, t: TaskId)
    returns (r: RunResult)
    requires Runnable(p) && ck.Valid() && Holds(Denotation(p), acc, completed)
    requires p.order[|p.order| - 1] in completed
    modifies ck, ck.disk
    ensures ck.Valid() && ck.View() == old(ck.View()) - {t} && ck.Log() == old(ck.Log())
    ensures r.Completed? && Denotes(p, r, completed) && forall n :: n in completed ==> n in Denotation(p)
  {
    ck.Clear(t);
    var last := p.order[|p.order| - 1];
    AllHeld(Denotation(p), acc, completed, last);
    hide Merge, OrEmpty, Texted;
    r := Completed(OrEmpty(acc.groupResults[last].finalOutput), Texted(acc.allOutputs));
  }

  /** The whole run. Whatever order the workers finish in and whatever was saved before, a run that
      completes returns the outputs the plan denotes; a run that is cut short keeps everything that
      was or became saved, and leaves it in order for the next. No saved group is dispatched, and no
      controller but those of dispatched groups is touched, each by one step. */
  method Execute<S>(p: Plan<S>, levels: seq<seq<Name>>, ck: PipelineCheckpoint, t: TaskId, states: PipelineState<S>,
                    spoilt: Name -> S)
    returns (r: RunResult, ghost completed: seq<Name>, ghost dispatched: set<Name>)
    requires Runnable(p) && AreLevels(levels, p.order, GroupGraph(p.deps))
    requires ck.Valid() && Sound(p, Denotation(p), FileOf(ck.View(), t), states.memory)
    modifies ck, ck.disk, states
    ensures ck.Valid() && ck.View() - {t} == old(ck.View()) - {t}
    ensures Attempted(t, ControllersOf(p, Denotation(p), spoilt),
                      Attempt(FileOf(old(ck.View()), t), dispatched, FileOf(ck.View(), t)), old(ck.Log()), ck.Log(),
                      old(states.memory), states.memory, r.Completed?)
    ensures r.Crashed? ==> Sound(p, Denotation(p), FileOf(ck.View(), t), states.memory)
    ensures r.Completed? ==> t !in ck.View()
    ensures r.Completed? ==> Finishes(completed, levels) && forall n :: n in completed ==> n in Denotation(p)
    ensures r.Completed? ==> Denotes(p, r, completed)
    ensures r.Completed? ==> ControlledOnce(p, Denotation(p), dispatched, old(states.memory), states.memory)
  {
    hide *;
    ghost var sol := Denotation(p);
    ghost var before := Outset(FileOf(ck.View(), t), states.memory, spoilt);
    ghost var log := ck.Log();
    PlanFacts(p, levels, before.saved, before.memory);
    UnusedControllers(p, sol, spoilt, before.saved, before.memory);
    GroupsOfPlan(p, sol, spoilt);
    var crashed, acc;
    crashed, acc, completed, dispatched := ExecuteLevels(p, sol, levels, ck, t, states, spoilt);
    ghost var cs, left := ControllersOf(p, sol, spoilt), FileOf(ck.View(), t);
    if crashed {
      AttemptIs(t, cs, Attempt(before.saved, dispatched, left), log, left, ck.Log(), before.memory, states.memory,
                false);
      return Crashed, completed, dispatched;
    }
    AllSaved(p, sol, levels, before, completed, dispatched, FileOf(ck.View(), t), states.memory);
    r := Conclude(p, acc, completed, ck, t);
    AttemptIs(t, cs, Attempt(before.saved, dispatched, FileOf(ck.View(), t)), log, left, ck.Log(), before.memory,
              states.memory, true);
  }

  lemma GroupsOfPlan<S>(p: Plan<S>, sol: Results, spoilt: Name -> S)
    ensures ControllersOf(p, sol, spoilt).groups == p.deps.Keys && ControllersOf(p, sol, spoilt).start == p.start
  {
  }

  lemma PlanFacts<S>(p: Plan<S>, levels: seq<seq<Name>>, saved: TaskFile, memory: map<Name, S>)
    requires Runnable(p) && AreLevels(levels, p.order, GroupGraph(p.deps)) && Sound(p, Denotation(p), saved, memory)
    ensures Staged(levels, p.deps) && p.deps.Keys <= memory.Keys
    ensures p.order != [] && p.order[|p.order| - 1] in p.deps
  {
    LevelsAreStaged(levels, p.order, p.deps);
    assert p.order[|p.order| - 1] in Elems(p.order);
  }

}
