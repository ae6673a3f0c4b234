/** The serial executor: groups in declaration order, each handed the last output that was not
    empty, with the same checkpoints as the parallel executor. */
module SerialExecutor {
  import opened Wrappers
  import opened Graphs
  import opened Pipelines
  import opened Checkpoint
  import opened Attempts
  import opened Semantics
  import opened Merging
  import opened ParallelExecutor
  import opened Recovery

  ghost predicate Serial<S>(p: Plan<S>) {
    && p.order != [] && Distinct(p.order)
    && p.deps.Keys == Elems(p.order) && p.start.Keys == Elems(p.order)
  }

  /** The task handed to the i-th group, counting one past the last. An output replaces the one
      before it; an empty output leaves the older one in place. */
  ghost function SerialTask<S>(p: Plan<S>, i: nat): string
    requires Serial(p) && i <= |p.order|
    decreases i, 0
  {
    if i == 0 then p.task else
      var text := OrEmpty(SerialResult(p, i - 1).finalOutput);
      if text == "" then SerialTask(p, i - 1) else Augment(p.task, p.order[i - 1], text)
  }

  ghost function SerialResult<S>(p: Plan<S>, i: nat): GroupResult
    requires Serial(p) && i < |p.order|
    decreases i, 1
  {
    assert p.order[i] in Elems(p.order);
    p.run(p.order[i], p.start[p.order[i]], SerialTask(p, i))
  }

  /** The results of all groups by name. */
  ghost function SerialResults<S>(p: Plan<S>): (sol: Results)
    requires Serial(p)
    ensures sol.Keys == Elems(p.order) && forall i :: 0 <= i < |p.order| ==> sol[p.order[i]] == SerialResult(p, i)
  {
    map n | n in p.order :: SerialResult(p, IndexOf(p.order, n))
  }

  /** The state of a group after its run. The serial executor hands its controller step the task
      that already contains the group's own output. */
  ghost function SerialControlled<S>(p: Plan<S>, i: nat): S
    requires Serial(p) && i < |p.order|
  {
    assert p.order[i] in Elems(p.order);
    p.control(p.order[i], p.start[p.order[i]], SerialTask(p, i + 1), SerialResult(p, i))
  }

  /** The controller states of all groups after their one step. */
  ghost function SerialAfterStep<S>(p: Plan<S>): map<Name, S>
    requires Serial(p)
  {
    map n | n in p.order :: SerialControlled(p, IndexOf(p.order, n))
  }

  ghost function SerialControllers<S>(p: Plan<S>, spoilt: Name -> S): (cs: Controllers<S>)
    requires Serial(p)
    ensures cs.groups == Elems(p.order) && cs.start == p.start && cs.spoilt == spoilt
  {
    Controllers(Elems(p.order), p.start, SerialAfterStep(p), spoilt)
  }

  lemma SerialUnused<S>(p: Plan<S>, spoilt: Name -> S, saved: TaskFile, memory: map<Name, S>)
    requires Serial(p) && Sound(p, SerialResults(p), saved, memory)
    ensures Unused(SerialControllers(p, spoilt), saved.Keys, memory)
  {
    hide SerialControlled, Distinct;
  }

  /** Every way in which the run of one group can end, as its controller sees it. */
  lemma SerialSteps<S>(p: Plan<S>, spoilt: Name -> S, i: nat, memory: map<Name, S>)
    requires Serial(p) && i < |p.order| && p.order[i] in memory && p.order[i] in p.start
      && memory[p.order[i]] == p.start[p.order[i]]
    ensures
      var cs, n := SerialControllers(p, spoilt), p.order[i];
      && StepsOnce(cs, {n}, memory, memory)
      && StepsOnce(cs, {n}, memory, memory[n := spoilt(n)])
      && StepsOnce(cs, {n}, memory, memory[n := SerialControlled(p, i)])
  {
    var n := p.order[i];
    assert IndexOf(p.order, n) == i && SerialAfterStep(p)[n] == SerialControlled(p, i);
    hide SerialControlled, SerialAfterStep, Serial;
  }

  /** The outputs of the first groups, merged in order. */
  ghost predicate Gathered<S>(p: Plan<S>, i: nat, outputs: map<string, Option<string>>)
    requires Serial(p) && i <= |p.order|
  {
    (forall n :: n in p.order[..i] ==> n in SerialResults(p))
      && Texted(outputs) == Merge(SerialResults(p), p.order[..i])
  }

  /** The state of the loop before the i-th group. */
  ghost predicate InLoop<S>(p: Plan<S>, i: nat, current: string, outputs: map<string, Option<string>>,
                            last: Option<GroupResult>) {
    && Serial(p) && i <= |p.order|
    && current == SerialTask(p, i)
    && Gathered(p, i, outputs)
    && (last.None? <==> i == 0)
    && (i > 0 ==> OrEmpty(last.value.finalOutput) == OrEmpty(SerialResult(p, i - 1).finalOutput))
  }

  lemma Start<S>(p: Plan<S>)
    requires Serial(p)
    ensures InLoop(p, 0, p.task, map[], None)
  {
  }

  function NextTask(task: string, current: string, n: Name, r: GroupResult): string {
    if OrEmpty(r.finalOutput) == "" then current else Augment(task, n, OrEmpty(r.finalOutput))
  }

  lemma InResults<S>(p: Plan<S>, i: nat)
    requires Serial(p) && i < |p.order|
    ensures p.order[i] in SerialResults(p) && SerialResults(p)[p.order[i]] == SerialResult(p, i)
  {
    hide SerialResult;
    assert p.order[i] in Elems(p.order);
  }

  lemma GatherInto(sol: Results, done: seq<Name>, n: Name, outputs: map<string, Option<string>>, r: GroupResult)
    requires (forall m :: m in done ==> m in sol) && Texted(outputs) == Merge(sol, done)
    requires n in sol && ToEntry(r) == ToEntry(sol[n])
    ensures (forall m :: m in done + [n] ==> m in sol) && Texted(outputs + r.outputs) == Merge(sol, done + [n])
  {
    hide Texted, Merge, ToEntry;
    TextedAppend(outputs, r);
    MergeOne(sol, done, n);
  }

  lemma GatherOne<S>(p: Plan<S>, i: nat, outputs: map<string, Option<string>>, r: GroupResult)
    requires Serial(p) && i < |p.order| && Gathered(p, i, outputs) && ToEntry(r) == ToEntry(SerialResult(p, i))
    ensures Gathered(p, i + 1, outputs + r.outputs)
  {
    hide Texted, Merge, SerialTask, SerialResult, SerialResults, ToEntry, Serial, Elems;
    InResults(p, i);
    GatherInto(SerialResults(p), p.order[..i], p.order[i], outputs, r);
    assert p.order[..i + 1] == p.order[..i] + [p.order[i]];
  }

  lemma Advance<S>(p: Plan<S>, i: nat, current: string, outputs: map<string, Option<string>>, last: Option<GroupResult>,
                   r: GroupResult)
    requires InLoop(p, i, current, outputs, last) && i < |p.order| && ToEntry(r) == ToEntry(SerialResult(p, i))
    ensures InLoop(p, i + 1, NextTask(p.task, current, p.order[i], r), outputs + r.outputs, Some(r))
  {
    assert ToEntry(r).finalOutput == OrEmpty(r.finalOutput);
    assert ToEntry(SerialResult(p, i)).finalOutput == OrEmpty(SerialResult(p, i).finalOutput);
    GatherOne(p, i, outputs, r);
    hide Augment, Gathered, OrEmpty, ToEntry, Distinct;
  }

  /** The state of one group, and whether it is saved, once the loop has passed some of the groups. */
  ghost predicate RanFor<S>(p: Plan<S>, before: Outset<S>, n: Name, passed: bool, saved: bool, state: Option<S>)
    requires Serial(p)
  {
    && (saved <==> n in before.saved || passed)
    && state ==
      if passed && n !in before.saved && n in p.order then Some(SerialControlled(p, IndexOf(p.order, n)))
      else Get(before.memory, n)
  }

  /** What the run did to the saved groups and the controller states up to the i-th group. */
  ghost predicate Ran<S>(p: Plan<S>, i: nat, before: Outset<S>, saved: TaskFile, memory: map<Name, S>)
    requires Serial(p) && i <= |p.order|
  {
    forall n :: RanFor(p, before, n, n in p.order[..i], n in saved, Get(memory, n))
  }

  lemma RanMore<S>(p: Plan<S>, i: nat, before: Outset<S>, saved: TaskFile, memory: map<Name, S>, saved': TaskFile,
                   memory': map<Name, S>)
    requires Serial(p) && i < |p.order| && Ran(p, i, before, saved, memory)
    requires if p.order[i] in saved then saved' == saved && memory' == memory
             else saved'.Keys == saved.Keys + {p.order[i]} && memory' == memory[p.order[i] := SerialControlled(p, i)]
    ensures Ran(p, i + 1, before, saved', memory')
  {
    var n := p.order[i];
    assert p.order[..i + 1] == p.order[..i] + [n];
    assert n !in p.order[..i] && IndexOf(p.order, n) == i;
    hide SerialControlled, Distinct;
    forall m ensures RanFor(p, before, m, m in p.order[..i + 1], m in saved', Get(memory', m)) {
      assert RanFor(p, before, m, m in p.order[..i], m in saved, Get(memory, m));
    }
  }

  lemma SoundAt<S>(p: Plan<S>, i: nat, saved: TaskFile, memory: map<Name, S>)
    requires Serial(p) && i < |p.order| && Sound(p, SerialResults(p), saved, memory)
    ensures p.order[i] in memory && p.order[i] in p.start && p.order[i] in SerialResults(p)
    ensures p.order[i] !in saved ==> memory[p.order[i]] == p.start[p.order[i]]
    ensures p.order[i] in saved ==> saved[p.order[i]] == ToEntry(SerialResult(p, i))
    ensures SerialResults(p)[p.order[i]] == SerialResult(p, i)
  {
    assert p.order[i] in Elems(p.order);
    hide SerialResult, Distinct;
  }

  lemma SoundMore<S>(p: Plan<S>, sol: Results, n: Name, saved: TaskFile, memory: map<Name, S>, state: S)
    requires Sound(p, sol, saved, memory) && n in sol
    ensures Sound(p, sol, saved[n := ToEntry(sol[n])], memory)
    ensures Sound(p, sol, saved[n := ToEntry(sol[n])], memory[n := state])
  {
    hide ToEntry;
  }

  /** One group that is not saved: run, save, controller step; it may be cut short between them. */
  method RunAndRecord<S>(p: Plan<S>, ghost i: nat, n: Name, current: string, ck: PipelineCheckpoint, t: TaskId,
                         states: PipelineState<S>, spoilt: Name -> S)
    returns (crashed: bool, r: GroupResult)
    requires Serial(p) && i < |p.order| && n == p.order[i] && current == SerialTask(p, i)
    requires ck.Valid() && ck.Primed(t) && n !in FileOf(ck.View(), t)
    requires Sound(p, SerialResults(p), FileOf(ck.View(), t), states.memory)
    modifies ck, ck.disk, states
    ensures ck.Valid() && ck.Primed(t) && ck.View() - {t} == old(ck.View()) - {t}
    ensures Sound(p, SerialResults(p), FileOf(ck.View(), t), states.memory)
    ensures Preserves(t, FileOf(old(ck.View()), t), old(ck.Log()), {n}, FileOf(ck.View(), t), ck.Log())
    ensures StepsOnce(SerialControllers(p, spoilt), {n}, old(states.memory), states.memory)
    ensures r == SerialResult(p, i)
    ensures !crashed ==>
      && FileOf(ck.View(), t) == old(FileOf(ck.View(), t))[n := ToEntry(SerialResult(p, i))]
      && states.memory == old(states.memory)[n := SerialControlled(p, i)]
  {
    hide *;
    SoundAt(p, i, FileOf(ck.View(), t), states.memory);
    SoundMore(p, SerialResults(p), n, FileOf(ck.View(), t), states.memory, spoilt(n));
    SoundMore(p, SerialResults(p), n, FileOf(ck.View(), t), states.memory, SerialControlled(p, i));
    OneLogged(t, FileOf(ck.View(), t), ck.Log(), n, ToEntry(SerialResult(p, i)));
    NothingDone(t, FileOf(ck.View(), t), ck.Log(), n);
    SerialSteps(p, spoilt, i, states.memory);
    r := p.run(n, states.memory[n], current);
    StepIs(p, i, current);
    if * {
      return true, r;
    }
    PutInFile(ck.View(), t, n, ToEntry(r));
    ck.SaveGroup(t, n, ToEntry(r));
    if * {
      return true, r;
    }
    if * {
      states.memory := states.memory[n := spoilt(n)];
      return true, r;
    }
    states.memory := states.memory[n := p.control(n, states.memory[n], NextTask(p.task, current, n, r), r)];
    crashed := false;
  }

  lemma NothingDone(t: TaskId, saved: TaskFile, log: SaveLog, n: Name)
    ensures Preserves(t, saved, log, {n}, saved, log)
  {
    NothingLogged(t, saved, log);
    hide Logged;
  }

  lemma StepIs<S>(p: Plan<S>, i: nat, current: string)
    requires Serial(p) && i < |p.order| && current == SerialTask(p, i)
    ensures p.order[i] in p.start
    ensures
      var n, r := p.order[i], SerialResult(p, i);
      && r == p.run(n, p.start[n], current)
      && SerialControlled(p, i) == p.control(n, p.start[n], NextTask(p.task, current, n, r), r)
  {
    assert p.order[i] in Elems(p.order);
    hide Augment, OrEmpty;
  }

  /** The group loop of a run. */
  method ExecuteGroups<S>(p: Plan<S>, ck: PipelineCheckpoint, t: TaskId, states: PipelineState<S>, spoilt: Name -> S)
    returns (crashed: bool, outputs: map<string, Option<string>>, last: Option<GroupResult>, ghost current: string,
             ghost dispatched: set<Name>)
    requires Serial(p) && ck.Valid() && Sound(p, SerialResults(p), FileOf(ck.View(), t), states.memory)
    modifies ck, ck.disk, states
    ensures ck.Valid() && ck.View() - {t} == old(ck.View()) - {t}
    ensures Sound(p, SerialResults(p), FileOf(ck.View(), t), states.memory)
    ensures dispatched !! FileOf(old(ck.View()), t).Keys && dispatched <= Elems(p.order)
    ensures Preserves(t, FileOf(old(ck.View()), t), old(ck.Log()), dispatched, FileOf(ck.View(), t), ck.Log())
    ensures StepsOnce(SerialControllers(p, spoilt), dispatched, old(states.memory), states.memory)
    ensures !crashed ==> forall n :: n in p.order && n !in FileOf(old(ck.View()), t) ==> n in dispatched
    ensures !crashed ==> forall n :: n in Elems(p.order) ==> n in FileOf(ck.View(), t)
    ensures !crashed ==> InLoop(p, |p.order|, current, outputs, last)
    ensures !crashed ==>
      Ran(p, |p.order|, Outset(FileOf(old(ck.View()), t), old(states.memory), spoilt), FileOf(ck.View(), t),
          states.memory)
  {
    hide *;
    ghost var before := Outset(FileOf(ck.View(), t), states.memory, spoilt);
    var task := p.task;
    outputs, last, current, crashed, dispatched := map[], None, task, false, {};
    ghost var log := ck.Log();
    NothingLogged(t, before.saved, log);
    NobodySteps(SerialControllers(p, spoilt), before.memory);
    Start(p);
    NoneRan(p, before);
    for i := 0 to |p.order|
      invariant ck.Valid() && ck.View() - {t} == old(ck.View()) - {t} && current == task
      invariant Sound(p, SerialResults(p), FileOf(ck.View(), t), states.memory)
      invariant InLoop(p, i, task, outputs, last)
      invariant Ran(p, i, before, FileOf(ck.View(), t), states.memory)
      invariant StepsOnce(SerialControllers(p, spoilt), dispatched, before.memory, states.memory)
      invariant dispatched <= Elems(p.order)
      invariant dispatched !! before.saved.Keys
        && Preserves(t, before.saved, log, dispatched, FileOf(ck.View(), t), ck.Log())
      invariant forall n :: n in p.order[..i] && n !in before.saved ==> n in dispatched
    {
      var n := p.order[i];
      SoundAt(p, i, FileOf(ck.View(), t), states.memory);
      TaskIs(p, i, task, outputs, last);
      ghost var saved, memory, now := FileOf(ck.View(), t), states.memory, ck.Log();
      NotThere(t, before.saved, log, dispatched, saved, now, n);
      var entry := ck.LoadGroup(t, n);
      EntryIs(ck.View(), t, n);
      assert p.order[..i + 1] == p.order[..i] + [n];
      var r: GroupResult;
      if entry.Some? {
        r := Replayed(entry.value);
        ReplayedIsSaved(entry.value);
      } else {
        crashed, r := RunAndRecord(p, i, n, task, ck, t, states, spoilt);
        PreservesMore(t, before.saved, log, dispatched, saved, now, {n}, FileOf(ck.View(), t), ck.Log());
        StepsOnceMore(SerialControllers(p, spoilt), dispatched, {n}, before.memory, memory, states.memory);
        InOrder(p.order, i);
        dispatched := dispatched + {n};
        if crashed {
          return;
        }
      }
      Advance(p, i, task, outputs, last, r);
      RanMore(p, i, before, saved, memory, FileOf(ck.View(), t), states.memory);
      outputs, last, task := outputs + r.outputs, Some(r), NextTask(p.task, task, n, r);
      current := task;
    }
    assert p.order[..|p.order|] == p.order;
    AllRan(p, before, FileOf(ck.View(), t), states.memory);
  }

  lemma InOrder(order: seq<Name>, i: nat)
    requires i < |order|
    ensures order[i] in Elems(order)
  {
  }

  lemma AllRan<S>(p: Plan<S>, before: Outset<S>, saved: TaskFile, memory: map<Name, S>)
    requires Serial(p) && Ran(p, |p.order|, before, saved, memory)
    ensures forall n :: n in Elems(p.order) ==> n in saved
  {
    assert p.order[..|p.order|] == p.order;
    hide SerialControlled, Serial;
    forall n | n in Elems(p.order) ensures n in saved {
      assert RanFor(p, before, n, n in p.order[..|p.order|], n in saved, Get(memory, n));
    }
  }

  lemma TaskIs<S>(p: Plan<S>, i: nat, current: string, outputs: map<string, Option<string>>, last: Option<GroupResult>)
    requires InLoop(p, i, current, outputs, last)
    ensures current == SerialTask(p, i)
  {
  }

  lemma EntryIs(saved: Saved, t: TaskId, n: Name)
    ensures Lookup(saved, t, n) == Get(FileOf(saved, t), n)
    ensures Get(FileOf(saved, t), n).Some? <==> n in FileOf(saved, t)
    ensures n in FileOf(saved, t) ==> Get(FileOf(saved, t), n) == Some(FileOf(saved, t)[n])
  {
  }

  lemma NoneRan<S>(p: Plan<S>, before: Outset<S>)
    requires Serial(p)
    ensures Ran(p, 0, before, before.saved, before.memory)
  {
  }

  ghost predicate SerialDenotes<S>(p: Plan<S>, r: RunResult)
    requires Serial(p)
  {
    && (forall n :: n in p.order ==> n in SerialResults(p))
    && r == Completed(OrEmpty(SerialResult(p, |p.order| - 1).finalOutput), Merge(SerialResults(p), p.order))
  }

  /** The group has left a text for those after it. */
  ghost predicate Speaks<S>(p: Plan<S>, i: nat)
    requires Serial(p) && i < |p.order|
  {
    SerialResult(p, i).finalOutput.Some? && SerialResult(p, i).finalOutput.value != ""
  }

  /** Every group is run on the original task with the text of the last group before it that has left one, or on the
      bare task if there is none; its controller is told the text of the group itself in that place, if it left one. */
  lemma {:induction false} RunsOnLastText<S>(p: Plan<S>, i: nat) returns (j: nat)
    requires Serial(p) && i < |p.order|
    ensures p.order[i] in p.start
    ensures SerialResult(p, i) == p.run(p.order[i], p.start[p.order[i]], SerialTask(p, i))
    ensures (forall l :: 0 <= l < i ==> !Speaks(p, l)) ==> SerialTask(p, i) == p.task
    ensures !(forall l :: 0 <= l < i ==> !Speaks(p, l)) ==>
      && j < i && Speaks(p, j) && (forall l :: j < l < i ==> !Speaks(p, l))
      && SerialTask(p, i) ==
           p.task + "\n\n[" + p.order[j].text + " output]\n" + SerialResult(p, j).finalOutput.value
    ensures
      var n := p.order[i];
      SerialControlled(p, i) == p.control(n, p.start[n],
        if Speaks(p, i) then p.task + "\n\n[" + n.text + " output]\n" + SerialResult(p, i).finalOutput.value
        else SerialTask(p, i), SerialResult(p, i))
  {
    assert p.order[i] in Elems(p.order);
    if Speaks(p, i) {
      LabelIs(p.task, p.order[i], SerialResult(p, i).finalOutput.value);
    }
    j := 0;
    if i > 0 {
      if Speaks(p, i - 1) {
        LabelIs(p.task, p.order[i - 1], SerialResult(p, i - 1).finalOutput.value);
        j := i - 1;
      } else {
        j := RunsOnLastText(p, i - 1);
      }
    }
    hide Augment, Distinct;
  }

  /** What a completed serial run returns: the final output of the last group, and under every key that any group
      writes the text of the last one to do so. */
  lemma WhatIsReturnedSerially<S>(p: Plan<S>, r: RunResult, k: string) returns (i: nat)
    requires Serial(p) && SerialDenotes(p, r)
    ensures
      var last := SerialResult(p, |p.order| - 1).finalOutput;
      && r.Completed? && (last.Some? ==> r.finalOutput == last.value) && (last.None? ==> r.finalOutput == "")
    ensures k in r.stepOutputs <==> exists j :: 0 <= j < |p.order| && k in SerialResult(p, j).outputs
    ensures k in r.stepOutputs ==>
      && i < |p.order| && k in SerialResult(p, i).outputs
      && (SerialResult(p, i).outputs[k].Some? ==> r.stepOutputs[k] == SerialResult(p, i).outputs[k].value)
      && (SerialResult(p, i).outputs[k].None? ==> r.stepOutputs[k] == "")
      && forall j :: i < j < |p.order| ==> k !in SerialResult(p, j).outputs
  {
    hide *;
    Denoted(p, r);
    var sol := SerialResults(p);
    i := 0;
    MergeHas(sol, p.order, k);
    if k in r.stepOutputs {
      i := LastGroupWins(sol, p.order, k);
    }
    forall j | 0 <= j < |p.order|
      ensures Writes(sol, p.order[j], k) <==> k in SerialResult(p, j).outputs
      ensures j == i && Writes(sol, p.order[j], k) ==>
        && (SerialResult(p, j).outputs[k].Some? ==> Written(sol, p.order[j], k) == SerialResult(p, j).outputs[k].value)
        && (SerialResult(p, j).outputs[k].None? ==> Written(sol, p.order[j], k) == "")
    {
      SerialWrites(p, j, k);
    }
    if k in r.stepOutputs {
      assert k in SerialResult(p, i).outputs;
    }
    if j :| 0 <= j < |p.order| && k in SerialResult(p, j).outputs {
      assert p.order[j] in p.order && Writes(sol, p.order[j], k);
    }
  }

  lemma Denoted<S>(p: Plan<S>, r: RunResult)
    requires Serial(p) && SerialDenotes(p, r)
    ensures forall n :: n in p.order ==> n in SerialResults(p)
    ensures |p.order| > 0 && r.Completed? && r.stepOutputs == Merge(SerialResults(p), p.order)
    ensures
      var last := SerialResult(p, |p.order| - 1).finalOutput;
      (last.Some? ==> r.finalOutput == last.value) && (last.None? ==> r.finalOutput == "")
  {
    hide SerialResult, SerialResults, Merge;
  }

  lemma SerialWrites<S>(p: Plan<S>, j: nat, k: string)
    requires Serial(p) && j < |p.order|
    ensures Writes(SerialResults(p), p.order[j], k) <==> k in SerialResult(p, j).outputs
    ensures Writes(SerialResults(p), p.order[j], k) ==>
      var written := Written(SerialResults(p), p.order[j], k);
      && (SerialResult(p, j).outputs[k].Some? ==> written == SerialResult(p, j).outputs[k].value)
      && (SerialResult(p, j).outputs[k].None? ==> written == "")
  {
    InResults(p, j);
    WrittenIs(SerialResults(p), p.order[j], k);
    hide SerialResult, SerialResults, Writes, Written;
  }

  /** The state of every group after a completed run: a group that was replayed keeps its state. */
  ghost predicate SerialControlledOnce<S>(p: Plan<S>, saved0: TaskFile, memory0: map<Name, S>, memory: map<Name, S>)
    requires Serial(p)
  {
    forall i :: 0 <= i < |p.order| ==>
      Get(memory, p.order[i]) == if p.order[i] in saved0 then Get(memory0, p.order[i]) else Some(SerialControlled(p, i))
  }

  lemma EndedStates<S>(p: Plan<S>, before: Outset<S>, saved: TaskFile, memory: map<Name, S>)
    requires Serial(p) && Ran(p, |p.order|, before, saved, memory)
    ensures SerialControlledOnce(p, before.saved, before.memory, memory)
  {
    assert p.order[..|p.order|] == p.order;
    hide SerialControlled;
    forall i | 0 <= i < |p.order|
      ensures Get(memory, p.order[i]) ==
        if p.order[i] in before.saved then Get(before.memory, p.order[i]) else Some(SerialControlled(p, i))
    {
      assert RanFor(p, before, p.order[i], p.order[i] in p.order[..|p.order|], p.order[i] in saved,
                    Get(memory, p.order[i]));
      assert IndexOf(p.order, p.order[i]) == i;
    }
  }

  lemma Ended<S>(p: Plan<S>, outputs: map<string, Option<string>>, last: Option<GroupResult>, current: string)
    requires Serial(p) && InLoop(p, |p.order|, current, outputs, last)
    ensures last.Some? && SerialDenotes(p, Completed(OrEmpty(last.value.finalOutput), Texted(outputs)))
  {
    assert p.order[..|p.order|] == p.order;
    hide Texted, Merge, OrEmpty, SerialResult, Distinct;
  }

  /** The whole run, over the groups in declaration order. Whatever was saved before, a run that
      completes returns what the plan denotes serially; one that is cut short leaves everything in
      order for the next. */
  method Execute<S>(p: Plan<S>, ck: PipelineCheckpoint, t: TaskId, states: PipelineState<S>, spoilt: Name -> S)
    returns (r: RunResult, ghost dispatched: set<Name>)
    requires Serial(p) && ck.Valid() && Sound(p, SerialResults(p), FileOf(ck.View(), t), states.memory)
    modifies ck, ck.disk, states
    ensures ck.Valid() && ck.View() - {t} == old(ck.View()) - {t}
    ensures Attempted(t, SerialControllers(p, spoilt),
                      Attempt(FileOf(old(ck.View()), t), dispatched, FileOf(ck.View(), t)), old(ck.Log()), ck.Log(),
                      old(states.memory), states.memory, r.Completed?)
    ensures r.Crashed? ==> Sound(p, SerialResults(p), FileOf(ck.View(), t), states.memory)
    ensures r.Completed? ==> t !in ck.View() && SerialDenotes(p, r)
    ensures r.Completed? ==> SerialControlledOnce(p, FileOf(old(ck.View()), t), old(states.memory), states.memory)
  {
    hide *;
    ghost var before, log := Outset(FileOf(ck.View(), t), states.memory, spoilt), ck.Log();
    ghost var cs := SerialControllers(p, spoilt);
    SerialUnused(p, spoilt, before.saved, before.memory);
    var crashed, outputs, last;
    ghost var current;
    crashed, outputs, last, current, dispatched := ExecuteGroups(p, ck, t, states, spoilt);
    ghost var left := FileOf(ck.View(), t);
    if crashed {
      AttemptIs(t, cs, Attempt(before.saved, dispatched, left), log, left, ck.Log(), before.memory, states.memory,
                false);
      return Crashed, dispatched;
    }
    AllDispatched(p.order, before.saved, dispatched);
    EndedStates(p, before, left, states.memory);
    Ended(p, outputs, last, current);
    ck.Clear(t);
    AttemptIs(t, cs, Attempt(before.saved, dispatched, FileOf(ck.View(), t)), log, left, ck.Log(), before.memory,
              states.memory, true);
    r := Completed(OrEmpty(last.value.finalOutput), Texted(outputs));
  }

  lemma AllDispatched(order: seq<Name>, saved: TaskFile, dispatched: set<Name>)
    requires dispatched !! saved.Keys && forall n :: n in order && n !in saved ==> n in dispatched
    ensures forall n :: n in Elems(order) ==> (n in dispatched <==> n !in saved)
  {
  }

  /** Attempts a serial run until it completes. The attempt that completes returns what an
      uninterrupted run would have returned. No group is dispatched again once it is saved, and on a
      store that sees all attempts every group is saved exactly once. Over all attempts of a process,
      every controller takes at most one step. */
  method RunWithRetries<S>(p: Plan<S>, ck: PipelineCheckpoint, t: TaskId, states: PipelineState<S>, spoilt: Name -> S,
                           interruptions: seq<Interruption>)
    returns (r: RunResult, ghost trail: Trail<S>)
    requires Serial(p) && ck.Valid() && Sound(p, SerialResults(p), FileOf(ck.View(), t), states.memory)
    modifies ck, ck.disk, states
    ensures r.Completed? ==> SerialDenotes(p, r)
    ensures Recovers(t, SerialControllers(p, spoilt), interruptions, ck.disk != null, FileOf(old(ck.View()), t),
                     old(ck.Log()), ck.Log(), old(states.memory), trail, r.Completed?)
    ensures trail.first == 0 ==> trail.memory == states.memory
    decreases |interruptions|
  {
    hide *;
    ghost var dispatched;
    ghost var saved, log, before := FileOf(ck.View(), t), ck.Log(), states.memory;
    ghost var cs, onDisk := SerialControllers(p, spoilt), ck.disk != null;
    r, dispatched := Execute(p, ck, t, states, spoilt);
    ghost var a, middle, between := Attempt(saved, dispatched, FileOf(ck.View(), t)), ck.Log(), states.memory;
    if r.Completed? || interruptions == [] {
      trail := Trail([a], 0, between);
      OneAttempt(t, cs, interruptions, onDisk, a, log, middle, before, between, r.Completed?);
      return;
    }
    ghost var found, next, last;
    if interruptions[0].Raised? {
      NextFinds(ck, ck, t, interruptions[0]);
      found, next := a.left, middle;
      Inheriting(a.left, interruptions[0], onDisk);
      r, trail := RunWithRetries(p, ck, t, states, spoilt, interruptions[1..]);
      last := ck.Log();
    } else {
      var reopened := new PipelineCheckpoint(ck.disk);
      var restarted := new PipelineState(p.start);
      ReopenedView(ck, reopened);
      FreshControllers(p, a.left, between);
      NoFile(t);
      NextFinds(ck, reopened, t, interruptions[0]);
      found, next := FileOf(reopened.View(), t), reopened.Log();
      r, trail := RunWithRetries(p, reopened, t, restarted, spoilt, interruptions[1..]);
      last := reopened.Log();
      if ck.disk != null {
        OneLog(ck, reopened);
      }
    }
    ExtendedBy(a, trail, interruptions[0]);
    AnotherAttempt(t, cs, interruptions, onDisk, a, log, middle, next, last, ck.Log(), before, between, found, trail,
                   r.Completed?);
    trail := Extended(a, trail, interruptions[0]);
  }

  lemma NoFile(t: TaskId)
    ensures FileOf(map[], t) == map[]
  {
  }

  lemma FreshControllers<S>(p: Plan<S>, saved: TaskFile, memory: map<Name, S>)
    requires Serial(p) && Sound(p, SerialResults(p), saved, memory)
    ensures Sound(p, SerialResults(p), saved, p.start) && Sound(p, SerialResults(p), map[], p.start)
  {
    hide Distinct, SerialResult;
  }

  /** From a built pipeline to its serial result, whatever earlier processes have left in the checkpoint. It runs unless
      it has no groups, or a static group without agents or with two agents of one name. */
  method RunPipeline<S>(groups: seq<GroupSpec>, p: Plan<S>, ck: PipelineCheckpoint, t: TaskId, states: PipelineState<S>,
                        spoilt: Name -> S, interruptions: seq<Interruption>)
    returns (r: Result<RunResult, StartError>, ghost trail: Trail<S>)
    requires WellFormed(groups) && PlanFor(p, groups) && Distinct(GroupNames(groups))
    requires ck.Valid() && (Serial(p) ==> Sound(p, SerialResults(p), FileOf(ck.View(), t), states.memory))
    modifies ck, ck.disk, states
    ensures r.Ok? <==> CanStart(groups)
    ensures r.Ok? ==> Serial(p)
    ensures r.Ok? && r.value.Completed? ==> SerialDenotes(p, r.value)
    ensures r.Ok? ==>
      Recovers(t, SerialControllers(p, spoilt), interruptions, ck.disk != null, FileOf(old(ck.View()), t),
               old(ck.Log()), ck.Log(), old(states.memory), trail, r.value.Completed?)
    ensures r.Err? ==> Explains(r.error, groups) && !r.error.NotPlanned?
    ensures r.Err? ==> ck.View() == old(ck.View()) && ck.Log() == old(ck.Log()) && states.memory == old(states.memory)
  {
    hide *;
    trail := Trail([], 0, map[]);
    var compiled := ValidateAndCompile(groups);
    if compiled.Err? {
      return Err(compiled.error), trail;
    }
    StartsSerial(p, groups);
    var result;
    result, trail := RunWithRetries(p, ck, t, states, spoilt, interruptions);
    r := Ok(result);
  }

  lemma StartsSerial<S>(p: Plan<S>, groups: seq<GroupSpec>)
    requires PlanFor(p, groups) && CanStart(groups) && Distinct(GroupNames(groups))
    ensures Serial(p)
  {
    hide Distinct, Staffed, Compiles;
  }
}
