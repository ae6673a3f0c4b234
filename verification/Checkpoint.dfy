/** Group-level checkpoints: an in-memory cache over one file per task. */
module Checkpoint {
  import opened Wrappers
  import opened Graphs

  datatype TaskId = TaskId(text: string)

  /** What is kept of a completed group. */
  datatype Entry = Entry(outputs: map<string, string>, finalOutput: string)

  type TaskFile = map<Name, Entry>

  /** All checkpoints, as one map from tasks to the groups saved for them. */
  type Saved = map<TaskId, TaskFile>

  function Lookup(saved: Saved, t: TaskId, g: Name): Option<Entry> {
    if t in saved && g in saved[t] then Some(saved[t][g]) else None
  }

  function Put(saved: Saved, t: TaskId, g: Name, e: Entry): Saved {
    saved[t := (if t in saved then saved[t] else map[])[g := e]]
  }

  function GroupsOf(saved: Saved, t: TaskId): set<Name> {
    if t in saved then saved[t].Keys else {}
  }

  /** Replacing the groups of a task is the same as adding to them only if there is nothing to lose. */
  lemma PutBlind(saved: Saved, t: TaskId, g: Name, e: Entry)
    requires t in saved
    ensures saved[t := map[g := e]] == Put(saved, t, g, e) <==> GroupsOf(saved, t) <= {g}
  {
    if GroupsOf(saved, t) <= {g} {
      assert saved[t][g := e] == map[g := e];
    } else {
      var h :| h in saved[t] && h != g;
      assert h in Put(saved, t, g, e)[t] && h !in saved[t := map[g := e]][t];
    }
  }

  lemma SavingIs(saved: Saved, t: TaskId, g: Name, e: Entry, primed: bool, known: TaskFile)
    requires known == if primed && t in saved then saved[t] else map[]
    ensures saved[t := known[g := e]] == if primed then Put(saved, t, g, e) else saved[t := map[g := e]]
    ensures saved[t := known[g := e]] == Put(saved, t, g, e) <==> primed || GroupsOf(saved, t) <= {g}
  {
    if t in saved {
      PutBlind(saved, t, g, e);
    }
  }

  /** Which groups were saved, in this order. */
  type SaveLog = seq<(TaskId, Name)>

  /** The checkpoint directory; it outlives the process. */
  class Disk {
    var files: Saved
    ghost var writes: SaveLog

    constructor ()
      ensures files == map[] && writes == []
    {
      files, writes := map[], [];
    }
  }

  class PipelineCheckpoint {
    var store: Saved
    const disk: Disk?
    ghost var saves: SaveLog

    /** The cache never disagrees with the files it mirrors. */
    ghost predicate Valid()
      reads this, disk
    {
      disk != null ==> forall t :: t in store ==> t in disk.files && disk.files[t] == store[t]
    }

    /** Nothing on disk for this task is missing from the cache. */
    ghost predicate Primed(t: TaskId)
      reads this, disk
    {
      disk == null || t in store || t !in disk.files
    }

    /** What a lookup finds: the cache, and behind it the files. */
    ghost function View(): (saved: Saved)
      reads this, disk
    {
      if disk == null then store else disk.files + store
    }

    /** All saves so far that this store, in memory or on disk, has seen. */
    ghost function Log(): SaveLog
      reads this`saves, disk
    {
      if disk == null then saves else disk.writes
    }

    constructor (disk: Disk?)
      ensures Valid() && this.disk == disk && store == map[]
      ensures View() == if disk == null then map[] else disk.files
      ensures Log() == if disk == null then [] else disk.writes
    {
      this.disk, store, saves := disk, map[], [];
    }

    method ReadTaskFile(t: TaskId)
      requires Valid() && disk != null
      modifies this`store
      ensures Valid() && View() == old(View()) && Primed(t)
      ensures forall u :: old(Primed(u)) ==> Primed(u)
      ensures t in store <==> t in View()
    {
      if t in disk.files {
        store := store[t := disk.files[t]];
      }
    }

    /** Saving is the plain map update unless an unread file of the task holds other groups: these
        are then dropped. */
    method SaveGroup(t: TaskId, g: Name, e: Entry)
      requires Valid()
      modifies this`store, this`saves, disk
      ensures Valid() && Primed(t)
      ensures Log() == old(Log()) + [(t, g)]
      ensures forall u :: old(Primed(u)) ==> Primed(u)
      ensures View() == if old(Primed(t)) then Put(old(View()), t, g, e) else old(View())[t := map[g := e]]
      ensures View() == Put(old(View()), t, g, e) <==> old(Primed(t)) || GroupsOf(old(View()), t) <= {g}
    {
      var taskStore := if t in store then store[t] else map[];
      KnownFile(t);
      SavingIs(View(), t, g, e, Primed(t), taskStore);
      Keep(t, taskStore[g := e], g);
    }

    /** What is cached of a task is all there is, or nothing. */
    lemma KnownFile(t: TaskId)
      requires Valid()
      ensures (if t in store then store[t] else map[]) == if Primed(t) && t in View() then View()[t] else map[]
    {
    }

    /** Replaces the cached file of a task and writes it out. */
    method Keep(t: TaskId, file: TaskFile, ghost g: Name)
      requires Valid()
      modifies this`store, this`saves, disk
      ensures Valid() && Primed(t) && View() == old(View())[t := file]
      ensures Log() == old(Log()) + [(t, g)]
      ensures forall u :: old(Primed(u)) ==> Primed(u)
    {
      store := store[t := file];
      saves := saves + [(t, g)];
      if disk != null {
        disk.files := disk.files[t := store[t]];
        disk.writes := disk.writes + [(t, g)];
      }
    }

    method LoadGroup(t: TaskId, g: Name) returns (entry: Option<Entry>)
      requires Valid()
      modifies this`store
      ensures Valid() && View() == old(View()) && entry == Lookup(View(), t, g) && Primed(t)
      ensures forall u :: old(Primed(u)) ==> Primed(u)
    {
      if t in store && g in store[t] {
        return Some(store[t][g]);
      }
      if disk != null {
        ReadTaskFile(t);
        if t in store && g in store[t] {
          return Some(store[t][g]);
        }
      }
      entry := None;
    }

    method Clear(t: TaskId)
      requires Valid()
      modifies this`store, disk
      ensures Valid() && View() == old(View()) - {t} && Primed(t)
      ensures Log() == old(Log())
      ensures forall u :: old(Primed(u)) ==> Primed(u)
    {
      store := store - {t};
      if disk != null && t in disk.files {
        disk.files := disk.files - {t};
      }
    }

    method GroupsFor(t: TaskId) returns (names: set<Name>)
      requires Valid()
      modifies this`store
      ensures Valid() && View() == old(View()) && names == GroupsOf(View(), t) && Primed(t)
      ensures forall u :: old(Primed(u)) ==> Primed(u)
    {
      if t !in store && disk != null {
        ReadTaskFile(t);
      }
      names := if t in store then store[t].Keys else {};
    }
  }

  // ----- histories ---------------------------------------------------------------------------

  datatype Op =
    | Save(task: TaskId, group: Name, entry: Entry)
    | Load(task: TaskId, group: Name)
    | Clear(task: TaskId)
    | List(task: TaskId)
    | Restart

  datatype Answer = Done | Found(entry: Option<Entry>) | Listed(names: set<Name>)

  /** The plain map after one more operation; a restart forgets nothing that is on disk. */
  function PlainNext(onDisk: bool, saved: Saved, op: Op): Saved {
    match op
    case Save(t, g, e) => Put(saved, t, g, e)
    case Clear(t) => saved - {t}
    case Load(_, _) => saved
    case List(_) => saved
    case Restart => if onDisk then saved else map[]
  }

  function PlainAnswer(saved: Saved, op: Op): Answer {
    match op
    case Load(t, g) => Found(Lookup(saved, t, g))
    case List(t) => Listed(GroupsOf(saved, t))
    case Save(_, _, _) => Done
    case Clear(_) => Done
    case Restart => Done
  }

  function PlainAnswers(onDisk: bool, saved: Saved, ops: seq<Op>): seq<Answer>
    decreases |ops|
  {
    if ops == [] then []
      else [PlainAnswer(saved, ops[0])] + PlainAnswers(onDisk, PlainNext(onDisk, saved, ops[0]), ops[1..])
  }

  function PlainAfter(onDisk: bool, saved: Saved, ops: seq<Op>): Saved
    decreases |ops|
  {
    if ops == [] then saved else PlainAfter(onDisk, PlainNext(onDisk, saved, ops[0]), ops[1..])
  }

  /** What a history leaves of a group: the last save or removal that concerns it decides. */
  function LastSaved(onDisk: bool, before: Option<Entry>, ops: seq<Op>, t: TaskId, g: Name): Option<Entry>
    decreases |ops|
  {
    if ops == [] then before else
      var last := ops[|ops| - 1];
      if last.Save? && last.task == t && last.group == g then Some(last.entry)
      else if (last.Clear? && last.task == t) || (last.Restart? && !onDisk) then None
      else LastSaved(onDisk, before, ops[..|ops| - 1], t, g)
  }

  lemma {:induction false} PlainOneMore(onDisk: bool, saved: Saved, ops: seq<Op>, op: Op)
    ensures PlainAfter(onDisk, saved, ops + [op]) == PlainNext(onDisk, PlainAfter(onDisk, saved, ops), op)
    decreases |ops|
  {
    hide PlainNext;
    if ops == [] {
      assert ([] + [op])[1..] == [];
    } else {
      assert (ops + [op])[1..] == ops[1..] + [op];
      PlainOneMore(onDisk, PlainNext(onDisk, saved, ops[0]), ops[1..], op);
    }
  }

  lemma {:induction false} LeavesLastSaved(onDisk: bool, saved: Saved, ops: seq<Op>, t: TaskId, g: Name)
    ensures Lookup(PlainAfter(onDisk, saved, ops), t, g) == LastSaved(onDisk, Lookup(saved, t, g), ops, t, g)
    decreases |ops|
  {
    if ops != [] {
      var front, last := ops[..|ops| - 1], ops[|ops| - 1];
      LeavesLastSaved(onDisk, saved, front, t, g);
      PlainOneMore(onDisk, saved, front, last);
      assert front + [last] == ops;
      hide PlainAfter;
    }
  }

  lemma {:induction false} AnswersAre(onDisk: bool, saved: Saved, ops: seq<Op>, i: nat)
    requires i < |ops|
    ensures |PlainAnswers(onDisk, saved, ops)| == |ops|
    ensures PlainAnswers(onDisk, saved, ops)[i] == PlainAnswer(PlainAfter(onDisk, saved, ops[..i]), ops[i])
    decreases |ops|
  {
    hide PlainNext, PlainAnswer;
    var next := PlainNext(onDisk, saved, ops[0]);
    if |ops| > 1 {
      AnswersAre(onDisk, next, ops[1..], if i > 0 then i - 1 else 0);
    }
    if i > 0 {
      assert ops[..i][1..] == ops[1..][..i - 1];
    }
  }

  /** A lookup finds what was saved last of the group, unless the task was cleared or, in memory, the process ended
      since; a listing names the groups of which a lookup would find something. */
  lemma FindsLastSaved(onDisk: bool, saved: Saved, ops: seq<Op>, i: nat, t: TaskId, g: Name)
    requires i < |ops|
    ensures |PlainAnswers(onDisk, saved, ops)| == |ops|
    ensures
      var found := LastSaved(onDisk, Lookup(saved, t, g), ops[..i], t, g);
      var answer := PlainAnswers(onDisk, saved, ops)[i];
      && (ops[i] == Load(t, g) ==> answer == Found(found))
      && (ops[i] == List(t) ==> answer.Listed? && (g in answer.names <==> found.Some?))
  {
    AnswersAre(onDisk, saved, ops, i);
    LeavesLastSaved(onDisk, saved, ops[..i], t, g);
    hide PlainAnswers, PlainAfter, LastSaved;
  }

  /** Within one process, a task is looked at before anything is saved for it. */
  predicate LooksFirst(seen: set<TaskId>, ops: seq<Op>)
    decreases |ops|
  {
    ops == [] ||
    match ops[0]
    case Save(t, _, _) => t in seen && LooksFirst(seen, ops[1..])
    case Load(t, _) => LooksFirst(seen + {t}, ops[1..])
    case Clear(t) => LooksFirst(seen + {t}, ops[1..])
    case List(t) => LooksFirst(seen + {t}, ops[1..])
    case Restart => LooksFirst({}, ops[1..])
  }

  /** Runs a history of operations and process restarts. A checkpoint in memory, and one on a directory whose
      processes look before they save, answers like the plain map and leaves what it leaves. */
  method Replay(checkpoint: PipelineCheckpoint, ops: seq<Op>, ghost seen: set<TaskId>)
    returns (answers: seq<Answer>, last: PipelineCheckpoint)
    requires checkpoint.Valid()
    requires checkpoint.disk != null ==> LooksFirst(seen, ops) && forall t :: t in seen ==> checkpoint.Primed(t)
    modifies checkpoint, checkpoint.disk
    ensures last.Valid() && last.disk == checkpoint.disk && (last == checkpoint || fresh(last))
    ensures answers == PlainAnswers(checkpoint.disk != null, old(checkpoint.View()), ops)
    ensures last.View() == PlainAfter(checkpoint.disk != null, old(checkpoint.View()), ops)
    decreases |ops|
  {
    if ops == [] {
      return [], checkpoint;
    }
    ghost var before := checkpoint.View();
    var answer, current;
    ghost var seen';
    answer, current, seen' := Operate(checkpoint, ops, seen);
    var rest;
    rest, last := Replay(current, ops[1..], seen');
    answers := [answer] + rest;
  }

  /** The first operation of a history. */
  method Operate(checkpoint: PipelineCheckpoint, ops: seq<Op>, ghost seen: set<TaskId>)
    returns (answer: Answer, current: PipelineCheckpoint, ghost seen': set<TaskId>)
    requires ops != [] && checkpoint.Valid()
    requires checkpoint.disk != null ==> LooksFirst(seen, ops) && forall t :: t in seen ==> checkpoint.Primed(t)
    modifies checkpoint, checkpoint.disk
    ensures current.Valid() && current.disk == checkpoint.disk && (current == checkpoint || fresh(current))
    ensures checkpoint.disk != null ==> LooksFirst(seen', ops[1..]) && forall t :: t in seen' ==> current.Primed(t)
    ensures answer == PlainAnswer(old(checkpoint.View()), ops[0])
    ensures current.View() == PlainNext(checkpoint.disk != null, old(checkpoint.View()), ops[0])
  {
    answer, current, seen' := Done, checkpoint, seen;
    match ops[0] {
      case Save(t, g, e) => checkpoint.SaveGroup(t, g, e);
      case Load(t, g) =>
        var entry := checkpoint.LoadGroup(t, g);
        answer, seen' := Found(entry), seen + {t};
      case Clear(t) =>
        checkpoint.Clear(t);
        seen' := seen + {t};
      case List(t) =>
        var names := checkpoint.GroupsFor(t);
        answer, seen' := Listed(names), seen + {t};
      case Restart =>
        if checkpoint.disk != null {
          ReopensAll(checkpoint);
        }
        current := new PipelineCheckpoint(checkpoint.disk);
        seen' := {};
    }
  }

  /** The files are all there is of a checkpoint on disk. */
  lemma ReopensAll(checkpoint: PipelineCheckpoint)
    requires checkpoint.Valid() && checkpoint.disk != null
    ensures checkpoint.View() == checkpoint.disk.files
  {
  }

  /** Saving in a fresh process before looking loses the groups saved earlier. */
  method SaveBlind(disk: Disk, t: TaskId, a: Name, b: Name, e: Entry) returns (entry: Option<Entry>)
    requires t in disk.files && a in disk.files[t] && a != b
    modifies disk
    ensures entry == None
  {
    var checkpoint := new PipelineCheckpoint(disk);
    checkpoint.SaveGroup(t, b, e);
    entry := checkpoint.LoadGroup(t, a);
  }
}
