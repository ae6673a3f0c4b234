/** What the attempts of one run do to the checkpoint of their task. */
module Attempts {
  import opened Wrappers
  import opened Graphs
  import opened Checkpoint

  function FileOf(saved: Saved, t: TaskId): TaskFile {
    if t in saved then saved[t] else map[]
  }

  lemma PutInFile(saved: Saved, t: TaskId, n: Name, e: Entry)
    ensures FileOf(Put(saved, t, n, e), t) == FileOf(saved, t)[n := e]
    ensures Put(saved, t, n, e) - {t} == saved - {t}
  {
  }

  // ----- one attempt --------------------------------------------------------------------------

  /** Since the log ended with `from`, groups of this task only were saved, each once and none that
      was saved at that point. */
  ghost predicate SavesOnce(t: TaskId, saved: TaskFile, from: SaveLog, to: SaveLog) {
    && from <= to && Distinct(to[|from|..])
    && forall n, u :: (u, n) in to[|from|..] ==> u == t && n !in saved
  }

  /** What was saved then, and what was saved since: that is what is there now. */
  ghost predicate Logged(t: TaskId, saved: TaskFile, from: SaveLog, left: TaskFile, to: SaveLog) {
    SavesOnce(t, saved, from, to) && forall n :: n in left <==> n in saved || (t, n) in to[|from|..]
  }

  /** What an attempt does to the file of its task until it completes, wherever it is cut short: what
      was saved stays saved as it was, every group saved on the way stays saved, and what is new
      belongs to groups that were dispatched. */
  ghost predicate Preserves(t: TaskId, saved: TaskFile, from: SaveLog, dispatched: set<Name>, left: TaskFile,
                            to: SaveLog) {
    && saved.Keys <= left.Keys <= saved.Keys + dispatched
    && (forall n :: n in saved ==> Get(left, n) == Some(saved[n]))
    && Logged(t, saved, from, left, to)
  }

  lemma NothingLogged(t: TaskId, saved: TaskFile, log: SaveLog)
    ensures Logged(t, saved, log, saved, log) && Preserves(t, saved, log, {}, saved, log)
  {
    assert log[|log|..] == [];
  }

  lemma OneLogged(t: TaskId, saved: TaskFile, log: SaveLog, n: Name, e: Entry)
    requires n !in saved
    ensures Logged(t, saved, log, saved[n := e], log + [(t, n)])
    ensures Preserves(t, saved, log, {n}, saved[n := e], log + [(t, n)])
  {
    assert (log + [(t, n)])[|log|..] == [(t, n)];
  }

  lemma SinceBoth(from: SaveLog, middle: SaveLog, to: SaveLog)
    requires from <= middle <= to
    ensures to[|from|..] == middle[|from|..] + to[|middle|..]
  {
  }

  lemma SavesOnceMore(t: TaskId, a: TaskFile, from: SaveLog, b: TaskFile, middle: SaveLog, to: SaveLog)
    requires Logged(t, a, from, b, middle) && SavesOnce(t, b, middle, to)
    ensures SavesOnce(t, a, from, to)
    ensures forall n :: (t, n) in to[|from|..] <==> (t, n) in middle[|from|..] || (t, n) in to[|middle|..]
  {
    SinceBoth(from, middle, to);
    var first, second := middle[|from|..], to[|middle|..];
    forall i, j | 0 <= i < |first| && 0 <= j < |second| ensures first[i] != second[j] {
      assert (first[i].0, first[i].1) in first && (second[j].0, second[j].1) in second;
    }
    DistinctBoth(first, second);
  }

  lemma DistinctBoth<T>(a: seq<T>, b: seq<T>)
    requires Distinct(a) && Distinct(b) && forall i, j :: 0 <= i < |a| && 0 <= j < |b| ==> a[i] != b[j]
    ensures Distinct(a + b)
  {
  }

  lemma LoggedMore(t: TaskId, a: TaskFile, from: SaveLog, b: TaskFile, middle: SaveLog, c: TaskFile, to: SaveLog)
    requires Logged(t, a, from, b, middle) && Logged(t, b, middle, c, to)
    ensures Logged(t, a, from, c, to)
  {
    SavesOnceMore(t, a, from, b, middle, to);
    hide SavesOnce;
  }

  lemma PreservesMore(t: TaskId, a: TaskFile, from: SaveLog, first: set<Name>, b: TaskFile, middle: SaveLog,
                      second: set<Name>, c: TaskFile, to: SaveLog)
    requires Preserves(t, a, from, first, b, middle) && Preserves(t, b, middle, second, c, to)
    ensures Preserves(t, a, from, first + second, c, to)
  {
    LoggedMore(t, a, from, b, middle, c, to);
    hide Logged;
  }

  lemma NotThere(t: TaskId, before: TaskFile, from: SaveLog, dispatched: set<Name>, saved: TaskFile, to: SaveLog,
                 n: Name)
    requires Preserves(t, before, from, dispatched, saved, to)
    ensures n !in saved ==> n !in before
    ensures n in saved ==> n in before || n in dispatched
  {
  }

  /** The attempt got through: every group is saved by now, so those that were not have been saved on the way. */
  ghost predicate SavesAll(t: TaskId, groups: set<Name>, saved: TaskFile, from: SaveLog, to: SaveLog) {
    from <= to && forall n :: n in groups && n !in saved ==> (t, n) in to[|from|..]
  }

  lemma AllLogged(t: TaskId, groups: set<Name>, saved: TaskFile, from: SaveLog, dispatched: set<Name>, left: TaskFile,
                  to: SaveLog)
    requires Preserves(t, saved, from, dispatched, left, to) && forall n :: n in groups ==> n in left
    ensures SavesAll(t, groups, saved, from, to)
  {
    hide SavesOnce;
    LogGrows(t, saved, from, to);
  }

  lemma LogGrows(t: TaskId, saved: TaskFile, from: SaveLog, to: SaveLog)
    requires SavesOnce(t, saved, from, to)
    ensures from <= to
  {
  }

  // ----- the controllers ----------------------------------------------------------------------

  /** The groups of a run, and what can become of their controllers: the state they start from, the state after their
      one step, and what a failing step leaves. */
  datatype Controllers<!S> = Controllers(groups: set<Name>, start: map<Name, S>, stepped: map<Name, S>,
                                         spoilt: Name -> S)

  /** The controller of one group: as it was, or, if the group was dispatched, unused, stepped once or spoilt. */
  ghost predicate StepOnce<S>(cs: Controllers<S>, touched: bool, n: Name, before: map<Name, S>, state: S) {
    if touched
    then n in cs.start && n in cs.stepped && (state == cs.start[n] || state == cs.stepped[n] || state == cs.spoilt(n))
    else n in before && state == before[n]
  }

  ghost predicate StepsOnce<S>(cs: Controllers<S>, touched: set<Name>, before: map<Name, S>, after: map<Name, S>) {
    after.Keys == before.Keys && forall n :: n in after ==> StepOnce(cs, n in touched, n, before, after[n])
  }

  lemma NobodySteps<S>(cs: Controllers<S>, memory: map<Name, S>)
    ensures StepsOnce(cs, {}, memory, memory)
  {
  }

  lemma StepsOnceMore<S>(cs: Controllers<S>, first: set<Name>, second: set<Name>,
                         a: map<Name, S>, b: map<Name, S>, c: map<Name, S>)
    requires StepsOnce(cs, first, a, b) && StepsOnce(cs, second, b, c)
    ensures StepsOnce(cs, first + second, a, c)
  {
    forall n | n in c ensures StepOnce(cs, n in first + second, n, a, c[n]) {
      assert StepOnce(cs, n in second, n, b, c[n]) && StepOnce(cs, n in first, n, a, b[n]);
    }
  }

  /** The controllers of groups that are not saved are unused. */
  ghost predicate Unused<S>(cs: Controllers<S>, saved: set<Name>, memory: map<Name, S>) {
    forall n ::
      n in cs.groups && n !in saved ==> n in cs.start && n in cs.stepped && (n in memory ==> memory[n] == cs.start[n])
  }

  /** A group that might have been dispatched and was not is as unused as before. */
  lemma StepsOnceWider<S>(cs: Controllers<S>, touched: set<Name>, saved: set<Name>, before: map<Name, S>,
                          after: map<Name, S>)
    requires StepsOnce(cs, touched, before, after) && touched <= cs.groups - saved && Unused(cs, saved, before)
    ensures StepsOnce(cs, cs.groups - saved, before, after)
  {
    forall n | n in after ensures StepOnce(cs, n in cs.groups - saved, n, before, after[n]) {
      assert StepOnce(cs, n in touched, n, before, after[n]);
    }
  }

  // ----- all attempts -------------------------------------------------------------------------

  /** What is left of an attempt: the objects of the process, or only the directory. */
  datatype Interruption = Raised | Killed

  /** One attempt: what it found saved, which groups it dispatched, and what it left saved. */
  datatype Attempt = Attempt(saved: TaskFile, dispatched: set<Name>, left: TaskFile)

  /** What an attempt leaves saved is there for the next one, unless the process dies and kept it in memory only. */
  function Inherited(left: TaskFile, interruption: Interruption, onDisk: bool): TaskFile {
    if onDisk || interruption.Raised? then left else map[]
  }

  /** The attempts of one run, from the file the first one found; all but the last were cut short. */
  ghost predicate History(attempts: seq<Attempt>, interruptions: seq<Interruption>, onDisk: bool, saved: TaskFile)
    decreases |attempts|
  {
    && attempts != [] && attempts[0].saved == saved && attempts[0].dispatched !! saved.Keys
    && (|attempts| > 1 ==>
      && interruptions != []
      && saved.Keys <= attempts[0].left.Keys <= saved.Keys + attempts[0].dispatched
      && History(attempts[1..], interruptions[1..], onDisk, Inherited(attempts[0].left, interruptions[0], onDisk)))
  }

  /** The store outlives everything that happens from attempt i to attempt j. */
  predicate Survives(interruptions: seq<Interruption>, onDisk: bool, i: nat, j: nat) {
    onDisk || forall k :: i <= k < j && k < |interruptions| ==> interruptions[k].Raised?
  }

  /** A group that was saved before or during an attempt is in the file of every later one and is
      never dispatched again, as long as the store survives. */
  ghost predicate NothingTwice(attempts: seq<Attempt>, interruptions: seq<Interruption>, onDisk: bool) {
    forall i, j, n ::
      0 <= i < j < |attempts| && Survives(interruptions, onDisk, i, j)
        && (n in attempts[i].saved || n in attempts[i].left)
      ==> n in attempts[j].saved && n !in attempts[j].dispatched
  }

  lemma {:induction false} NeverAgain(attempts: seq<Attempt>, interruptions: seq<Interruption>, onDisk: bool,
                                      saved: TaskFile, i: nat, j: nat, n: Name)
    requires History(attempts, interruptions, onDisk, saved)
    requires i < j < |attempts| && Survives(interruptions, onDisk, i, j)
      && (n in attempts[i].saved || n in attempts[i].left)
    ensures n in attempts[j].saved && n !in attempts[j].dispatched
    decreases j
  {
    var found := Inherited(attempts[0].left, interruptions[0], onDisk);
    var rest, later := attempts[1..], interruptions[1..];
    assert Survives(later, onDisk, if i == 0 then 0 else i - 1, j - 1) by {
      assert forall k :: 0 <= k < |later| ==> later[k] == interruptions[k + 1];
    }
    assert rest[j - 1] == attempts[j] && rest[0].saved == found && rest[0].dispatched !! found.Keys;
    if i > 0 {
      assert rest[i - 1] == attempts[i];
      NeverAgain(rest, later, onDisk, found, i - 1, j - 1, n);
    } else {
      assert found == attempts[0].left && n in found;
      if j > 1 {
        NeverAgain(rest, later, onDisk, found, 0, j - 1, n);
      }
    }
  }

  lemma HistoryRepeatsNothing(attempts: seq<Attempt>, interruptions: seq<Interruption>, onDisk: bool, saved: TaskFile)
    requires History(attempts, interruptions, onDisk, saved)
    ensures NothingTwice(attempts, interruptions, onDisk)
  {
    hide History, Survives;
    forall i, j, n | 0 <= i < j < |attempts| && Survives(interruptions, onDisk, i, j)
      && (n in attempts[i].saved || n in attempts[i].left)
      ensures n in attempts[j].saved && n !in attempts[j].dispatched
    {
      NeverAgain(attempts, interruptions, onDisk, saved, i, j, n);
    }
  }

  lemma Inheriting(left: TaskFile, interruption: Interruption, onDisk: bool)
    requires interruption.Raised?
    ensures Inherited(left, interruption, onDisk) == left
  {
  }

  lemma BeginsWith(attempts: seq<Attempt>, interruptions: seq<Interruption>, onDisk: bool, saved: TaskFile)
    requires History(attempts, interruptions, onDisk, saved)
    ensures attempts != [] && attempts[0].saved == saved
  {
  }

  lemma KeysKept(t: TaskId, saved: TaskFile, from: SaveLog, dispatched: set<Name>, left: TaskFile, to: SaveLog)
    requires Preserves(t, saved, from, dispatched, left, to)
    ensures saved.Keys <= left.Keys
  {
  }

  /** The last attempt dispatched exactly what it found not saved. */
  ghost predicate DispatchesRest(groups: set<Name>, a: Attempt) {
    forall n :: n in groups ==> (n in a.dispatched <==> n !in a.saved)
  }

  /** The store sees all attempts. */
  predicate Durable(interruptions: seq<Interruption>, onDisk: bool) {
    onDisk || forall k :: 0 <= k < |interruptions| ==> interruptions[k].Raised?
  }

  /** Over all attempts on a store that sees them all, no group is saved twice or although it was saved before;
      once a run has completed, every other group was saved, and so was saved exactly once. */
  ghost predicate SavedExactlyOnce(t: TaskId, groups: set<Name>, saved: TaskFile, from: SaveLog, to: SaveLog,
                                   completed: bool) {
    SavesOnce(t, saved, from, to) && (completed ==> SavesAll(t, groups, saved, from, to))
  }

  lemma AttemptLogged(t: TaskId, groups: set<Name>, saved: TaskFile, from: SaveLog, dispatched: set<Name>,
                      left: TaskFile, to: SaveLog, completed: bool)
    requires Preserves(t, saved, from, dispatched, left, to) && (completed ==> forall n :: n in groups ==> n in left)
    ensures SavedExactlyOnce(t, groups, saved, from, to, completed)
  {
    if completed {
      AllLogged(t, groups, saved, from, dispatched, left, to);
    }
    hide SavesOnce;
  }

  lemma AttemptsSaveOnce(t: TaskId, groups: set<Name>, saved: TaskFile, from: SaveLog, dispatched: set<Name>,
                         left: TaskFile, middle: SaveLog, to: SaveLog, completed: bool)
    requires Preserves(t, saved, from, dispatched, left, middle)
      && SavedExactlyOnce(t, groups, left, middle, to, completed)
    ensures SavedExactlyOnce(t, groups, saved, from, to, completed)
  {
    SavesOnceMore(t, saved, from, left, middle, to);
    LogGrows(t, saved, from, to);
    hide SavesOnce;
  }

  /** What all attempts together leave behind: the attempts, the one the last process began with, and the controllers
      of that process. */
  datatype Trail<!S> = Trail(attempts: seq<Attempt>, first: nat, memory: map<Name, S>)

  /** At the end of the last process, the controller of every group has taken at most one step since the process began,
      and that of a group the process found saved none. */
  ghost predicate LastProcess<S>(cs: Controllers<S>, interruptions: seq<Interruption>, before: map<Name, S>,
                                 trail: Trail<S>) {
    && trail.first < |trail.attempts| <= |interruptions| + 1
    && (trail.first > 0 ==> interruptions[trail.first - 1].Killed?)
    && (forall k :: trail.first <= k < |trail.attempts| - 1 ==> interruptions[k].Raised?)
    && StepsOnce(cs, cs.groups - trail.attempts[trail.first].saved.Keys,
                 if trail.first == 0 then before else cs.start, trail.memory)
  }

  /** What holds of all attempts of a run, each of which may have been cut short anywhere, from the file, the log and
      the controllers it began with, to the log it ended with. */
  ghost predicate Recovers<S>(t: TaskId, cs: Controllers<S>, interruptions: seq<Interruption>, onDisk: bool,
                              saved: TaskFile, from: SaveLog, to: SaveLog, before: map<Name, S>, trail: Trail<S>,
                              completed: bool) {
    && History(trail.attempts, interruptions, onDisk, saved)
    && NothingTwice(trail.attempts, interruptions, onDisk)
    && (completed ==> DispatchesRest(cs.groups, trail.attempts[|trail.attempts| - 1]))
    && (Durable(interruptions, onDisk) ==> SavedExactlyOnce(t, cs.groups, saved, from, to, completed))
    && LastProcess(cs, interruptions, before, trail)
  }

  /** What holds of a single attempt, completed or not. */
  ghost predicate Attempted<S>(t: TaskId, cs: Controllers<S>, a: Attempt, from: SaveLog, to: SaveLog,
                               before: map<Name, S>, after: map<Name, S>, completed: bool) {
    && a.dispatched <= cs.groups - a.saved.Keys
    && (completed ==> DispatchesRest(cs.groups, a))
    && (!completed ==> Preserves(t, a.saved, from, a.dispatched, a.left, to))
    && SavedExactlyOnce(t, cs.groups, a.saved, from, to, completed)
    && StepsOnce(cs, a.dispatched, before, after)
    && Unused(cs, a.saved.Keys, before)
  }

  lemma AttemptIs<S>(t: TaskId, cs: Controllers<S>, a: Attempt, from: SaveLog, kept: TaskFile, to: SaveLog,
                     before: map<Name, S>, after: map<Name, S>, completed: bool)
    requires a.dispatched <= cs.groups && a.dispatched !! a.saved.Keys
    requires completed ==> forall n :: n in cs.groups ==> n in kept && (n in a.dispatched <==> n !in a.saved)
    requires Preserves(t, a.saved, from, a.dispatched, kept, to) && (!completed ==> a.left == kept)
    requires StepsOnce(cs, a.dispatched, before, after) && Unused(cs, a.saved.Keys, before)
    ensures Attempted(t, cs, a, from, to, before, after, completed)
  {
    hide Preserves, StepsOnce, Unused, SavedExactlyOnce;
    AttemptLogged(t, cs.groups, a.saved, from, a.dispatched, kept, to, completed);
  }

  lemma OneAttempt<S>(t: TaskId, cs: Controllers<S>, interruptions: seq<Interruption>, onDisk: bool, a: Attempt,
                      from: SaveLog, to: SaveLog, before: map<Name, S>, after: map<Name, S>, completed: bool)
    requires Attempted(t, cs, a, from, to, before, after, completed)
    ensures Recovers(t, cs, interruptions, onDisk, a.saved, from, to, before, Trail([a], 0, after), completed)
  {
    hide Preserves, SavedExactlyOnce, StepsOnce, Unused, DispatchesRest, Survives;
    StepsOnceWider(cs, a.dispatched, a.saved.Keys, before, after);
    assert History([a], interruptions, onDisk, a.saved);
  }

  /** The process goes on after an attempt that raised, or a new one takes over. */
  function Extended<S>(a: Attempt, trail: Trail<S>, interruption: Interruption): Trail<S> {
    Trail([a] + trail.attempts, if trail.first == 0 && interruption.Raised? then 0 else trail.first + 1, trail.memory)
  }

  lemma ExtendedBy<S>(a: Attempt, trail: Trail<S>, interruption: Interruption)
    ensures
      var longer := Extended(a, trail, interruption);
      (longer.first == 0 <==> trail.first == 0 && interruption.Raised?) && longer.memory == trail.memory
  {
  }

  lemma Shifted<T>(first: T, rest: seq<T>)
    ensures ([first] + rest)[1..] == rest && forall k :: 1 <= k <= |rest| ==> ([first] + rest)[k] == rest[k - 1]
  {
  }

  lemma LongerHistory<S>(t: TaskId, cs: Controllers<S>, interruptions: seq<Interruption>, onDisk: bool, a: Attempt,
                         from: SaveLog, middle: SaveLog, before: map<Name, S>, between: map<Name, S>,
                         rest: seq<Attempt>)
    requires Attempted(t, cs, a, from, middle, before, between, false) && interruptions != []
    requires History(rest, interruptions[1..], onDisk, Inherited(a.left, interruptions[0], onDisk))
    ensures History([a] + rest, interruptions, onDisk, a.saved) && NothingTwice([a] + rest, interruptions, onDisk)
  {
    Shifted(a, rest);
    hide Logged, SavedExactlyOnce, StepsOnce, Unused, DispatchesRest, NothingTwice;
    assert History([a] + rest, interruptions, onDisk, a.saved);
    HistoryRepeatsNothing([a] + rest, interruptions, onDisk, a.saved);
  }

  lemma LongerLog<S>(t: TaskId, cs: Controllers<S>, interruptions: seq<Interruption>, onDisk: bool, a: Attempt,
                     from: SaveLog, middle: SaveLog, to: SaveLog, before: map<Name, S>, between: map<Name, S>,
                     found: TaskFile, completed: bool)
    requires Attempted(t, cs, a, from, middle, before, between, false) && interruptions != []
    requires found == Inherited(a.left, interruptions[0], onDisk)
    requires Durable(interruptions[1..], onDisk) ==> SavedExactlyOnce(t, cs.groups, found, middle, to, completed)
    ensures Durable(interruptions, onDisk) ==> SavedExactlyOnce(t, cs.groups, a.saved, from, to, completed)
  {
    hide SavedExactlyOnce, StepsOnce, Unused, Preserves;
    if Durable(interruptions, onDisk) {
      assert Durable(interruptions[1..], onDisk) && found == a.left;
      AttemptsSaveOnce(t, cs.groups, a.saved, from, a.dispatched, a.left, middle, to, completed);
    }
  }

  lemma LongerProcess<S>(t: TaskId, cs: Controllers<S>, interruptions: seq<Interruption>, a: Attempt, from: SaveLog,
                         middle: SaveLog, before: map<Name, S>, between: map<Name, S>, trail: Trail<S>)
    requires Attempted(t, cs, a, from, middle, before, between, false) && interruptions != [] && trail.attempts != []
    requires interruptions[0].Raised? ==> trail.attempts[0].saved == a.left
    requires LastProcess(cs, interruptions[1..], if interruptions[0].Raised? then between else cs.start, trail)
    ensures LastProcess(cs, interruptions, before, Extended(a, trail, interruptions[0]))
  {
    hide SavedExactlyOnce, StepsOnce, Unused, DispatchesRest, Logged;
    if trail.first == 0 && interruptions[0].Raised? {
      StepsOnceMore(cs, a.dispatched, cs.groups - a.left.Keys, before, between, trail.memory);
      StepsOnceWider(cs, a.dispatched + (cs.groups - a.left.Keys), a.saved.Keys, before, trail.memory);
    }
    Shifted(a, trail.attempts);
  }

  /** An attempt that was cut short, and the attempts after it. */
  lemma AnotherAttempt<S>(t: TaskId, cs: Controllers<S>, interruptions: seq<Interruption>, onDisk: bool, a: Attempt,
                          from: SaveLog, middle: SaveLog, next: SaveLog, last: SaveLog, to: SaveLog,
                          before: map<Name, S>, between: map<Name, S>, found: TaskFile, trail: Trail<S>,
                          completed: bool)
    requires Attempted(t, cs, a, from, middle, before, between, false) && interruptions != []
    requires found == Inherited(a.left, interruptions[0], onDisk)
    requires onDisk || interruptions[0].Raised? ==> next == middle && last == to
    requires Recovers(t, cs, interruptions[1..], onDisk, found, next, last,
                      if interruptions[0].Raised? then between else cs.start, trail, completed)
    ensures Recovers(t, cs, interruptions, onDisk, a.saved, from, to, before, Extended(a, trail, interruptions[0]),
                     completed)
  {
    hide Attempted, LastProcess, SavedExactlyOnce, DispatchesRest, NothingTwice;
    BeginsWith(trail.attempts, interruptions[1..], onDisk, found);
    LongerHistory(t, cs, interruptions, onDisk, a, from, middle, before, between, trail.attempts);
    if Durable(interruptions, onDisk) {
      LongerLog(t, cs, interruptions, onDisk, a, from, middle, to, before, between, found, completed);
    }
    LongerProcess(t, cs, interruptions, a, from, middle, before, between, trail);
    Shifted(a, trail.attempts);
    hide History, Durable;
  }
}
