/** Producers and consumers meeting at capsule boundaries: the synchronous, in-memory protocol. */
module SyncManager {
  import opened Wrappers

  datatype Tag = Tag(agent: string, task: string)

  datatype Key = Key(text: string)

  function KeyOf(t: Tag): Key {
    Key(t.agent + "::" + t.task)
  }

  datatype Item = Item(data: string)

  /** The shared state. An event object is a number; it is set when it has been raised. */
  datatype Store = Store(items: map<Key, Item>, events: map<Key, nat>, raised: set<nat>, created: nat)

  const EMPTY := Store(map[], map[], {}, 0)

  // ----- the atomic regions -------------------------------------------------------------------

  function Put(s: Store, k: Key, item: Item): Store {
    s.(items := s.items[k := item], raised := if k in s.events then s.raised + {s.events[k]} else s.raised)
  }

  /** What the first region of a get finds: the item, or the event to wait for. */
  datatype Begun = Found(item: Item) | MustWait(event: nat)

  function Begin(s: Store, k: Key): (Begun, Store) {
    if k in s.items then (Found(s.items[k]), s)
    else if k in s.events then (MustWait(s.events[k]), s)
    else (MustWait(s.created), s.(events := s.events[k := s.created], created := s.created + 1))
  }

  /** The second look after the wait; nothing there is a KeyError. */
  function Reread(s: Store, k: Key): Option<Item> {
    if k in s.items then Some(s.items[k]) else None
  }

  function Stored(s: Store, scope: string): set<Key> {
    set k | k in s.items && scope <= k.text
  }

  /** Items and their events go together; events still waiting for their item stay. */
  function Drop(s: Store, keys: set<Key>): Store {
    s.(items := s.items - keys, events := s.events - keys)
  }

  class BoundarySyncManager {
    var items: map<Key, Item>
    var syncEvents: map<Key, nat>
    var raised: set<nat>
    var created: nat

    function View(): Store
      reads this
    {
      Store(items, syncEvents, raised, created)
    }

    constructor ()
      ensures View() == EMPTY
    {
      items, syncEvents, raised, created := map[], map[], {}, 0;
    }

    method PutSync(tag: Tag, item: Item)
      modifies this
      ensures View() == Put(old(View()), KeyOf(tag), item)
    {
      var key := KeyOf(tag);
      items := items[key := item];
      if key in syncEvents {
        raised := raised + {syncEvents[key]};
      }
    }

    method BeginGet(tag: Tag) returns (r: Begun)
      modifies this
      ensures (r, View()) == Begin(old(View()), KeyOf(tag))
    {
      var key := KeyOf(tag);
      if key in items {
        return Found(items[key]);
      }
      if key !in syncEvents {
        syncEvents := syncEvents[key := created];
        created := created + 1;
      }
      r := MustWait(syncEvents[key]);
    }

    method FinishGet(tag: Tag) returns (r: Option<Item>)
      ensures r == Reread(View(), KeyOf(tag))
    {
      r := if KeyOf(tag) in items then Some(items[KeyOf(tag)]) else None;
    }

    method Evict(scope: string) returns (count: nat)
      modifies this
      ensures View() == Drop(old(View()), Stored(old(View()), scope))
      ensures count == |Stored(old(View()), scope)|
    {
      ghost var s := View();
      var toDelete := set k | k in items && scope <= k.text;
      assert toDelete == Stored(s, scope);
      count := |toDelete|;
      var left := toDelete;
      while left != {}
        invariant left <= toDelete <= s.items.Keys
        invariant View() == Drop(s, toDelete - left)
        decreases left
      {
        var k :| k in left;
        items := items - {k};
        syncEvents := syncEvents - {k};
        left := left - {k};
        assert items == s.items - (toDelete - left);
        assert syncEvents == s.events - (toDelete - left);
      }
      assert toDelete - left == toDelete;
    }

    method EvictTag(tag: Tag) returns (found: bool)
      modifies this
      ensures found == (KeyOf(tag) in old(items))
      ensures View() == if found then Drop(old(View()), {KeyOf(tag)}) else old(View())
    {
      var key := KeyOf(tag);
      found := key in items;
      if found {
        items := items - {key};
        syncEvents := syncEvents - {key};
      }
    }
  }

  // ----- interleavings ------------------------------------------------------------------------

  /** Where a thread is inside a get. */
  datatype Getter = Waiting(key: Key, event: nat) | Woken(key: Key)

  datatype Outcome =
    | Got(thread: nat, key: Key, item: Item)
    | TimedOut(thread: nat, key: Key)
    | Missing(thread: nat, key: Key)

  /** The shared state, the threads inside a get, all puts so far and the gets that have ended. */
  datatype World = World(s: Store, getters: map<nat, Getter>, puts: set<(Key, Item)>, outcomes: seq<Outcome>)

  const START := World(EMPTY, map[], {}, [])

  datatype Step =
    | PutStep(tag: Tag, item: Item)
    | BeginStep(thread: nat, tag: Tag)
    | WakeStep(thread: nat)
    | ExpireStep(thread: nat)
    | FinishStep(thread: nat)
    | EvictStep(scope: string)
    | EvictTagStep(victim: Tag)

  /** One atomic step of the system; a step that is not enabled changes nothing. */
  function Next(w: World, step: Step): World {
    match step
    case PutStep(tag, item) => w.(s := Put(w.s, KeyOf(tag), item), puts := w.puts + {(KeyOf(tag), item)})
    case BeginStep(t, tag) =>
      if t in w.getters then w else
        var (begun, s) := Begin(w.s, KeyOf(tag));
        if begun.Found?
        then w.(outcomes := w.outcomes + [Got(t, KeyOf(tag), begun.item)])
        else w.(s := s, getters := w.getters[t := Waiting(KeyOf(tag), begun.event)])
    case WakeStep(t) =>
      if t in w.getters && w.getters[t].Waiting? && w.getters[t].event in w.s.raised
      then w.(getters := w.getters[t := Woken(w.getters[t].key)])
      else w
    case ExpireStep(t) =>
      if t in w.getters && w.getters[t].Waiting? && w.getters[t].event !in w.s.raised
      then w.(getters := w.getters - {t}, outcomes := w.outcomes + [TimedOut(t, w.getters[t].key)])
      else w
    case FinishStep(t) =>
      if t in w.getters && w.getters[t].Woken? then
        var k := w.getters[t].key;
        var read := Reread(w.s, k);
        w.(getters := w.getters - {t},
           outcomes := w.outcomes + [if read.Some? then Got(t, k, read.value) else Missing(t, k)])
      else w
    case EvictStep(scope) => w.(s := Drop(w.s, Stored(w.s, scope)))
    case EvictTagStep(tag) => if KeyOf(tag) in w.s.items then w.(s := Drop(w.s, {KeyOf(tag)})) else w
  }

  function Run(w: World, steps: seq<Step>): World
    decreases |steps|
  {
    if steps == [] then w else Next(Run(w, steps[..|steps| - 1]), steps[|steps| - 1])
  }

  // ----- the invariant ------------------------------------------------------------------------

  /** The event registered for a key is set exactly when the key has its item. */
  ghost predicate EventTells(s: Store, k: Key) {
    k in s.events ==> s.events[k] < s.created && (s.events[k] in s.raised <==> k in s.items)
  }

  ghost predicate OneKeyPerEvent(s: Store, j: Key, k: Key) {
    j in s.events && k in s.events && s.events[j] == s.events[k] ==> j == k
  }

  /** An event that is not set yet has not been dropped from the manager. */
  ghost predicate StillRegistered(w: World, t: nat) {
    t in w.getters && w.getters[t].Waiting? ==>
      var e := w.getters[t].event;
      e < w.s.created && (e !in w.s.raised ==> w.getters[t].key in w.s.events && w.s.events[w.getters[t].key] == e)
  }

  ghost predicate WasPut(w: World, k: Key) {
    k in w.s.items ==> (k, w.s.items[k]) in w.puts
  }

  ghost predicate OutcomeHonest(w: World, o: Outcome) {
    o.Got? ==> (o.key, o.item) in w.puts
  }

  ghost predicate Honest(w: World) {
    && (forall k :: WasPut(w, k))
    && (forall i :: 0 <= i < |w.outcomes| ==> OutcomeHonest(w, w.outcomes[i]))
  }

  ghost predicate Consistent(w: World) {
    && (forall k :: EventTells(w.s, k))
    && (forall j, k :: OneKeyPerEvent(w.s, j, k))
    && (forall e :: e in w.s.raised ==> e < w.s.created)
    && (forall t :: StillRegistered(w, t))
  }

  lemma PutConsistent(w: World, tag: Tag, item: Item)
    requires Consistent(w)
    ensures Consistent(Next(w, PutStep(tag, item)))
  {
    var k := KeyOf(tag);
    var d := Next(w, PutStep(tag, item));
    assert EventTells(w.s, k);
    forall j ensures EventTells(d.s, j) {
      assert EventTells(w.s, j) && OneKeyPerEvent(w.s, j, k);
    }
    forall i, j ensures OneKeyPerEvent(d.s, i, j) {
      assert OneKeyPerEvent(w.s, i, j);
    }
    forall t ensures StillRegistered(d, t) {
      assert StillRegistered(w, t);
    }
  }

  lemma BeginConsistent(w: World, thread: nat, tag: Tag)
    requires Consistent(w)
    ensures Consistent(Next(w, BeginStep(thread, tag)))
  {
    var d := Next(w, BeginStep(thread, tag));
    forall j ensures EventTells(d.s, j) {
      assert EventTells(w.s, j);
    }
    forall i, j ensures OneKeyPerEvent(d.s, i, j) {
      assert OneKeyPerEvent(w.s, i, j) && EventTells(w.s, i) && EventTells(w.s, j);
    }
    forall t ensures StillRegistered(d, t) {
      assert StillRegistered(w, t) && EventTells(w.s, KeyOf(tag));
    }
  }

  lemma DropConsistent(w: World, keys: set<Key>)
    requires Consistent(w) && keys <= w.s.items.Keys
    ensures Consistent(w.(s := Drop(w.s, keys)))
  {
    var d := w.(s := Drop(w.s, keys));
    forall j ensures EventTells(d.s, j) {
      assert EventTells(w.s, j);
    }
    forall i, j ensures OneKeyPerEvent(d.s, i, j) {
      assert OneKeyPerEvent(w.s, i, j);
    }
    forall t ensures StillRegistered(d, t) {
      assert StillRegistered(w, t);
      if t in w.getters {
        assert EventTells(w.s, w.getters[t].key);
      }
    }
  }

  lemma OwnStepConsistent(w: World, step: Step)
    requires Consistent(w) && (step.WakeStep? || step.ExpireStep? || step.FinishStep?)
    ensures Consistent(Next(w, step))
  {
    var d := Next(w, step);
    assert d.s == w.s;
    forall t ensures StillRegistered(d, t) {
      assert StillRegistered(w, t);
    }
  }

  lemma StepConsistent(w: World, step: Step)
    requires Consistent(w)
    ensures Consistent(Next(w, step))
  {
    hide Consistent;
    match step
    case PutStep(tag, item) => PutConsistent(w, tag, item);
    case BeginStep(t, tag) => BeginConsistent(w, t, tag);
    case EvictStep(scope) => DropConsistent(w, Stored(w.s, scope));
    case EvictTagStep(tag) => DropConsistent(w, {KeyOf(tag)} * w.s.items.Keys);
      assert KeyOf(tag) in w.s.items ==> {KeyOf(tag)} * w.s.items.Keys == {KeyOf(tag)};
    case _ => OwnStepConsistent(w, step);
  }

  lemma {:induction false} RunConsistent(w: World, steps: seq<Step>)
    requires Consistent(w)
    ensures Consistent(Run(w, steps))
    decreases |steps|
  {
    hide Consistent, Next;
    if steps != [] {
      RunConsistent(w, steps[..|steps| - 1]);
      StepConsistent(Run(w, steps[..|steps| - 1]), steps[|steps| - 1]);
    }
  }

  // ----- no lost wakeup -----------------------------------------------------------------------

  predicate Puts(step: Step, k: Key) {
    step.PutStep? && KeyOf(step.tag) == k
  }

  /** The thread is left alone while it waits. */
  predicate Leaves(step: Step, t: nat) {
    step != WakeStep(t) && step != ExpireStep(t)
  }

  ghost predicate Blocked(w: World, t: nat, k: Key, e: nat) {
    t in w.getters && w.getters[t] == Waiting(k, e)
  }

  ghost predicate PutWithin(steps: seq<Step>, k: Key) {
    exists i :: 0 <= i < |steps| && Puts(steps[i], k)
  }

  lemma StepReleases(w: World, step: Step, t: nat, k: Key, e: nat)
    requires Consistent(w) && Blocked(w, t, k, e) && Leaves(step, t)
    ensures Blocked(Next(w, step), t, k, e)
    ensures e in Next(w, step).s.raised <==> e in w.s.raised || Puts(step, k)
  {
    assert StillRegistered(w, t);
    if step.PutStep? {
      assert OneKeyPerEvent(w.s, KeyOf(step.tag), k) && EventTells(w.s, k);
    }
  }

  lemma PutWithinLast(steps: seq<Step>, k: Key)
    requires steps != []
    ensures PutWithin(steps, k) <==> PutWithin(steps[..|steps| - 1], k) || Puts(steps[|steps| - 1], k)
  {
    var n := |steps| - 1;
    if PutWithin(steps[..n], k) {
      var i :| 0 <= i < n && Puts(steps[..n][i], k);
      assert Puts(steps[i], k);
    }
    if PutWithin(steps, k) {
      var i :| 0 <= i < |steps| && Puts(steps[i], k);
      assert i < n ==> Puts(steps[..n][i], k);
    }
  }

  /** Whatever all the other threads do, a waiting getter is released if and only if its key is put: no wakeup is
      lost to evictions or other gets, and none is spurious. */
  lemma {:induction false} NoLostWakeup(w: World, steps: seq<Step>, t: nat, k: Key, e: nat)
    requires Consistent(w) && Blocked(w, t, k, e) && e !in w.s.raised
    requires forall i :: 0 <= i < |steps| ==> Leaves(steps[i], t)
    ensures Blocked(Run(w, steps), t, k, e)
    ensures e in Run(w, steps).s.raised <==> PutWithin(steps, k)
    decreases |steps|
  {
    if steps != [] {
      var before := steps[..|steps| - 1];
      hide Consistent, Next, PutWithin, Blocked;
      assert forall i :: 0 <= i < |before| ==> Leaves(before[i], t);
      NoLostWakeup(w, before, t, k, e);
      RunConsistent(w, before);
      StepReleases(Run(w, before), steps[|steps| - 1], t, k, e);
      PutWithinLast(steps, k);
    }
  }

  predicate Hits(step: Step, k: Key) {
    || (step.EvictStep? && step.scope <= k.text)
    || (step.EvictTagStep? && KeyOf(step.victim) == k)
  }

  /** Whether a key is stored after some steps: the last put or eviction that concerns it decides. */
  function Kept(steps: seq<Step>, k: Key, stored: bool): bool
    decreases |steps|
  {
    if steps == [] then stored else
      var last := steps[|steps| - 1];
      if Puts(last, k) then true
      else if Hits(last, k) then false
      else Kept(steps[..|steps| - 1], k, stored)
  }

  /** What a key holds after some steps: the last item put under it, unless it was evicted since. */
  function Content(steps: seq<Step>, k: Key, before: Option<Item>): Option<Item>
    decreases |steps|
  {
    if steps == [] then before else
      var last := steps[|steps| - 1];
      if Puts(last, k) then Some(last.item)
      else if Hits(last, k) then None
      else Content(steps[..|steps| - 1], k, before)
  }

  lemma {:induction false} LastPutIsStored(w: World, steps: seq<Step>, k: Key)
    ensures Get(Run(w, steps).s.items, k) == Content(steps, k, Get(w.s.items, k))
    decreases |steps|
  {
    if steps != [] {
      LastPutIsStored(w, steps[..|steps| - 1], k);
      NextContent(Run(w, steps[..|steps| - 1]), steps[|steps| - 1], k);
      hide Next;
    }
  }

  lemma NextContent(w: World, step: Step, k: Key)
    ensures Get(Next(w, step).s.items, k) ==
      if Puts(step, k) then Some(step.item) else if Hits(step, k) then None else Get(w.s.items, k)
  {
  }

  /** A get that need not wait returns the item put last, and one that has to wait leaves the store to others. */
  lemma GetFindsLastPut(w: World, steps: seq<Step>, t: nat, tag: Tag)
    requires t !in Run(w, steps).getters
    ensures
      var before, after := Run(w, steps), Next(Run(w, steps), BeginStep(t, tag));
      var held := Content(steps, KeyOf(tag), Get(w.s.items, KeyOf(tag)));
      && after.s.items == before.s.items
      && (held.Some? ==> after == before.(outcomes := before.outcomes + [Got(t, KeyOf(tag), held.value)]))
      && (held.None? ==> t in after.getters && after.getters[t].Waiting? && after.getters[t].key == KeyOf(tag)
                         && after.outcomes == before.outcomes)
  {
    LastPutIsStored(w, steps, KeyOf(tag));
    hide Run, Content;
  }

  /** A getter that was released returns the item put last of all, at its second look. */
  lemma ReleasedGetsLastPut(w: World, t: nat, k: Key, e: nat, others: seq<Step>)
    requires Blocked(w, t, k, e) && e in w.s.raised
    requires forall i :: 0 <= i < |others| ==> Leaves(others[i], t) && others[i] != FinishStep(t)
    ensures
      var later := Run(Next(w, WakeStep(t)), others);
      var held := Content(others, k, Get(w.s.items, k));
      Next(later, FinishStep(t)).outcomes ==
        later.outcomes + [if held.Some? then Got(t, k, held.value) else Missing(t, k)]
  {
    StaysWoken(Next(w, WakeStep(t)), t, k, others);
    LastPutIsStored(Next(w, WakeStep(t)), others, k);
    hide Run, Content;
  }

  /** The gets begun by threads that were not inside one. */
  function Begins(w: World, steps: seq<Step>): nat
    decreases |steps|
  {
    if steps == [] then 0 else
      var before, last := steps[..|steps| - 1], steps[|steps| - 1];
      Begins(w, before) + if last.BeginStep? && last.thread !in Run(w, before).getters then 1 else 0
  }

  lemma OneGetter(m: map<nat, Getter>, t: nat, g: Getter)
    ensures |m[t := g]| == |m| + if t in m then 0 else 1
    ensures |m - {t}| == |m| - if t in m then 1 else 0
  {
    assert |m[t := g]| == |m[t := g].Keys| && |m - {t}| == |(m - {t}).Keys| && |m| == |m.Keys|;
    assert m[t := g].Keys == m.Keys + {t} && (m - {t}).Keys == m.Keys - {t};
  }

  lemma BeginOutcome(w: World, t: nat, tag: Tag)
    ensures
      var d := Next(w, BeginStep(t, tag));
      && |d.outcomes| + |d.getters| == |w.outcomes| + |w.getters| + (if t !in w.getters then 1 else 0)
      && w.outcomes <= d.outcomes
  {
    hide Begin;
    var (begun, _) := Begin(w.s, KeyOf(tag));
    if begun.MustWait? {
      OneGetter(w.getters, t, Waiting(KeyOf(tag), begun.event));
    }
  }

  lemma EndOutcome(w: World, t: nat)
    ensures
      var d, e := Next(w, ExpireStep(t)), Next(w, FinishStep(t));
      && |d.outcomes| + |d.getters| == |w.outcomes| + |w.getters| == |e.outcomes| + |e.getters|
      && w.outcomes <= d.outcomes && w.outcomes <= e.outcomes
  {
    hide Reread;
    OneGetter(w.getters, t, Woken(Key("")));
  }

  lemma WakeOutcome(w: World, t: nat)
    ensures Next(w, WakeStep(t)).outcomes == w.outcomes && |Next(w, WakeStep(t)).getters| == |w.getters|
  {
    if t in w.getters && w.getters[t].Waiting? {
      OneGetter(w.getters, t, Woken(w.getters[t].key));
    }
  }

  lemma StoreOutcome(w: World, step: Step)
    requires step.PutStep? || step.EvictStep? || step.EvictTagStep?
    ensures Next(w, step).outcomes == w.outcomes && Next(w, step).getters == w.getters
  {
    hide Put, Drop, Stored;
  }

  lemma OneOutcome(w: World, step: Step)
    ensures |Next(w, step).outcomes| + |Next(w, step).getters| ==
      |w.outcomes| + |w.getters| + if step.BeginStep? && step.thread !in w.getters then 1 else 0
    ensures w.outcomes <= Next(w, step).outcomes
  {
    hide *;
    match step
    case BeginStep(t, tag) => BeginOutcome(w, t, tag);
    case WakeStep(t) => WakeOutcome(w, t);
    case ExpireStep(t) => EndOutcome(w, t);
    case FinishStep(t) => EndOutcome(w, t);
    case _ => StoreOutcome(w, step);
  }

  /** No get is lost and none ends twice: every get that was begun is still waiting or has exactly one outcome. */
  lemma {:induction false} EveryGetEndsOnce(w: World, steps: seq<Step>)
    ensures |Run(w, steps).outcomes| + |Run(w, steps).getters| == |w.outcomes| + |w.getters| + Begins(w, steps)
    ensures w.outcomes <= Run(w, steps).outcomes
    decreases |steps|
  {
    if steps != [] {
      hide Next;
      EveryGetEndsOnce(w, steps[..|steps| - 1]);
      OneOutcome(Run(w, steps[..|steps| - 1]), steps[|steps| - 1]);
    }
  }

  /** A getter gives up exactly if its event has not been set, and then it says so. */
  lemma GivingUp(w: World, t: nat, k: Key, e: nat)
    requires Blocked(w, t, k, e)
    ensures
      var d := Next(w, ExpireStep(t));
      && d.s == w.s
      && (e in w.s.raised ==> d == w)
      && (e !in w.s.raised ==> t !in d.getters && d.outcomes == w.outcomes + [TimedOut(t, k)])
  {
  }

  lemma {:induction false} StoredIsKept(w: World, steps: seq<Step>, k: Key)
    ensures k in Run(w, steps).s.items <==> Kept(steps, k, k in w.s.items)
    decreases |steps|
  {
    if steps != [] {
      StoredIsKept(w, steps[..|steps| - 1], k);
    }
  }

  /** A released getter can always go on: it wakes up and ends with the item, or with a KeyError exactly if the
      last step that concerned its key in the meantime was an eviction. */
  lemma {:induction false} ReleasedGetterEnds(w: World, t: nat, k: Key, e: nat, others: seq<Step>)
    requires Blocked(w, t, k, e) && e in w.s.raised
    requires forall i :: 0 <= i < |others| ==> Leaves(others[i], t) && others[i] != FinishStep(t)
    ensures
      var later := Run(Next(w, WakeStep(t)), others);
      var end := Next(later, FinishStep(t));
      && t !in end.getters
      && (Kept(others, k, k in w.s.items) ==>
            k in later.s.items && end.outcomes == later.outcomes + [Got(t, k, later.s.items[k])])
      && (!Kept(others, k, k in w.s.items) ==> end.outcomes == later.outcomes + [Missing(t, k)])
  {
    StaysWoken(Next(w, WakeStep(t)), t, k, others);
    StoredIsKept(Next(w, WakeStep(t)), others, k);
    hide Run, Kept;
  }

  lemma {:induction false} StaysWoken(w: World, t: nat, k: Key, others: seq<Step>)
    requires t in w.getters && w.getters[t] == Woken(k)
    requires forall i :: 0 <= i < |others| ==> Leaves(others[i], t) && others[i] != FinishStep(t)
    ensures t in Run(w, others).getters && Run(w, others).getters[t] == Woken(k)
    decreases |others|
  {
    if others != [] {
      StaysWoken(w, t, k, others[..|others| - 1]);
    }
  }

  /** An item evicted between the wakeup and the second look is a KeyError for the getter. */
  lemma EvictedTooEarly(tag: Tag, item: Item)
    ensures
      var steps := [BeginStep(0, tag), PutStep(tag, item), WakeStep(0), EvictTagStep(tag), FinishStep(0)];
      Run(START, steps).outcomes == [Missing(0, KeyOf(tag))]
  {
    var first := [BeginStep(0, tag)];
    assert first[..0] == [];
    OneMore(START, [], BeginStep(0, tag));
    OneMore(START, first, PutStep(tag, item));
    OneMore(START, first + [PutStep(tag, item)], WakeStep(0));
    OneMore(START, first + [PutStep(tag, item)] + [WakeStep(0)], EvictTagStep(tag));
    OneMore(START, first + [PutStep(tag, item)] + [WakeStep(0)] + [EvictTagStep(tag)], FinishStep(0));
    assert Run(START, []) == START;
    hide Run;
    assert [] + first == first;
    assert first + [PutStep(tag, item)] + [WakeStep(0)] + [EvictTagStep(tag)] + [FinishStep(0)]
        == [BeginStep(0, tag), PutStep(tag, item), WakeStep(0), EvictTagStep(tag), FinishStep(0)];
  }

  lemma OneMore(w: World, steps: seq<Step>, step: Step)
    ensures Run(w, steps + [step]) == Next(Run(w, steps), step)
  {
    assert (steps + [step])[..|steps|] == steps;
  }

  // ----- without evictions --------------------------------------------------------------------

  predicate Evicts(step: Step) {
    step.EvictStep? || step.EvictTagStep?
  }

  /** A getter on its way out will find its item. */
  ghost predicate WillFind(w: World, t: nat) {
    t in w.getters && (w.getters[t].Woken? || w.getters[t].event in w.s.raised) ==> w.getters[t].key in w.s.items
  }

  ghost predicate NothingMissing(w: World) {
    (forall t :: WillFind(w, t)) && forall i :: 0 <= i < |w.outcomes| ==> !w.outcomes[i].Missing?
  }

  lemma StepFinds(w: World, step: Step)
    requires Consistent(w) && NothingMissing(w) && !Evicts(step)
    ensures NothingMissing(Next(w, step))
  {
    var d := Next(w, step);
    forall t ensures WillFind(d, t) {
      assert WillFind(w, t) && StillRegistered(w, t);
      if step.PutStep? && t in w.getters {
        assert OneKeyPerEvent(w.s, KeyOf(step.tag), w.getters[t].key);
      }
      if step.BeginStep? {
        assert EventTells(w.s, KeyOf(step.tag));
      }
    }
    if step.FinishStep? {
      assert WillFind(w, step.thread);
    }
  }

  /** As long as nothing is evicted, no get ends in a KeyError. */
  lemma {:induction false} NoKeyErrorWithoutEviction(steps: seq<Step>)
    requires forall i :: 0 <= i < |steps| ==> !Evicts(steps[i])
    ensures NothingMissing(Run(START, steps))
    decreases |steps|
  {
    if steps != [] {
      var before := steps[..|steps| - 1];
      NoKeyErrorWithoutEviction(before);
      StartConsistent();
      RunConsistent(START, before);
      hide Consistent, NothingMissing, Next;
      StepFinds(Run(START, before), steps[|steps| - 1]);
    }
  }

  lemma StartConsistent()
    ensures Consistent(START) && Honest(START)
  {
  }

  // ----- what a get returns -------------------------------------------------------------------

  lemma StepHonest(w: World, step: Step)
    requires Honest(w)
    ensures Honest(Next(w, step))
  {
    var d := Next(w, step);
    forall k ensures WasPut(d, k) {
      assert WasPut(w, k);
    }
    if step.BeginStep? {
      assert WasPut(w, KeyOf(step.tag));
    }
    if step.FinishStep? && step.thread in w.getters {
      assert WasPut(w, w.getters[step.thread].key);
    }
    forall i | 0 <= i < |d.outcomes| ensures OutcomeHonest(d, d.outcomes[i]) {
      assert i < |w.outcomes| ==> OutcomeHonest(w, w.outcomes[i]);
    }
  }

  /** Every item that a get returns has been put under the same key before. */
  lemma {:induction false} OnlyPutItemsAreReturned(steps: seq<Step>)
    ensures Honest(Run(START, steps)) && Consistent(Run(START, steps))
    decreases |steps|
  {
    StartConsistent();
    RunConsistent(START, steps);
    hide Consistent, Honest, Next;
    if steps != [] {
      OnlyPutItemsAreReturned(steps[..|steps| - 1]);
      StepHonest(Run(START, steps[..|steps| - 1]), steps[|steps| - 1]);
    }
  }

  // ----- tags and keys ------------------------------------------------------------------------

  predicate Plain(agent: string) {
    ':' !in agent
  }

  lemma FirstColon(a: Tag, b: Tag)
    requires Plain(b.agent) && KeyOf(a) == KeyOf(b)
    ensures |a.agent| >= |b.agent|
  {
    var s := KeyOf(a).text;
    assert s[|a.agent|] == ':';
    assert forall i :: 0 <= i < |b.agent| ==> s[i] == b.agent[i];
  }

  /** Tags of agents without a colon in their names never share a key. */
  lemma {:induction false} PlainTagsHaveOwnKeys(a: Tag, b: Tag)
    requires Plain(a.agent) && Plain(b.agent)
    ensures KeyOf(a) == KeyOf(b) <==> a == b
  {
    if KeyOf(a) == KeyOf(b) {
      var s := KeyOf(a).text;
      assert s[|a.agent|] == ':' && s[|b.agent|] == ':';
      FirstColon(a, b);
      FirstColon(b, a);
      assert a.agent == s[..|a.agent|] && b.agent == s[..|b.agent|];
      assert a.task == s[|a.agent| + 2..] && b.task == s[|b.agent| + 2..];
    }
  }

  /** Exactly when two agents have tags that share a key: one name, with the separator, begins the other. */
  lemma AgentsShareKeys(a: string, b: string)
    ensures (exists t, u :: KeyOf(Tag(a, t)) == KeyOf(Tag(b, u))) <==> a + "::" <= b + "::" || b + "::" <= a + "::"
  {
    var x, y := a + "::", b + "::";
    if t, u :| KeyOf(Tag(a, t)) == KeyOf(Tag(b, u)) {
      assert x + t == y + u;
      if |x| <= |y| {
        assert y == (x + t)[..|y|] && x == (x + t)[..|x|] == y[..|x|];
      } else {
        assert x == (y + u)[..|x|] && y == (y + u)[..|y|] == x[..|y|];
      }
    }
    if x <= y {
      assert y == x + y[|x|..];
      assert KeyOf(Tag(a, y[|x|..])) == KeyOf(Tag(b, ""));
    } else if y <= x {
      assert x == y + x[|y|..];
      assert KeyOf(Tag(a, "")) == KeyOf(Tag(b, x[|y|..]));
    }
  }

  /** With a colon they can. */
  lemma ColonsClash()
    ensures Tag("a", ":b") != Tag("a:", "b") && KeyOf(Tag("a", ":b")) == KeyOf(Tag("a:", "b"))
  {
    assert "a" + "::" + ":b" == "a:" + "::" + "b";
  }
}
