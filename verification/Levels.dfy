/** Topological levels of the groups: what may run at the same time, and after what. */
module Levels {
  import opened Wrappers
  import opened Graphs
  import opened Kahn

  type GroupDeps = map<Name, seq<Name>>

  datatype LevelError =
    | UnknownGroup(name: Name, dep: Name)
    | UnresolvedGroups(names: set<Name>)
    /** A name declared twice is due for removal a second time. */
    | MissingKey(name: Name)

  ghost function GroupGraph(deps: GroupDeps): Graph {
    map n | n in deps :: Elems(deps[n])
  }

  /** The names of a list that belong to a set, in the order of the list. */
  function Select(order: seq<Name>, chosen: set<Name>): (some: seq<Name>)
    ensures forall n :: n in some <==> n in order && n in chosen
    ensures Distinct(order) ==> Distinct(some)
  {
    if order == [] then [] else
      var front, last := order[..|order| - 1], order[|order| - 1];
      assert order == front + [last];
      Select(front, chosen) + if last in chosen then [last] else []
  }

  /** Level `l` holds the groups whose longest dependency chain has `l` links, as declared. */
  ghost predicate AreLevels(levels: seq<seq<Name>>, order: seq<Name>, g: Graph) {
    && (forall l :: 0 <= l < |levels| ==> levels[l] != [] && levels[l] == Select(order, Elems(levels[l])))
    && (forall l, n :: 0 <= l < |levels| ==> (n in levels[l] <==> n in g && LongestChain(g, n, l)))
    && (forall n :: n in g ==> exists l :: 0 <= l < |levels| && n in levels[l])
  }

  lemma DeeperThanDependency(g: Graph, n: Name, d: Name, k: nat, j: nat)
    requires n in g && d in g[n] && LongestChain(g, n, k) && LongestChain(g, d, j)
    ensures j < k
  {
    var p :| Path(g, p) && p[0] == d && |p| == j + 1;
    assert Path(g, [n] + p);
  }

  /** Every dependency of a group lies in an earlier level than the group. */
  lemma DependencyIsEarlier(levels: seq<seq<Name>>, order: seq<Name>, g: Graph, l: nat, n: Name, d: Name)
    returns (j: nat)
    requires AreLevels(levels, order, g) && Closed(g)
    requires l < |levels| && n in levels[l] && n in g && d in g[n]
    ensures j < l && d in levels[j]
  {
    assert g[n] <= g.Keys;
    j :| 0 <= j < |levels| && d in levels[j];
    DeeperThanDependency(g, n, d, l, j);
  }

  /** Where a level lists two groups, it lists them as they were declared. */
  lemma LevelsKeepOrder(levels: seq<seq<Name>>, order: seq<Name>, g: Graph, l: nat, i: nat, j: nat)
    returns (a: nat, b: nat)
    requires AreLevels(levels, order, g) && Distinct(order) && l < |levels| && i < j < |levels[l]|
    ensures a < b < |order| && order[a] == levels[l][i] && order[b] == levels[l][j]
  {
    a, b := SelectKeepsOrder(order, Elems(levels[l]), i, j);
  }

  lemma {:induction false} SelectKeepsOrder(order: seq<Name>, chosen: set<Name>, i: nat, j: nat)
    returns (a: nat, b: nat)
    requires i < j < |Select(order, chosen)|
    ensures a < b < |order| && order[a] == Select(order, chosen)[i] && order[b] == Select(order, chosen)[j]
  {
    var front, last := order[..|order| - 1], order[|order| - 1];
    assert order == front + [last];
    var some := Select(front, chosen);
    if j < |some| {
      a, b := SelectKeepsOrder(front, chosen, i, j);
    } else {
      assert some[i] in front;
      a :| 0 <= a < |front| && front[a] == some[i];
      b := |front|;
    }
  }

  lemma {:induction false} SelectKeepsRepeats(order: seq<Name>, chosen: set<Name>, i: nat, j: nat)
    requires i < j < |order| && order[i] == order[j] && order[i] in chosen
    ensures !Distinct(Select(order, chosen))
  {
    var front, last := order[..|order| - 1], order[|order| - 1];
    assert order == front + [last];
    var some := Select(front, chosen);
    if j < |order| - 1 {
      SelectKeepsRepeats(front, chosen, i, j);
      var a, b :| 0 <= a < b < |some| && some[a] == some[b];
      assert Select(order, chosen)[a] == Select(order, chosen)[b];
    } else {
      assert front[i] in some;
      var a :| 0 <= a < |some| && some[a] == last;
      assert Select(order, chosen)[a] == Select(order, chosen)[|some|];
    }
  }

  /** The ranks given so far. `done` holds the groups of all `k` levels, `older` those of all but the last. */
  ghost predicate Ranked(g: Graph, k: nat, done: set<Name>, older: set<Name>, rank: map<Name, nat>) {
    && older <= done <= g.Keys && rank.Keys == done
    && (forall n :: n in done ==> g[n] <= done && rank[n] < k)
    && (forall n, d :: n in done && d in g[n] ==> d in rank && rank[d] < rank[n])
    && (forall n {:trigger Above(g, rank, n)} :: n in done && rank[n] > 0 ==> Above(g, rank, n))
    && (forall n :: n in done && n !in older ==> rank[n] == k - 1)
    && (k > 0 ==> forall n {:trigger Satisfied(g, older, n)} :: n in g && n !in done ==> !Satisfied(g, older, n))
  }

  ghost predicate Satisfied(g: Graph, done: set<Name>, n: Name) {
    n in g && g[n] <= done
  }

  ghost predicate IsLevel(order: seq<Name>, level: seq<Name>, rank: map<Name, nat>, l: nat) {
    && level != [] && Distinct(level) && level == Select(order, Elems(level))
    && forall n :: n in level <==> n in rank && rank[n] == l
  }

  /** The levels list the ranked groups by rank. */
  ghost predicate Listed(order: seq<Name>, levels: seq<seq<Name>>, rank: map<Name, nat>) {
    forall l :: 0 <= l < |levels| ==> IsLevel(order, levels[l], rank, l)
  }

  ghost predicate Emitted(g: Graph, order: seq<Name>, levels: seq<seq<Name>>, done: set<Name>, older: set<Name>,
                          rank: map<Name, nat>) {
    Ranked(g, |levels|, done, older, rank) && Listed(order, levels, rank)
  }

  ghost predicate Waiting(g: Graph, done: set<Name>, remaining: map<Name, set<Name>>) {
    && remaining.Keys == g.Keys - done
    && forall n :: n in remaining ==> remaining[n] == g[n] - done
  }

  function Unblocked(remaining: map<Name, set<Name>>): set<Name> {
    set n | n in remaining && remaining[n] == {}
  }

  lemma SubsetByDifference<T>(a: set<T>, b: set<T>)
    ensures a <= b <==> a - b == {}
  {
    forall x | x in a && a - b == {} ensures x in b {
      assert x !in a - b;
    }
  }

  lemma UnblockedAreSatisfied(g: Graph, done: set<Name>, remaining: map<Name, set<Name>>, n: Name)
    requires Waiting(g, done, remaining)
    ensures n in Unblocked(remaining) <==> n in g && n !in done && Satisfied(g, done, n)
  {
    if n in g && n !in done {
      assert n in remaining && remaining[n] == g[n] - done;
      SubsetByDifference(g[n], done);
    }
  }

  lemma RankNext(g: Graph, k: nat, done: set<Name>, older: set<Name>, rank: map<Name, nat>, n: Name)
    requires Ranked(g, k, done, older, rank) && k > 0
    requires n in g && n !in done && Satisfied(g, done, n)
    ensures exists d :: d in g[n] && d in done && rank[d] == k - 1
  {
    assert !Satisfied(g, older, n);
    var d :| d in g[n] && d !in older;
  }

  lemma RankLevel(g: Graph, k: nat, done: set<Name>, older: set<Name>, rank: map<Name, nat>, ready: set<Name>,
                  rank': map<Name, nat>)
    requires Ranked(g, k, done, older, rank)
    requires forall n {:trigger Satisfied(g, done, n)} :: n in ready <==> n in g && n !in done && Satisfied(g, done, n)
    requires ready <= g.Keys && rank' == rank + map n | n in ready :: k
    ensures Ranked(g, k + 1, done + ready, done, rank')
  {
    forall n | n in ready ensures g[n] <= done && n !in done {
      assert Satisfied(g, done, n);
    }
    forall n | n in rank' && rank'[n] > 0 ensures Above(g, rank', n) {
      if n in ready {
        assert Satisfied(g, done, n);
        RankNext(g, k, done, older, rank, n);
      } else {
        assert Above(g, rank, n);
      }
    }
  }

  lemma ListLevel(order: seq<Name>, levels: seq<seq<Name>>, rank: map<Name, nat>, ready: seq<Name>,
                  rank': map<Name, nat>)
    requires Listed(order, levels, rank) && rank' == rank + map n | n in ready :: |levels|
    requires forall n :: n in rank ==> rank[n] < |levels| && n !in ready
    requires ready != [] && Distinct(ready) && ready == Select(order, Elems(ready))
    ensures Listed(order, levels + [ready], rank')
  {
    assert IsLevel(order, ready, rank', |levels|);
    forall l | 0 <= l < |levels| ensures IsLevel(order, levels[l], rank', l) {
      assert IsLevel(order, levels[l], rank, l);
    }
  }

  lemma EmitLevel(g: Graph, order: seq<Name>, levels: seq<seq<Name>>, done: set<Name>, older: set<Name>,
                  rank: map<Name, nat>, remaining: map<Name, set<Name>>, ready: seq<Name>, rank': map<Name, nat>)
    requires Emitted(g, order, levels, done, older, rank) && Waiting(g, done, remaining) && Elems(order) == g.Keys
    requires ready == Select(order, Unblocked(remaining)) && ready != [] && Distinct(ready)
    requires rank' == rank + map n | n in ready :: |levels|
    ensures Emitted(g, order, levels + [ready], done + Elems(ready), done, rank')
  {
    hide Satisfied, Listed, IsLevel, Ranked, Waiting, Unblocked;
    ReadyAreUnblocked(g, order, done, remaining);
    assert Elems(ready) == Unblocked(remaining);
    forall n ensures n in Elems(ready) <==> n in g && n !in done && Satisfied(g, done, n) {
      UnblockedAreSatisfied(g, done, remaining, n);
    }
    BelowNext(g, |levels|, done, older, rank);
    RankLevel(g, |levels|, done, older, rank, Elems(ready), rank');
    ListLevel(order, levels, rank, ready, rank');
  }

  lemma BelowNext(g: Graph, k: nat, done: set<Name>, older: set<Name>, rank: map<Name, nat>)
    requires Ranked(g, k, done, older, rank)
    ensures rank.Keys == done && forall n :: n in rank ==> rank[n] < k
  {
  }

  lemma ReadyAreUnblocked(g: Graph, order: seq<Name>, done: set<Name>, remaining: map<Name, set<Name>>)
    requires Waiting(g, done, remaining) && Elems(order) == g.Keys
    ensures Elems(Select(order, Unblocked(remaining))) == Unblocked(remaining)
  {
    forall n | n in Unblocked(remaining) ensures n in Select(order, Unblocked(remaining)) {
      assert n in Elems(order);
    }
  }

  lemma StillBlocked(g: Graph, order: seq<Name>, done: set<Name>, remaining: map<Name, set<Name>>, n: Name)
    requires Closed(g) && Elems(order) == g.Keys && Waiting(g, done, remaining) && n in remaining
    requires Select(order, Unblocked(remaining)) == []
    ensures WaitsFor(g, remaining.Keys, n)
  {
    assert n in Elems(order);
    assert n !in Select(order, Unblocked(remaining));
    assert remaining[n] == g[n] - done;
    var d :| d in remaining[n];
    assert d in g[n] && g[n] <= g.Keys;
  }

  lemma RemainingAreKnown(g: Graph, done: set<Name>, remaining: map<Name, set<Name>>)
    requires Waiting(g, done, remaining)
    ensures remaining.Keys <= g.Keys
  {
  }

  /** Nothing is ready although groups remain: they wait for each other. */
  lemma NothingReady(g: Graph, order: seq<Name>, done: set<Name>, remaining: map<Name, set<Name>>)
    requires Closed(g) && Elems(order) == g.Keys && Waiting(g, done, remaining)
    requires remaining != map[] && Select(order, Unblocked(remaining)) == []
    ensures Cyclic(g) && AllWait(g, remaining.Keys)
  {
    hide *;
    RemainingAreKnown(g, done, remaining);
    var n0 :| n0 in remaining;
    forall n | n in remaining.Keys ensures WaitsFor(g, remaining.Keys, n) {
      StillBlocked(g, order, done, remaining, n);
    }
    StuckSetIsCyclic(g, remaining.Keys);
    WaitingAll(g, remaining.Keys);
  }

  /** Every member waits for another one. */
  ghost predicate AllWait(g: Graph, names: set<Name>) {
    forall n {:trigger WaitsFor(g, names, n)} :: n in names ==> WaitsFor(g, names, n)
  }

  lemma WaitingAll(g: Graph, names: set<Name>)
    requires forall n {:trigger WaitsFor(g, names, n)} :: n in names ==> WaitsFor(g, names, n)
    ensures AllWait(g, names)
  {
  }

  lemma RanksAreChains(g: Graph, k: nat, older: set<Name>, rank: map<Name, nat>)
    requires Ranked(g, k, g.Keys, older, rank)
    ensures !Cyclic(g) && forall n :: n in g ==> rank[n] < k && LongestChain(g, n, rank[n])
  {
    forall n | n in g && rank[n] > 0 ensures StepsDown(g, rank, n) {
      assert Above(g, rank, n);
    }
    RankedIsAcyclic(g, rank);
    forall n | n in g ensures LongestChain(g, n, rank[n]) {
      TightRankIsLongestChain(g, rank, n);
    }
  }

  lemma ListedOnce(order: seq<Name>, levels: seq<seq<Name>>, rank: map<Name, nat>)
    requires Listed(order, levels, rank) && Elems(order) == rank.Keys && forall n :: n in rank ==> rank[n] < |levels|
    ensures Distinct(order)
  {
    forall i, j | 0 <= i < j < |order| ensures order[i] != order[j] {
      if order[i] == order[j] {
        assert order[i] in Elems(order);
        var level := levels[rank[order[i]]];
        assert IsLevel(order, level, rank, rank[order[i]]);
        SelectKeepsRepeats(order, Elems(level), i, j);
        assert false;
      }
    }
  }

  lemma LevelsAreChains(g: Graph, order: seq<Name>, levels: seq<seq<Name>>, rank: map<Name, nat>)
    requires Listed(order, levels, rank) && rank.Keys == g.Keys
    requires forall n :: n in g ==> rank[n] < |levels| && LongestChain(g, n, rank[n])
    ensures AreLevels(levels, order, g)
  {
    hide LongestChain, Distinct;
    forall l | 0 <= l < |levels| ensures IsLevel(order, levels[l], rank, l) {
    }
    forall l, n | 0 <= l < |levels| ensures n in levels[l] <==> n in g && LongestChain(g, n, l) {
      if n in g && LongestChain(g, n, l) {
        LongestChainUnique(g, n, l, rank[n]);
      }
    }
    forall n | n in g ensures n in levels[rank[n]] {
      assert IsLevel(order, levels[rank[n]], rank, rank[n]);
    }
  }

  lemma AllEmitted(g: Graph, order: seq<Name>, levels: seq<seq<Name>>, older: set<Name>, rank: map<Name, nat>)
    requires Emitted(g, order, levels, g.Keys, older, rank) && Elems(order) == g.Keys
    ensures AreLevels(levels, order, g) && !Cyclic(g) && Distinct(order)
  {
    hide Ranked, Listed, Cyclic, Distinct, LongestChain, AreLevels;
    RanksAreChains(g, |levels|, older, rank);
    BelowNext(g, |levels|, g.Keys, older, rank);
    ListedOnce(order, levels, rank);
    LevelsAreChains(g, order, levels, rank);
  }

  /** Deletes the emitted groups one by one; the second deletion of a name finds no key. */
  method Delete(remaining0: map<Name, set<Name>>, ready: seq<Name>)
    returns (missing: Option<Name>, remaining: map<Name, set<Name>>)
    requires forall n :: n in ready ==> n in remaining0
    ensures missing.None? <==> Distinct(ready)
    ensures missing.None? ==> remaining == map n | n in remaining0 && n !in ready :: remaining0[n]
  {
    remaining, missing := remaining0, None;
    for i := 0 to |ready|
      invariant Distinct(ready[..i])
      invariant remaining == map n | n in remaining0 && n !in ready[..i] :: remaining0[n]
    {
      if ready[i] !in remaining {
        assert ready[i] in ready && ready[i] in ready[..i];
        return Some(ready[i]), remaining;
      }
      assert ready[..i + 1] == ready[..i] + [ready[i]];
      remaining := map n | n in remaining && n != ready[i] :: remaining[n];
    }
    assert ready[..|ready|] == ready;
  }

  method FindUnknown(deps: GroupDeps) returns (unknown: Option<(Name, Name)>)
    ensures unknown.None? <==> Closed(GroupGraph(deps))
    ensures unknown.Some? ==>
      unknown.value.0 in deps && unknown.value.1 in deps[unknown.value.0] && unknown.value.1 !in deps
  {
    var rest := deps.Keys;
    while rest != {}
      invariant rest <= deps.Keys
      invariant forall n :: n in deps && n !in rest ==> Elems(deps[n]) <= deps.Keys
    {
      var n :| n in rest;
      for i := 0 to |deps[n]|
        invariant forall d :: d in deps[n][..i] ==> d in deps
      {
        if deps[n][i] !in deps {
          assert deps[n][i] in GroupGraph(deps)[n];
          return Some((n, deps[n][i]));
        }
        assert deps[n][..i + 1] == deps[n][..i] + [deps[n][i]];
      }
      assert deps[n][..|deps[n]|] == deps[n];
      rest := rest - {n};
    }
    unknown := None;
  }

  /** The level loop, for dependencies that name only known groups. */
  method EmitLevels(ghost g: Graph, order: seq<Name>, remaining0: map<Name, set<Name>>)
    returns (r: Result<seq<seq<Name>>, LevelError>)
    requires Closed(g) && Elems(order) == g.Keys && Waiting(g, {}, remaining0)
    ensures r.Ok? ==> AreLevels(r.value, order, g) && !Cyclic(g) && Distinct(order)
    ensures r.Err? ==> !r.error.UnknownGroup?
    ensures r.Err? && r.error.UnresolvedGroups? ==> Cyclic(g) && r.error.names != {} && AllWait(g, r.error.names)
    ensures r.Err? && r.error.MissingKey? ==> !Distinct(order)
  {
    hide *;
    var remaining := remaining0;
    var levels: seq<seq<Name>> := [];
    ghost var done: set<Name>, older: set<Name>, rank: map<Name, nat> := {}, {}, map[];
    NoneEmitted(g, order);
    while remaining != map[]
      invariant Emitted(g, order, levels, done, older, rank) && Waiting(g, done, remaining)
      decreases remaining.Keys
    {
      var ready := Select(order, Unblocked(remaining));
      if ready == [] {
        NothingReady(g, order, done, remaining);
        return Err(UnresolvedGroups(remaining.Keys));
      }
      UnblockedRemain(order, remaining);
      var missing, rest := Delete(remaining, ready);
      if missing.Some? {
        return Err(MissingKey(missing.value));
      }
      ghost var rank' := rank + map n | n in ready :: |levels|;
      EmitLevel(g, order, levels, done, older, rank, remaining, ready, rank');
      DropReady(g, done, remaining, ready, rest);
      remaining := map n | n in rest :: rest[n] - Elems(ready);
      levels, rank, older, done := levels + [ready], rank', done, done + Elems(ready);
    }
    NothingRemains(g, order, levels, done, older, rank, remaining);
    AllEmitted(g, order, levels, older, rank);
    r := Ok(levels);
  }

  lemma NoneEmitted(g: Graph, order: seq<Name>)
    ensures Emitted(g, order, [], {}, {}, map[])
  {
  }

  lemma UnblockedRemain(order: seq<Name>, remaining: map<Name, set<Name>>)
    ensures forall n :: n in Select(order, Unblocked(remaining)) ==> n in remaining
    ensures !Distinct(Select(order, Unblocked(remaining))) ==> !Distinct(order)
  {
  }

  lemma DropReady(g: Graph, done: set<Name>, remaining: map<Name, set<Name>>, ready: seq<Name>,
                  rest: map<Name, set<Name>>)
    requires Waiting(g, done, remaining) && ready != [] && forall n :: n in ready ==> n in remaining
    requires rest == map n | n in remaining && n !in ready :: remaining[n]
    ensures Waiting(g, done + Elems(ready), map n | n in rest :: rest[n] - Elems(ready))
    ensures rest.Keys < remaining.Keys
  {
    assert ready[0] in remaining && ready[0] !in rest;
  }

  lemma NothingRemains(g: Graph, order: seq<Name>, levels: seq<seq<Name>>, done: set<Name>, older: set<Name>,
                       rank: map<Name, nat>, remaining: map<Name, set<Name>>)
    requires Emitted(g, order, levels, done, older, rank) && Waiting(g, done, remaining) && remaining == map[]
    ensures done == g.Keys
  {
  }

  /** Groups the declared names into levels. It succeeds exactly when the names are distinct, every
      dependency is declared, and no group depends on itself through others. */
  method TopologicalLevels(order: seq<Name>, deps: GroupDeps) returns (r: Result<seq<seq<Name>>, LevelError>)
    requires Elems(order) == deps.Keys
    ensures
      var g := GroupGraph(deps);
      && (r.Ok? <==> Distinct(order) && Closed(g) && !Cyclic(g))
      && (r.Ok? ==> AreLevels(r.value, order, g))
      && (r.Err? && r.error.UnknownGroup? <==> !Closed(g))
      && (r.Err? && r.error.UnresolvedGroups? ==> Cyclic(g) && r.error.names != {} && AllWait(g, r.error.names))
      && (r.Err? && r.error.MissingKey? ==> !Distinct(order))
  {
    var unknown := FindUnknown(deps);
    if unknown.Some? {
      return Err(UnknownGroup(unknown.value.0, unknown.value.1));
    }
    r := EmitLevels(GroupGraph(deps), order, map n | n in deps :: Elems(deps[n]));
  }
}
