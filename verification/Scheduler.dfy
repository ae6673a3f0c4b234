/** The execution order of the agents and tools inside one compound. */
module Scheduler {
  import opened Wrappers
  import opened Graphs
  import opened Kahn
  import opened Capsules

  /** The dependencies among the direct leaves of a compound. */
  ghost function LeafGraph(children: seq<Capsule>, edges: seq<Edge>): Graph {
    LocalGraph(Elems(Names(Leaves(children))), edges)
  }

  /** `order` schedules exactly the direct leaves: dependencies before dependants, shallow leaves
      before deep ones, the leaves that wait for nothing first, as they were declared, and the
      others as they are released. */
  ghost predicate IsSchedule(order: seq<Capsule>, children: seq<Capsule>, edges: seq<Edge>) {
    var g, leaves := LeafGraph(children, edges), Leaves(children);
    && Distinct(order) && Elems(order) == Elems(leaves) && |order| == |leaves|
    && DependenciesFirst(g, Names(order))
    && Layered(g, Names(order))
    && RootsOf(g, Names(leaves)) <= Names(order)
    && InEntryOrder(g, edges, Names(order))
  }

  lemma LastLeaf(leaves: seq<Capsule>)
    requires leaves != []
    ensures
      var front, last := leaves[..|leaves| - 1], leaves[|leaves| - 1];
      && Elems(Names(leaves)) == Elems(Names(front)) + {last.name}
      && (forall c :: c in leaves <==> c in front || c == last)
      && (Distinct(Names(leaves)) ==> Distinct(Names(front)) && forall c :: c in front ==> c.name != last.name)
  {
    var front, last := leaves[..|leaves| - 1], leaves[|leaves| - 1];
    assert leaves == front + [last] && Names(leaves) == Names(front) + [last.name];
    forall c | Distinct(Names(leaves)) && c in front ensures c.name != last.name {
      var i :| 0 <= i < |front| && front[i] == c;
      assert Names(leaves)[i] == c.name && Names(leaves)[|front|] == last.name;
    }
  }

  function LeafMap(leaves: seq<Capsule>): (m: map<Name, Capsule>)
    ensures m.Keys == Elems(Names(leaves))
    ensures Distinct(Names(leaves)) ==> forall c :: c in leaves ==> m[c.name] == c
  {
    if leaves == [] then map[] else
      var front, last := leaves[..|leaves| - 1], leaves[|leaves| - 1];
      LastLeaf(leaves);
      LeafMap(front)[last.name := last]
  }

  lemma OrderedLeaves(leaves: seq<Capsule>, leafMap: map<Name, Capsule>, names: seq<Name>, order: seq<Capsule>)
    requires Distinct(Names(leaves)) && Distinct(names) && Elems(names) == Elems(Names(leaves))
    requires leafMap.Keys == Elems(Names(leaves)) && forall c :: c in leaves ==> leafMap[c.name] == c
    requires |order| == |names| && forall i :: 0 <= i < |names| ==> order[i] == leafMap[names[i]]
    ensures Distinct(order) && Elems(order) == Elems(leaves) && Names(order) == names
  {
    forall n | n in names ensures leafMap[n] in leaves && leafMap[n].name == n {
      assert n in Elems(Names(leaves));
      var i :| 0 <= i < |leaves| && Names(leaves)[i] == n;
      assert leaves[i] in leaves;
    }
    forall c | c in leaves ensures c in order {
      var j :| 0 <= j < |leaves| && leaves[j] == c;
      assert Names(leaves)[j] in Elems(names);
      var i :| 0 <= i < |names| && names[i] == c.name;
      assert order[i] == c;
    }
    forall i, j | 0 <= i < j < |order| ensures order[i] != order[j] {
      assert order[i].name == names[i] && order[j].name == names[j];
    }
  }

  /** The same for names. */
  ghost predicate IsRelease(ordered: seq<Name>, children: seq<Capsule>, edges: seq<Edge>) {
    var g, names := LeafGraph(children, edges), Names(Leaves(children));
    && Distinct(ordered) && Elems(ordered) == Elems(names) && |ordered| == |names|
    && DependenciesFirst(g, ordered)
    && Layered(g, ordered)
    && RootsOf(g, names) <= ordered
    && InEntryOrder(g, edges, ordered)
  }

  lemma ScheduleOf(children: seq<Capsule>, edges: seq<Edge>, ordered: seq<Name>, order: seq<Capsule>)
    requires Distinct(Names(Leaves(children))) && IsRelease(ordered, children, edges)
    requires |order| == |ordered|
    requires forall i ::
      0 <= i < |ordered| ==>
        ordered[i] in LeafMap(Leaves(children)) && order[i] == LeafMap(Leaves(children))[ordered[i]]
    ensures IsSchedule(order, children, edges)
  {
    OrderedLeaves(Leaves(children), LeafMap(Leaves(children)), ordered, order);
  }

  /** Whatever an entry of the dictionary names comes before the leaf of the entry. */
  lemma ScheduleRespectsEntries(order: seq<Capsule>, children: seq<Capsule>, edges: seq<Edge>, e: Edge, d: Name, i: nat)
    requires IsSchedule(order, children, edges) && e in edges && d in e.deps && d in Names(Leaves(children))
    requires i < |order| && order[i].name == e.node
    ensures d in Names(order)[..i]
  {
    hide Layered, InEntryOrder, RootsOf, Distinct;
    var g, names := LeafGraph(children, edges), Names(Leaves(children));
    assert order[i] in Elems(order);
    var k :| 0 <= k < |Leaves(children)| && Leaves(children)[k] == order[i];
    assert names[k] == e.node && names[k] in Elems(names);
    assert Declares(edges, e.node, d) && d in g[e.node];
    assert Names(order)[i] == e.node;
  }

  /** No entry of the dictionary makes the leaf wait for another one. */
  ghost predicate Free(children: seq<Capsule>, edges: seq<Edge>, n: Name) {
    forall d :: Declares(edges, n, d) ==> d !in Names(Leaves(children))
  }

  lemma FreeIsRoot(children: seq<Capsule>, edges: seq<Edge>, n: Name)
    requires n in Names(Leaves(children))
    ensures n in LeafGraph(children, edges)
    ensures Free(children, edges, n) <==> LeafGraph(children, edges)[n] == {}
  {
    var g := LeafGraph(children, edges);
    if g[n] == {} {
      forall d | Declares(edges, n, d) ensures d !in Names(Leaves(children)) {
        assert d !in g[n];
      }
    }
  }

  lemma RootsStand(g: Graph, names: seq<Name>, order: seq<Name>, i: nat, j: nat) returns (a: nat, b: nat)
    requires Elems(names) <= g.Keys && RootsOf(g, names) <= order
    requires i < j < |names| && g[names[i]] == {} && g[names[j]] == {}
    ensures a < b < |order| && order[a] == names[i] && order[b] == names[j]
    ensures forall k :: 0 <= k < b ==> order[k] in names && g[order[k]] == {}
  {
    a, b := RootsKeepOrder(g, names, i, j);
    var roots := RootsOf(g, names);
    forall k | 0 <= k < b ensures order[k] in names && g[order[k]] == {} {
      assert order[k] == roots[k] && roots[k] in roots;
    }
  }

  /** Leaves that wait for nothing run as they were declared, and before any leaf that waits. */
  lemma FreeRunAsDeclared(order: seq<Capsule>, children: seq<Capsule>, edges: seq<Edge>, i: nat, j: nat)
    returns (a: nat, b: nat)
    requires IsSchedule(order, children, edges) && i < j < |Leaves(children)|
    requires Free(children, edges, Leaves(children)[i].name) && Free(children, edges, Leaves(children)[j].name)
    ensures a < b < |order| && order[a].name == Leaves(children)[i].name && order[b].name == Leaves(children)[j].name
    ensures forall k :: 0 <= k < b ==> Free(children, edges, order[k].name)
  {
    var g, names := LeafGraph(children, edges), Names(Leaves(children));
    assert names[i] in names && names[j] in names;
    FreeIsRoot(children, edges, names[i]);
    FreeIsRoot(children, edges, names[j]);
    assert RootsOf(g, names) <= Names(order) && |Names(order)| == |order|;
    hide *;
    a, b := RootsStand(g, names, Names(order), i, j);
    forall k | 0 <= k < b ensures Free(children, edges, order[k].name) {
      assert Names(order)[k] == order[k].name;
      FreeIsRoot(children, edges, order[k].name);
    }
  }

  lemma {:induction false} LastDependency(g: Graph, order: seq<Name>, n: Name, k: nat) returns (a: nat)
    requires n in g && g[n] != {} && k <= |order| && g[n] <= Elems(order[..k])
    ensures a < k && ReleasedAt(g, order, n, a)
  {
    var d :| d in g[n];
    assert d in order[..k];
    assert order[..k] == order[..k - 1] + [order[k - 1]];
    if order[k - 1] in g[n] {
      a := k - 1;
    } else {
      a := LastDependency(g, order, n, k - 1);
    }
  }

  lemma SameRelease(g: Graph, a: seq<Name>, b: seq<Name>, n: Name, k: nat, i: nat)
    requires k <= |a| && k <= |b| && a[..k] == b[..k] && i < k && ReleasedAt(g, a, n, i)
    ensures ReleasedAt(g, b, n, i)
  {
    assert a[..i + 1] == a[..k][..i + 1] == b[..i + 1] && a[i] == a[..k][i] == b[i];
  }

  /** One of two nodes that wait comes first, in every order that agrees up to here. */
  lemma OneComesFirst(g: Graph, edges: seq<Edge>, a: seq<Name>, b: seq<Name>, m: Name, n: Name, k: nat)
    requires k <= |a| && k <= |b| && a[..k] == b[..k] && m in g && n in g && g[m] != {} && g[n] != {}
    requires g[m] <= Elems(a[..k]) && g[n] <= Elems(b[..k])
    requires ServedByEntry(g, edges, a, m, n)
    ensures !ServedByEntry(g, edges, b, n, m)
  {
    var i := LastDependency(g, a, m, k);
    var j := LastDependency(g, b, n, k);
    SameRelease(g, a, b, m, k, i);
    SameRelease(g, b, a, n, k, j);
    hide ReleasedAt;
    assert a[i] == a[..k][i] == b[i];
  }

  /** The position of a node that comes no earlier than k. */
  lemma StandsLater(a: seq<Name>, b: seq<Name>, n: Name, k: nat) returns (i: nat)
    requires Distinct(b) && k < |b| && k <= |a| && a[..k] == b[..k] && n == b[k] && n in a
    ensures k <= i < |a| && a[i] == n
  {
    i :| 0 <= i < |a| && a[i] == n;
    SamePrefix(a, b, k);
  }

  lemma SamePrefix(a: seq<Name>, b: seq<Name>, k: nat)
    requires k <= |a| && k <= |b| && a[..k] == b[..k]
    ensures forall i :: 0 <= i < k ==> a[i] == b[i]
  {
    forall i | 0 <= i < k ensures a[i] == b[i] {
      assert a[i] == a[..k][i] && b[i] == b[..k][i];
    }
  }

  /** What is known of an order that follows the rules for a release. */
  ghost predicate Follows(g: Graph, edges: seq<Edge>, names: seq<Name>, order: seq<Name>) {
    && Elems(names) == g.Keys && Elems(order) == g.Keys && Distinct(order) && Closed(g)
    && RootsOf(g, names) <= order && DependenciesFirst(g, order) && InEntryOrder(g, edges, order)
  }

  lemma NotARoot(g: Graph, edges: seq<Edge>, names: seq<Name>, order: seq<Name>, l: nat)
    requires Follows(g, edges, names, order) && |RootsOf(g, names)| <= l < |order|
    ensures order[l] in g && g[order[l]] != {} && g[order[l]] <= Elems(order[..l])
  {
    var n, roots := order[l], RootsOf(g, names);
    hide InEntryOrder;
    assert n in Elems(order) && n in Elems(names);
    assert n !in roots by {
      forall i | 0 <= i < |roots| ensures roots[i] != n {
        assert order[i] == roots[i];
      }
    }
  }

  lemma ServedNext(g: Graph, edges: seq<Edge>, names: seq<Name>, order: seq<Name>, i: nat, j: nat)
    requires Follows(g, edges, names, order) && i < j < |order|
    ensures ServedByEntry(g, edges, order, order[i], order[j])
  {
    hide ServedByEntry, RootsOf, DependenciesFirst;
  }

  lemma Covers(g: Graph, edges: seq<Edge>, names: seq<Name>, a: seq<Name>, b: seq<Name>, l: nat)
    requires Follows(g, edges, names, a) && Follows(g, edges, names, b) && l < |b|
    ensures b[l] in a && Distinct(a)
  {
    hide InEntryOrder, RootsOf, DependenciesFirst;
    assert b[l] in Elems(b);
  }

  lemma NextSame(g: Graph, edges: seq<Edge>, names: seq<Name>, a: seq<Name>, b: seq<Name>, l: nat)
    requires Follows(g, edges, names, a) && Follows(g, edges, names, b) && l < |a| && l < |b| && a[..l] == b[..l]
    requires |RootsOf(g, names)| <= l
    ensures a[l] == b[l]
  {
    hide *;
    if a[l] != b[l] {
      NotARoot(g, edges, names, a, l);
      NotARoot(g, edges, names, b, l);
      Covers(g, edges, names, a, b, l);
      Covers(g, edges, names, b, a, l);
      var i := StandsLater(a, b, b[l], l);
      var j := StandsLater(b, a, a[l], l);
      ServedNext(g, edges, names, a, l, i);
      ServedNext(g, edges, names, b, l, j);
      OneComesFirst(g, edges, a, b, a[l], b[l], l);
    }
  }

  lemma StartsWithRoots(g: Graph, edges: seq<Edge>, names: seq<Name>, order: seq<Name>)
    requires Follows(g, edges, names, order)
    ensures Elems(names) <= g.Keys && RootsOf(g, names) <= order
  {
    hide InEntryOrder, DependenciesFirst, RootsOf;
  }

  lemma SameStart(roots: seq<Name>, a: seq<Name>, b: seq<Name>, k: nat)
    requires roots <= a && roots <= b && k <= |roots|
    ensures a[..k] == b[..k]
  {
    assert a[..k] == roots[..k] == b[..k];
  }

  /** The rules for a release leave no choice. */
  lemma {:induction false} SameUpTo(g: Graph, edges: seq<Edge>, names: seq<Name>, a: seq<Name>, b: seq<Name>, k: nat)
    requires Follows(g, edges, names, a) && Follows(g, edges, names, b) && k <= |a| && k <= |b|
    ensures a[..k] == b[..k]
  {
    hide *;
    StartsWithRoots(g, edges, names, a);
    StartsWithRoots(g, edges, names, b);
    if k > |RootsOf(g, names)| {
      SameUpTo(g, edges, names, a, b, k - 1);
      NextSame(g, edges, names, a, b, k - 1);
      assert a[..k] == a[..k - 1] + [a[k - 1]] && b[..k] == b[..k - 1] + [b[k - 1]];
    } else {
      SameStart(RootsOf(g, names), a, b, k);
    }
  }

  lemma FollowsOrder(children: seq<Capsule>, edges: seq<Edge>, a: seq<Capsule>)
    requires Distinct(Names(Leaves(children))) && IsSchedule(a, children, edges)
    ensures Follows(LeafGraph(children, edges), edges, Names(Leaves(children)), Names(a))
    ensures |a| == |Leaves(children)| && forall c :: c in a <==> c in Leaves(children)
  {
    NamesOfSchedule(Leaves(children), a);
    hide Layered, InEntryOrder, DependenciesFirst;
  }

  /** There is one schedule only. */
  lemma ScheduleIsUnique(children: seq<Capsule>, edges: seq<Edge>, a: seq<Capsule>, b: seq<Capsule>)
    requires Distinct(Names(Leaves(children))) && IsSchedule(a, children, edges) && IsSchedule(b, children, edges)
    ensures a == b
  {
    FollowsOrder(children, edges, a);
    FollowsOrder(children, edges, b);
    hide *;
    var names := Names(Leaves(children));
    SameUpTo(LeafGraph(children, edges), edges, names, Names(a), Names(b), |a|);
    SamePrefix(Names(a), Names(b), |a|);
    forall i | 0 <= i < |a| ensures a[i] == b[i] {
      assert a[i] in a && b[i] in b;
      OneLeafPerName(Leaves(children), a[i], b[i]);
    }
  }

  lemma OneLeafPerName(leaves: seq<Capsule>, c: Capsule, d: Capsule)
    requires Distinct(Names(leaves)) && c in leaves && d in leaves && c.name == d.name
    ensures c == d
  {
    var i :| 0 <= i < |leaves| && leaves[i] == c;
    var j :| 0 <= j < |leaves| && leaves[j] == d;
    assert Names(leaves)[i] == Names(leaves)[j];
  }

  lemma NamesOfSchedule(leaves: seq<Capsule>, order: seq<Capsule>)
    requires Distinct(Names(leaves)) && Distinct(order) && Elems(order) == Elems(leaves)
    ensures Elems(Names(order)) == Elems(Names(leaves)) && Distinct(Names(order))
    ensures forall c :: c in order <==> c in leaves
  {
    forall c ensures c in order <==> c in leaves {
      assert c in Elems(order) <==> c in Elems(leaves);
    }
    forall c | c in leaves ensures c.name in Names(order) {
      var i :| 0 <= i < |order| && order[i] == c;
      assert Names(order)[i] == c.name;
    }
    forall c | c in order ensures c.name in Names(leaves) {
      var i :| 0 <= i < |leaves| && leaves[i] == c;
      assert Names(leaves)[i] == c.name;
    }
    forall i, j | 0 <= i < j < |order| ensures Names(order)[i] != Names(order)[j] {
      if Names(order)[i] == Names(order)[j] {
        OneLeafPerName(leaves, order[i], order[j]);
      }
    }
  }

  /** The names of the direct leaves, in the order in which the queue releases them. */
  method ReleaseOrder(children: seq<Capsule>, edges: seq<Edge>) returns (ordered: seq<Name>)
    ensures forall i :: 0 <= i < |ordered| ==> ordered[i] in LeafMap(Leaves(children))
    ensures |ordered| == |Leaves(children)| <==>
      Distinct(Names(Leaves(children))) && !Cyclic(LeafGraph(children, edges))
    ensures |ordered| == |Leaves(children)| ==> IsRelease(ordered, children, edges)
  {
    var keys := Keys(Names(Leaves(children)));
    KeysAreAll(Names(Leaves(children)));
    var _, inDegree, adj, arcs := Build(Elems(keys), edges, false);
    ghost var g := LeafGraph(children, edges);
    ordered := Drain(g, arcs, keys, inDegree, adj);
    FewerThan(ordered, keys);
    FirstComeByEntry(Elems(keys), edges, g, ordered);
    hide FirstCome, InEntryOrder, AllArcs, DependenciesFirst, Layered;
    forall i | 0 <= i < |ordered| ensures ordered[i] in LeafMap(Leaves(children)) {
      assert ordered[i] in Elems(ordered);
    }
  }

  lemma FewerThan(some: seq<Name>, all: seq<Name>)
    requires Distinct(some) && Distinct(all) && Elems(some) <= Elems(all)
    ensures |some| <= |all|
  {
    DistinctSize(some);
    DistinctSize(all);
    if Elems(some) != Elems(all) {
      SmallerSet(Elems(some), Elems(all));
    }
  }

  class CompoundCapsule {
    const name: Name
    const children: seq<Capsule>
    const dependencyEdges: seq<Edge>
    var serializationOrder: seq<Capsule>

    constructor (name: Name, children: seq<Capsule>, dependencyEdges: seq<Edge>)
      ensures this.name == name && this.children == children && this.dependencyEdges == dependencyEdges
      ensures serializationOrder == []
    {
      this.name, this.children, this.dependencyEdges := name, children, dependencyEdges;
      serializationOrder := [];
    }

    /** Orders the direct leaves and caches the order. It fails exactly when two leaves share a
        name or their dependencies form a cycle; the cached order is then left as it was. */
    method ComputeOrder() returns (r: Result<seq<Capsule>, CompositionError>)
      modifies this`serializationOrder
      ensures r.Ok? <==> Distinct(Names(Leaves(children))) && !Cyclic(LeafGraph(children, dependencyEdges))
      ensures r.Ok? ==> IsSchedule(r.value, children, dependencyEdges) && serializationOrder == r.value
      ensures r.Err? ==> r.error == CycleDetected(3) && serializationOrder == old(serializationOrder)
    {
      hide *;
      var leaves := Leaves(children);
      var leafMap := LeafMap(leaves);
      var ordered := ReleaseOrder(children, dependencyEdges);
      var order := seq(|ordered|, i requires 0 <= i < |ordered| => leafMap[ordered[i]]);
      if |order| != |leaves| {
        return Err(CycleDetected(3));
      }
      ScheduleOf(children, dependencyEdges, ordered, order);
      serializationOrder := order;
      return Ok(order);
    }
  }
}
