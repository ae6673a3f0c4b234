/** Kahn's algorithm with a FIFO queue, as the scheduler and the termination rule both run it. */
module Kahn {
  import opened Graphs
  import opened Wrappers

  /** One entry of a dependency dictionary: a node and the names it depends on, repeats and
      foreign names included. */
  datatype Edge = Edge(node: Name, deps: seq<Name>)

  /** One dependency between two known nodes. */
  datatype Arc = Arc(node: Name, dep: Name)

  ghost predicate Declares(edges: seq<Edge>, n: Name, d: Name) {
    exists e :: e in edges && e.node == n && d in e.deps
  }

  /** What the dictionary says about the given nodes. */
  ghost function EdgeGraph(names: set<Name>, edges: seq<Edge>): Graph {
    map n | n in names :: set e, d | e in edges && e.node == n && d in e.deps :: d
  }

  /** The part of that graph that stays inside the given nodes. */
  ghost function LocalGraph(names: set<Name>, edges: seq<Edge>): (g: Graph)
    ensures Closed(g) && g.Keys == names
  {
    var g := EdgeGraph(names, edges);
    map n | n in names :: g[n] * names
  }

  ghost predicate ArcsOf(arcs: seq<Arc>, g: Graph) {
    forall n, d :: Arc(n, d) in arcs <==> n in g && d in g[n]
  }

  /** How many recorded dependencies of `n` are not done. */
  ghost function Pending(arcs: seq<Arc>, n: Name, done: set<Name>): nat {
    if arcs == [] then 0 else
      var last := arcs[|arcs| - 1];
      Pending(arcs[..|arcs| - 1], n, done) + if last.node == n && last.dep !in done then 1 else 0
  }

  /** The dependants of `d`, once for each recorded dependency. */
  ghost function Dependants(arcs: seq<Arc>, d: Name): seq<Name> {
    if arcs == [] then [] else
      var last := arcs[|arcs| - 1];
      Dependants(arcs[..|arcs| - 1], d) + if last.dep == d then [last.node] else []
  }

  lemma {:induction false} PendingIsZero(arcs: seq<Arc>, n: Name, done: set<Name>)
    ensures Pending(arcs, n, done) == 0 <==> forall d :: Arc(n, d) in arcs ==> d in done
  {
    if arcs != [] {
      var front, last := arcs[..|arcs| - 1], arcs[|arcs| - 1];
      PendingIsZero(front, n, done);
      assert arcs == front + [last];
      if last.node == n {
        assert Arc(n, last.dep) in arcs;
      }
    }
  }

  lemma {:induction false} FinishingOne(arcs: seq<Arc>, n: Name, done: set<Name>, d: Name)
    requires d !in done
    ensures Pending(arcs, n, done) == Pending(arcs, n, done + {d}) + multiset(Dependants(arcs, d))[n]
  {
    if arcs != [] {
      FinishingOne(arcs[..|arcs| - 1], n, done, d);
    }
  }

  lemma {:induction false} DependantsAre(arcs: seq<Arc>, d: Name, n: Name)
    ensures n in Dependants(arcs, d) <==> Arc(n, d) in arcs
  {
    if arcs != [] {
      var front, last := arcs[..|arcs| - 1], arcs[|arcs| - 1];
      DependantsAre(front, d, n);
      assert arcs == front + [last];
    }
  }

  lemma DeclaresLast(edges: seq<Edge>, e: Edge, n: Name, d: Name)
    ensures Declares(edges + [e], n, d) <==> Declares(edges, n, d) || (e.node == n && d in e.deps)
  {
    assert e in edges + [e];
    if Declares(edges, n, d) {
      var f :| f in edges && f.node == n && d in f.deps;
      assert f in edges + [e];
    }
  }

  lemma NotClosed(names: set<Name>, edges: seq<Edge>, e: Edge, dep: Name)
    requires e in edges && e.node in names && dep in e.deps && dep !in names
    ensures !Closed(EdgeGraph(names, edges)) && Declares(edges, e.node, dep)
  {
    assert dep in EdgeGraph(names, edges)[e.node];
  }

  /** The counters agree with the arcs recorded so far. */
  ghost predicate Recorded(names: set<Name>, arcs: seq<Arc>, inDegree: map<Name, nat>, adj: map<Name, seq<Name>>) {
    && inDegree.Keys == adj.Keys == names
    && (forall n :: n in names ==> inDegree[n] == Pending(arcs, n, {}))
    && (forall d :: d in names ==> adj[d] == Dependants(arcs, d))
  }

  lemma KnownNames(names: set<Name>, arcs: seq<Arc>, inDegree: map<Name, nat>, adj: map<Name, seq<Name>>)
    requires Recorded(names, arcs, inDegree, adj)
    ensures inDegree.Keys == adj.Keys == names
  {
  }

  lemma RecordArc(names: set<Name>, arcs: seq<Arc>, inDegree: map<Name, nat>, adj: map<Name, seq<Name>>, a: Arc)
    requires Recorded(names, arcs, inDegree, adj) && a.node in names && a.dep in names
    ensures Recorded(names, arcs + [a], inDegree[a.node := inDegree[a.node] + 1], adj[a.dep := adj[a.dep] + [a.node]])
  {
    assert (arcs + [a])[..|arcs|] == arcs;
  }

  /** The arcs are the dependencies, between known nodes, of the entries read so far. */
  ghost predicate Covers(names: set<Name>, arcs: seq<Arc>, edges: seq<Edge>) {
    forall n, d :: Arc(n, d) in arcs <==> n in names && d in names && Declares(edges, n, d)
  }

  ghost predicate NoneForeign(names: set<Name>, edges: seq<Edge>) {
    forall n, d :: n in names && Declares(edges, n, d) ==> d in names
  }

  /** Reading one more dependency of the entry that is being read. */
  lemma ReadDependency(names: set<Name>, arcs: seq<Arc>, edges: seq<Edge>, e: Edge, j: nat)
    requires e.node in names && j < |e.deps|
    requires Covers(names, arcs, edges + [Edge(e.node, e.deps[..j])])
    ensures
      var next := edges + [Edge(e.node, e.deps[..j + 1])];
      && (e.deps[j] in names ==>
        && Covers(names, arcs + [Arc(e.node, e.deps[j])], next)
        && (NoneForeign(names, edges + [Edge(e.node, e.deps[..j])]) ==> NoneForeign(names, next)))
      && (e.deps[j] !in names ==> Covers(names, arcs, next))
  {
    assert e.deps[..j + 1] == e.deps[..j] + [e.deps[j]];
    forall n, d ensures Declares(edges + [Edge(e.node, e.deps[..j + 1])], n, d) <==>
                        Declares(edges + [Edge(e.node, e.deps[..j])], n, d) || (e.node == n && d == e.deps[j]) {
      DeclaresLast(edges, Edge(e.node, e.deps[..j]), n, d);
      DeclaresLast(edges, Edge(e.node, e.deps[..j + 1]), n, d);
    }
  }

  /** Starting an entry adds nothing, nor does an entry of an unknown node. */
  lemma StartEntry(names: set<Name>, arcs: seq<Arc>, edges: seq<Edge>, e: Edge)
    requires Covers(names, arcs, edges)
    requires e.node !in names || e.deps == []
    ensures Covers(names, arcs, edges + [e]) && (NoneForeign(names, edges) ==> NoneForeign(names, edges + [e]))
  {
    forall n, d { DeclaresLast(edges, e, n, d); }
  }

  lemma NothingRead(names: set<Name>, inDegree: map<Name, nat>, adj: map<Name, seq<Name>>)
    requires inDegree == (map n | n in names :: 0) && adj == (map n | n in names :: [])
    ensures Recorded(names, [], inDegree, adj) && Covers(names, [], []) && NoneForeign(names, [])
  {
  }

  lemma AllRead(names: set<Name>, arcs: seq<Arc>, edges: seq<Edge>)
    requires Covers(names, arcs, edges)
    ensures ArcsOf(arcs, LocalGraph(names, edges))
    ensures NoneForeign(names, edges) ==> Closed(EdgeGraph(names, edges))
  {
    forall n, d | n in names ensures Declares(edges, n, d) <==> d in EdgeGraph(names, edges)[n] {
    }
  }

  /** The dependencies of one entry on known names, in the order of its list. */
  ghost function KnownArcs(names: set<Name>, n: Name, deps: seq<Name>): seq<Arc> {
    if deps == [] then [] else
      var last := deps[|deps| - 1];
      KnownArcs(names, n, deps[..|deps| - 1]) + if last in names then [Arc(n, last)] else []
  }

  /** All dependencies between known nodes, entry by entry. */
  ghost function AllArcs(names: set<Name>, edges: seq<Edge>): seq<Arc> {
    if edges == [] then [] else
      var last := edges[|edges| - 1];
      AllArcs(names, edges[..|edges| - 1]) + if last.node in names then KnownArcs(names, last.node, last.deps) else []
  }

  lemma NextArc(names: set<Name>, n: Name, deps: seq<Name>, j: nat)
    requires j < |deps|
    ensures KnownArcs(names, n, deps[..j + 1]) ==
      KnownArcs(names, n, deps[..j]) + if deps[j] in names then [Arc(n, deps[j])] else []
    ensures KnownArcs(names, n, []) == []
  {
    assert deps[..j + 1][..j] == deps[..j];
  }

  lemma NextArcs(names: set<Name>, edges: seq<Edge>, i: nat)
    requires i < |edges|
    ensures AllArcs(names, edges[..i + 1]) ==
      AllArcs(names, edges[..i]) + if edges[i].node in names then KnownArcs(names, edges[i].node, edges[i].deps) else []
  {
    assert edges[..i + 1][..i] == edges[..i];
  }

  lemma NoArcs(names: set<Name>, n: Name)
    ensures AllArcs(names, []) == [] && KnownArcs(names, n, []) == []
  {
  }

  /** Reads the dependencies of one entry, up to the first foreign one when `strict`. */
  method ReadEntry(names: set<Name>, ghost edges: seq<Edge>, e: Edge, strict: bool,
                   inDegree0: map<Name, nat>, adj0: map<Name, seq<Name>>, ghost arcs0: seq<Arc>)
    returns (foreign: Option<Name>, inDegree: map<Name, nat>, adj: map<Name, seq<Name>>, ghost arcs: seq<Arc>)
    requires e.node in names && Recorded(names, arcs0, inDegree0, adj0)
    requires Covers(names, arcs0, edges) && (strict ==> NoneForeign(names, edges))
    ensures Recorded(names, arcs, inDegree, adj)
    ensures foreign.None? ==> Covers(names, arcs, edges + [e]) && (strict ==> NoneForeign(names, edges + [e]))
    ensures foreign.None? ==> arcs == arcs0 + KnownArcs(names, e.node, e.deps)
    ensures foreign.Some? ==> strict && foreign.value in e.deps && foreign.value !in names
  {
    foreign, inDegree, adj, arcs := None, inDegree0, adj0, arcs0;
    hide *;
    StartEntry(names, arcs, edges, Edge(e.node, e.deps[..0]));
    NoArcs(names, e.node);
    for j := 0 to |e.deps|
      invariant Recorded(names, arcs, inDegree, adj)
      invariant Covers(names, arcs, edges + [Edge(e.node, e.deps[..j])])
      invariant strict ==> NoneForeign(names, edges + [Edge(e.node, e.deps[..j])])
      invariant arcs == arcs0 + KnownArcs(names, e.node, e.deps[..j])
    {
      var dep := e.deps[j];
      NextArc(names, e.node, e.deps, j);
      ReadDependency(names, arcs, edges, e, j);
      if dep in names {
        KnownNames(names, arcs, inDegree, adj);
        RecordArc(names, arcs, inDegree, adj, Arc(e.node, dep));
        arcs := arcs + [Arc(e.node, dep)];
        adj := adj[dep := adj[dep] + [e.node]];
        inDegree := inDegree[e.node := inDegree[e.node] + 1];
      } else if strict {
        foreign := Some(dep);
        return;
      }
    }
    assert e == Edge(e.node, e.deps[..|e.deps|]);
  }

  /** Fills the in-degrees and the forward adjacency from the dictionary. A dependency on a name
      outside `names` is skipped, or, when `strict`, reported at once. */
  method Build(names: set<Name>, edges: seq<Edge>, strict: bool)
    returns (foreign: Option<Arc>, inDegree: map<Name, nat>, adj: map<Name, seq<Name>>, ghost arcs: seq<Arc>)
    ensures foreign.None? <==> !strict || Closed(EdgeGraph(names, edges))
    ensures foreign.Some? ==>
      foreign.value.node in names && foreign.value.dep !in names
        && Declares(edges, foreign.value.node, foreign.value.dep)
    ensures foreign.None? ==> ArcsOf(arcs, LocalGraph(names, edges)) && Recorded(names, arcs, inDegree, adj)
    ensures foreign.None? ==> arcs == AllArcs(names, edges)
  {
    hide *;
    foreign, arcs := None, [];
    inDegree := map n | n in names :: 0;
    adj := map n | n in names :: [];
    NothingRead(names, inDegree, adj);
    NoArcs(names, Name(""));
    assert edges[..0] == [];
    for i := 0 to |edges|
      invariant Recorded(names, arcs, inDegree, adj) && arcs == AllArcs(names, edges[..i])
      invariant Covers(names, arcs, edges[..i]) && (strict ==> NoneForeign(names, edges[..i]))
    {
      var e := edges[i];
      assert edges[..i + 1] == edges[..i] + [e];
      NextArcs(names, edges, i);
      if e.node in names {
        var dep;
        dep, inDegree, adj, arcs := ReadEntry(names, edges[..i], e, strict, inDegree, adj, arcs);
        if dep.Some? {
          foreign := Some(Arc(e.node, dep.value));
          NotClosed(names, edges, e, dep.value);
          return;
        }
      } else {
        StartEntry(names, arcs, edges[..i], e);
      }
    }
    assert edges[..|edges|] == edges;
    AllRead(names, arcs, edges);
  }

  ghost predicate DependenciesFirst(g: Graph, order: seq<Name>) {
    forall i, d :: 0 <= i < |order| && order[i] in g && d in g[order[i]] && d in g ==> d in order[..i]
  }

  /** The order lists the nodes by the length of their longest dependency chain. */
  ghost predicate Layered(g: Graph, order: seq<Name>) {
    forall i, j, a, b :: 0 <= i < j < |order| && LongestChain(g, order[i], a) && LongestChain(g, order[j], b) ==> a <= b
  }

  /** The names whose in-degree is zero, in the order given. */
  function Ready(names: seq<Name>, inDegree: map<Name, nat>): (ready: seq<Name>)
    requires Elems(names) <= inDegree.Keys
    ensures forall n :: n in ready <==> n in names && inDegree[n] == 0
    ensures Distinct(names) ==> Distinct(ready)
  {
    if names == [] then [] else
      var front, last := names[..|names| - 1], names[|names| - 1];
      assert names == front + [last];
      Ready(front, inDegree) + if inDegree[last] == 0 then [last] else []
  }

  /** The nodes that depend on nothing, in the order given. */
  ghost function RootsOf(g: Graph, names: seq<Name>): (roots: seq<Name>)
    requires Elems(names) <= g.Keys
    ensures forall n :: n in roots <==> n in names && g[n] == {}
  {
    if names == [] then [] else
      var front, last := names[..|names| - 1], names[|names| - 1];
      assert names == front + [last];
      RootsOf(g, front) + if g[last] == {} then [last] else []
  }

  /** Nodes that wait for nothing stand as they were given. */
  lemma {:induction false} RootsKeepOrder(g: Graph, names: seq<Name>, i: nat, j: nat) returns (a: nat, b: nat)
    requires Elems(names) <= g.Keys && i < j < |names| && g[names[i]] == {} && g[names[j]] == {}
    ensures a < b < |RootsOf(g, names)| && RootsOf(g, names)[a] == names[i] && RootsOf(g, names)[b] == names[j]
  {
    var k := |names| - 1;
    if j < k {
      a, b := RootsKeepOrder(g, names[..k], i, j);
    } else {
      a := RootAt(g, names[..k], i);
      b := |RootsOf(g, names)| - 1;
    }
  }

  lemma {:induction false} RootAt(g: Graph, names: seq<Name>, i: nat) returns (a: nat)
    requires Elems(names) <= g.Keys && i < |names| && g[names[i]] == {}
    ensures a < |RootsOf(g, names)| && RootsOf(g, names)[a] == names[i]
  {
    var k := |names| - 1;
    if i < k {
      a := RootAt(g, names[..k], i);
    } else {
      a := |RootsOf(g, names)| - 1;
    }
  }

  lemma {:induction false} ReadyAreRoots(g: Graph, arcs: seq<Arc>, names: seq<Name>, inDegree: map<Name, nat>)
    requires ArcsOf(arcs, g) && Elems(names) <= g.Keys <= inDegree.Keys
    requires forall n :: n in g ==> inDegree[n] == Pending(arcs, n, {})
    ensures Ready(names, inDegree) == RootsOf(g, names)
  {
    if names != [] {
      var front, last := names[..|names| - 1], names[|names| - 1];
      assert names == front + [last];
      ReadyAreRoots(g, arcs, front, inDegree);
      PendingIsZero(arcs, last, {});
      assert forall d :: Arc(last, d) in arcs <==> d in g[last];
    }
  }

  // ----- first come, first served -------------------------------------------------------------

  /** Where a name stands last in a list. */
  ghost function LastIn(names: seq<Name>, n: Name): (i: nat)
    requires n in names
    ensures i < |names| && names[i] == n && forall j :: i < j < |names| ==> names[j] != n
  {
    var k := |names| - 1;
    assert names == names[..k] + [names[k]];
    if names[k] == n then k else LastIn(names[..k], n)
  }

  lemma LastInIs(names: seq<Name>, n: Name, i: nat)
    requires i < |names| && names[i] == n && n !in names[i + 1..]
    ensures LastIn(names, n) == i
  {
    forall j | i < j < |names| ensures names[j] != n {
      assert names[j] == names[i + 1..][j - i - 1];
    }
    hide LastIn;
  }

  /** The last dependency of `n` to be taken stands at position k of the order. */
  ghost predicate ReleasedAt(g: Graph, order: seq<Name>, n: Name, k: nat) {
    n in g && k < |order| && order[k] in g[n] && g[n] <= Elems(order[..k + 1])
  }

  /** Of two nodes that had to wait, the one whose last dependency was taken first comes first; where one node
      releases both, they come as they were told. */
  ghost predicate FirstCome(g: Graph, arcs: seq<Arc>, order: seq<Name>) {
    forall i, j :: 0 <= i < j < |order| ==> ServedInTurn(g, arcs, order, order[i], order[j])
  }

  ghost predicate ServedInTurn(g: Graph, arcs: seq<Arc>, order: seq<Name>, m: Name, n: Name) {
    forall a: nat, b: nat :: ReleasedAt(g, order, m, a) && ReleasedAt(g, order, n, b) ==>
      a < b || (a == b && ToldBefore(arcs, order[a], m, n))
  }

  ghost predicate ToldBefore(arcs: seq<Arc>, d: Name, m: Name, n: Name) {
    var told := Dependants(arcs, d);
    m in told && n in told && LastIn(told, m) < LastIn(told, n)
  }

  /** The entry of the dictionary that makes `n` depend on `d`, the last one if there are several. */
  ghost function LastEntry(edges: seq<Edge>, n: Name, d: Name): (i: nat)
    requires Declares(edges, n, d)
    ensures i < |edges| && edges[i].node == n && d in edges[i].deps
    ensures forall j :: i < j < |edges| ==> edges[j].node != n || d !in edges[j].deps
  {
    var k := |edges| - 1;
    if edges[k].node == n && d in edges[k].deps then k else
      assert edges == edges[..k] + [edges[k]];
      DeclaresLast(edges[..k], edges[k], n, d);
      LastEntry(edges[..k], n, d)
  }

  ghost predicate EntryBefore(edges: seq<Edge>, d: Name, m: Name, n: Name) {
    Declares(edges, m, d) && Declares(edges, n, d) && LastEntry(edges, m, d) < LastEntry(edges, n, d)
  }

  lemma {:induction false} DependantsOfEntry(names: set<Name>, n: Name, deps: seq<Name>, d: Name)
    ensures forall m :: m in Dependants(KnownArcs(names, n, deps), d) ==> m == n
    ensures Dependants(KnownArcs(names, n, deps), d) != [] <==> d in names && d in deps
  {
    if deps != [] {
      var front, last := deps[..|deps| - 1], deps[|deps| - 1];
      assert deps == front + [last];
      DependantsOfEntry(names, n, front, d);
      var b := if last in names then [Arc(n, last)] else [];
      DependantsBoth(KnownArcs(names, n, front), b, d);
      OneDependant(n, last, d);
      assert KnownArcs(names, n, deps) == KnownArcs(names, n, front) + b;
      hide Dependants, KnownArcs;
    }
  }

  lemma OneDependant(n: Name, dep: Name, d: Name)
    ensures Dependants([], d) == [] && Dependants([Arc(n, dep)], d) == if dep == d then [n] else []
  {
    assert [Arc(n, dep)][..0] == [] && Dependants([], d) == [];
  }

  lemma {:induction false} DependantsBoth(a: seq<Arc>, b: seq<Arc>, d: Name)
    ensures Dependants(a + b, d) == Dependants(a, d) + Dependants(b, d)
  {
    if b == [] {
      assert a + b == a;
    } else {
      var k := |b| - 1;
      assert (a + b)[..|a + b| - 1] == a + b[..k];
      DependantsBoth(a, b[..k], d);
    }
  }

  lemma LastInBoth(a: seq<Name>, b: seq<Name>, n: Name)
    requires n in a + b
    ensures n in b ==> LastIn(a + b, n) == |a| + LastIn(b, n)
    ensures n !in b ==> n in a && LastIn(a + b, n) == LastIn(a, n)
  {
    hide LastIn;
    var i, all := LastIn(a + b, n), a + b;
    if n in b {
      assert all[|a| + LastIn(b, n)] == n;
      assert i >= |a| ==> b[i - |a|] == all[i];
    } else {
      assert i < |a| && all[LastIn(a, n)] == n;
    }
  }

  /** Of two names in a list that ends in copies of one name, the later one is that name, or both come before. */
  lemma CopiesLast(a: seq<Name>, b: seq<Name>, x: Name, m: Name, n: Name)
    requires m != n && m in a + b && n in a + b && LastIn(a + b, m) < LastIn(a + b, n) && forall y :: y in b ==> y == x
    ensures m in a && m !in b
    ensures n in b ==> n == x
    ensures n !in b ==> n in a && LastIn(a, m) < LastIn(a, n)
  {
    LastInBoth(a, b, m);
    LastInBoth(a, b, n);
    hide LastIn;
  }

  lemma LastEntryBoth(edges: seq<Edge>, e: Edge, n: Name, d: Name)
    requires Declares(edges + [e], n, d)
    ensures e.node == n && d in e.deps ==> LastEntry(edges + [e], n, d) == |edges|
    ensures Declares(edges, n, d) ==> LastEntry(edges, n, d) < |edges|
    ensures !(e.node == n && d in e.deps) ==>
      Declares(edges, n, d) && LastEntry(edges + [e], n, d) == LastEntry(edges, n, d)
  {
    DeclaresLast(edges, e, n, d);
    assert (edges + [e])[..|edges|] == edges;
    hide Declares;
  }

  /** Dependants are told in the order of their entries. */
  lemma {:induction false} ToldByEntry(names: set<Name>, edges: seq<Edge>, d: Name, m: Name, n: Name)
    requires m != n && d in names && ToldBefore(AllArcs(names, edges), d, m, n)
    ensures EntryBefore(edges, d, m, n)
    decreases |edges|
  {
    hide *;
    Told(names, edges, d, m, n);
    var front, e, a, b := LastTold(names, edges, d);
    CopiesLast(Dependants(a, d), Dependants(b, d), e.node, m, n);
    DeclaredInArcs(names, front, d, m);
    assert Dependants(b, d) != [] ==> Dependants(b, d)[0] in Dependants(b, d);
    DeclaresLast(front, e, m, d);
    DeclaresLast(front, e, n, d);
    LastEntryBoth(front, e, m, d);
    if n in Dependants(b, d) {
      LastEntryBoth(front, e, n, d);
      BeforeIs(edges, d, m, n);
    } else {
      ToldIs(a, d, m, n);
      DeclaredInArcs(names, front, d, n);
      ToldByEntry(names, front, d, m, n);
      BeforeIs(front, d, m, n);
      LastEntryBoth(front, e, n, d);
      BeforeIs(edges, d, m, n);
    }
  }

  /** Of two nodes that had to wait, the one whose last dependency was taken first comes first; where one node
      releases both, the one comes first whose entry comes first in the dictionary. */
  ghost predicate InEntryOrder(g: Graph, edges: seq<Edge>, order: seq<Name>) {
    forall i, j :: 0 <= i < j < |order| ==> ServedByEntry(g, edges, order, order[i], order[j])
  }

  ghost predicate ServedByEntry(g: Graph, edges: seq<Edge>, order: seq<Name>, m: Name, n: Name) {
    forall a: nat, b: nat :: ReleasedAt(g, order, m, a) && ReleasedAt(g, order, n, b) ==>
      a < b || (a == b && EntryBefore(edges, order[a], m, n))
  }

  lemma InTurnByEntry(names: set<Name>, edges: seq<Edge>, g: Graph, order: seq<Name>, m: Name, n: Name)
    requires ServedInTurn(g, AllArcs(names, edges), order, m, n) && m != n && Elems(order) <= names
    ensures ServedByEntry(g, edges, order, m, n)
  {
    hide AllArcs, ToldBefore, EntryBefore;
    forall a: nat, b: nat | ReleasedAt(g, order, m, a) && ReleasedAt(g, order, n, b)
      ensures a < b || (a == b && EntryBefore(edges, order[a], m, n))
    {
      assert order[a] in Elems(order);
      if a >= b {
        ToldByEntry(names, edges, order[a], m, n);
      }
    }
  }

  lemma FirstComeByEntry(names: set<Name>, edges: seq<Edge>, g: Graph, order: seq<Name>)
    requires FirstCome(g, AllArcs(names, edges), order) && Distinct(order) && Elems(order) <= names
    ensures InEntryOrder(g, edges, order)
  {
    hide AllArcs, ServedInTurn, ServedByEntry, Elems;
    forall i, j | 0 <= i < j < |order| ensures ServedByEntry(g, edges, order, order[i], order[j]) {
      InTurnByEntry(names, edges, g, order, order[i], order[j]);
    }
  }

  lemma Told(names: set<Name>, edges: seq<Edge>, d: Name, m: Name, n: Name)
    requires ToldBefore(AllArcs(names, edges), d, m, n)
    ensures
      var told := Dependants(AllArcs(names, edges), d);
      edges != [] && m in told && n in told && LastIn(told, m) < LastIn(told, n)
  {
    hide LastIn;
  }

  lemma ToldIs(arcs: seq<Arc>, d: Name, m: Name, n: Name)
    ensures ToldBefore(arcs, d, m, n) <==>
      var told := Dependants(arcs, d);
      m in told && n in told && LastIn(told, m) < LastIn(told, n)
  {
    hide LastIn, Dependants;
  }

  lemma BeforeIs(edges: seq<Edge>, d: Name, m: Name, n: Name)
    ensures EntryBefore(edges, d, m, n) <==>
      Declares(edges, m, d) && Declares(edges, n, d) && LastEntry(edges, m, d) < LastEntry(edges, n, d)
  {
    hide LastEntry, Declares;
  }

  /** What the last entry of the dictionary adds. */
  lemma LastTold(names: set<Name>, edges: seq<Edge>, d: Name)
    returns (front: seq<Edge>, e: Edge, a: seq<Arc>, b: seq<Arc>)
    requires edges != [] && d in names
    ensures edges == front + [e] && a == AllArcs(names, front)
    ensures Dependants(AllArcs(names, edges), d) == Dependants(a, d) + Dependants(b, d)
    ensures forall x :: x in Dependants(b, d) ==> x == e.node && d in e.deps
    ensures Dependants(b, d) == [] <==> e.node !in names || d !in e.deps
  {
    front, e := edges[..|edges| - 1], edges[|edges| - 1];
    a, b := AllArcs(names, front), if e.node in names then KnownArcs(names, e.node, e.deps) else [];
    DependantsBoth(a, b, d);
    DependantsOfEntry(names, e.node, e.deps, d);
    assert Dependants([], d) == [];
    hide KnownArcs;
  }

  lemma {:induction false} DeclaredInArcs(names: set<Name>, edges: seq<Edge>, d: Name, n: Name)
    requires d in names && n in Dependants(AllArcs(names, edges), d)
    ensures Declares(edges, n, d) && n in names
    decreases |edges|
  {
    if edges != [] {
      var front, e, a, b := LastTold(names, edges, d);
      hide Dependants, AllArcs, Declares;
      DeclaresLast(front, e, n, d);
      if n in Dependants(a, d) {
        DeclaredInArcs(names, front, d, n);
      }
    }
  }

  /** What the queue loop knows of it: which taken node released each node that had to wait. */
  ghost predicate Released(g: Graph, arcs: seq<Arc>, taken: nat, seen: seq<Name>, freed: map<Name, nat>) {
    && (forall n :: n in seen && n in g && g[n] != {} ==> n in freed)
    && (forall n :: n in freed ==> n in seen && freed[n] < taken && ReleasedAt(g, seen, n, freed[n]))
    && (forall i, j ::
      0 <= i < j < |seen| && seen[i] in freed && seen[j] in freed ==> InTurn(arcs, seen, freed, seen[i], seen[j]))
  }

  ghost predicate InTurn(arcs: seq<Arc>, seen: seq<Name>, freed: map<Name, nat>, m: Name, n: Name) {
    && m in freed && n in freed && freed[m] < |seen| && freed[n] < |seen|
    && (freed[m] < freed[n] || (freed[m] == freed[n] && ToldBefore(arcs, seen[freed[m]], m, n)))
  }

  /** Of the nodes released by the one taken last, only those told so far. */
  ghost predicate ToldSoFar(nbrs: seq<Name>, j: nat, k: nat, freed: map<Name, nat>) {
    forall n :: n in freed && freed[n] == k ==> n in nbrs && LastIn(nbrs, n) < j
  }

  lemma NobodyWaits(g: Graph, arcs: seq<Arc>, roots: seq<Name>)
    requires forall n :: n in roots ==> n in g && g[n] == {}
    ensures Released(g, arcs, 0, roots, map[])
  {
  }

  lemma NobodyTold(g: Graph, arcs: seq<Arc>, taken: nat, seen: seq<Name>, freed: map<Name, nat>, nbrs: seq<Name>)
    requires Released(g, arcs, taken, seen, freed)
    ensures Released(g, arcs, taken + 1, seen, freed) && ToldSoFar(nbrs, 0, taken, freed)
  {
    hide ReleasedAt, InTurn;
  }

  /** A node that is not released by the neighbour just told. */
  lemma OneToldMore(nbrs: seq<Name>, j: nat, k: nat, freed: map<Name, nat>)
    requires ToldSoFar(nbrs, j, k, freed)
    ensures ToldSoFar(nbrs, j + 1, k, freed)
  {
  }

  lemma ReleasedLater(g: Graph, seen: seq<Name>, n: Name, m: Name, k: nat)
    requires ReleasedAt(g, seen, m, k)
    ensures ReleasedAt(g, seen + [n], m, k)
  {
    assert (seen + [n])[..k + 1] == seen[..k + 1];
  }

  /** The neighbour at position j is released by `name`, the node taken last. */
  lemma ReleaseOne(g: Graph, arcs: seq<Arc>, order: seq<Name>, name: Name, seen: seq<Name>, freed: map<Name, nat>,
                   nbrs: seq<Name>, j: nat)
    requires Released(g, arcs, |order| + 1, seen, freed) && order + [name] <= seen && nbrs == Dependants(arcs, name)
    requires j < |nbrs| && ToldSoFar(nbrs, j, |order|, freed) && nbrs[j] !in nbrs[j + 1..] && nbrs[j] !in seen
    requires nbrs[j] in g && name in g[nbrs[j]] && g[nbrs[j]] <= Elems(order + [name])
    ensures Released(g, arcs, |order| + 1, seen + [nbrs[j]], freed[nbrs[j] := |order|])
    ensures ToldSoFar(nbrs, j + 1, |order|, freed[nbrs[j] := |order|])
  {
    var n, k := nbrs[j], |order|;
    var seen', freed' := seen + [n], freed[n := k];
    LastInIs(nbrs, n, j);
    NowReleased(g, order, name, seen, n);
    hide LastIn, Dependants, ReleasedAt, ToldBefore;
    forall m | m in freed' ensures m in seen' && freed'[m] < k + 1 && ReleasedAt(g, seen', m, freed'[m]) {
      if m != n {
        ReleasedLater(g, seen, n, m, freed[m]);
      }
    }
    forall i, l | 0 <= i < l < |seen'| && seen'[i] in freed' && seen'[l] in freed'
      ensures InTurn(arcs, seen', freed', seen'[i], seen'[l])
    {
      assert seen'[i] == seen[i] && seen[i] != n;
      if l < |seen| {
        StillInTurn(arcs, seen, freed, seen[i], seen[l], n, k);
      } else {
        LastInTurn(arcs, order, name, seen, freed, nbrs, j, seen[i]);
      }
    }
  }

  lemma NowReleased(g: Graph, order: seq<Name>, name: Name, seen: seq<Name>, n: Name)
    requires order + [name] <= seen && n in g && name in g[n] && g[n] <= Elems(order + [name])
    ensures ReleasedAt(g, seen + [n], n, |order|)
  {
    var longer := seen + [n];
    assert longer[..|order| + 1] == order + [name] && longer[|order|] == name;
  }

  lemma StillInTurn(arcs: seq<Arc>, seen: seq<Name>, freed: map<Name, nat>, m: Name, l: Name, n: Name, k: nat)
    requires InTurn(arcs, seen, freed, m, l) && m != n && l != n
    ensures InTurn(arcs, seen + [n], freed[n := k], m, l)
  {
    hide ToldBefore;
  }

  lemma LastInTurn(arcs: seq<Arc>, order: seq<Name>, name: Name, seen: seq<Name>, freed: map<Name, nat>,
                   nbrs: seq<Name>, j: nat, m: Name)
    requires order + [name] <= seen && nbrs == Dependants(arcs, name) && j < |nbrs| && m in freed && m != nbrs[j]
    requires freed[m] <= |order| && ToldSoFar(nbrs, j, |order|, freed) && LastIn(nbrs, nbrs[j]) == j
    ensures InTurn(arcs, seen + [nbrs[j]], freed[nbrs[j] := |order|], m, nbrs[j])
  {
    assert (seen + [nbrs[j]])[|order|] == (order + [name])[|order|] == name;
    hide LastIn, Dependants;
  }

  lemma ReleasedOnce(g: Graph, order: seq<Name>, n: Name, a: nat, b: nat)
    requires Distinct(order) && ReleasedAt(g, order, n, a) && ReleasedAt(g, order, n, b)
    ensures a == b
  {
    assert order[a] in order[..b + 1] && order[b] in order[..a + 1];
  }

  lemma AllInTurn(g: Graph, arcs: seq<Arc>, taken: nat, order: seq<Name>, freed: map<Name, nat>)
    requires Released(g, arcs, taken, order, freed) && Distinct(order)
    ensures FirstCome(g, arcs, order)
  {
    forall i, j | 0 <= i < j < |order| ensures ServedInTurn(g, arcs, order, order[i], order[j]) {
      forall a: nat, b: nat | ReleasedAt(g, order, order[i], a) && ReleasedAt(g, order, order[j], b)
        ensures a < b || (a == b && ToldBefore(arcs, order[a], order[i], order[j]))
      {
        WasFreed(g, arcs, taken, order, freed, order[i], a);
        WasFreed(g, arcs, taken, order, freed, order[j], b);
        hide ReleasedAt, ToldBefore, Distinct;
        assert InTurn(arcs, order, freed, order[i], order[j]);
      }
    }
  }

  lemma WasFreed(g: Graph, arcs: seq<Arc>, taken: nat, order: seq<Name>, freed: map<Name, nat>, n: Name, a: nat)
    requires Released(g, arcs, taken, order, freed) && Distinct(order) && n in order && ReleasedAt(g, order, n, a)
    ensures n in freed && freed[n] == a
  {
    hide InTurn;
    assert g[n] != {};
    ReleasedOnce(g, order, n, a, freed[n]);
  }

  ghost predicate Above(g: Graph, depth: map<Name, nat>, n: Name) {
    n in g && n in depth && exists d :: d in g[n] && d in depth && depth[d] + 1 == depth[n]
  }

  /** `seen` is everything ever queued, `done` the nodes already taken from the queue. */
  ghost predicate Queued(g: Graph, done: set<Name>, seen: seq<Name>) {
    && Distinct(seen)
    && (forall n :: n in done ==> n in seen)
    && (forall n :: n in seen ==> n in g && g[n] <= done)
  }

  /** The depth of every queued node is tight, and the queue never goes back up. */
  ghost predicate Depths(g: Graph, seen: seq<Name>, depth: map<Name, nat>) {
    && (forall n :: n in depth <==> n in seen)
    && (forall n, d :: n in seen && n in g && d in g[n] ==> d in depth && depth[d] < depth[n])
    && (forall n {:trigger Above(g, depth, n)} :: n in seen && depth[n] > 0 ==> Above(g, depth, n))
    && (forall i, j :: 0 <= i < j < |seen| ==> depth[seen[i]] <= depth[seen[j]])
  }

  ghost predicate NoDeeper(seen: seq<Name>, depth: map<Name, nat>, k: nat) {
    forall n :: n in seen ==> n in depth && depth[n] <= k
  }

  /** Queueing a node whose last open dependency, `name`, was just taken. */
  lemma Enqueue(g: Graph, seen: seq<Name>, depth: map<Name, nat>, name: Name, n: Name)
    requires Depths(g, seen, depth) && name in seen && n in g && n !in seen
    requires name in g[n] && forall d :: d in g[n] ==> d in seen && depth[d] <= depth[name]
    requires NoDeeper(seen, depth, depth[name] + 1)
    ensures Depths(g, seen + [n], depth[n := depth[name] + 1])
    ensures NoDeeper(seen + [n], depth[n := depth[name] + 1], depth[name] + 1)
  {
    var depth', seen' := depth[n := depth[name] + 1], seen + [n];
    forall m | m in seen' && depth'[m] > 0 ensures Above(g, depth', m) {
      if m != n {
        assert Above(g, depth, m);
      }
    }
  }

  /** The queue is sorted by depth, so what left it before `name` is no deeper. */
  lemma TakenBefore(g: Graph, order: seq<Name>, name: Name, seen: seq<Name>, depth: map<Name, nat>)
    requires Depths(g, seen, depth) && order + [name] <= seen && name in depth
    ensures forall d :: d in Elems(order + [name]) ==> d in depth && depth[d] <= depth[name]
  {
    forall d | d in order + [name] ensures d in depth && depth[d] <= depth[name] {
      var i :| 0 <= i <= |order| && (order + [name])[i] == d;
      assert seen[i] == d && seen[|order|] == name;
    }
  }

  lemma AllOrdered(g: Graph, order: seq<Name>, depth: map<Name, nat>)
    requires Closed(g) && Depths(g, order, depth) && Elems(order) == g.Keys
    ensures !Cyclic(g) && Layered(g, order)
  {
    forall n | n in g && depth[n] > 0 ensures StepsDown(g, depth, n) {
      assert Above(g, depth, n);
    }
    RankedIsAcyclic(g, depth);
    forall i, a | 0 <= i < |order| && LongestChain(g, order[i], a) ensures a == depth[order[i]] {
      TightRankIsLongestChain(g, depth, order[i]);
    }
  }

  lemma SomeStuck(g: Graph, arcs: seq<Arc>, done: set<Name>)
    requires Closed(g) && ArcsOf(arcs, g) && done < g.Keys
    requires forall n :: n in g && n !in done ==> Pending(arcs, n, done) > 0
    ensures Cyclic(g)
  {
    var stuck := g.Keys - done;
    forall n | n in stuck ensures WaitsFor(g, stuck, n) {
      PendingIsZero(arcs, n, done);
    }
    StuckSetIsCyclic(g, stuck);
  }

  /** When the queue runs dry, either everything was ordered or the rest is stuck on a cycle. */
  lemma Drained(g: Graph, arcs: seq<Arc>, done: set<Name>, order: seq<Name>, depth: map<Name, nat>)
    requires Closed(g) && ArcsOf(arcs, g) && Queued(g, done, order) && Depths(g, order, depth)
    requires forall n :: n in order ==> n in done
    requires forall n :: n in g && n !in order ==> Pending(arcs, n, done) > 0
    ensures done == g.Keys <==> !Cyclic(g)
    ensures done == g.Keys ==> Layered(g, order)
  {
    assert Elems(order) == done <= g.Keys;
    hide Queued, Depths, Cyclic, Layered, Closed, ArcsOf, Pending;
    if done == g.Keys {
      AllOrdered(g, order, depth);
    } else {
      SomeStuck(g, arcs, done);
    }
  }

  /** The state of the queue loop, and of its inner loop while the dependants in `rest`
      still have to be told that their dependency is done. */
  ghost predicate Loop(g: Graph, arcs: seq<Arc>, done: set<Name>, seen: seq<Name>, inDegree: map<Name, nat>,
                       rest: seq<Name>) {
    && inDegree.Keys == g.Keys
    && Queued(g, done, seen)
    && (forall n :: n in g ==> inDegree[n] == Pending(arcs, n, done) + multiset(rest)[n])
    && (forall n :: n in g ==> (n in seen <==> inDegree[n] == 0))
  }

  lemma TakeNode(g: Graph, arcs: seq<Arc>, done: set<Name>, seen: seq<Name>, inDegree: map<Name, nat>, name: Name)
    requires Loop(g, arcs, done, seen, inDegree, []) && name in seen && name !in done
    ensures Loop(g, arcs, done + {name}, seen, inDegree, Dependants(arcs, name))
  {
    forall n { FinishingOne(arcs, n, done, name); }
  }

  /** Telling one dependant: it is queued when that was its last open dependency. */
  lemma TellDependant(g: Graph, arcs: seq<Arc>, done: set<Name>, seen: seq<Name>, inDegree: map<Name, nat>, n: Name,
                      rest: seq<Name>)
    requires ArcsOf(arcs, g) && Loop(g, arcs, done, seen, inDegree, [n] + rest) && n in g
    ensures inDegree[n] > 0 && n !in seen
    ensures inDegree[n] == 1 ==> g[n] <= done && Loop(g, arcs, done, seen + [n], inDegree[n := 0], rest)
    ensures inDegree[n] > 1 ==> Loop(g, arcs, done, seen, inDegree[n := inDegree[n] - 1], rest)
  {
    var inDegree' := inDegree[n := inDegree[n] - 1];
    assert forall m :: multiset([n] + rest)[m] == multiset(rest)[m] + if m == n then 1 else 0;
    assert forall m :: m in g ==> inDegree'[m] == Pending(arcs, m, done) + multiset(rest)[m];
    if inDegree[n] == 1 {
      PendingIsZero(arcs, n, done);
      forall d | d in g[n] ensures d in done {
        assert Arc(n, d) in arcs;
      }
    }
  }

  /** What the queue loop knows: `order` was taken from the queue, the rest of `seen` is in it. */
  ghost predicate Running(g: Graph, arcs: seq<Arc>, order: seq<Name>, seen: seq<Name>,
                          inDegree: map<Name, nat>, rest: seq<Name>, depth: map<Name, nat>) {
    && order <= seen
    && Loop(g, arcs, Elems(order), seen, inDegree, rest)
    && Depths(g, seen, depth)
    && DependenciesFirst(g, order)
  }

  ghost predicate HeadIsLow(order: seq<Name>, seen: seq<Name>, depth: map<Name, nat>) {
    order < seen ==> seen[|order|] in depth && NoDeeper(seen, depth, depth[seen[|order|]] + 1)
  }

  lemma Start(g: Graph, arcs: seq<Arc>, names: seq<Name>, inDegree: map<Name, nat>, adj: map<Name, seq<Name>>)
    requires Distinct(names) && g.Keys == Elems(names) && ArcsOf(arcs, g) && Recorded(g.Keys, arcs, inDegree, adj)
    ensures
      var queue := Ready(names, inDegree);
      var depth := map n | n in queue :: 0;
      Running(g, arcs, [], queue, inDegree, [], depth) && HeadIsLow([], queue, depth)
  {
    var queue := Ready(names, inDegree);
    forall n | n in g ensures inDegree[n] == 0 <==> g[n] == {} {
      PendingIsZero(arcs, n, {});
      assert forall d :: Arc(n, d) in arcs <==> d in g[n];
    }
    assert Elems<Name>([]) == {};
  }

  lemma FirstInQueue(order: seq<Name>, seen: seq<Name>)
    requires Distinct(seen) && order < seen
    ensures seen[|order|] !in order
  {
  }

  lemma {:induction false} OneMoreFirst(g: Graph, order: seq<Name>, name: Name)
    requires DependenciesFirst(g, order) && name in g && g[name] <= Elems(order)
    ensures DependenciesFirst(g, order + [name])
  {
    var longer := order + [name];
    forall i, d | 0 <= i < |longer| && longer[i] in g && d in g[longer[i]] && d in g ensures d in longer[..i] {
      assert longer[..i] == order[..i];
      if i == |order| {
        assert d in Elems(order) && order[..i] == order;
      }
    }
  }

  lemma Take(g: Graph, arcs: seq<Arc>, order: seq<Name>, seen: seq<Name>, inDegree: map<Name, nat>,
             depth: map<Name, nat>, adj: map<Name, seq<Name>>)
    requires Running(g, arcs, order, seen, inDegree, [], depth) && order < seen && HeadIsLow(order, seen, depth)
    requires adj.Keys == g.Keys && forall n :: n in g ==> adj[n] == Dependants(arcs, n)
    ensures
      var name := seen[|order|];
      && name in g && g.Keys - Elems(order + [name]) < g.Keys - Elems(order)
      && adj[name] == Dependants(arcs, name)
      && Running(g, arcs, order + [name], seen, inDegree, adj[name], depth)
      && name in depth && NoDeeper(seen, depth, depth[name] + 1)
  {
    hide Loop, Depths, DependenciesFirst, NoDeeper, Elems;
    var name := seen[|order|];
    HeadIsReady(g, arcs, order, seen, inDegree);
    TakeNode(g, arcs, Elems(order), seen, inDegree, name);
    ElemsSnoc(order, name);
    OneMoreFirst(g, order, name);
  }

  lemma HeadIsReady(g: Graph, arcs: seq<Arc>, order: seq<Name>, seen: seq<Name>, inDegree: map<Name, nat>)
    requires Loop(g, arcs, Elems(order), seen, inDegree, []) && order < seen
    ensures
      var name := seen[|order|];
      name in g && name in seen && name !in Elems(order) && g[name] <= Elems(order)
  {
    FirstInQueue(order, seen);
  }

  lemma ElemsSnoc(order: seq<Name>, name: Name)
    ensures Elems(order + [name]) == Elems(order) + {name}
  {
  }

  /** The dependant `n` still waits for another node. */
  lemma TellWaiting(g: Graph, arcs: seq<Arc>, order: seq<Name>, seen: seq<Name>, inDegree: map<Name, nat>, n: Name,
                    rest: seq<Name>, depth: map<Name, nat>)
    requires ArcsOf(arcs, g) && Running(g, arcs, order, seen, inDegree, [n] + rest, depth)
    requires n in inDegree && inDegree[n] != 1
    ensures inDegree[n] > 0 && Running(g, arcs, order, seen, inDegree[n := inDegree[n] - 1], rest, depth)
  {
    TellDependant(g, arcs, Elems(order), seen, inDegree, n, rest);
  }

  /** The dependant `n` waited for nothing else: it is queued one level below. */
  lemma QueueReady(g: Graph, arcs: seq<Arc>, taken: seq<Name>, name: Name, seen: seq<Name>, inDegree: map<Name, nat>,
                   n: Name, rest: seq<Name>, depth: map<Name, nat>)
    requires ArcsOf(arcs, g) && Running(g, arcs, taken, seen, inDegree, [n] + rest, depth)
    requires n in g && name in g[n] && inDegree[n] == 1
    requires name in taken && forall d :: d in Elems(taken) ==> d in depth && depth[d] <= depth[name]
    requires NoDeeper(seen, depth, depth[name] + 1)
    ensures Running(g, arcs, taken, seen + [n], inDegree[n := 0], rest, depth[n := depth[name] + 1])
    ensures n !in seen && name in seen && NoDeeper(seen + [n], depth[n := depth[name] + 1], depth[name] + 1)
  {
    assert name in seen;
    TellDependant(g, arcs, Elems(taken), seen, inDegree, n, rest);
    hide Loop, Depths, DependenciesFirst, ArcsOf, NoDeeper;
    Enqueue(g, seen, depth, name, n);
  }

  /** A node whose last open dependency is told is not told again, and has not been queued. */
  lemma ReleasedByLast(g: Graph, arcs: seq<Arc>, done: set<Name>, seen: seq<Name>, inDegree: map<Name, nat>, n: Name,
                       rest: seq<Name>)
    requires ArcsOf(arcs, g) && Loop(g, arcs, done, seen, inDegree, [n] + rest) && n in g && inDegree[n] == 1
    ensures n !in rest && n !in seen && g[n] <= done
  {
    TellDependant(g, arcs, done, seen, inDegree, n, rest);
    assert multiset([n] + rest)[n] == multiset(rest)[n] + 1;
  }

  lemma TellReady(g: Graph, arcs: seq<Arc>, order: seq<Name>, name: Name, seen: seq<Name>, inDegree: map<Name, nat>,
                  n: Name, rest: seq<Name>, depth: map<Name, nat>)
    requires ArcsOf(arcs, g) && Running(g, arcs, order + [name], seen, inDegree, [n] + rest, depth)
    requires n in inDegree && inDegree[n] == 1 && n in Dependants(arcs, name)
    requires name in depth && NoDeeper(seen, depth, depth[name] + 1)
    ensures Running(g, arcs, order + [name], seen + [n], inDegree[n := 0], rest, depth[n := depth[name] + 1])
    ensures n != name && NoDeeper(seen + [n], depth[n := depth[name] + 1], depth[name] + 1)
    ensures n !in rest && n !in seen && n in g && name in g[n] && g[n] <= Elems(order + [name])
  {
    DependantsAre(arcs, name, n);
    ReleasedByLast(g, arcs, Elems(order + [name]), seen, inDegree, n, rest);
    TakenBefore(g, order, name, seen, depth);
    assert n in g && name in g[n] && name in order + [name];
    hide *;
    QueueReady(g, arcs, order + [name], name, seen, inDegree, n, rest, depth);
  }

  lemma Tracked(g: Graph, arcs: seq<Arc>, order: seq<Name>, seen: seq<Name>, inDegree: map<Name, nat>, n: Name,
                rest: seq<Name>, depth: map<Name, nat>, name: Name)
    requires ArcsOf(arcs, g) && Running(g, arcs, order, seen, inDegree, [n] + rest, depth)
      && n in Dependants(arcs, name)
    ensures n in inDegree && inDegree[n] > 0
  {
    DependantsAre(arcs, name, n);
    TellDependant(g, arcs, Elems(order), seen, inDegree, n, rest);
  }

  /** Tells every dependant of the node just taken that this dependency is done. */
  method TellDependants(ghost g: Graph, ghost arcs: seq<Arc>, ghost order: seq<Name>, name: Name, nbrs: seq<Name>,
                        queue0: seq<Name>, inDegree0: map<Name, nat>, ghost seen0: seq<Name>,
                        ghost depth0: map<Name, nat>, ghost freed0: map<Name, nat>)
    returns (queue: seq<Name>, inDegree: map<Name, nat>, ghost seen: seq<Name>, ghost depth: map<Name, nat>,
             ghost freed: map<Name, nat>)
    requires ArcsOf(arcs, g) && nbrs == Dependants(arcs, name) && name in depth0
    requires Running(g, arcs, order + [name], seen0, inDegree0, nbrs, depth0) && seen0 == order + [name] + queue0
    requires NoDeeper(seen0, depth0, depth0[name] + 1) && Released(g, arcs, |order|, seen0, freed0)
    ensures Running(g, arcs, order + [name], seen, inDegree, [], depth) && seen == order + [name] + queue
    ensures Released(g, arcs, |order| + 1, seen, freed)
    ensures seen0 <= seen
    ensures name in depth && NoDeeper(seen, depth, depth[name] + 1)
  {
    hide Running, NoDeeper, ArcsOf, Released, ToldSoFar, LastIn, Dependants;
    queue, inDegree, seen, depth, freed := queue0, inDegree0, seen0, depth0, freed0;
    NobodyTold(g, arcs, |order|, seen, freed, nbrs);
    assert nbrs[0..] == nbrs;
    for j := 0 to |nbrs|
      invariant Running(g, arcs, order + [name], seen, inDegree, nbrs[j..], depth)
      invariant name in depth && NoDeeper(seen, depth, depth[name] + 1)
      invariant seen0 <= seen && seen == order + [name] + queue
      invariant Released(g, arcs, |order| + 1, seen, freed) && ToldSoFar(nbrs, j, |order|, freed)
    {
      var n := nbrs[j];
      assert nbrs[j..] == [n] + nbrs[j + 1..];
      Tracked(g, arcs, order + [name], seen, inDegree, n, nbrs[j + 1..], depth, name);
      if inDegree[n] - 1 == 0 {
        TellReady(g, arcs, order, name, seen, inDegree, n, nbrs[j + 1..], depth);
        ReleaseOne(g, arcs, order, name, seen, freed, nbrs, j);
        freed := freed[n := |order|];
        inDegree, queue := inDegree[n := 0], queue + [n];
        seen, depth := seen + [n], depth[n := depth[name] + 1];
      } else {
        TellWaiting(g, arcs, order + [name], seen, inDegree, n, nbrs[j + 1..], depth);
        OneToldMore(nbrs, j, |order|, freed);
        inDegree := inDegree[n := inDegree[n] - 1];
      }
    }
  }

  /** The nodes behind the head of the queue are at most one level deeper. */
  lemma NextHead(g: Graph, arcs: seq<Arc>, order: seq<Name>, name: Name, seen: seq<Name>, inDegree: map<Name, nat>,
                 depth: map<Name, nat>)
    requires Running(g, arcs, order + [name], seen, inDegree, [], depth)
    requires name in depth && NoDeeper(seen, depth, depth[name] + 1)
    ensures HeadIsLow(order + [name], seen, depth)
  {
    if |order| + 1 < |seen| {
      assert seen[|order|] == name;
    }
  }

  lemma Finished(g: Graph, arcs: seq<Arc>, names: seq<Name>, order: seq<Name>, inDegree: map<Name, nat>,
                 depth: map<Name, nat>)
    requires Distinct(names) && g.Keys == Elems(names) && Closed(g) && ArcsOf(arcs, g)
    requires Running(g, arcs, order, order, inDegree, [], depth)
    ensures Distinct(order) && Elems(order) <= g.Keys && DependenciesFirst(g, order)
    ensures |order| == |names| <==> Elems(order) == g.Keys
    ensures |order| == |names| <==> !Cyclic(g)
    ensures |order| == |names| ==> Layered(g, order)
  {
    Drained(g, arcs, Elems(order), order, depth);
    DistinctSize(order);
    DistinctSize(names);
    if Elems(order) != g.Keys {
      SmallerSet(Elems(order), g.Keys);
    }
  }

  lemma HeadOf(order: seq<Name>, queue: seq<Name>)
    requires queue != []
    ensures order < order + queue && (order + queue)[|order|] == queue[0]
    ensures order + queue == order + [queue[0]] + queue[1..]
  {
  }

  /** Takes nodes from the queue until it is empty. */
  method Serve(ghost g: Graph, ghost arcs: seq<Arc>, queue0: seq<Name>, inDegree0: map<Name, nat>,
               adj: map<Name, seq<Name>>, ghost depth0: map<Name, nat>)
    returns (order: seq<Name>, inDegree: map<Name, nat>, ghost depth: map<Name, nat>, ghost freed: map<Name, nat>)
    requires ArcsOf(arcs, g) && Running(g, arcs, [], queue0, inDegree0, [], depth0) && HeadIsLow([], queue0, depth0)
    requires Released(g, arcs, 0, queue0, map[])
    requires adj.Keys == g.Keys && forall n :: n in g ==> adj[n] == Dependants(arcs, n)
    ensures Running(g, arcs, order, order, inDegree, [], depth) && Released(g, arcs, |order|, order, freed)
    ensures queue0 <= order
  {
    var queue := queue0;
    order, inDegree, depth, freed := [], inDegree0, depth0, map[];
    ghost var seen := queue;
    hide *;
    while queue != []
      invariant seen == order + queue
      invariant Running(g, arcs, order, seen, inDegree, [], depth)
      invariant HeadIsLow(order, seen, depth) && Released(g, arcs, |order|, seen, freed)
      invariant queue0 <= seen
      decreases g.Keys - Elems(order)
    {
      var name := queue[0];
      HeadOf(order, queue);
      Take(g, arcs, order, seen, inDegree, depth, adj);
      queue, inDegree, seen, depth, freed :=
        TellDependants(g, arcs, order, name, adj[name], queue[1..], inDegree, seen, depth, freed);
      NextHead(g, arcs, order, name, seen, inDegree, depth);
      order := order + [name];
    }
    assert seen == order;
  }

  /** The queue loop, started on the nodes without open dependencies. */
  method Drain(ghost g: Graph, ghost arcs: seq<Arc>, names: seq<Name>, inDegree0: map<Name, nat>,
               adj: map<Name, seq<Name>>)
    returns (order: seq<Name>)
    requires Distinct(names) && g.Keys == Elems(names) && Closed(g) && ArcsOf(arcs, g)
    requires Recorded(g.Keys, arcs, inDegree0, adj)
    ensures Distinct(order) && Elems(order) <= g.Keys
    ensures DependenciesFirst(g, order)
    ensures |order| == |names| <==> Elems(order) == g.Keys
    ensures |order| == |names| <==> !Cyclic(g)
    ensures |order| == |names| ==> Layered(g, order)
    ensures RootsOf(g, names) <= order && FirstCome(g, arcs, order)
  {
    var queue := Ready(names, inDegree0);
    ReadyAreRoots(g, arcs, names, inDegree0);
    Start(g, arcs, names, inDegree0, adj);
    var inDegree;
    ghost var depth, freed;
    NobodyWaits(g, arcs, queue);
    order, inDegree, depth, freed := Serve(g, arcs, queue, inDegree0, adj, map n | n in queue :: 0);
    Finished(g, arcs, names, order, inDegree, depth);
    AllInTurn(g, arcs, |order|, order, freed);
  }

  lemma SmallerSet<T>(a: set<T>, b: set<T>)
    requires a < b
    ensures |a| < |b|
  {
    assert b == a + (b - a);
  }
}
