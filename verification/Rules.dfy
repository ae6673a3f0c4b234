/** The structural composition rules: termination (Rule 3) and reachability (Rule 4). */
module Rules {
  import opened Wrappers
  import opened Graphs
  import opened Kahn
  import opened Capsules
  import Scheduler

  type Verdict = Result<(), CompositionError>

  ghost function ChildNames(c: Capsule): set<Name>
    requires c.Compound?
  {
    Elems(Names(c.children))
  }

  /** The dependencies among the children of one compound. */
  ghost function ChildGraph(c: Capsule): Graph
    requires c.Compound?
  {
    LocalGraph(ChildNames(c), c.edges)
  }

  ghost predicate LevelTerminates(c: Capsule)
    requires c.Compound?
  {
    Closed(EdgeGraph(ChildNames(c), c.edges)) && !Cyclic(ChildGraph(c))
  }

  /** Rule 3 for a compound and everything nested in it. */
  ghost predicate Terminates(c: Capsule)
    requires c.Compound?
  {
    LevelTerminates(c) && forall d :: d in c.children && d.Compound? ==> Terminates(d)
  }

  /** A chain of dependencies leads from `n` to an entry point. */
  ghost predicate HasEntry(g: Graph, n: Name) {
    exists p :: Path(g, p) && p[0] == n && IsRoot(g, p[|p| - 1])
  }

  ghost predicate LevelReachable(c: Capsule)
    requires c.Compound?
  {
    forall n :: n in ChildNames(c) ==> HasEntry(ChildGraph(c), n)
  }

  /** Rule 4 for a compound and everything nested in it. */
  ghost predicate AllReachable(c: Capsule)
    requires c.Compound?
  {
    LevelReachable(c) && forall d :: d in c.children && d.Compound? ==> AllReachable(d)
  }

  /** What the rules read off a compound: a child depends on what any entry of its name lists, if that is a child. */
  lemma ChildGraphIs(c: Capsule, n: Name, d: Name)
    requires c.Compound?
    ensures
      var g := ChildGraph(c);
      && (n in g <==> exists i :: 0 <= i < |c.children| && c.children[i].name == n)
      && (n in g && d in g[n] <==>
            n in ChildNames(c) && d in ChildNames(c) && exists i :: 0 <= i < |c.edges| && ListedAt(c.edges, i, n, d))
  {
    var names := Names(c.children);
    assert n in ChildNames(c) <==> exists i :: 0 <= i < |names| && names[i] == n;
    if Declares(c.edges, n, d) {
      var e :| e in c.edges && e.node == n && d in e.deps;
      var i :| 0 <= i < |c.edges| && c.edges[i] == e;
      assert ListedAt(c.edges, i, n, d);
    }
    if i :| 0 <= i < |c.edges| && ListedAt(c.edges, i, n, d) {
      assert c.edges[i] in c.edges && Declares(c.edges, n, d);
    }
  }

  ghost predicate ListedAt(edges: seq<Edge>, i: int, n: Name, d: Name) {
    0 <= i < |edges| && edges[i].node == n && exists j :: 0 <= j < |edges[i].deps| && edges[i].deps[j] == d
  }

  /** Rule 3 lets no child list anything but children, and no chain of dependencies come back to where it began. */
  lemma TerminatingLevel(c: Capsule, p: seq<Name>)
    requires c.Compound? && LevelTerminates(c)
    ensures forall i, n, d ::
      0 <= i < |c.edges| && ListedAt(c.edges, i, n, d) && n in ChildNames(c) ==> d in ChildNames(c)
    ensures Path(ChildGraph(c), p) && |p| > 1 ==> p[0] != p[|p| - 1]
  {
    forall i, n, d | 0 <= i < |c.edges| && ListedAt(c.edges, i, n, d) && n in ChildNames(c) ensures d in ChildNames(c) {
      assert c.edges[i] in c.edges && d in c.edges[i].deps;
      assert d in EdgeGraph(ChildNames(c), c.edges)[n];
    }
  }

  /** A compound that breaks the rule at any depth is refused. */
  lemma TerminatesUnfolded(c: Capsule)
    requires c.Compound?
    ensures Terminates(c) <==>
      LevelTerminates(c) && forall i :: 0 <= i < |c.children| && c.children[i].Compound? ==> Terminates(c.children[i])
  {
  }

  lemma AllReachableUnfolded(c: Capsule)
    requires c.Compound?
    ensures AllReachable(c) <==>
      LevelReachable(c) && forall i :: 0 <= i < |c.children| && c.children[i].Compound? ==> AllReachable(c.children[i])
  {
  }

  /** The members of a set, in whatever order the set yields them. */
  method Enumerate(names: set<Name>) returns (listed: seq<Name>)
    ensures Distinct(listed) && Elems(listed) == names
  {
    listed := [];
    var rest := names;
    while rest != {}
      invariant rest <= names && Distinct(listed) && Elems(listed) == names - rest
    {
      var n :| n in rest;
      ElemsSnoc(listed, n);
      listed, rest := listed + [n], rest - {n};
    }
  }

  method CheckLevelTermination(c: Capsule) returns (r: Verdict)
    requires c.Compound?
    ensures r.Ok? <==> LevelTerminates(c)
    ensures r.Err? ==> r.error.rule == 3
    ensures r.Err? && r.error.NotAChild? ==>
      var a := r.error.missing;
      a.node in ChildNames(c) && a.dep !in ChildNames(c) && Declares(c.edges, a.node, a.dep)
    ensures r.Err? && r.error.CycleDetected? ==> Cyclic(ChildGraph(c))
    ensures r.Err? ==> !r.error.Unreachable?
  {
    var names := Enumerate(Elems(Names(c.children)));
    var foreign, inDegree, adj, arcs := Build(Elems(Names(c.children)), c.edges, true);
    if foreign.Some? {
      return Err(NotAChild(3, foreign.value));
    }
    var visited := Drain(ChildGraph(c), arcs, names, inDegree, adj);
    r := if |visited| != |names| then Err(CycleDetected(3)) else Ok(());
  }

  method CheckTermination(c: Capsule) returns (r: Verdict)
    requires c.Compound?
    ensures r.Ok? <==> Terminates(c)
    ensures r.Err? ==> r.error.rule == 3
  {
    hide *;
    TerminatesUnfolded(c);
    r := CheckLevelTermination(c);
    if r.Err? {
      return;
    }
    for i := 0 to |c.children|
      invariant r.Ok?
      invariant forall j :: 0 <= j < i && c.children[j].Compound? ==> Terminates(c.children[j])
    {
      if c.children[i].Compound? {
        r := CheckTermination(c.children[i]);
        if r.Err? {
          return;
        }
      }
    }
  }

  /** Nodes that depend on nothing but one another have no entry point. */
  lemma NoEntryFromWithin(g: Graph, names: set<Name>, n: Name)
    requires n in names && forall m :: m in names ==> m in g && g[m] != {} && g[m] <= names
    ensures !HasEntry(g, n)
  {
    forall p | Path(g, p) && p[0] == n ensures !IsRoot(g, p[|p| - 1]) {
      StaysWithin(g, names, p);
      var last := p[|p| - 1];
      var d :| d in g[last];
      assert d in g[last] * g.Keys;
    }
  }

  lemma {:induction false} StaysWithin(g: Graph, names: set<Name>, p: seq<Name>)
    requires Path(g, p) && p[0] in names && forall m :: m in names ==> m in g && g[m] <= names
    ensures p[|p| - 1] in names
  {
    if |p| > 1 {
      assert p[1] in g[p[0]];
      StaysWithin(g, names, p[1..]);
    }
  }

  /** So a level that has such children is not reachable. */
  lemma DeadlockIsUnreachable(c: Capsule, names: set<Name>)
    requires c.Compound? && names != {}
    requires forall m :: m in names ==> m in ChildGraph(c) && ChildGraph(c)[m] != {} && ChildGraph(c)[m] <= names
    ensures !LevelReachable(c) && !AllReachable(c)
  {
    var n :| n in names;
    NoEntryFromWithin(ChildGraph(c), names, n);
  }

  /** The breadth-first search has closed off everything below the nodes it took. */
  ghost predicate Search(g: Graph, reached: set<Name>, queue: seq<Name>) {
    && (forall n :: n in reached || n in queue ==> n in g && HasEntry(g, n))
    && (forall n :: n in g && IsRoot(g, n) ==> n in reached || n in queue)
    && (forall n, m :: n in reached && m in g && n in g[m] ==> m in reached || m in queue)
  }

  lemma EntryOfDependant(g: Graph, n: Name, m: Name)
    requires n in g && m in g && n in g[m] && HasEntry(g, n)
    ensures HasEntry(g, m)
  {
    var p :| Path(g, p) && p[0] == n && IsRoot(g, p[|p| - 1]);
    assert Path(g, [m] + p);
  }

  lemma Visit(g: Graph, arcs: seq<Arc>, reached: set<Name>, queue: seq<Name>)
    requires ArcsOf(arcs, g) && Closed(g) && queue != [] && Search(g, reached, queue)
    ensures queue[0] in g
    ensures queue[0] in reached ==> Search(g, reached, queue[1..])
    ensures Search(g, reached + {queue[0]}, queue[1..] + Dependants(arcs, queue[0]))
  {
    var n, next := queue[0], queue[1..] + Dependants(arcs, queue[0]);
    assert forall x :: x in queue <==> x == n || x in queue[1..];
    forall m ensures m in Dependants(arcs, n) <==> m in g && n in g[m] {
      DependantsAre(arcs, n, m);
    }
    forall m | m in Dependants(arcs, n) ensures HasEntry(g, m) {
      EntryOfDependant(g, n, m);
    }
  }

  lemma {:induction false} SearchFinds(g: Graph, reached: set<Name>, p: seq<Name>)
    requires Search(g, reached, []) && Path(g, p) && IsRoot(g, p[|p| - 1])
    ensures p[0] in reached
  {
    if |p| > 1 {
      SearchFinds(g, reached, p[1..]);
      assert p[1] in g[p[0]];
    }
  }

  lemma SearchDone(g: Graph, reached: set<Name>)
    requires Search(g, reached, [])
    ensures forall n :: n in g ==> (n in reached <==> HasEntry(g, n))
  {
    forall n | n in g && HasEntry(g, n) ensures n in reached {
      var p :| Path(g, p) && p[0] == n && IsRoot(g, p[|p| - 1]);
      SearchFinds(g, reached, p);
    }
  }

  lemma SearchStart(g: Graph, arcs: seq<Arc>, names: seq<Name>, inDegree: map<Name, nat>)
    requires ArcsOf(arcs, g) && Closed(g) && Elems(names) == g.Keys && inDegree.Keys == g.Keys
    requires forall n :: n in g ==> inDegree[n] == Pending(arcs, n, {})
    ensures Search(g, {}, Ready(names, inDegree))
  {
    forall n | n in g ensures inDegree[n] == 0 <==> IsRoot(g, n) {
      PendingIsZero(arcs, n, {});
      assert forall d :: Arc(n, d) in arcs <==> d in g[n];
    }
    forall n | n in g && IsRoot(g, n) ensures HasEntry(g, n) && n in Ready(names, inDegree) {
      assert Path(g, [n]) && n in Elems(names);
    }
    forall n | n in Ready(names, inDegree) ensures n in g && HasEntry(g, n) {
      assert n in Elems(names);
    }
  }

  /** Breadth-first search from the entry points. */
  method Sweep(ghost g: Graph, ghost arcs: seq<Arc>, start: seq<Name>, adj: map<Name, seq<Name>>)
    returns (reached: set<Name>)
    requires ArcsOf(arcs, g) && Closed(g) && Search(g, {}, start)
    requires adj.Keys == g.Keys && forall n :: n in g ==> adj[n] == Dependants(arcs, n)
    ensures forall n :: n in g ==> (n in reached <==> HasEntry(g, n))
  {
    hide *;
    reached := {};
    var queue := start;
    while queue != []
      invariant Search(g, reached, queue)
      decreases g.Keys - reached, |queue|
    {
      var node := queue[0];
      Visit(g, arcs, reached, queue);
      queue := queue[1..];
      if node !in reached {
        reached := reached + {node};
        queue := queue + adj[node];
      }
    }
    SearchDone(g, reached);
  }

  method CheckLevelReachability(c: Capsule) returns (r: Verdict)
    requires c.Compound?
    ensures r.Ok? <==> LevelReachable(c)
    ensures r.Err? ==>
      r.error == Unreachable(4, set n | n in ChildNames(c) && !HasEntry(ChildGraph(c), n)) && r.error.names != {}
  {
    var unreachable := UnreachableChildren(Elems(Names(c.children)), c.edges);
    r := if unreachable != {} then Err(Unreachable(4, unreachable)) else Ok(());
    forall n | unreachable == {} && n in ChildNames(c) ensures HasEntry(ChildGraph(c), n) {
      assert n !in unreachable;
    }
    if unreachable != {} {
      var n :| n in unreachable;
      assert !HasEntry(ChildGraph(c), n);
    }
  }

  method UnreachableChildren(childNames: set<Name>, edges: seq<Edge>) returns (unreachable: set<Name>)
    ensures unreachable == set n | n in childNames && !HasEntry(LocalGraph(childNames, edges), n)
  {
    ghost var g := LocalGraph(childNames, edges);
    hide *;
    var names := Enumerate(childNames);
    var _, inDegree, adj, arcs := Build(childNames, edges, false);
    AllRecorded(childNames, arcs, inDegree, adj);
    SearchStart(g, arcs, names, inDegree);
    var reached := Sweep(g, arcs, Ready(names, inDegree), adj);
    unreachable := childNames - reached;
  }

  lemma AllRecorded(names: set<Name>, arcs: seq<Arc>, inDegree: map<Name, nat>, adj: map<Name, seq<Name>>)
    requires Recorded(names, arcs, inDegree, adj)
    ensures inDegree.Keys == adj.Keys == names
    ensures forall n :: n in names ==> inDegree[n] == Pending(arcs, n, {}) && adj[n] == Dependants(arcs, n)
  {
  }

  method CheckReachability(c: Capsule) returns (r: Verdict)
    requires c.Compound?
    ensures r.Ok? <==> AllReachable(c)
    ensures r.Err? ==> r.error.Unreachable? && r.error.rule == 4 && r.error.names != {}
  {
    hide *;
    AllReachableUnfolded(c);
    r := CheckLevelReachability(c);
    if r.Err? {
      return;
    }
    for i := 0 to |c.children|
      invariant r.Ok?
      invariant forall j :: 0 <= j < i && c.children[j].Compound? ==> AllReachable(c.children[j])
    {
      if c.children[i].Compound? {
        r := CheckReachability(c.children[i]);
        if r.Err? {
          return;
        }
      }
    }
  }

  /** Rule 4 can never refuse what Rule 3 has let through. */
  lemma {:induction false} TerminatingIsReachable(c: Capsule)
    requires c.Compound? && Terminates(c)
    ensures AllReachable(c)
  {
    var g := ChildGraph(c);
    forall n | n in ChildNames(c) ensures HasEntry(g, n) {
      AcyclicReachesRoot(g, [n]);
    }
    forall d | d in c.children && d.Compound? ensures AllReachable(d) {
      TerminatingIsReachable(d);
    }
  }

  /** What Rule 3 lets through can be scheduled, unless two leaves carry the same name. */
  lemma TerminatingIsSchedulable(c: Capsule)
    requires c.Compound? && LevelTerminates(c)
    ensures !Cyclic(Scheduler.LeafGraph(c.children, c.edges))
  {
    var h, g := Scheduler.LeafGraph(c.children, c.edges), ChildGraph(c);
    forall n | n in Elems(Names(Leaves(c.children))) ensures n in ChildNames(c) {
      var i :| 0 <= i < |Leaves(c.children)| && Leaves(c.children)[i].name == n;
      assert Leaves(c.children)[i] in c.children;
      var j :| 0 <= j < |c.children| && c.children[j] == Leaves(c.children)[i];
      assert Names(c.children)[j] == n;
    }
    SubgraphStaysAcyclic(g, h);
  }
}
