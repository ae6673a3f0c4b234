/** Pipelines as declared: groups of agents and the dependencies between and inside groups. */
module Pipelines {
  import opened Wrappers
  import opened Graphs
  import opened Kahn
  import opened Capsules
  import opened Levels
  import Scheduler

  /** `dependsOn` is None for the implicit linear chain. */
  datatype AgentSpec = AgentSpec(name: Name, goal: string, dependsOn: Option<seq<Name>>)

  datatype GroupSpec =
    | Group(name: Name, agents: seq<AgentSpec>, dependsOn: Option<seq<Name>>)
    | Fanout(name: Name, source: Name, workerName: Name, workerGoal: string, maxItems: int,
             dependsOn: Option<seq<Name>>)

  function GroupNames(groups: seq<GroupSpec>): (names: seq<Name>)
    ensures |names| == |groups|
    ensures forall i :: 0 <= i < |groups| ==> names[i] == groups[i].name
  {
    seq(|groups|, i requires 0 <= i < |groups| => groups[i].name)
  }

  function AgentNames(agents: seq<AgentSpec>): (names: seq<Name>)
    ensures |names| == |agents|
    ensures forall i :: 0 <= i < |agents| ==> names[i] == agents[i].name
  {
    seq(|agents|, i requires 0 <= i < |agents| => agents[i].name)
  }

  /** The names of all agents of the static groups, in declaration order. */
  function AllAgents(groups: seq<GroupSpec>): seq<Name> {
    if groups == [] then [] else
      var front, last := groups[..|groups| - 1], groups[|groups| - 1];
      AllAgents(front) + if last.Group? then AgentNames(last.agents) else []
  }

  ghost predicate HasAgent(groups: seq<GroupSpec>, n: Name) {
    exists i, j :: 0 <= i < |groups| && groups[i].Group? && 0 <= j < |groups[i].agents| && groups[i].agents[j].name == n
  }

  /** They are the names of the agents of the static groups, of all of them and of nothing else. */
  lemma {:induction false} AllAgentsAre(groups: seq<GroupSpec>, n: Name)
    ensures n in AllAgents(groups) <==> HasAgent(groups, n)
  {
    if groups != [] {
      var front, last := groups[..|groups| - 1], groups[|groups| - 1];
      AllAgentsAre(front, n);
      if HasAgent(front, n) {
        var i, j :| 0 <= i < |front| && front[i].Group? && 0 <= j < |front[i].agents| && front[i].agents[j].name == n;
        assert groups[i].agents[j].name == n;
      }
      if HasAgent(groups, n) {
        var i, j :|
          0 <= i < |groups| && groups[i].Group? && 0 <= j < |groups[i].agents| && groups[i].agents[j].name == n;
        assert i < |front| ==> front[i].agents[j].name == n;
        assert i == |front| ==> AgentNames(last.agents)[j] == n;
      }
      if last.Group? && n in AgentNames(last.agents) {
        var j :| 0 <= j < |last.agents| && AgentNames(last.agents)[j] == n;
        assert groups[|front|].agents[j].name == n;
      }
    }
  }

  lemma {:induction false} AgentsOfBoth(a: seq<GroupSpec>, b: seq<GroupSpec>)
    ensures AllAgents(a + b) == AllAgents(a) + AllAgents(b)
  {
    if b == [] {
      assert a + b == a;
    } else {
      var k := |b| - 1;
      assert (a + b)[..|a + b| - 1] == a + b[..k];
      AgentsOfBoth(a, b[..k]);
    }
  }

  /** Every fan-out draws on an agent that was declared before it. */
  ghost predicate Sourced(groups: seq<GroupSpec>) {
    forall i :: 0 <= i < |groups| && groups[i].Fanout? ==> groups[i].source in AllAgents(groups[..i])
  }

  lemma AppendSourced(groups: seq<GroupSpec>, g: GroupSpec)
    requires Sourced(groups) && (g.Fanout? ==> g.source in AllAgents(groups))
    ensures Sourced(groups + [g])
  {
    var all := groups + [g];
    forall i | 0 <= i < |all| ensures all[..i] == if i < |groups| then groups[..i] else groups {
    }
  }

  /** An explicit list names each of its members once, and only earlier ones. */
  ghost predicate PointsBack(dependsOn: Option<seq<Name>>, earlier: seq<Name>) {
    dependsOn.Some? ==> Distinct(dependsOn.value) && forall d :: d in dependsOn.value ==> d in earlier
  }

  ghost predicate AgentsPointBack(agents: seq<AgentSpec>) {
    forall i :: 0 <= i < |agents| ==> PointsBack(agents[i].dependsOn, AgentNames(agents[..i]))
  }

  /** What the builder maintains for every pipeline. */
  ghost predicate WellFormed(groups: seq<GroupSpec>) {
    forall i :: 0 <= i < |groups| ==>
      && PointsBack(groups[i].dependsOn, GroupNames(groups[..i]))
      && (groups[i].Group? ==> AgentsPointBack(groups[i].agents))
  }

  /** The dependencies of one group, given the groups declared before it. */
  function DepsOf(earlier: seq<GroupSpec>, g: GroupSpec): seq<Name> {
    if g.dependsOn.Some? then g.dependsOn.value
    else if earlier != [] then [earlier[|earlier| - 1].name]
    else []
  }

  ghost function DeclaredDeps(groups: seq<GroupSpec>): (deps: GroupDeps)
    ensures deps.Keys == Elems(GroupNames(groups))
  {
    if groups == [] then map[] else
      var front, last := groups[..|groups| - 1], groups[|groups| - 1];
      assert GroupNames(groups) == GroupNames(front) + [last.name];
      DeclaredDeps(front)[last.name := DepsOf(front, last)]
  }

  /** The dependency graph the parallel executor works on. */
  ghost function PipelineGraph(groups: seq<GroupSpec>): Graph {
    GroupGraph(DeclaredDeps(groups))
  }

  /** Builds the dictionary of group dependencies; the last of two equal names wins. */
  method BuildGroupDeps(groups: seq<GroupSpec>) returns (deps: GroupDeps)
    ensures deps == DeclaredDeps(groups)
    ensures Distinct(GroupNames(groups)) ==> forall i :: 0 <= i < |groups| ==>
      && groups[i].name in deps
      && (groups[i].dependsOn.Some? ==> deps[groups[i].name] == groups[i].dependsOn.value)
      && (groups[i].dependsOn.None? ==> deps[groups[i].name] == if i > 0 then [groups[i - 1].name] else [])
  {
    deps := map[];
    var prev: Option<Name> := None;
    assert groups[..0] == [];
    for i := 0 to |groups|
      invariant deps == DeclaredDeps(groups[..i])
      invariant prev == if i == 0 then None else Some(groups[i - 1].name)
    {
      var spec := groups[i];
      assert groups[..i + 1][..i] == groups[..i];
      if spec.dependsOn.Some? {
        deps := deps[spec.name := spec.dependsOn.value];
      } else if prev.Some? {
        deps := deps[spec.name := [prev.value]];
      } else {
        deps := deps[spec.name := []];
      }
      prev := Some(spec.name);
    }
    assert groups[..|groups|] == groups;
    forall i | Distinct(GroupNames(groups)) && 0 <= i < |groups|
      ensures groups[i].name in deps
      ensures groups[i].dependsOn.Some? ==> deps[groups[i].name] == groups[i].dependsOn.value
      ensures groups[i].dependsOn.None? ==> deps[groups[i].name] == if i > 0 then [groups[i - 1].name] else []
    {
      NamesApart(groups, i);
      DependsAsDeclared(groups, i);
    }
  }

  ghost predicate EarlierIn(names: seq<Name>, d: Name, n: Name) {
    exists i, j :: 0 <= j < i < |names| && names[i] == n && names[j] == d
  }

  lemma EarlierInLonger(names: seq<Name>, last: Name, d: Name, n: Name)
    requires EarlierIn(names, d, n) || (n == last && d in names)
    ensures EarlierIn(names + [last], d, n)
  {
    var longer := names + [last];
    if EarlierIn(names, d, n) {
      var i, j :| 0 <= j < i < |names| && names[i] == n && names[j] == d;
      assert longer[i] == n && longer[j] == d;
    } else {
      var j :| 0 <= j < |names| && names[j] == d;
      assert longer[|names|] == n && longer[j] == d;
    }
  }

  /** Dependencies that all point back in a list of distinct names form no cycle. */
  lemma PointingBackIsAcyclic(g: Graph, names: seq<Name>)
    requires Distinct(names) && g.Keys == Elems(names)
    requires forall n, d :: n in g && d in g[n] ==> EarlierIn(names, d, n)
    ensures !Cyclic(g)
  {
    var rank: map<Name, nat> := map n | n in names :: IndexOf(names, n);
    forall n, d | n in g && d in g[n] ensures d in rank && rank[d] < rank[n] {
      var i, j :| 0 <= j < i < |names| && names[i] == n && names[j] == d;
    }
    RankedIsAcyclic(g, rank);
  }

  lemma {:induction false} DepsPointBack(groups: seq<GroupSpec>, n: Name, d: Name)
    requires WellFormed(groups) && n in DeclaredDeps(groups) && d in DeclaredDeps(groups)[n]
    ensures EarlierIn(GroupNames(groups), d, n)
  {
    var front, last := groups[..|groups| - 1], groups[|groups| - 1];
    assert GroupNames(groups) == GroupNames(front) + [last.name];
    if n == last.name {
      assert PointsBack(last.dependsOn, GroupNames(front));
      assert last.dependsOn.None? ==> d == GroupNames(front)[|front| - 1];
    } else {
      PrefixWellFormed(groups);
      DepsPointBack(front, n, d);
    }
    EarlierInLonger(GroupNames(front), last.name, d, n);
  }

  lemma PrefixWellFormed(groups: seq<GroupSpec>)
    requires WellFormed(groups) && groups != []
    ensures WellFormed(groups[..|groups| - 1])
  {
    var front := groups[..|groups| - 1];
    forall i | 0 <= i < |front| ensures front[..i] == groups[..i] {
    }
  }

  /** The last group of a name has the last word on its dependencies. */
  lemma {:induction false} DeclaredLast(groups: seq<GroupSpec>, i: nat)
    requires i < |groups| && forall j :: i < j < |groups| ==> groups[j].name != groups[i].name
    ensures groups[i].name in DeclaredDeps(groups)
      && DeclaredDeps(groups)[groups[i].name] == DepsOf(groups[..i], groups[i])
    decreases |groups|
  {
    var k := |groups| - 1;
    var front := groups[..k];
    hide DepsOf;
    if i < k {
      assert groups[k].name != groups[i].name && front[i] == groups[i] && front[..i] == groups[..i];
      DeclaredLast(front, i);
    }
  }

  /** With distinct names, every group keeps the dependencies it was declared with. */
  lemma DeclaredAt(groups: seq<GroupSpec>, i: nat)
    requires Distinct(GroupNames(groups)) && i < |groups|
    ensures groups[i].name in DeclaredDeps(groups)
      && DeclaredDeps(groups)[groups[i].name] == DepsOf(groups[..i], groups[i])
  {
    NamesApart(groups, i);
    DeclaredLast(groups, i);
  }

  /** These are all the names on its list in their order, or the group before it if there is no list. */
  lemma {:induction false} DependsAsDeclared(groups: seq<GroupSpec>, i: nat)
    requires i < |groups| && forall j :: i < j < |groups| ==> groups[j].name != groups[i].name
    ensures groups[i].name in DeclaredDeps(groups)
    ensures
      var deps := DeclaredDeps(groups)[groups[i].name];
      && (groups[i].dependsOn.Some? ==> deps == groups[i].dependsOn.value)
      && (groups[i].dependsOn.None? ==> deps == if i > 0 then [groups[i - 1].name] else [])
  {
    DeclaredLast(groups, i);
    hide DeclaredDeps;
  }

  lemma NamesApart(groups: seq<GroupSpec>, i: nat)
    requires Distinct(GroupNames(groups)) && i < |groups|
    ensures forall j :: i < j < |groups| ==> groups[j].name != groups[i].name
  {
    assert forall j :: i < j < |groups| ==> GroupNames(groups)[j] != GroupNames(groups)[i];
  }

  /** Whatever a group declares lies in an earlier level than the group, and so does the predecessor of a group that
      declares nothing. */
  lemma DeclaredComesEarlier(groups: seq<GroupSpec>, levels: seq<seq<Name>>, i: nat, d: Name, l: nat)
    returns (j: nat)
    requires WellFormed(groups) && Distinct(GroupNames(groups)) && i < |groups|
    requires AreLevels(levels, GroupNames(groups), PipelineGraph(groups))
    requires l < |levels| && groups[i].name in levels[l]
    requires if groups[i].dependsOn.Some? then d in groups[i].dependsOn.value else i > 0 && d == groups[i - 1].name
    ensures j < l && d in levels[j]
  {
    NamesApart(groups, i);
    DependsAsDeclared(groups, i);
    BuiltRuns(groups);
    hide Distinct, WellFormed;
    j := DependencyIsEarlier(levels, GroupNames(groups), PipelineGraph(groups), l, groups[i].name, d);
  }

  /** A built pipeline names only its own groups, and distinct names leave no room for a cycle. */
  lemma BuiltRuns(groups: seq<GroupSpec>)
    requires WellFormed(groups)
    ensures Closed(PipelineGraph(groups))
    ensures Distinct(GroupNames(groups)) ==> !Cyclic(PipelineGraph(groups))
  {
    var g, names := PipelineGraph(groups), GroupNames(groups);
    forall n, d | n in g && d in g[n] ensures EarlierIn(names, d, n) && d in Elems(names) {
      DepsPointBack(groups, n, d);
    }
    hide EarlierIn;
    if Distinct(names) {
      PointingBackIsAcyclic(g, names);
    }
  }

  /** Declaring a group a second time can close a cycle, although every list points back. */
  lemma RepeatedNameClosesCycle(a: Name, b: Name)
    requires a != b
    ensures
      var groups := [Group(a, [], None), Group(b, [], Some([a])), Group(a, [], Some([b]))];
      WellFormed(groups) && Cyclic(PipelineGraph(groups))
  {
    var g0, g1, g2 := Group(a, [], None), Group(b, [], Some([a])), Group(a, [], Some([b]));
    var groups := [g0, g1, g2];
    assert groups[..0] == [] && groups[..1] == [g0] && groups[..2] == [g0, g1];
    assert GroupNames([g0]) == [a] && GroupNames([g0, g1]) == [a, b];
    assert DeclaredDeps([g0]) == map[a := []] by { assert [g0][..0] == []; }
    assert DeclaredDeps([g0, g1]) == map[a := [], b := [a]] by { assert [g0, g1][..1] == [g0]; }
    assert DeclaredDeps(groups) == map[a := [b], b := [a]];
    assert Path(PipelineGraph(groups), [a, b, a]);
  }

  /** Plans the levels of a pipeline. For a built pipeline only repeated names stand in the way. */
  method PlanLevels(groups: seq<GroupSpec>) returns (r: Result<seq<seq<Name>>, LevelError>)
    requires WellFormed(groups)
    ensures r.Ok? <==> Distinct(GroupNames(groups))
    ensures r.Ok? ==> AreLevels(r.value, GroupNames(groups), PipelineGraph(groups))
    ensures r.Err? ==> !r.error.UnknownGroup?
  {
    BuiltRuns(groups);
    var deps := BuildGroupDeps(groups);
    r := TopologicalLevels(GroupNames(groups), deps);
  }

  // ----- inside one group ------------------------------------------------------------------

  /** An agent with a list depends on its list, any other agent on the one before it. */
  function AgentEdges(agents: seq<AgentSpec>): seq<Edge> {
    if agents == [] then [] else
      var front, last := agents[..|agents| - 1], agents[|agents| - 1];
      AgentEdges(front) +
        if last.dependsOn.Some? then [Edge(last.name, last.dependsOn.value)]
        else if front != [] then [Edge(last.name, [front[|front| - 1].name])]
        else []
  }

  function AgentLeaves(agents: seq<AgentSpec>): (leaves: seq<Capsule>)
    ensures |leaves| == |agents| && Leaves(leaves) == leaves && Names(leaves) == AgentNames(agents)
  {
    if agents == [] then [] else
      assert [AgentLeaf(agents[0].name)] + AgentLeaves(agents[1..]) != [];
      var leaves := [AgentLeaf(agents[0].name)] + AgentLeaves(agents[1..]);
      assert leaves[1..] == AgentLeaves(agents[1..]);
      leaves
  }

  lemma {:induction false} AgentEdgesPointBack(agents: seq<AgentSpec>, n: Name, d: Name)
    requires AgentsPointBack(agents) && Declares(AgentEdges(agents), n, d)
    ensures EarlierIn(AgentNames(agents), d, n)
  {
    var front, last := agents[..|agents| - 1], agents[|agents| - 1];
    assert AgentNames(agents) == AgentNames(front) + [last.name];
    var e :| e in AgentEdges(agents) && e.node == n && d in e.deps;
    if e in AgentEdges(front) {
      forall i | 0 <= i < |front| ensures front[..i] == agents[..i] {
      }
      AgentEdgesPointBack(front, n, d);
    } else {
      assert PointsBack(last.dependsOn, AgentNames(front));
      assert last.dependsOn.None? ==> d == AgentNames(front)[|front| - 1];
    }
    EarlierInLonger(AgentNames(front), last.name, d, n);
  }

  lemma SameNamesApart(agents: seq<AgentSpec>)
    ensures Distinct(AgentNames(agents)) <==> forall j, k :: 0 <= j < k < |agents| ==> agents[j].name != agents[k].name
  {
    var names := AgentNames(agents);
    assert forall j :: 0 <= j < |names| ==> names[j] == agents[j].name;
    if Distinct(names) {
      forall j, k | 0 <= j < k < |agents| ensures agents[j].name != agents[k].name {
        assert names[j] != names[k];
      }
    }
  }

  /** What the i-th agent waits for: the agents on its list, or the one before it. */
  predicate Awaits(agents: seq<AgentSpec>, i: nat, d: Name)
    requires i < |agents|
  {
    if agents[i].dependsOn.Some? then d in agents[i].dependsOn.value else i > 0 && d == agents[i - 1].name
  }

  lemma {:induction false} DeclaredByAgent(agents: seq<AgentSpec>, i: nat, n: Name, d: Name)
    requires i < |agents| && n == agents[i].name
    requires forall j :: 0 <= j < |agents| && j != i ==> agents[j].name != n
    ensures Declares(AgentEdges(agents), n, d) <==> Awaits(agents, i, d)
    decreases |agents|
  {
    var k := |agents| - 1;
    var front, last := agents[..k], agents[k];
    if i < k {
      DeclaredByAgent(front, i, n, d);
      EdgesOfFront(agents, n);
      hide AgentEdges;
    } else {
      NoEdgesOf(front, n);
      assert front != [] ==> front[|front| - 1] == agents[k - 1];
      assert last.dependsOn.Some? ==> Edge(n, last.dependsOn.value) in AgentEdges(agents);
      assert last.dependsOn.None? && i > 0 ==> Edge(n, [agents[i - 1].name]) in AgentEdges(agents);
    }
  }

  lemma EdgesOfFront(agents: seq<AgentSpec>, n: Name)
    requires agents != [] && agents[|agents| - 1].name != n
    ensures forall e: Edge :: e.node == n ==> (e in AgentEdges(agents) <==> e in AgentEdges(agents[..|agents| - 1]))
  {
  }

  lemma {:induction false} NoEdgesOf(agents: seq<AgentSpec>, n: Name)
    requires forall a :: a in agents ==> a.name != n
    ensures forall e :: e in AgentEdges(agents) ==> e.node != n
  {
    if agents != [] {
      NoEdgesOf(agents[..|agents| - 1], n);
    }
  }

  lemma AwaitedAreKnown(agents: seq<AgentSpec>, i: nat, d: Name)
    requires AgentsPointBack(agents) && i < |agents| && Awaits(agents, i, d)
    ensures d in AgentNames(agents)
  {
    var names := AgentNames(agents);
    if agents[i].dependsOn.Some? {
      assert PointsBack(agents[i].dependsOn, AgentNames(agents[..i]));
      var j :| 0 <= j < i && AgentNames(agents[..i])[j] == d;
      assert names[j] == d;
    } else {
      assert names[i - 1] == d;
    }
  }

  lemma InLeafGraph(agents: seq<AgentSpec>, n: Name, d: Name)
    requires n in AgentNames(agents)
    ensures
      var g := Scheduler.LeafGraph(AgentLeaves(agents), AgentEdges(agents));
      n in g && (d in g[n] <==> d in AgentNames(agents) && Declares(AgentEdges(agents), n, d))
  {
    hide AgentEdges, AgentLeaves, AgentNames;
  }

  /** An agent of a built group waits for exactly the agents on its list, or for the one before it. */
  lemma {:induction false} AgentDependsAsDeclared(agents: seq<AgentSpec>, i: nat, d: Name)
    requires AgentsPointBack(agents) && Distinct(AgentNames(agents)) && i < |agents|
    ensures
      var g := Scheduler.LeafGraph(AgentLeaves(agents), AgentEdges(agents));
      agents[i].name in g && (d in g[agents[i].name] <==> Awaits(agents, i, d))
  {
    var names, n := AgentNames(agents), agents[i].name;
    assert names[i] == n;
    SameNamesApart(agents);
    forall j | 0 <= j < |agents| && j != i ensures agents[j].name != n {
      assert if j < i then agents[j].name != agents[i].name else agents[i].name != agents[j].name;
    }
    DeclaredByAgent(agents, i, n, d);
    InLeafGraph(agents, n, d);
    if Awaits(agents, i, d) {
      AwaitedAreKnown(agents, i, d);
    }
    hide Scheduler.LeafGraph, AgentEdges, AgentLeaves, AgentNames, Declares, AgentsPointBack, Distinct;
  }

  /** So in every schedule of the group, the agents on the list come before it. */
  lemma {:induction false} ListedAgentsRunFirst(agents: seq<AgentSpec>, order: seq<Capsule>, i: nat, d: Name, k: nat)
    requires AgentsPointBack(agents) && Distinct(AgentNames(agents)) && i < |agents|
    requires Scheduler.IsSchedule(order, AgentLeaves(agents), AgentEdges(agents))
    requires Awaits(agents, i, d) && k < |order| && order[k].name == agents[i].name
    ensures d in Names(order)[..k]
  {
    AgentDependsAsDeclared(agents, i, d);
    var g, names := ScheduledNames(agents, order);
    assert d in g[agents[i].name];
    assert d in g by {
      AgentGraphIsClosed(agents);
    }
    hide Scheduler.IsSchedule;
    assert Names(order)[k] == agents[i].name;
  }

  lemma AgentGraphIsClosed(agents: seq<AgentSpec>)
    ensures Closed(Scheduler.LeafGraph(AgentLeaves(agents), AgentEdges(agents)))
  {
  }

  lemma AgentGraphIsAcyclic(agents: seq<AgentSpec>)
    requires AgentsPointBack(agents) && Distinct(AgentNames(agents))
    ensures !Cyclic(Scheduler.LeafGraph(AgentLeaves(agents), AgentEdges(agents)))
  {
    var g := Scheduler.LeafGraph(AgentLeaves(agents), AgentEdges(agents));
    forall n, d | n in g && d in g[n] ensures EarlierIn(AgentNames(agents), d, n) {
      assert Declares(AgentEdges(agents), n, d);
      AgentEdgesPointBack(agents, n, d);
    }
    hide EarlierIn, Declares;
    PointingBackIsAcyclic(g, AgentNames(agents));
  }

  /** An order that lists each name after its neighbour to the left is the list itself. */
  lemma {:induction false} ChainKeepsOrder(names: seq<Name>, order: seq<Name>, k: nat)
    requires Distinct(names) && Distinct(order) && |order| == |names| && Elems(order) == Elems(names) && k <= |names|
    requires forall j {:trigger AfterNeighbour(names, order, j)} :: 0 <= j < |order| ==> AfterNeighbour(names, order, j)
    ensures order[..k] == names[..k]
  {
    if k > 0 {
      ChainKeepsOrder(names, order, k - 1);
      assert order[k - 1] in Elems(names);
      var i :| 0 <= i < |names| && names[i] == order[k - 1];
      assert AfterNeighbour(names, order, k - 1);
      assert 0 < i ==> names[i - 1] in order[..k - 1];
      assert forall m :: 0 <= m < k - 1 ==> order[m] == order[..k - 1][m] == names[..k - 1][m] == names[m];
      assert forall m :: k - 1 <= m < |names| ==> names[m] !in names[..k - 1];
      assert !(i < k - 1);
      assert !(i > k - 1);
      assert order[..k] == order[..k - 1] + [order[k - 1]];
    }
  }

  ghost predicate AfterNeighbour(names: seq<Name>, order: seq<Name>, j: int) {
    0 <= j < |order| && forall i :: 0 < i < |names| && names[i] == order[j] ==> names[i - 1] in order[..j]
  }

  lemma {:induction false} LinearEdge(agents: seq<AgentSpec>, i: nat)
    requires 0 < i < |agents| && agents[i].dependsOn.None?
    ensures Declares(AgentEdges(agents), agents[i].name, agents[i - 1].name)
  {
    if i < |agents| - 1 {
      var front := agents[..|agents| - 1];
      LinearEdge(front, i);
      var e :| e in AgentEdges(front) && e.node == agents[i].name && agents[i - 1].name in e.deps;
      assert e in AgentEdges(agents);
    } else {
      assert Edge(agents[i].name, [agents[i - 1].name]) in AgentEdges(agents);
    }
  }

  lemma {:induction false} LinearNeighbour(agents: seq<AgentSpec>, i: nat, g: Graph)
    requires 0 < i < |agents| && agents[i].dependsOn.None?
    requires g == Scheduler.LeafGraph(AgentLeaves(agents), AgentEdges(agents))
    ensures agents[i].name in g && agents[i - 1].name in g && agents[i - 1].name in g[agents[i].name]
  {
    LinearEdge(agents, i);
    var names := AgentNames(agents);
    assert names[i - 1] in Elems(names) && names[i] in Elems(names);
  }

  lemma {:induction false} LinearOrder(agents: seq<AgentSpec>, g: Graph, ordered: seq<Name>, j: nat)
    requires (forall a :: a in agents ==> a.dependsOn.None?) && j < |ordered|
    requires g == Scheduler.LeafGraph(AgentLeaves(agents), AgentEdges(agents)) && DependenciesFirst(g, ordered)
    ensures AfterNeighbour(AgentNames(agents), ordered, j)
  {
    var names := AgentNames(agents);
    forall i | 0 < i < |names| && names[i] == ordered[j] ensures names[i - 1] in ordered[..j] {
      LinearNeighbour(agents, i, g);
    }
  }

  /** A group whose agents declare nothing runs them in declaration order. */
  lemma {:induction false} LinearGroupKeepsOrder(agents: seq<AgentSpec>, order: seq<Capsule>)
    requires Distinct(AgentNames(agents)) && forall a :: a in agents ==> a.dependsOn.None?
    requires Scheduler.IsSchedule(order, AgentLeaves(agents), AgentEdges(agents))
    ensures Names(order) == AgentNames(agents)
  {
    hide *;
    var g, names := ScheduledNames(agents, order);
    forall j | 0 <= j < |Names(order)| ensures AfterNeighbour(names, Names(order), j) {
      LinearOrder(agents, g, Names(order), j);
    }
    ChainKeepsOrder(names, Names(order), |names|);
    assert Names(order)[..|names|] == Names(order) && names[..|names|] == names;
  }

  lemma {:induction false} ScheduledNames(agents: seq<AgentSpec>, order: seq<Capsule>)
    returns (g: Graph, names: seq<Name>)
    requires Distinct(AgentNames(agents)) && Scheduler.IsSchedule(order, AgentLeaves(agents), AgentEdges(agents))
    ensures g == Scheduler.LeafGraph(AgentLeaves(agents), AgentEdges(agents)) && DependenciesFirst(g, Names(order))
    ensures names == AgentNames(agents) && Distinct(Names(order)) && Elems(Names(order)) == Elems(names)
      && |order| == |names|
  {
    g, names := Scheduler.LeafGraph(AgentLeaves(agents), AgentEdges(agents)), AgentNames(agents);
    Scheduler.NamesOfSchedule(AgentLeaves(agents), order);
  }

  /** Compiles a static group to a compound. Of a built group only repeated agent names stop it. */
  method CompileGroup(spec: GroupSpec) returns (r: Result<Scheduler.CompoundCapsule, CompositionError>)
    requires spec.Group? && AgentsPointBack(spec.agents)
    ensures r.Ok? <==> Distinct(AgentNames(spec.agents))
    ensures r.Ok? ==>
      && fresh(r.value)
      && Scheduler.IsSchedule(r.value.serializationOrder, AgentLeaves(spec.agents), AgentEdges(spec.agents))
    ensures r.Ok? && (forall a :: a in spec.agents ==> a.dependsOn.None?) ==>
      Names(r.value.serializationOrder) == AgentNames(spec.agents)
  {
    if Distinct(AgentNames(spec.agents)) {
      AgentGraphIsAcyclic(spec.agents);
    }
    var compound := new Scheduler.CompoundCapsule(spec.name, AgentLeaves(spec.agents), AgentEdges(spec.agents));
    var order := compound.ComputeOrder();
    if order.Ok? && forall a :: a in spec.agents ==> a.dependsOn.None? {
      LinearGroupKeepsOrder(spec.agents, order.value);
    }
    r := if order.Ok? then Ok(compound) else Err(order.error);
  }

  // ----- before anything runs -----------------------------------------------------------------

  datatype StartError =
    | NoGroups
    | NoAgents(group: Name)
    | NotCompiled(group: Name, cause: CompositionError)
    | NotPlanned(levels: LevelError)

  predicate Staffed(g: GroupSpec) {
    g.Group? ==> g.agents != []
  }

  ghost predicate Compiles(g: GroupSpec) {
    g.Group? ==> Distinct(AgentNames(g.agents))
  }

  /** What every run demands of a built pipeline, in either executor. */
  ghost predicate CanStart(groups: seq<GroupSpec>) {
    groups != [] && forall g :: g in groups ==> Staffed(g) && Compiles(g)
  }

  lemma CanStartIs(groups: seq<GroupSpec>)
    ensures CanStart(groups) <==>
      && groups != []
      && forall i :: 0 <= i < |groups| && groups[i].Group? ==>
           groups[i].agents != [] && forall j, k :: 0 <= j < k < |groups[i].agents| ==>
             groups[i].agents[j].name != groups[i].agents[k].name
  {
    forall i | 0 <= i < |groups| && groups[i].Group?
      ensures Distinct(AgentNames(groups[i].agents)) <==> forall j, k :: 0 <= j < k < |groups[i].agents| ==>
        groups[i].agents[j].name != groups[i].agents[k].name
    {
      SameNamesApart(groups[i].agents);
    }
    assert forall i :: 0 <= i < |groups| ==> groups[i] in groups;
    assert forall g :: g in groups ==> exists i :: 0 <= i < |groups| && groups[i] == g;
    hide Distinct;
  }

  /** The k-th group is the first to fail a test. */
  ghost predicate FirstToFail(groups: seq<GroupSpec>, test: GroupSpec -> bool, k: int) {
    0 <= k < |groups| && !test(groups[k]) && forall j :: 0 <= j < k ==> test(groups[j])
  }

  /** The error names the first thing that is wrong. */
  ghost predicate Explains(e: StartError, groups: seq<GroupSpec>) {
    match e
    case NoGroups => groups == []
    case NoAgents(n) => exists k :: FirstToFail(groups, g => Staffed(g), k) && groups[k].name == n
    case NotCompiled(n, _) =>
      && (forall g :: g in groups ==> Staffed(g))
      && exists k :: FirstToFail(groups, g => Compiles(g), k) && groups[k].name == n
    case NotPlanned(_) => CanStart(groups) && !Distinct(GroupNames(groups))
  }

  /** A pipeline needs a group, and every static group an agent. */
  method ValidateRunnable(groups: seq<GroupSpec>) returns (r: Result<(), StartError>)
    ensures r.Ok? <==> groups != [] && forall g :: g in groups ==> Staffed(g)
    ensures r.Err? ==> Explains(r.error, groups) && (r.error.NoGroups? || r.error.NoAgents?)
  {
    if groups == [] {
      return Err(NoGroups);
    }
    for i := 0 to |groups|
      invariant forall j :: 0 <= j < i ==> Staffed(groups[j])
    {
      if groups[i].Group? && groups[i].agents == [] {
        assert FirstToFail(groups, g => Staffed(g), i);
        return Err(NoAgents(groups[i].name));
      }
    }
    r := Ok(());
  }

  /** A compound for every static group, and a free slot for every fan-out. */
  ghost predicate CompiledFrom(compound: Option<Scheduler.CompoundCapsule>, g: GroupSpec)
    reads if compound.Some? then {compound.value} else {}
  {
    && (compound.Some? <==> g.Group?)
    && (g.Group? ==>
      Scheduler.IsSchedule(compound.value.serializationOrder, AgentLeaves(g.agents), AgentEdges(g.agents)))
  }

  method CompileSlot(g: GroupSpec) returns (r: Result<Option<Scheduler.CompoundCapsule>, CompositionError>)
    requires g.Group? ==> AgentsPointBack(g.agents)
    ensures r.Ok? <==> Compiles(g)
    ensures r.Ok? ==> CompiledFrom(r.value, g)
  {
    if g.Fanout? {
      return Ok(None);
    }
    var compound := CompileGroup(g);
    hide Distinct, AgentsPointBack, Scheduler.IsSchedule;
    r := if compound.Ok? then Ok(Some(compound.value)) else Err(compound.error);
  }

  lemma PointsBackAt(groups: seq<GroupSpec>, i: nat)
    requires WellFormed(groups) && i < |groups|
    ensures groups[i].Group? ==> AgentsPointBack(groups[i].agents)
  {
    hide AgentsPointBack, PointsBack;
  }

  lemma FailsFirst(groups: seq<GroupSpec>, i: nat)
    requires i < |groups| && !Compiles(groups[i]) && forall j :: 0 <= j < i ==> Compiles(groups[j])
    ensures FirstToFail(groups, g => Compiles(g), i)
  {
  }

  /** Compiles the static groups one after the other, up to the first that does not compile. */
  method CompileGroups(groups: seq<GroupSpec>) returns (r: Result<seq<Option<Scheduler.CompoundCapsule>>, StartError>)
    requires WellFormed(groups)
    ensures r.Ok? <==> forall g :: g in groups ==> Compiles(g)
    ensures r.Ok? ==> |r.value| == |groups| && forall i :: 0 <= i < |groups| ==> CompiledFrom(r.value[i], groups[i])
    ensures r.Err? ==>
      r.error.NotCompiled? && exists k :: FirstToFail(groups, g => Compiles(g), k) && groups[k].name == r.error.group
  {
    hide *;
    var compounds: seq<Option<Scheduler.CompoundCapsule>> := [];
    for i := 0 to |groups|
      invariant |compounds| == i && forall j :: 0 <= j < i ==> CompiledFrom(compounds[j], groups[j])
      invariant forall j :: 0 <= j < i ==> Compiles(groups[j])
    {
      PointsBackAt(groups, i);
      var compound := CompileSlot(groups[i]);
      if compound.Err? {
        FailsFirst(groups, i);
        return Err(NotCompiled(groups[i].name, compound.error));
      }
      compounds := compounds + [compound.value];
    }
    r := Ok(compounds);
  }

  /** Everything the serial executor does before the first group runs. */
  method ValidateAndCompile(groups: seq<GroupSpec>)
    returns (r: Result<seq<Option<Scheduler.CompoundCapsule>>, StartError>)
    requires WellFormed(groups)
    ensures r.Ok? <==> CanStart(groups)
    ensures r.Ok? ==> |r.value| == |groups| && forall i :: 0 <= i < |groups| ==> CompiledFrom(r.value[i], groups[i])
    ensures r.Err? ==> Explains(r.error, groups) && !r.error.NotPlanned?
  {
    hide WellFormed, Staffed, Compiles, FirstToFail, CompiledFrom;
    var valid := ValidateRunnable(groups);
    if valid.Err? {
      return Err(valid.error);
    }
    r := CompileGroups(groups);
  }

  /** The parallel executor plans the levels as well. */
  method Prepare(groups: seq<GroupSpec>) returns (r: Result<seq<seq<Name>>, StartError>)
    requires WellFormed(groups)
    ensures r.Ok? <==> CanStart(groups) && Distinct(GroupNames(groups))
    ensures r.Ok? ==> AreLevels(r.value, GroupNames(groups), PipelineGraph(groups))
    ensures r.Err? ==> Explains(r.error, groups)
  {
    hide WellFormed, CanStart, FirstToFail, AreLevels, Distinct;
    var compounds := ValidateAndCompile(groups);
    if compounds.Err? {
      return Err(compounds.error);
    }
    var levels := PlanLevels(groups);
    r := if levels.Ok? then Ok(levels.value) else Err(NotPlanned(levels.error));
  }

  /** A group that was opened and got no agents stops every run, too. */
  lemma EmptyGroupStopsRuns(g: Name)
    ensures WellFormed([Group(g, [], None)]) && !CanStart([Group(g, [], None)])
  {
    assert Group(g, [], None) in [Group(g, [], None)];
  }

  /** A group whose agents share a name is accepted by the builder and stops every run. */
  lemma RepeatedAgentStopsRuns(g: Name, a: Name, goal: string)
    ensures
      var agent := AgentSpec(a, goal, None);
      var groups := [Group(g, [agent, agent], None)];
      WellFormed(groups) && Distinct(GroupNames(groups)) && !CanStart(groups)
  {
    var agent := AgentSpec(a, goal, None);
    var group := Group(g, [agent, agent], None);
    assert AgentNames(group.agents)[0] == AgentNames(group.agents)[1];
    assert !Compiles(group) && group in [group];
  }
}
