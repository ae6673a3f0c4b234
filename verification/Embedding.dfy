/** Embedding one pipeline in another under a name prefix. */
module Embedding {
  import opened Wrappers
  import opened Graphs
  import opened Pipelines

  function Prefixed(prefix: Name, n: Name): Name {
    Name(prefix.text + "/" + n.text)
  }

  function PrefixedAll(prefix: Name, names: seq<Name>): (all: seq<Name>)
    ensures |all| == |names| && forall i :: 0 <= i < |names| ==> all[i] == Prefixed(prefix, names[i])
  {
    seq(|names|, i requires 0 <= i < |names| => Prefixed(prefix, names[i]))
  }

  lemma PrefixedIsInjective(prefix: Name, m: Name, n: Name)
    requires Prefixed(prefix, m) == Prefixed(prefix, n)
    ensures m == n
  {
    var k := |prefix.text| + 1;
    assert (prefix.text + "/" + m.text)[k..] == m.text;
    assert (prefix.text + "/" + n.text)[k..] == n.text;
  }

  /** Entry points take over the parent's list, other lists move along, the linear chain stays implicit. */
  function EmbedDeps(prefix: Name, roots: Option<seq<Name>>, dependsOn: Option<seq<Name>>): Option<seq<Name>> {
    if dependsOn.None? then None
    else if dependsOn.value == [] then Some(if roots.Some? then roots.value else [])
    else Some(PrefixedAll(prefix, dependsOn.value))
  }

  function EmbedAgent(prefix: Name, a: AgentSpec): AgentSpec {
    AgentSpec(Prefixed(prefix, a.name), a.goal,
              if a.dependsOn.Some? then Some(PrefixedAll(prefix, a.dependsOn.value)) else None)
  }

  function EmbedAgents(prefix: Name, agents: seq<AgentSpec>): (all: seq<AgentSpec>)
    ensures |all| == |agents| && forall i :: 0 <= i < |agents| ==> all[i] == EmbedAgent(prefix, agents[i])
  {
    seq(|agents|, i requires 0 <= i < |agents| => EmbedAgent(prefix, agents[i]))
  }

  function EmbedGroup(prefix: Name, roots: Option<seq<Name>>, g: GroupSpec): (e: GroupSpec)
    ensures e.name == Prefixed(prefix, g.name) && e.dependsOn == EmbedDeps(prefix, roots, g.dependsOn)
  {
    match g
    case Group(name, agents, dependsOn) =>
      Group(Prefixed(prefix, name), EmbedAgents(prefix, agents), EmbedDeps(prefix, roots, dependsOn))
    case Fanout(name, source, workerName, workerGoal, maxItems, dependsOn) =>
      Fanout(Prefixed(prefix, name), Prefixed(prefix, source), Prefixed(prefix, workerName), workerGoal, maxItems,
             EmbedDeps(prefix, roots, dependsOn))
  }

  function EmbedAll(prefix: Name, roots: Option<seq<Name>>, groups: seq<GroupSpec>): (all: seq<GroupSpec>)
    ensures |all| == |groups| && forall i :: 0 <= i < |groups| ==> all[i] == EmbedGroup(prefix, roots, groups[i])
  {
    seq(|groups|, i requires 0 <= i < |groups| => EmbedGroup(prefix, roots, groups[i]))
  }

  /** `g` can follow `earlier` into the parent: no name collides, and a fan-out finds its source
      among the agents embedded before it. */
  ghost predicate Fits(parent: seq<GroupSpec>, prefix: Name, earlier: seq<GroupSpec>, g: GroupSpec) {
    && Prefixed(prefix, g.name) !in GroupNames(parent) && g.name !in GroupNames(earlier)
    && (g.Fanout? ==> g.source in AllAgents(earlier))
    && (g.Group? ==>
      && Distinct(AgentNames(g.agents))
      && forall n ::
        n in AgentNames(g.agents) ==> n !in AllAgents(earlier) && Prefixed(prefix, n) !in AllAgents(parent))
  }

  ghost predicate Embeddable(parent: seq<GroupSpec>, prefix: Name, groups: seq<GroupSpec>) {
    forall i :: 0 <= i < |groups| ==> Fits(parent, prefix, groups[..i], groups[i])
  }

  lemma EmbeddableFront(parent: seq<GroupSpec>, prefix: Name, groups: seq<GroupSpec>)
    requires Embeddable(parent, prefix, groups) && groups != []
    ensures Embeddable(parent, prefix, groups[..|groups| - 1])
    ensures Fits(parent, prefix, groups[..|groups| - 1], groups[|groups| - 1])
  {
    var front := groups[..|groups| - 1];
    forall i | 0 <= i < |front| ensures Fits(parent, prefix, front[..i], front[i]) {
      assert front[..i] == groups[..i];
    }
  }

  /** The names of the parent and of what is embedded stay apart. */
  lemma EmbeddedNamesAreNew(parent: seq<GroupSpec>, prefix: Name, groups: seq<GroupSpec>)
    requires Embeddable(parent, prefix, groups)
    ensures Distinct(GroupNames(groups))
    ensures forall n :: n in GroupNames(groups) ==> Prefixed(prefix, n) !in GroupNames(parent)
  {
    forall i, j | 0 <= i < j < |groups| ensures groups[i].name != groups[j].name {
      assert Fits(parent, prefix, groups[..j], groups[j]);
      assert GroupNames(groups[..j])[i] == groups[i].name;
    }
    forall n | n in GroupNames(groups) ensures Prefixed(prefix, n) !in GroupNames(parent) {
      var i :| 0 <= i < |groups| && GroupNames(groups)[i] == n;
      assert Fits(parent, prefix, groups[..i], groups[i]);
    }
  }

  /** Distinct group names stay distinct. */
  lemma EmbeddingKeepsDistinct(parent: seq<GroupSpec>, prefix: Name, roots: Option<seq<Name>>, groups: seq<GroupSpec>)
    requires Embeddable(parent, prefix, groups) && Distinct(GroupNames(parent))
    ensures Distinct(GroupNames(parent + EmbedAll(prefix, roots, groups)))
  {
    EmbeddedNamesAreNew(parent, prefix, groups);
    var names := GroupNames(parent + EmbedAll(prefix, roots, groups));
    var k := |parent|;
    forall i, j | 0 <= i < j < |names| ensures names[i] != names[j] {
      if i < k && j < k {
        assert names[i] == GroupNames(parent)[i] && names[j] == GroupNames(parent)[j];
      } else if i < k {
        assert names[i] == GroupNames(parent)[i] && names[j] == Prefixed(prefix, GroupNames(groups)[j - k]);
      } else {
        assert names[i] == Prefixed(prefix, groups[i - k].name) && names[j] == Prefixed(prefix, groups[j - k].name);
        assert GroupNames(groups)[i - k] != GroupNames(groups)[j - k];
        if names[i] == names[j] {
          PrefixedIsInjective(prefix, groups[i - k].name, groups[j - k].name);
        }
      }
    }
  }

  lemma PrefixedStaysDistinct(prefix: Name, names: seq<Name>)
    requires Distinct(names)
    ensures Distinct(PrefixedAll(prefix, names))
  {
    forall i, j | 0 <= i < j < |names| ensures Prefixed(prefix, names[i]) != Prefixed(prefix, names[j]) {
      if Prefixed(prefix, names[i]) == Prefixed(prefix, names[j]) {
        PrefixedIsInjective(prefix, names[i], names[j]);
      }
    }
  }

  lemma EmbeddedPointsBack(prefix: Name, dependsOn: seq<Name>, earlier: seq<Name>)
    requires PointsBack(Some(dependsOn), earlier)
    ensures PointsBack(Some(PrefixedAll(prefix, dependsOn)), PrefixedAll(prefix, earlier))
  {
    PrefixedStaysDistinct(prefix, dependsOn);
    forall d | d in PrefixedAll(prefix, dependsOn) ensures d in PrefixedAll(prefix, earlier) {
      var i :| 0 <= i < |dependsOn| && PrefixedAll(prefix, dependsOn)[i] == d;
      assert dependsOn[i] in earlier;
      var j :| 0 <= j < |earlier| && earlier[j] == dependsOn[i];
      assert PrefixedAll(prefix, earlier)[j] == d;
    }
  }

  lemma EmbeddedAgentsPointBack(prefix: Name, agents: seq<AgentSpec>)
    requires AgentsPointBack(agents)
    ensures AgentsPointBack(EmbedAgents(prefix, agents))
  {
    var all := EmbedAgents(prefix, agents);
    forall i | 0 <= i < |all| ensures PointsBack(all[i].dependsOn, AgentNames(all[..i])) {
      assert PointsBack(agents[i].dependsOn, AgentNames(agents[..i]));
      assert AgentNames(all[..i]) == PrefixedAll(prefix, AgentNames(agents[..i]));
      if agents[i].dependsOn.Some? {
        EmbeddedPointsBack(prefix, agents[i].dependsOn.value, AgentNames(agents[..i]));
      }
    }
  }

  lemma PointsBackInMore(dependsOn: Option<seq<Name>>, earlier: seq<Name>, more: seq<Name>)
    requires PointsBack(dependsOn, earlier) && forall n :: n in earlier ==> n in more
    ensures PointsBack(dependsOn, more)
  {
  }

  lemma EmbeddedGroupPointsBack(parent: seq<GroupSpec>, prefix: Name, roots: Option<seq<Name>>, earlier: seq<GroupSpec>,
                                g: GroupSpec)
    requires PointsBack(roots, GroupNames(parent)) && PointsBack(g.dependsOn, GroupNames(earlier))
    ensures PointsBack(EmbedDeps(prefix, roots, g.dependsOn), GroupNames(parent + EmbedAll(prefix, roots, earlier)))
  {
    var all := GroupNames(parent + EmbedAll(prefix, roots, earlier));
    assert all == GroupNames(parent) + PrefixedAll(prefix, GroupNames(earlier));
    if g.dependsOn.Some? && g.dependsOn.value != [] {
      EmbeddedPointsBack(prefix, g.dependsOn.value, GroupNames(earlier));
      PointsBackInMore(EmbedDeps(prefix, roots, g.dependsOn), PrefixedAll(prefix, GroupNames(earlier)), all);
    } else {
      PointsBackInMore(roots, GroupNames(parent), all);
    }
  }

  /** Adding one well-formed group, as the builder always does. */
  lemma AppendWellFormed(groups: seq<GroupSpec>, g: GroupSpec)
    requires WellFormed(groups) && PointsBack(g.dependsOn, GroupNames(groups))
      && (g.Group? ==> AgentsPointBack(g.agents))
    ensures WellFormed(groups + [g])
  {
    var all := groups + [g];
    forall i | 0 <= i < |all| ensures all[..i] == if i < |groups| then groups[..i] else groups {
    }
  }

  /** Embedding a well-formed pipeline leaves the parent well-formed. */
  lemma {:induction false} EmbeddingWellFormed(parent: seq<GroupSpec>, prefix: Name, roots: Option<seq<Name>>,
                                               groups: seq<GroupSpec>)
    requires WellFormed(parent) && WellFormed(groups) && PointsBack(roots, GroupNames(parent))
    ensures WellFormed(parent + EmbedAll(prefix, roots, groups))
  {
    if groups == [] {
      assert parent + EmbedAll(prefix, roots, groups) == parent;
    } else {
      var front, last := groups[..|groups| - 1], groups[|groups| - 1];
      PrefixWellFormed(groups);
      EmbeddingWellFormed(parent, prefix, roots, front);
      EmbeddedGroupPointsBack(parent, prefix, roots, front, last);
      if last.Group? {
        EmbeddedAgentsPointBack(prefix, last.agents);
      }
      AppendWellFormed(parent + EmbedAll(prefix, roots, front), EmbedGroup(prefix, roots, last));
      assert parent + EmbedAll(prefix, roots, groups) ==
        parent + EmbedAll(prefix, roots, front) + [EmbedGroup(prefix, roots, last)];
    }
  }

  /** One more embedded group adds one entry to the dependency dictionary. */
  lemma EmbedOneMore(parent: seq<GroupSpec>, prefix: Name, roots: Option<seq<Name>>, groups: seq<GroupSpec>)
    requires groups != []
    ensures
      var front, last := groups[..|groups| - 1], groups[|groups| - 1];
      var before := parent + EmbedAll(prefix, roots, front);
      DeclaredDeps(parent + EmbedAll(prefix, roots, groups)) ==
        DeclaredDeps(before)[Prefixed(prefix, last.name) := DepsOf(before, EmbedGroup(prefix, roots, last))]
  {
    var front, last := groups[..|groups| - 1], groups[|groups| - 1];
    var before, all := parent + EmbedAll(prefix, roots, front), parent + EmbedAll(prefix, roots, groups);
    assert all == before + [EmbedGroup(prefix, roots, last)];
    assert all[..|all| - 1] == before;
  }

  /** The parent's groups keep the dependencies they had. */
  lemma {:induction false} ParentKeepsDeps(parent: seq<GroupSpec>, prefix: Name, roots: Option<seq<Name>>,
                                           groups: seq<GroupSpec>, n: Name)
    requires Embeddable(parent, prefix, groups) && n in DeclaredDeps(parent)
    ensures n in DeclaredDeps(parent + EmbedAll(prefix, roots, groups))
    ensures DeclaredDeps(parent + EmbedAll(prefix, roots, groups))[n] == DeclaredDeps(parent)[n]
  {
    if groups == [] {
      assert parent + EmbedAll(prefix, roots, groups) == parent;
    } else {
      EmbeddableFront(parent, prefix, groups);
      ParentKeepsDeps(parent, prefix, roots, groups[..|groups| - 1], n);
      EmbedOneMore(parent, prefix, roots, groups);
      assert n in GroupNames(parent);
    }
  }

  /** An embedded group depends on the images of its own dependencies, and otherwise on the parent. */
  ghost predicate Mirrors(parent: seq<Name>, prefix: Name, own: seq<Name>, image: seq<Name>) {
    && (forall d :: d in own ==> Prefixed(prefix, d) in image)
    && (forall x :: x in image ==> x in parent || exists d :: d in own && x == Prefixed(prefix, d))
  }

  lemma LastMirrors(parent: seq<GroupSpec>, prefix: Name, roots: Option<seq<Name>>, earlier: seq<GroupSpec>,
                    g: GroupSpec)
    requires PointsBack(roots, GroupNames(parent))
    ensures Mirrors(GroupNames(parent), prefix, DepsOf(earlier, g),
                    DepsOf(parent + EmbedAll(prefix, roots, earlier), EmbedGroup(prefix, roots, g)))
  {
    var before := parent + EmbedAll(prefix, roots, earlier);
    var image := DepsOf(before, EmbedGroup(prefix, roots, g));
    if g.dependsOn.Some? && g.dependsOn.value != [] {
      var own := g.dependsOn.value;
      assert image == PrefixedAll(prefix, own);
      forall d | d in own ensures Prefixed(prefix, d) in image {
        var i :| 0 <= i < |own| && own[i] == d;
        assert image[i] == Prefixed(prefix, d);
      }
    } else if g.dependsOn.None? && earlier != [] {
      assert image == [Prefixed(prefix, earlier[|earlier| - 1].name)];
    } else if g.dependsOn.None? && parent != [] {
      assert before == parent && image == [GroupNames(parent)[|parent| - 1]];
    }
  }

  lemma {:induction false} EmbeddedDeps(parent: seq<GroupSpec>, prefix: Name, roots: Option<seq<Name>>,
                                        groups: seq<GroupSpec>, n: Name)
    requires Embeddable(parent, prefix, groups) && PointsBack(roots, GroupNames(parent)) && n in DeclaredDeps(groups)
    ensures Prefixed(prefix, n) in DeclaredDeps(parent + EmbedAll(prefix, roots, groups))
    ensures Mirrors(GroupNames(parent), prefix, DeclaredDeps(groups)[n],
                    DeclaredDeps(parent + EmbedAll(prefix, roots, groups))[Prefixed(prefix, n)])
  {
    var front, last := groups[..|groups| - 1], groups[|groups| - 1];
    EmbeddableFront(parent, prefix, groups);
    EmbedOneMore(parent, prefix, roots, groups);
    if n == last.name {
      LastMirrors(parent, prefix, roots, front, last);
    } else {
      EmbeddedDeps(parent, prefix, roots, front, n);
      if Prefixed(prefix, n) == Prefixed(prefix, last.name) {
        PrefixedIsInjective(prefix, n, last.name);
      }
    }
  }

  /** What an embedded group depends on, entry by entry. An entry point depends on exactly the groups of the parent that
      were asked for; a list moves along; the first group of an implicit chain goes on where the parent ends. */
  lemma EmbeddedDependsOn(parent: seq<GroupSpec>, prefix: Name, roots: Option<seq<Name>>, groups: seq<GroupSpec>,
                          i: nat)
    requires Embeddable(parent, prefix, groups) && i < |groups|
    ensures Prefixed(prefix, groups[i].name) in DeclaredDeps(parent + EmbedAll(prefix, roots, groups))
    ensures
      var deps := DeclaredDeps(parent + EmbedAll(prefix, roots, groups))[Prefixed(prefix, groups[i].name)];
      match groups[i].dependsOn
      case Some(own) =>
        if own == [] then deps == if roots.Some? then roots.value else []
        else |deps| == |own| && forall j :: 0 <= j < |own| ==> deps[j] == Prefixed(prefix, own[j])
      case None =>
        deps == if i > 0 then [Prefixed(prefix, groups[i - 1].name)]
                else if parent != [] then [parent[|parent| - 1].name] else []
  {
    var all, k := parent + EmbedAll(prefix, roots, groups), |parent| + i;
    EmbeddedNamesAreNew(parent, prefix, groups);
    forall j | k < j < |all| ensures all[j].name != all[k].name {
      assert GroupNames(groups)[i] != GroupNames(groups)[j - |parent|];
      if all[j].name == all[k].name {
        PrefixedIsInjective(prefix, groups[i].name, groups[j - |parent|].name);
      }
    }
    DependsAsDeclared(all, k);
    assert all[k] == EmbedGroup(prefix, roots, groups[i]);
    hide Embeddable, DeclaredDeps, Distinct;
  }

  /** So an entry point reaches every one of those groups. */
  lemma EntryReachesRoots(parent: seq<GroupSpec>, prefix: Name, roots: seq<Name>, groups: seq<GroupSpec>, i: nat,
                          r: Name)
    requires WellFormed(parent) && WellFormed(groups) && Embeddable(parent, prefix, groups)
    requires PointsBack(Some(roots), GroupNames(parent)) && r in roots
    requires i < |groups| && groups[i].dependsOn == Some([])
    ensures Reaches(PipelineGraph(parent + EmbedAll(prefix, Some(roots), groups)), Prefixed(prefix, groups[i].name), r)
  {
    hide *;
    var all := parent + EmbedAll(prefix, Some(roots), groups);
    EmbeddedDependsOn(parent, prefix, Some(roots), groups, i);
    EmbeddingWellFormed(parent, prefix, Some(roots), groups);
    BuiltRuns(all);
    DeclaredInGraph(all, Prefixed(prefix, groups[i].name), r);
    OneStep(PipelineGraph(all), Prefixed(prefix, groups[i].name), r);
  }

  lemma DeclaredInGraph(groups: seq<GroupSpec>, n: Name, d: Name)
    requires n in DeclaredDeps(groups) && d in DeclaredDeps(groups)[n]
    ensures n in PipelineGraph(groups) && d in PipelineGraph(groups)[n]
  {
    hide DeclaredDeps;
  }

  lemma OneStep(g: Graph, n: Name, d: Name)
    requires Closed(g) && n in g && d in g[n]
    ensures Reaches(g, n, d)
  {
    assert Path(g, [n, d]);
  }

  /** What an embedded group is made of: its agents say and do the same under their new names, and a fan-out draws on
      the new name of its source. */
  lemma EmbeddedGroupIs(prefix: Name, roots: Option<seq<Name>>, g: GroupSpec)
    ensures
      var e := EmbedGroup(prefix, roots, g);
      && (g.Group? <==> e.Group?)
      && (g.Group? ==> |e.agents| == |g.agents| && forall i :: 0 <= i < |g.agents| ==>
            && e.agents[i].name == Prefixed(prefix, g.agents[i].name) && e.agents[i].goal == g.agents[i].goal
            && (g.agents[i].dependsOn.None? ==> e.agents[i].dependsOn.None?)
            && (g.agents[i].dependsOn.Some? ==>
                  var own := g.agents[i].dependsOn.value;
                  && e.agents[i].dependsOn.Some? && |e.agents[i].dependsOn.value| == |own|
                  && forall j :: 0 <= j < |own| ==> e.agents[i].dependsOn.value[j] == Prefixed(prefix, own[j])))
      && (g.Fanout? ==>
            && e.source == Prefixed(prefix, g.source) && e.workerName == Prefixed(prefix, g.workerName)
            && e.workerGoal == g.workerGoal && e.maxItems == g.maxItems)
  {
  }

  /** The agents of an embedded group wait for one another as they did before. */
  lemma EmbeddedAgentsWait(prefix: Name, agents: seq<AgentSpec>, i: nat, d: Name)
    requires i < |agents|
    ensures Awaits(EmbedAgents(prefix, agents), i, Prefixed(prefix, d)) <==> Awaits(agents, i, d)
    ensures forall x :: Awaits(EmbedAgents(prefix, agents), i, x) ==> exists n :: x == Prefixed(prefix, n)
  {
    var e, a := EmbedAgents(prefix, agents)[i], agents[i];
    if a.dependsOn.Some? {
      ImagesIn(prefix, a.dependsOn.value, d);
    } else if i > 0 {
      if Prefixed(prefix, d) == Prefixed(prefix, agents[i - 1].name) {
        PrefixedIsInjective(prefix, d, agents[i - 1].name);
      }
    }
  }

  lemma ImagesIn(prefix: Name, names: seq<Name>, d: Name)
    ensures Prefixed(prefix, d) in PrefixedAll(prefix, names) <==> d in names
    ensures forall x :: x in PrefixedAll(prefix, names) ==> exists n :: x == Prefixed(prefix, n)
  {
    var all := PrefixedAll(prefix, names);
    if d in names {
      var i :| 0 <= i < |names| && names[i] == d;
      assert all[i] == Prefixed(prefix, d);
    }
    if Prefixed(prefix, d) in all {
      var i :| 0 <= i < |all| && all[i] == Prefixed(prefix, d);
      PrefixedIsInjective(prefix, d, names[i]);
    }
  }

  lemma {:induction false} EmbeddedAgents(prefix: Name, roots: Option<seq<Name>>, groups: seq<GroupSpec>)
    ensures AllAgents(EmbedAll(prefix, roots, groups)) == PrefixedAll(prefix, AllAgents(groups))
  {
    if groups != [] {
      var k := |groups| - 1;
      var front, last := groups[..k], groups[k];
      EmbeddedAgents(prefix, roots, front);
      assert EmbedAll(prefix, roots, groups)[..k] == EmbedAll(prefix, roots, front);
      if last.Group? {
        assert AgentNames(EmbedAgents(prefix, last.agents)) == PrefixedAll(prefix, AgentNames(last.agents));
      }
    }
  }

  /** Embedding keeps the sources of all fan-outs. */
  lemma EmbeddingSourced(parent: seq<GroupSpec>, prefix: Name, roots: Option<seq<Name>>, groups: seq<GroupSpec>)
    requires Sourced(parent) && Sourced(groups)
    ensures Sourced(parent + EmbedAll(prefix, roots, groups))
  {
    var all := parent + EmbedAll(prefix, roots, groups);
    forall i | 0 <= i < |all| && all[i].Fanout? ensures all[i].source in AllAgents(all[..i]) {
      if i < |parent| {
        assert all[..i] == parent[..i];
      } else {
        var front := groups[..i - |parent|];
        assert all[..i] == parent + EmbedAll(prefix, roots, front);
        AgentsOfBoth(parent, EmbedAll(prefix, roots, front));
        EmbeddedAgents(prefix, roots, front);
        ImagesIn(prefix, AllAgents(front), groups[i - |parent|].source);
      }
    }
  }

  /** None of the names has an image among those taken. */
  ghost predicate NoImage(prefix: Name, names: seq<Name>, taken: seq<Name>) {
    forall n :: n in names ==> Prefixed(prefix, n) !in taken
  }

  lemma NoImageBoth(prefix: Name, a: seq<Name>, b: seq<Name>, taken: seq<Name>)
    ensures NoImage(prefix, a + b, taken) <==> NoImage(prefix, a, taken) && NoImage(prefix, b, taken)
  {
    assert forall n :: n in a + b <==> n in a || n in b;
  }

  lemma FitsIs(parent: seq<GroupSpec>, prefix: Name, front: seq<GroupSpec>, last: GroupSpec)
    ensures
      var own := if last.Group? then AgentNames(last.agents) else [];
      && AllAgents(front + [last]) == AllAgents(front) + own
      && GroupNames(front + [last]) == GroupNames(front) + [last.name]
      && (Fits(parent, prefix, front, last) <==>
            && NoImage(prefix, [last.name], GroupNames(parent))
            && (forall n :: n in [last.name] ==> n !in GroupNames(front))
            && (last.Fanout? ==> last.source in AllAgents(front))
            && Distinct(own) && (forall n :: n in own ==> n !in AllAgents(front))
            && NoImage(prefix, own, AllAgents(parent)))
  {
    assert (front + [last])[..|front|] == front;
    hide Distinct;
  }

  lemma SingleIsDistinct(n: Name)
    ensures Distinct([n])
  {
  }

  /** When a pipeline can be embedded: its group names are distinct and so are the names of its agents, none of them
      collides with one of the parent's, and its fan-outs have their sources. */
  lemma {:induction false} EmbeddableIs(parent: seq<GroupSpec>, prefix: Name, groups: seq<GroupSpec>)
    ensures Embeddable(parent, prefix, groups) <==>
      && Distinct(GroupNames(groups)) && Distinct(AllAgents(groups)) && Sourced(groups)
      && NoImage(prefix, GroupNames(groups), GroupNames(parent))
      && NoImage(prefix, AllAgents(groups), AllAgents(parent))
    decreases |groups|
  {
    if groups != [] {
      hide *;
      var front, last := groups[..|groups| - 1], groups[|groups| - 1];
      assert groups == front + [last];
      EmbeddableIs(parent, prefix, front);
      EmbeddableLast(parent, prefix, front, last);
      SourcedLast(front, last);
      FitsIs(parent, prefix, front, last);
      var own := if last.Group? then AgentNames(last.agents) else [];
      DistinctLast(GroupNames(front), [last.name]);
      SingleIsDistinct(last.name);
      NoImageBoth(prefix, GroupNames(front), [last.name], GroupNames(parent));
      DistinctLast(AllAgents(front), own);
      NoImageBoth(prefix, AllAgents(front), own, AllAgents(parent));
    }
  }

  lemma EmbeddableLast(parent: seq<GroupSpec>, prefix: Name, front: seq<GroupSpec>, last: GroupSpec)
    ensures Embeddable(parent, prefix, front + [last]) <==>
      Embeddable(parent, prefix, front) && Fits(parent, prefix, front, last)
  {
    var all := front + [last];
    hide Fits;
    assert all[..|front|] == front;
    forall i | 0 <= i < |front| ensures all[..i] == front[..i] {
    }
    if Embeddable(parent, prefix, all) {
      assert Fits(parent, prefix, all[..|front|], all[|front|]);
      forall i | 0 <= i < |front| ensures Fits(parent, prefix, front[..i], front[i]) {
        assert Fits(parent, prefix, all[..i], all[i]);
      }
    }
  }

  lemma SourcedLast(front: seq<GroupSpec>, last: GroupSpec)
    ensures Sourced(front + [last]) <==> Sourced(front) && (last.Fanout? ==> last.source in AllAgents(front))
  {
    var all := front + [last];
    assert all[..|front|] == front;
    forall i | 0 <= i < |front| ensures all[..i] == front[..i] && all[i] == front[i] {
    }
    if Sourced(all) {
      assert all[|front|] == last;
      forall i | 0 <= i < |front| && front[i].Fanout? ensures front[i].source in AllAgents(front[..i]) {
        assert all[i].source in AllAgents(all[..i]);
      }
    }
  }

  lemma DistinctLast(a: seq<Name>, b: seq<Name>)
    ensures Distinct(a + b) <==> Distinct(a) && Distinct(b) && forall n :: n in b ==> n !in a
  {
    var all := a + b;
    if Distinct(all) {
      forall i, j | 0 <= i < |a| && 0 <= j < |b| ensures a[i] != b[j] {
        assert all[i] != all[|a| + j];
      }
      forall i, j | 0 <= i < j < |a| ensures a[i] != a[j] {
        assert all[i] != all[j];
      }
      forall i, j | 0 <= i < j < |b| ensures b[i] != b[j] {
        assert all[|a| + i] != all[|a| + j];
      }
    }
    if Distinct(a) && Distinct(b) && forall n :: n in b ==> n !in a {
      forall i, j | 0 <= i < j < |all| ensures all[i] != all[j] {
        if j < |a| {
          assert a[i] != a[j];
        } else if i >= |a| {
          assert b[i - |a|] != b[j - |a|];
        } else {
          assert b[j - |a|] in b && a[i] in a;
        }
      }
    }
  }

  /** Names under different prefixes stay apart, as long as a prefix has no slash in it. */
  lemma PrefixesStayApart(p: Name, m: Name, q: Name, n: Name)
    requires '/' !in p.text && '/' !in q.text && Prefixed(p, m) == Prefixed(q, n)
    ensures p == q && m == n
  {
    var s := Prefixed(p, m).text;
    assert s == p.text + "/" + m.text == q.text + "/" + n.text;
    assert s[|p.text|] == '/' && s[|q.text|] == '/';
    assert forall i :: 0 <= i < |p.text| ==> s[i] == p.text[i];
    assert forall i :: 0 <= i < |q.text| ==> s[i] == q.text[i];
    assert |p.text| == |q.text|;
    assert p.text == s[..|p.text|] && q.text == s[..|q.text|];
    PrefixedIsInjective(p, m, n);
  }

  /** Everything the path arguments need to know about the two graphs. */
  ghost predicate IsEmbedded(parent: Graph, prefix: Name, own: Graph, whole: Graph) {
    && (forall n :: n in parent ==> n in whole && whole[n] == parent[n] && parent[n] <= parent.Keys)
    && (forall n :: n in own ==> Prefixed(prefix, n) in whole && Prefixed(prefix, n) !in parent)
    && (forall n, d :: n in own && d in own[n] ==> d in own && Prefixed(prefix, d) in whole[Prefixed(prefix, n)])
    && (forall n, x :: n in own && x in whole[Prefixed(prefix, n)] ==> x in parent || IsImage(prefix, own[n], x))
  }

  ghost predicate IsImage(prefix: Name, names: set<Name>, x: Name) {
    exists d :: d in names && x == Prefixed(prefix, d)
  }

  lemma EmbeddingIsEmbedded(parent: seq<GroupSpec>, prefix: Name, roots: Option<seq<Name>>, groups: seq<GroupSpec>)
    requires WellFormed(parent) && WellFormed(groups) && Embeddable(parent, prefix, groups)
      && PointsBack(roots, GroupNames(parent))
    ensures IsEmbedded(PipelineGraph(parent), prefix, PipelineGraph(groups),
                       PipelineGraph(parent + EmbedAll(prefix, roots, groups)))
  {
    hide *;
    var p, q := PipelineGraph(parent), PipelineGraph(groups);
    var whole := PipelineGraph(parent + EmbedAll(prefix, roots, groups));
    BuiltRuns(parent);
    BuiltRuns(groups);
    forall n | n in p ensures n in whole && whole[n] == p[n] {
      ParentGraph(parent, prefix, roots, groups, n);
    }
    forall n | n in q ensures MirroredIn(p.Keys, prefix, q, whole, n) {
      ImageGraph(parent, prefix, roots, groups, n);
    }
    Assemble(p, prefix, q, whole);
  }

  ghost predicate MirroredIn(parent: set<Name>, prefix: Name, own: Graph, whole: Graph, n: Name) {
    && n in own && Prefixed(prefix, n) in whole && Prefixed(prefix, n) !in parent
    && (forall d :: d in own[n] ==> Prefixed(prefix, d) in whole[Prefixed(prefix, n)])
    && (forall x :: x in whole[Prefixed(prefix, n)] ==> x in parent || IsImage(prefix, own[n], x))
  }

  lemma ParentGraph(parent: seq<GroupSpec>, prefix: Name, roots: Option<seq<Name>>, groups: seq<GroupSpec>, n: Name)
    requires Embeddable(parent, prefix, groups) && n in PipelineGraph(parent)
    ensures
      var whole := PipelineGraph(parent + EmbedAll(prefix, roots, groups));
      n in whole && whole[n] == PipelineGraph(parent)[n]
  {
    ParentKeepsDeps(parent, prefix, roots, groups, n);
  }

  lemma ImageGraph(parent: seq<GroupSpec>, prefix: Name, roots: Option<seq<Name>>, groups: seq<GroupSpec>, n: Name)
    requires Embeddable(parent, prefix, groups) && PointsBack(roots, GroupNames(parent)) && n in PipelineGraph(groups)
    ensures MirroredIn(PipelineGraph(parent).Keys, prefix, PipelineGraph(groups),
                       PipelineGraph(parent + EmbedAll(prefix, roots, groups)), n)
  {
    EmbeddedNamesAreNew(parent, prefix, groups);
    assert n in GroupNames(groups);
    EmbeddedDeps(parent, prefix, roots, groups, n);
    hide Embeddable, PointsBack, Distinct, Prefixed;
    forall x | x in PipelineGraph(parent + EmbedAll(prefix, roots, groups))[Prefixed(prefix, n)]
      ensures x in PipelineGraph(parent).Keys || IsImage(prefix, PipelineGraph(groups)[n], x)
    {
      if x !in GroupNames(parent) {
        var d :| d in DeclaredDeps(groups)[n] && x == Prefixed(prefix, d);
        assert d in PipelineGraph(groups)[n];
      }
    }
  }

  lemma Assemble(parent: Graph, prefix: Name, own: Graph, whole: Graph)
    requires Closed(parent) && Closed(own)
    requires forall n :: n in parent ==> n in whole && whole[n] == parent[n]
    requires forall n :: n in own ==> MirroredIn(parent.Keys, prefix, own, whole, n)
    ensures IsEmbedded(parent, prefix, own, whole)
  {
  }

  lemma {:induction false} StaysInParent(parent: Graph, prefix: Name, own: Graph, whole: Graph, p: seq<Name>)
    requires IsEmbedded(parent, prefix, own, whole) && Path(whole, p) && p[0] in parent
    ensures p[|p| - 1] in parent
  {
    if |p| > 1 {
      assert p[1] in whole[p[0]];
      StaysInParent(parent, prefix, own, whole, p[1..]);
    }
  }

  lemma {:induction false} PathComesFrom(parent: Graph, prefix: Name, own: Graph, whole: Graph, p: seq<Name>, a: Name,
                                         b: Name)
    requires IsEmbedded(parent, prefix, own, whole) && Path(whole, p) && a in own && b in own
    requires p[0] == Prefixed(prefix, a) && p[|p| - 1] == Prefixed(prefix, b)
    ensures Reaches(own, a, b)
  {
    if |p| == 1 {
      PrefixedIsInjective(prefix, a, b);
      assert Path(own, [a]);
    } else {
      assert p[1] in whole[p[0]];
      if p[1] in parent {
        StaysInParent(parent, prefix, own, whole, p[1..]);
        assert false;
      }
      assert IsImage(prefix, own[a], p[1]);
      var d :| d in own[a] && p[1] == Prefixed(prefix, d);
      PathComesFrom(parent, prefix, own, whole, p[1..], d, b);
      var q :| Path(own, q) && q[0] == d && q[|q| - 1] == b;
      assert Path(own, [a] + q);
    }
  }

  /** Two embedded groups are connected exactly when their originals were, and no group of the
      parent comes to depend on an embedded one. */
  lemma EmbeddingKeepsPaths(parent: seq<GroupSpec>, prefix: Name, roots: Option<seq<Name>>, groups: seq<GroupSpec>,
                            a: Name, b: Name)
    requires WellFormed(parent) && WellFormed(groups) && Embeddable(parent, prefix, groups)
      && PointsBack(roots, GroupNames(parent))
    requires b in GroupNames(groups)
    ensures a in GroupNames(groups) ==>
      (Reaches(PipelineGraph(parent + EmbedAll(prefix, roots, groups)), Prefixed(prefix, a), Prefixed(prefix, b)) <==>
       Reaches(PipelineGraph(groups), a, b))
    ensures a in GroupNames(parent) ==>
      !Reaches(PipelineGraph(parent + EmbedAll(prefix, roots, groups)), a, Prefixed(prefix, b))
  {
    var whole, own := PipelineGraph(parent + EmbedAll(prefix, roots, groups)), PipelineGraph(groups);
    EmbeddingIsEmbedded(parent, prefix, roots, groups);
    hide WellFormed, Embeddable, PointsBack;
    assert b in own;
    if a in GroupNames(groups) {
      PathsTransfer(PipelineGraph(parent), prefix, own, whole, a, b);
    }
    if a in GroupNames(parent) && Reaches(whole, a, Prefixed(prefix, b)) {
      var p :| Path(whole, p) && p[0] == a && p[|p| - 1] == Prefixed(prefix, b);
      StaysInParent(PipelineGraph(parent), prefix, own, whole, p);
    }
  }

  lemma PathsTransfer(parent: Graph, prefix: Name, own: Graph, whole: Graph, a: Name, b: Name)
    requires IsEmbedded(parent, prefix, own, whole) && a in own && b in own
    ensures Reaches(whole, Prefixed(prefix, a), Prefixed(prefix, b)) <==> Reaches(own, a, b)
  {
    if Reaches(own, a, b) {
      var p :| Path(own, p) && p[0] == a && p[|p| - 1] == b;
      assert Path(whole, PrefixedAll(prefix, p));
    }
    if Reaches(whole, Prefixed(prefix, a), Prefixed(prefix, b)) {
      var p :| Path(whole, p) && p[0] == Prefixed(prefix, a) && p[|p| - 1] == Prefixed(prefix, b);
      PathComesFrom(parent, prefix, own, whole, p, a, b);
    }
  }
}
