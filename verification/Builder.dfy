/** The fluent builder: declares groups, agents and fan-outs, and embeds whole pipelines. */
module Builder {
  import opened Wrappers
  import opened Graphs
  import opened Capsules
  import opened Pipelines
  import opened Embedding

  datatype BuildError =
    | EmptyName | EmptyGoal | NoOpenGroup | FanoutGroupOpen | BadDependency | UnknownSource
    | MissingItemPlaceholder | BadMaxItems | SelfEmbedding | NothingToEmbed | BadPrefix | NameCollision

  predicate IsSpace(c: char) {
    c == ' ' || '\t' <= c <= '\r' || '\U{1C}' <= c <= '\U{1F}' || c in "\U{85}\U{A0}\U{1680}"
    || '\U{2000}' <= c <= '\U{200A}' || c in "\U{2028}\U{2029}\U{202F}\U{205F}\U{3000}"
  }

  function StripLeft(s: string): string {
    if s != "" && IsSpace(s[0]) then StripLeft(s[1..]) else s
  }

  function Strip(s: string): string {
    if s != "" && IsSpace(s[|s| - 1]) then Strip(s[..|s| - 1]) else StripLeft(s)
  }

  predicate Contains(s: string, part: string) {
    part <= s || (s != "" && Contains(s[1..], part))
  }

  /** The codes of the white space that Python knows, in Unicode. */
  predicate White(c: char) {
    var code := c as int;
    9 <= code <= 13 || 28 <= code <= 32 || code == 133 || code == 160 || code == 5760
    || 8192 <= code <= 8202 || 8232 <= code <= 8233 || code == 8239 || code == 8287 || code == 12288
  }

  /** Stripping cuts off white space at both ends, and all of it. */
  lemma {:induction false} StripIs(s: string) returns (i: nat, j: nat)
    ensures i <= j <= |s| && Strip(s) == s[i..j]
    ensures forall k :: 0 <= k < i || j <= k < |s| ==> White(s[k])
    ensures i < j ==> !White(s[i]) && !White(s[j - 1])
    decreases |s|
  {
    if s != "" && White(s[|s| - 1]) {
      i, j := StripIs(s[..|s| - 1]);
    } else {
      i := StripLeftIs(s);
      j := |s|;
    }
  }

  lemma {:induction false} StripLeftIs(s: string) returns (i: nat)
    ensures i <= |s| && StripLeft(s) == s[i..] && forall k :: 0 <= k < i ==> White(s[k])
    ensures i < |s| ==> !White(s[i])
  {
    if s != "" && White(s[0]) {
      var rest := StripLeftIs(s[1..]);
      i := rest + 1;
      assert s[1..][rest..] == s[i..];
      forall k | 0 <= k < i ensures White(s[k]) {
        assert k > 0 ==> s[k] == s[1..][k - 1];
      }
    } else {
      i := 0;
    }
  }

  predicate StandsAt(s: string, part: string, i: int) {
    0 <= i <= |s| - |part| && forall k :: 0 <= k < |part| ==> s[i + k] == part[k]
  }

  /** A text contains another if it can be found at some position. */
  lemma {:induction false} ContainsIs(s: string, part: string)
    ensures Contains(s, part) <==> exists i :: StandsAt(s, part, i)
  {
    assert part <= s <==> StandsAt(s, part, 0);
    if s != "" {
      ContainsIs(s[1..], part);
      if Contains(s[1..], part) {
        var i :| StandsAt(s[1..], part, i);
        assert StandsAt(s, part, i + 1);
      }
      if i :| StandsAt(s, part, i) {
        assert i > 0 ==> StandsAt(s[1..], part, i - 1);
      }
    }
  }

  function Clean(names: seq<string>): (clean: seq<Name>)
    ensures |clean| == |names| && forall i :: 0 <= i < |names| ==> clean[i] == Name(Strip(names[i]))
  {
    seq(|names|, i requires 0 <= i < |names| => Name(Strip(names[i])))
  }

  /** A dependency may be declared when it names another, existing group or agent. */
  predicate Acceptable(dep: string, own: Option<Name>, existing: seq<Name>) {
    Strip(dep) != "" && own != Some(Name(Strip(dep))) && Name(Strip(dep)) in existing
  }

  predicate AllAcceptable(dependsOn: Option<seq<string>>, own: Option<Name>, existing: seq<Name>) {
    dependsOn.Some? ==> forall d :: d in dependsOn.value ==> Acceptable(d, own, existing)
  }

  /** The list that is stored: stripped names, each where it occurs first. */
  function Normalized(dependsOn: Option<seq<string>>): Option<seq<Name>> {
    if dependsOn.Some? then Some(Keys(Clean(dependsOn.value))) else None
  }

  method NormalizeDeps(dependsOn: Option<seq<string>>, own: Option<Name>, existing: seq<Name>)
    returns (r: Result<Option<seq<Name>>, BuildError>)
    ensures r.Ok? <==> AllAcceptable(dependsOn, own, existing)
    ensures r.Ok? ==> r.value == Normalized(dependsOn) && PointsBack(r.value, existing)
    ensures r.Err? ==> r.error == BadDependency
  {
    if dependsOn.None? {
      return Ok(None);
    }
    var normalized := Collect(dependsOn.value, own, existing);
    if normalized.None? {
      return Err(BadDependency);
    }
    CleanPointsBack(dependsOn.value, own, existing);
    r := Ok(Some(normalized.value));
  }

  method Collect(deps: seq<string>, own: Option<Name>, existing: seq<Name>) returns (r: Option<seq<Name>>)
    ensures r.Some? <==> AllAcceptable(Some(deps), own, existing)
    ensures r.Some? ==> r.value == Keys(Clean(deps))
  {
    var normalized: seq<Name> := [];
    assert deps[..0] == [];
    hide *;
    NothingCollected(own, existing);
    for i := 0 to |deps|
      invariant AllAcceptable(Some(deps[..i]), own, existing)
      invariant normalized == Keys(Clean(deps[..i]))
    {
      AcceptOneMore(deps, i, own, existing);
      if !Acceptable(deps[i], own, existing) {
        return None;
      }
      var dep := Name(Strip(deps[i]));
      CleanOneMore(deps, i);
      if dep !in normalized {
        normalized := normalized + [dep];
      }
    }
    assert deps[..|deps|] == deps;
    r := Some(normalized);
  }

  lemma NothingCollected(own: Option<Name>, existing: seq<Name>)
    ensures AllAcceptable(Some([]), own, existing) && Keys(Clean([])) == []
  {
  }

  lemma AcceptOneMore(deps: seq<string>, i: nat, own: Option<Name>, existing: seq<Name>)
    requires i < |deps| && AllAcceptable(Some(deps[..i]), own, existing)
    ensures Acceptable(deps[i], own, existing) ==> AllAcceptable(Some(deps[..i + 1]), own, existing)
    ensures !Acceptable(deps[i], own, existing) ==> !AllAcceptable(Some(deps), own, existing)
  {
    hide Acceptable;
    assert deps[..i + 1] == deps[..i] + [deps[i]];
    assert deps[i] in deps;
  }

  lemma CleanOneMore(deps: seq<string>, i: nat)
    requires i < |deps|
    ensures
      var keys, dep := Keys(Clean(deps[..i])), Name(Strip(deps[i]));
      Keys(Clean(deps[..i + 1])) == if dep in keys then keys else keys + [dep]
  {
    assert Clean(deps[..i + 1]) == Clean(deps[..i]) + [Name(Strip(deps[i]))];
    assert Clean(deps[..i + 1])[..i] == Clean(deps[..i]);
  }

  /** What is stored of a list: each of its names, stripped, once, where it stood first. */
  lemma NormalizedIs(deps: seq<string>, k: nat)
    requires k <= |deps|
    ensures
      var names := Normalized(Some(deps)).value;
      && Distinct(names)
      && (forall n :: n in names <==> exists i :: 0 <= i < |deps| && n == Name(Strip(deps[i])))
      && Normalized(Some(deps[..k])).value <= names
  {
    hide Strip;
    assert Clean(deps)[..k] == Clean(deps[..k]);
    KeysKeepOrder(Clean(deps), k);
    forall n ensures n in Clean(deps) <==> exists i :: 0 <= i < |deps| && n == Name(Strip(deps[i])) {
      assert forall i :: 0 <= i < |deps| ==> Clean(deps)[i] == Name(Strip(deps[i]));
    }
  }

  /** A list is accepted if no name on it is empty, the group's own, or unknown. */
  lemma AcceptsExactly(deps: seq<string>, own: Option<Name>, existing: seq<Name>)
    ensures AllAcceptable(Some(deps), own, existing) <==>
      forall n :: n in Normalized(Some(deps)).value ==> n.text != "" && own != Some(n) && n in existing
  {
    NormalizedIs(deps, 0);
    hide Strip, Normalized;
    if forall n :: n in Normalized(Some(deps)).value ==> n.text != "" && own != Some(n) && n in existing {
      forall d | d in deps ensures Acceptable(d, own, existing) {
        var i :| 0 <= i < |deps| && deps[i] == d;
        assert Name(Strip(deps[i])) in Normalized(Some(deps)).value;
      }
    }
    if AllAcceptable(Some(deps), own, existing) {
      forall n | n in Normalized(Some(deps)).value ensures n.text != "" && own != Some(n) && n in existing {
        var i :| 0 <= i < |deps| && n == Name(Strip(deps[i]));
        assert deps[i] in deps && Acceptable(deps[i], own, existing);
      }
    }
  }

  lemma CleanPointsBack(deps: seq<string>, own: Option<Name>, existing: seq<Name>)
    requires AllAcceptable(Some(deps), own, existing)
    ensures PointsBack(Some(Keys(Clean(deps))), existing)
  {
    forall n | n in Clean(deps) ensures n in existing {
      var i :| 0 <= i < |deps| && Clean(deps)[i] == n;
      assert deps[i] in deps;
    }
  }

  lemma ReplaceLast(groups: seq<GroupSpec>, last: GroupSpec)
    requires WellFormed(groups) && groups != [] && groups[|groups| - 1].name == last.name
    requires groups[|groups| - 1].dependsOn == last.dependsOn && last.Group? && AgentsPointBack(last.agents)
    ensures WellFormed(groups[..|groups| - 1] + [last])
  {
    var front := groups[..|groups| - 1];
    PrefixWellFormed(groups);
    AppendWellFormed(front, last);
  }

  lemma SourcesStay(groups: seq<GroupSpec>, last: GroupSpec)
    requires Sourced(groups) && groups != [] && last.Group?
    ensures Sourced(groups[..|groups| - 1] + [last])
  {
    var front := groups[..|groups| - 1];
    forall i | 0 <= i < |front| && front[i].Fanout? ensures front[i].source in AllAgents(front[..i]) {
      assert front[..i] == groups[..i];
    }
    AppendSourced(front, last);
  }

  lemma AppendAgent(agents: seq<AgentSpec>, a: AgentSpec)
    requires AgentsPointBack(agents) && PointsBack(a.dependsOn, AgentNames(agents))
    ensures AgentsPointBack(agents + [a])
  {
    var all := agents + [a];
    forall i | 0 <= i < |all| ensures all[..i] == if i < |agents| then agents[..i] else agents {
    }
  }

  lemma {:induction false} TakeWellFormed(groups: seq<GroupSpec>, k: nat)
    requires WellFormed(groups) && k <= |groups|
    ensures WellFormed(groups[..k])
  {
    forall i | 0 <= i < k ensures groups[..k][..i] == groups[..i] {
    }
  }

  lemma TakeSourced(groups: seq<GroupSpec>, k: nat)
    requires Sourced(groups) && k <= |groups|
    ensures Sourced(groups[..k])
  {
    forall i | 0 <= i < k ensures groups[..k][..i] == groups[..i] {
    }
  }

  function PrefixedSet(prefix: Name, names: seq<Name>): set<Name> {
    set n | n in names :: Prefixed(prefix, n)
  }

  lemma InPrefixedSet(prefix: Name, names: seq<Name>, n: Name)
    ensures Prefixed(prefix, n) in PrefixedSet(prefix, names) <==> n in names
  {
    if Prefixed(prefix, n) in PrefixedSet(prefix, names) {
      var m :| m in names && Prefixed(prefix, m) == Prefixed(prefix, n);
      PrefixedIsInjective(prefix, m, n);
    }
  }

  /** Checks the agents of one embedded group against the parent's and those embedded so far. */
  method AdmitAgents(prefix: Name, agents: seq<AgentSpec>, parentAgents: seq<Name>, ghost earlier: seq<Name>,
                     embedded0: set<Name>)
    returns (ok: bool, embedded: set<Name>)
    requires embedded0 == PrefixedSet(prefix, earlier)
    ensures ok <==>
      && Distinct(AgentNames(agents))
      && forall n :: n in AgentNames(agents) ==> n !in earlier && Prefixed(prefix, n) !in parentAgents
    ensures ok ==> embedded == PrefixedSet(prefix, earlier + AgentNames(agents))
  {
    embedded := embedded0;
    var names := AgentNames(agents);
    assert earlier + names[..0] == earlier;
    for i := 0 to |names|
      invariant embedded == PrefixedSet(prefix, earlier + names[..i])
      invariant Distinct(names[..i])
      invariant forall n :: n in names[..i] ==> n !in earlier && Prefixed(prefix, n) !in parentAgents
    {
      var name := Prefixed(prefix, names[i]);
      InPrefixedSet(prefix, earlier + names[..i], names[i]);
      if name in parentAgents || name in embedded {
        assert names[i] in names;
        return false, embedded;
      }
      assert names[..i + 1] == names[..i] + [names[i]];
      assert earlier + names[..i + 1] == earlier + names[..i] + [names[i]];
      embedded := embedded + {name};
    }
    assert names[..|names|] == names;
    ok := true;
  }

  /** Checks one group, as `Fits` says, and extends the set of embedded agents. */
  method Admit(ghost parent: seq<GroupSpec>, prefix: Name, ghost earlier: seq<GroupSpec>, g: GroupSpec,
               known: set<Name>, parentAgents: seq<Name>, embedded0: set<Name>)
    returns (ok: bool, embedded: set<Name>)
    requires known == Elems(GroupNames(parent)) + PrefixedSet(prefix, GroupNames(earlier))
    requires parentAgents == AllAgents(parent) && embedded0 == PrefixedSet(prefix, AllAgents(earlier))
    ensures ok <==> Fits(parent, prefix, earlier, g)
    ensures ok ==> embedded == PrefixedSet(prefix, AllAgents(earlier + [g]))
  {
    embedded := embedded0;
    assert (earlier + [g])[..|earlier|] == earlier;
    InPrefixedSet(prefix, GroupNames(earlier), g.name);
    if Prefixed(prefix, g.name) in known {
      return false, embedded;
    }
    if g.Fanout? {
      InPrefixedSet(prefix, AllAgents(earlier), g.source);
      ok := Prefixed(prefix, g.source) in embedded;
      assert AllAgents(earlier + [g]) == AllAgents(earlier);
    } else {
      ok, embedded := AdmitAgents(prefix, g.agents, parentAgents, AllAgents(earlier), embedded);
    }
  }

  lemma KnownNames(prefix: Name, earlier: seq<GroupSpec>, g: GroupSpec)
    ensures PrefixedSet(prefix, GroupNames(earlier + [g])) ==
      PrefixedSet(prefix, GroupNames(earlier)) + {Prefixed(prefix, g.name)}
  {
    assert GroupNames(earlier + [g]) == GroupNames(earlier) + [g.name];
  }

  lemma NothingEmbedded(parent: seq<GroupSpec>, prefix: Name, roots: Option<seq<Name>>, source: seq<GroupSpec>)
    ensures parent == parent + EmbedAll(prefix, roots, source[..0]) && Embeddable(parent, prefix, source[..0])
    ensures Elems(GroupNames(parent)) == Elems(GroupNames(parent)) + PrefixedSet(prefix, GroupNames(source[..0]))
    ensures PrefixedSet(prefix, AllAgents(source[..0])) == {}
  {
  }

  lemma FitsOneMore(parent: seq<GroupSpec>, prefix: Name, source: seq<GroupSpec>, i: nat)
    requires i < |source| && Embeddable(parent, prefix, source[..i])
    ensures Fits(parent, prefix, source[..i], source[i]) ==> Embeddable(parent, prefix, source[..i + 1])
    ensures !Fits(parent, prefix, source[..i], source[i]) ==> !Embeddable(parent, prefix, source)
  {
    hide Fits;
    var more := source[..i + 1];
    forall j | 0 <= j < i
      ensures Fits(parent, prefix, more[..j], more[j]) <==> Fits(parent, prefix, source[..i][..j], source[..i][j]) {
      assert more[..j] == source[..i][..j];
    }
    assert more[..i] == source[..i];
  }

  lemma AppendedOneMore(parent: seq<GroupSpec>, prefix: Name, roots: Option<seq<Name>>, source: seq<GroupSpec>, i: nat)
    requires i < |source|
    ensures source[..i + 1] == source[..i] + [source[i]]
    ensures parent + EmbedAll(prefix, roots, source[..i + 1]) ==
      parent + EmbedAll(prefix, roots, source[..i]) + [EmbedGroup(prefix, roots, source[i])]
  {
    hide EmbedGroup;
    assert EmbedAll(prefix, roots, source[..i + 1]) ==
      EmbedAll(prefix, roots, source[..i]) + [EmbedGroup(prefix, roots, source[i])];
  }

  lemma EmbeddedOneMore(parent: seq<GroupSpec>, prefix: Name, roots: Option<seq<Name>>, source: seq<GroupSpec>, i: nat)
    requires i < |source| && Embeddable(parent, prefix, source[..i])
    ensures source[..i + 1] == source[..i] + [source[i]]
    ensures parent + EmbedAll(prefix, roots, source[..i + 1]) ==
      parent + EmbedAll(prefix, roots, source[..i]) + [EmbedGroup(prefix, roots, source[i])]
    ensures PrefixedSet(prefix, GroupNames(source[..i + 1])) ==
      PrefixedSet(prefix, GroupNames(source[..i])) + {Prefixed(prefix, source[i].name)}
    ensures Fits(parent, prefix, source[..i], source[i]) ==> Embeddable(parent, prefix, source[..i + 1])
    ensures !Fits(parent, prefix, source[..i], source[i]) ==> !Embeddable(parent, prefix, source)
  {
    hide *;
    AppendedOneMore(parent, prefix, roots, source, i);
    KnownNames(prefix, source[..i], source[i]);
    FitsOneMore(parent, prefix, source, i);
  }

  /** The k-th group is the first that cannot be embedded. */
  ghost predicate FirstMisfit(parent: seq<GroupSpec>, prefix: Name, source: seq<GroupSpec>, k: int) {
    0 <= k < |source| && Embeddable(parent, prefix, source[..k]) && !Fits(parent, prefix, source[..k], source[k])
  }

  lemma IsFirstMisfit(parent: seq<GroupSpec>, prefix: Name, source: seq<GroupSpec>, k: nat)
    requires k < |source| && Embeddable(parent, prefix, source[..k]) && !Fits(parent, prefix, source[..k], source[k])
    ensures FirstMisfit(parent, prefix, source, k)
  {
  }

  class Pipeline {
    const name: Name
    var groups: seq<GroupSpec>
    var currentGroup: Option<Name>

    ghost predicate Valid()
      reads this
    {
      WellFormed(groups) && Sourced(groups) && (currentGroup.Some? ==> groups != [])
    }

    constructor (name: string)
      requires Strip(name) != ""
      ensures Valid() && this.name == Name(Strip(name)) && groups == [] && currentGroup == None
    {
      this.name := Name(Strip(name));
      groups, currentGroup := [], None;
    }

    /** Opens a static group. A second group of the same name is not refused. */
    method Group(name: string, dependsOn: Option<seq<string>>) returns (r: Result<(), BuildError>)
      requires Valid()
      modifies this
      ensures Valid()
      ensures r.Ok? <==> Strip(name) != "" && AllAcceptable(dependsOn, Some(Name(Strip(name))), GroupNames(old(groups)))
      ensures r.Ok? ==>
        && groups == old(groups) + [GroupSpec.Group(Name(Strip(name)), [], Normalized(dependsOn))]
        && currentGroup == Some(Name(Strip(name)))
      ensures r.Err? ==> groups == old(groups) && currentGroup == old(currentGroup)
    {
      if Strip(name) == "" {
        return Err(EmptyName);
      }
      var own := Name(Strip(name));
      var deps := NormalizeDeps(dependsOn, Some(own), GroupNames(groups));
      if deps.Err? {
        return Err(deps.error);
      }
      var g := GroupSpec.Group(own, [], deps.value);
      AppendWellFormed(groups, g);
      AppendSourced(groups, g);
      groups, currentGroup := groups + [g], Some(own);
      r := Ok(());
    }

    /** Adds an agent to the group that was opened last. */
    method Agent(name: string, goal: string, dependsOn: Option<seq<string>>) returns (r: Result<(), BuildError>)
      requires Valid()
      modifies this
      ensures Valid() && currentGroup == old(currentGroup)
      ensures r.Ok? <==>
        && Strip(name) != "" && Strip(goal) != "" && currentGroup.Some? && old(groups)[|old(groups)| - 1].Group?
        && AllAcceptable(dependsOn, Some(Name(Strip(name))), AgentNames(old(groups)[|old(groups)| - 1].agents))
      ensures r.Ok? ==>
        var last := old(groups)[|old(groups)| - 1];
        groups == old(groups)[..|old(groups)| - 1] +
          [last.(agents := last.agents + [AgentSpec(Name(Strip(name)), Strip(goal), Normalized(dependsOn))])]
      ensures r.Err? ==> groups == old(groups)
    {
      if Strip(name) == "" {
        return Err(EmptyName);
      } else if Strip(goal) == "" {
        return Err(EmptyGoal);
      } else if currentGroup.None? {
        return Err(NoOpenGroup);
      }
      var last := groups[|groups| - 1];
      if last.Fanout? {
        return Err(FanoutGroupOpen);
      }
      hide WellFormed, Sourced, Strip, Acceptable, PointsBack;
      var own := Name(Strip(name));
      var deps := NormalizeDeps(dependsOn, Some(own), AgentNames(last.agents));
      if deps.Err? {
        return Err(deps.error);
      }
      var a := AgentSpec(own, Strip(goal), deps.value);
      AppendAgent(last.agents, a);
      ReplaceLast(groups, last.(agents := last.agents + [a]));
      SourcesStay(groups, last.(agents := last.agents + [a]));
      groups := groups[..|groups| - 1] + [last.(agents := last.agents + [a])];
      r := Ok(());
    }

    /** Declares a group whose workers are made at run time from the output of `source`. */
    method FanoutGroup(name: string, source: string, workerName: string, workerGoal: string, maxItems: int,
                       dependsOn: Option<seq<string>>)
      returns (r: Result<(), BuildError>)
      requires Valid()
      modifies this
      ensures Valid()
      ensures r.Ok? <==>
        && Strip(name) != "" && Strip(source) != "" && Strip(workerName) != "" && Strip(workerGoal) != ""
        && maxItems >= 1
        && Name(Strip(source)) in AllAgents(old(groups)) && Contains(workerGoal, "{item}")
        && AllAcceptable(dependsOn, Some(Name(Strip(name))), GroupNames(old(groups)))
      ensures r.Ok? ==>
        && groups == old(groups) + [
             Fanout(Name(Strip(name)), Name(Strip(source)), Name(Strip(workerName)), workerGoal, maxItems,
                    Normalized(dependsOn))]
        && currentGroup == Some(Name(Strip(name)))
      ensures r.Err? ==> groups == old(groups) && currentGroup == old(currentGroup)
    {
      if Strip(name) == "" || Strip(source) == "" || Strip(workerName) == "" {
        return Err(EmptyName);
      } else if Strip(workerGoal) == "" {
        return Err(EmptyGoal);
      } else if maxItems < 1 {
        return Err(BadMaxItems);
      } else if Name(Strip(source)) !in AllAgents(groups) {
        return Err(UnknownSource);
      } else if !Contains(workerGoal, "{item}") {
        return Err(MissingItemPlaceholder);
      }
      var own := Name(Strip(name));
      var deps := NormalizeDeps(dependsOn, Some(own), GroupNames(groups));
      if deps.Err? {
        return Err(deps.error);
      }
      var g := Fanout(own, Name(Strip(source)), Name(Strip(workerName)), workerGoal, maxItems, deps.value);
      AppendWellFormed(groups, g);
      AppendSourced(groups, g);
      groups, currentGroup := groups + [g], Some(own);
      r := Ok(());
    }

    /** The prefix under which `other` is embedded. */
    static function PrefixFor(other: Name, namePrefix: Option<string>): Name {
      Name(Strip(if namePrefix.Some? && namePrefix.value != "" then namePrefix.value else other.text))
    }

    /** It is the one that was given, or else the name of the pipeline, stripped. */
    static lemma PrefixIs(other: Name, given: string)
      ensures PrefixFor(other, Some(given)).text == Strip(if given == "" then other.text else given)
      ensures PrefixFor(other, None).text == Strip(other.text)
    {
    }

    /** Embeds the groups of another pipeline. Bad arguments change nothing; a group that cannot be
        embedded leaves the groups before it embedded. */
    method Subpipeline(other: Pipeline, namePrefix: Option<string>, dependsOn: Option<seq<string>>)
      returns (r: Result<(), BuildError>)
      requires Valid() && other.Valid()
      modifies this
      ensures Valid()
      ensures
        var prefix := PrefixFor(other.name, namePrefix);
        && (r.Ok? <==>
          && other != this && other.groups != [] && prefix.text != "" && '/' !in prefix.text
          && AllAcceptable(dependsOn, None, GroupNames(old(groups)))
          && Embeddable(old(groups), prefix, other.groups))
        && (r.Ok? ==>
          groups == old(groups) + EmbedAll(prefix, Normalized(dependsOn), other.groups) && currentGroup == None)
        && (r.Err? ==> currentGroup == old(currentGroup))
        && (r.Err? && !r.error.NameCollision? ==> groups == old(groups))
        && (r.Err? && r.error.NameCollision? ==> other != this && exists k ::
          FirstMisfit(old(groups), prefix, other.groups, k)
          && groups == old(groups) + EmbedAll(prefix, Normalized(dependsOn), other.groups[..k]))
        && (r.Err? && r.error.NameCollision? <==>
          && other != this && other.groups != [] && prefix.text != "" && '/' !in prefix.text
          && AllAcceptable(dependsOn, None, GroupNames(old(groups)))
          && !Embeddable(old(groups), prefix, other.groups))
    {
      if other == this {
        return Err(SelfEmbedding);
      }
      if other.groups == [] {
        return Err(NothingToEmbed);
      }
      var prefix := PrefixFor(other.name, namePrefix);
      if prefix.text == "" || '/' in prefix.text {
        return Err(BadPrefix);
      }
      var roots := NormalizeDeps(dependsOn, None, GroupNames(groups));
      if roots.Err? {
        return Err(roots.error);
      }
      var ok, k := Embed(other.groups, prefix, roots.value);
      if !ok {
        return Err(NameCollision);
      }
      assert other.groups[..k] == other.groups;
      currentGroup := None;
      r := Ok(());
    }

    /** Appends the groups of a pipeline one by one, as long as they fit. */
    method Embed(source: seq<GroupSpec>, prefix: Name, roots: Option<seq<Name>>) returns (ok: bool, ghost k: nat)
      requires WellFormed(groups) && WellFormed(source) && PointsBack(roots, GroupNames(groups))
      requires Sourced(groups) && Sourced(source)
      modifies this`groups
      ensures WellFormed(groups) && Sourced(groups) && k <= |source|
        && groups == old(groups) + EmbedAll(prefix, roots, source[..k])
      ensures ok <==> Embeddable(old(groups), prefix, source)
      ensures if ok then k == |source| else FirstMisfit(old(groups), prefix, source, k)
    {
      hide *;
      var parentAgents := AllAgents(groups);
      var known := Elems(GroupNames(groups));
      var embedded: set<Name> := {};
      ghost var parent := groups;
      NothingEmbedded(parent, prefix, roots, source);
      for i := 0 to |source|
        invariant groups == parent + EmbedAll(prefix, roots, source[..i])
        invariant Embeddable(parent, prefix, source[..i])
        invariant known == Elems(GroupNames(parent)) + PrefixedSet(prefix, GroupNames(source[..i]))
        invariant embedded == PrefixedSet(prefix, AllAgents(source[..i]))
      {
        TakeWellFormed(source, i);
        EmbeddingWellFormed(parent, prefix, roots, source[..i]);
        TakeSourced(source, i);
        EmbeddingSourced(parent, prefix, roots, source[..i]);
        EmbeddedOneMore(parent, prefix, roots, source, i);
        ok, embedded := Admit(parent, prefix, source[..i], source[i], known, parentAgents, embedded);
        if !ok {
          IsFirstMisfit(parent, prefix, source, i);
          return false, i;
        }
        known := known + {Prefixed(prefix, source[i].name)};
        groups := groups + [EmbedGroup(prefix, roots, source[i])];
      }
      assert source[..|source|] == source;
      EmbeddingWellFormed(parent, prefix, roots, source);
      EmbeddingSourced(parent, prefix, roots, source);
      return true, |source|;
    }
  }
}
