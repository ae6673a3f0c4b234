/** When the two executors give the same groups the same tasks. */
module Agreement {
  import opened Wrappers
  import opened Graphs
  import opened Levels
  import opened Pipelines
  import opened Semantics
  import opened Merging
  import opened ParallelExecutor
  import opened Recovery
  import opened SerialExecutor

  ghost predicate ChainAt<S>(p: Plan<S>, i: int) {
    && 0 <= i < |p.order| && p.order[i] in p.deps
    && p.deps[p.order[i]] == if i == 0 then [] else [p.order[i - 1]]
  }

  /** No group declares dependencies: each depends on the one before it. */
  ghost predicate IsChain<S>(p: Plan<S>) {
    Serial(p) && forall i {:trigger ChainAt(p, i)} :: 0 <= i < |p.order| ==> ChainAt(p, i)
  }

  lemma ChainGraph<S>(p: Plan<S>, i: nat)
    requires IsChain(p) && i < |p.order|
    ensures
      var g := GroupGraph(p.deps);
      && p.order[i] in g && g[p.order[i]] == (if i == 0 then {} else {p.order[i - 1]})
      && (i > 0 ==> p.order[i - 1] in g)
  {
    assert ChainAt(p, i) && (i > 0 ==> ChainAt(p, i - 1));
  }

  lemma ChainPointsBack<S>(p: Plan<S>, n: Name, d: Name)
    requires IsChain(p) && n in GroupGraph(p.deps) && d in GroupGraph(p.deps)[n]
    ensures EarlierIn(p.order, d, n) && d in GroupGraph(p.deps)
  {
    assert n in Elems(p.order);
    var i := IndexOf(p.order, n);
    ChainGraph(p, i);
    assert p.order[i] == n && p.order[i - 1] == d;
  }

  lemma ChainIsRunnable<S>(p: Plan<S>)
    requires IsChain(p)
    ensures Runnable(p)
  {
    var g := GroupGraph(p.deps);
    forall n, d | n in g && d in g[n] ensures EarlierIn(p.order, d, n) && d in g {
      ChainPointsBack(p, n, d);
    }
    hide EarlierIn;
    PointingBackIsAcyclic(g, p.order);
  }

  ghost function FinalText<S>(p: Plan<S>, i: nat): string
    requires Serial(p) && i < |p.order|
  {
    OrEmpty(SerialResult(p, i).finalOutput)
  }

  ghost predicate Silent<S>(p: Plan<S>, i: nat)
    requires Serial(p) && i < |p.order|
  {
    FinalText(p, i) == ""
  }

  /** Once a group has produced a text, so does every later group that hands one on. */
  ghost predicate NoGap<S>(p: Plan<S>)
    requires Serial(p)
  {
    forall i, j :: 0 <= j < i < |p.order| - 1 && !Silent(p, j) ==> !Silent(p, i)
  }

  /** The task the parallel executor builds for the i-th group of a chain. */
  ghost function ParallelTask<S>(p: Plan<S>, i: nat): string
    requires IsChain(p) && i < |p.order|
  {
    ChainIsRunnable(p);
    TaskOf(p, Denotation(p), p.order[i])
  }

  lemma {:induction false} ChainTask<S>(p: Plan<S>, i: nat)
    requires IsChain(p) && i < |p.order| && Runnable(p)
    ensures
      var sol := Denotation(p);
      && p.order[i] in sol && sol[p.order[i]] == p.run(p.order[i], p.start[p.order[i]], ParallelTask(p, i))
      && (i > 0 ==> p.order[i - 1] in sol)
      && (i > 0 ==> ParallelTask(p, i) == Augment(p.task, p.order[i - 1], OrEmpty(sol[p.order[i - 1]].finalOutput)))
      && (i == 0 ==> ParallelTask(p, i) == p.task)
  {
    var sol, n := Denotation(p), p.order[i];
    assert n in Elems(p.order) && ChainAt(p, i);
    if i > 0 {
      assert p.order[i - 1] in Elems(p.order);
      var deps := p.deps[n];
      assert deps[..0] == [] && deps[|deps| - 1] == p.order[i - 1];
      assert GroupTask(p.task, deps, Texts(sol)) ==
        Augment(GroupTask(p.task, deps[..0], Texts(sol)), p.order[i - 1], TextOf(Texts(sol), p.order[i - 1]));
    }
  }

  /** As long as the tasks agree, so do the results. */
  lemma {:induction false} SameTaskSameResult<S>(p: Plan<S>, i: nat)
    requires IsChain(p) && i < |p.order| && Runnable(p) && ParallelTask(p, i) == SerialTask(p, i)
    ensures p.order[i] in Denotation(p) && Denotation(p)[p.order[i]] == SerialResult(p, i)
  {
    ChainTask(p, i);
  }

  lemma SerialStep<S>(p: Plan<S>, i: nat)
    requires Serial(p) && i < |p.order|
    ensures SerialTask(p, 0) == p.task
    ensures SerialTask(p, i + 1) ==
      if Silent(p, i) then SerialTask(p, i) else Augment(p.task, p.order[i], FinalText(p, i))
    ensures !Silent(p, i) ==> SerialTask(p, i + 1) != p.task
    ensures Augment(p.task, p.order[i], "") == p.task
    ensures OrEmpty(SerialResult(p, i).finalOutput) == FinalText(p, i)
  {
    hide SerialResult;
    if !Silent(p, i) {
      Longer(p.task, p.order[i], FinalText(p, i));
    }
  }

  /** The serial task is the original one exactly while nothing has been handed on. */
  lemma {:induction false} UntouchedTask<S>(p: Plan<S>, i: nat)
    requires Serial(p) && i <= |p.order|
    ensures SerialTask(p, i) == p.task <==> forall j :: 0 <= j < i ==> Silent(p, j)
  {
    hide SerialTask, SerialResult, Silent, Augment;
    if i > 0 {
      UntouchedTask(p, i - 1);
      SerialStep(p, i - 1);
    } else if |p.order| > 0 {
      SerialStep(p, 0);
    }
  }

  lemma Longer(task: string, n: Name, text: string)
    requires text != ""
    ensures Augment(task, n, text) != task
  {
    assert |Augment(task, n, text)| > |task|;
  }

  /** One group further along the chain: the parallel task follows from the result before it. */
  lemma {:induction false} NextChainTask<S>(p: Plan<S>, i: nat)
    requires IsChain(p) && Serial(p) && Runnable(p)
    requires i + 1 < |p.order| && ParallelTask(p, i) == SerialTask(p, i)
    ensures ParallelTask(p, i + 1) == Augment(p.task, p.order[i], FinalText(p, i))
  {
    hide *;
    SameTaskSameResult(p, i);
    ChainTask(p, i + 1);
    SerialStep(p, i);
  }

  lemma {:induction false} NoGapMeansSameTask<S>(p: Plan<S>, i: nat)
    requires IsChain(p) && Serial(p) && i < |p.order| && Runnable(p) && NoGap(p)
    ensures ParallelTask(p, i) == SerialTask(p, i)
  {
    hide Runnable, IsChain, ParallelTask, SerialTask, SerialResult, FinalText, Augment, Serial, Silent;
    if i == 0 {
      FirstTask(p);
    } else {
      NoGapMeansSameTask(p, i - 1);
      NextChainTask(p, i - 1);
      SerialStep(p, i - 1);
      SilentText(p, i - 1);
      UntouchedTask(p, i - 1);
    }
  }

  lemma {:induction false} FirstTask<S>(p: Plan<S>)
    requires IsChain(p) && Runnable(p)
    ensures ParallelTask(p, 0) == SerialTask(p, 0)
  {
    ChainTask(p, 0);
  }

  lemma SilentText<S>(p: Plan<S>, i: nat)
    requires Serial(p) && i < |p.order|
    ensures Silent(p, i) ==> FinalText(p, i) == ""
  {
  }

  lemma {:induction false} GapMeansOtherTask<S>(p: Plan<S>, i: nat, j: nat)
    requires IsChain(p) && Serial(p) && Runnable(p) && j < i < |p.order| - 1 && !Silent(p, j) && Silent(p, i)
    requires ParallelTask(p, i) == SerialTask(p, i)
    ensures ParallelTask(p, i + 1) != SerialTask(p, i + 1)
  {
    hide Runnable, IsChain, ParallelTask, SerialTask, SerialResult, FinalText, Augment, Serial, Silent;
    NextChainTask(p, i);
    SilentText(p, i);
    SerialStep(p, i);
    UntouchedTask(p, i);
  }

  /** On a chain of groups both executors hand every group the same task if and only if no group
      but the last falls silent after an earlier one has spoken. */
  lemma ChainsAgree<S>(p: Plan<S>)
    requires IsChain(p) && Runnable(p)
    ensures (forall i :: 0 <= i < |p.order| ==> ParallelTask(p, i) == SerialTask(p, i)) <==> NoGap(p)
  {
    assert Serial(p);
    hide Runnable, IsChain, ParallelTask, SerialTask, Silent, Serial;
    if NoGap(p) {
      forall i | 0 <= i < |p.order| ensures ParallelTask(p, i) == SerialTask(p, i) {
        NoGapMeansSameTask(p, i);
      }
    } else {
      var i, j :| 0 <= j < i < |p.order| - 1 && !Silent(p, j) && Silent(p, i);
      if ParallelTask(p, i) == SerialTask(p, i) {
        GapMeansOtherTask(p, i, j);
      }
    }
  }

  // ----- the results --------------------------------------------------------------------------

  lemma {:induction false} ChainDepth<S>(p: Plan<S>, i: nat)
    requires IsChain(p) && i < |p.order|
    ensures p.order[i] in GroupGraph(p.deps) && LongestChain(GroupGraph(p.deps), p.order[i], i)
  {
    var g := GroupGraph(p.deps);
    ChainGraph(p, i);
    if i == 0 {
      assert Path(g, [p.order[0]]);
      forall q | Path(g, q) && q[0] == p.order[0] ensures |q| <= 1 {
        if |q| > 1 {
          SecondStep(g, q);
        }
      }
    } else {
      ChainDepth(p, i - 1);
      ChainDeeper(g, p.order[i], p.order[i - 1], i - 1);
    }
  }

  lemma SecondStep(g: Graph, q: seq<Name>)
    requires Path(g, q) && |q| > 1
    ensures g[q[0]] != {}
  {
    assert q[1] in g[q[0]];
  }

  lemma ChainDeeper(g: Graph, n: Name, d: Name, k: nat)
    requires n in g && g[n] == {d} && d in g && LongestChain(g, d, k)
    ensures LongestChain(g, n, k + 1)
  {
    var p :| Path(g, p) && p[0] == d && |p| == k + 1;
    assert Path(g, [n] + p);
    forall q | Path(g, q) && q[0] == n ensures |q| <= k + 2 {
      if |q| > 1 {
        assert q[1] in g[q[0]];
        assert Path(g, q[1..]);
      }
    }
  }

  /** Level by level, a chain runs its groups one at a time. */
  lemma ChainLevel<S>(p: Plan<S>, levels: seq<seq<Name>>, l: nat)
    requires IsChain(p) && AreLevels(levels, p.order, GroupGraph(p.deps)) && l < |levels|
    ensures l < |p.order| && levels[l] == [p.order[l]]
  {
    hide LongestChain;
    var level := levels[l];
    forall n | n in level ensures l < |p.order| && n == p.order[l] {
      assert n in Elems(p.order);
      var i := IndexOf(p.order, n);
      ChainDepth(p, i);
      LongestChainUnique(GroupGraph(p.deps), n, i, l);
    }
    assert level != [] && level[0] in level;
    assert level == Select(p.order, Elems(level)) && Distinct(level);
    DistinctSize(level);
    assert Elems(level) == {p.order[l]};
  }

  lemma ChainLevels<S>(p: Plan<S>, levels: seq<seq<Name>>)
    requires IsChain(p) && AreLevels(levels, p.order, GroupGraph(p.deps))
    ensures |levels| == |p.order| && forall l :: 0 <= l < |levels| ==> levels[l] == [p.order[l]]
  {
    var last := |p.order| - 1;
    ChainDepth(p, last);
    var k :| 0 <= k < |levels| && p.order[last] in levels[k];
    hide LongestChain, Serial, ChainAt, IsChain, AreLevels;
    forall l | 0 <= l < |levels| ensures l < |p.order| && levels[l] == [p.order[l]] {
      ChainLevel(p, levels, l);
    }
    assert levels[|levels| - 1] == [p.order[|levels| - 1]];
    LastOfChain(p, k);
  }

  lemma LastOfChain<S>(p: Plan<S>, k: nat)
    requires IsChain(p) && k < |p.order| && p.order[|p.order| - 1] == p.order[k]
    ensures k == |p.order| - 1
  {
  }

  lemma {:induction false} OneLastGroup(completed: seq<Name>, levels: seq<seq<Name>>, n: Name)
    requires levels != [] && levels[|levels| - 1] == [n] && Finishes(completed, levels)
    ensures completed != [] && completed[|completed| - 1] == n
    ensures Finishes(completed[..|completed| - 1], levels[..|levels| - 1])
  {
    var k := |completed| - 1;
    SameMembers(completed[k..], [n]);
  }

  lemma SameEnds(a: seq<Name>, b: seq<Name>)
    requires a != [] && b != [] && a[..|a| - 1] == b[..|b| - 1] && a[|a| - 1] == b[|b| - 1]
    ensures a == b
  {
    assert a == a[..|a| - 1] + [a[|a| - 1]];
    assert b == b[..|b| - 1] + [b[|b| - 1]];
  }

  lemma {:induction false} OneWayToFinish(completed: seq<Name>, order: seq<Name>, levels: seq<seq<Name>>)
    requires |levels| == |order| && forall l :: 0 <= l < |levels| ==> levels[l] == [order[l]]
    requires Finishes(completed, levels)
    ensures completed == order
    decreases |levels|
  {
    if levels == [] {
    } else {
      OneLastGroup(completed, levels, order[|order| - 1]);
      hide *;
      OneWayToFinish(completed[..|completed| - 1], order[..|order| - 1], levels[..|levels| - 1]);
      SameEnds(completed, order);
    }
  }

  /** Then the two executors also return the same. */
  lemma ChainResultsAgree<S>(p: Plan<S>, levels: seq<seq<Name>>, completed: seq<Name>, parallel: RunResult,
                             serial: RunResult)
    requires IsChain(p) && Runnable(p) && NoGap(p) && AreLevels(levels, p.order, GroupGraph(p.deps))
    requires Finishes(completed, levels) && Denotes(p, parallel, completed) && SerialDenotes(p, serial)
    ensures parallel == serial
  {
    SameResults(p);
    ChainLevels(p, levels);
    OneWayToFinish(completed, p.order, levels);
    hide Cyclic, Closed, Distinct, Solves, AreLevels, Finishes, IsChain, Merge;
  }

  lemma SameResults<S>(p: Plan<S>)
    requires IsChain(p) && Runnable(p) && NoGap(p)
    ensures Denotation(p) == SerialResults(p)
    ensures Denotation(p)[p.order[|p.order| - 1]] == SerialResult(p, |p.order| - 1)
  {
    forall i | 0 <= i < |p.order|
      ensures p.order[i] in Denotation(p) && Denotation(p)[p.order[i]] == SerialResult(p, i) {
      NoGapMeansSameTask(p, i);
      SameTaskSameResult(p, i);
    }
    hide Cyclic, Closed, Distinct, IsChain, NoGap, SerialResult;
    forall n | n in p.deps ensures Denotation(p)[n] == SerialResults(p)[n] {
      assert n in Elems(p.order);
      var i := IndexOf(p.order, n);
    }
  }

  // ----- pipelines without declared dependencies ----------------------------------------------

  ghost predicate Linear(groups: seq<GroupSpec>) {
    && groups != [] && Distinct(GroupNames(groups))
    && forall i :: 0 <= i < |groups| ==> groups[i].dependsOn.None?
  }

  /** Groups that declare nothing form a chain. */
  lemma LinearIsChain<S>(p: Plan<S>, groups: seq<GroupSpec>)
    requires Linear(groups) && PlanFor(p, groups)
    ensures IsChain(p)
  {
    forall i | 0 <= i < |p.order| ensures ChainAt(p, i) {
      DeclaredAt(groups, i);
      assert p.order[i] == groups[i].name && groups[i].dependsOn.None?;
      assert i > 0 ==> groups[..i][i - 1] == groups[i - 1] && p.order[i - 1] == groups[i - 1].name;
      hide Distinct, DeclaredDeps;
    }
    hide ChainAt, DeclaredDeps;
  }

  /** A pipeline whose groups declare nothing: both executors hand every group the same task if and only if no group
      but the last falls silent after an earlier one has spoken, and if so a completed run returns the same. */
  lemma LinearPipelinesAgree<S>(p: Plan<S>, groups: seq<GroupSpec>, levels: seq<seq<Name>>, completed: seq<Name>,
                                parallel: RunResult, serial: RunResult)
    requires Linear(groups) && PlanFor(p, groups)
    ensures IsChain(p) && Runnable(p)
    ensures (forall i :: 0 <= i < |p.order| ==> ParallelTask(p, i) == SerialTask(p, i)) <==> NoGap(p)
    ensures (&& NoGap(p) && AreLevels(levels, p.order, GroupGraph(p.deps)) && Finishes(completed, levels)
             && Denotes(p, parallel, completed) && SerialDenotes(p, serial)) ==> parallel == serial
  {
    LinearIsChain(p, groups);
    ChainIsRunnable(p);
    assert Serial(p);
    hide *;
    ChainsAgree(p);
    if NoGap(p) && AreLevels(levels, p.order, GroupGraph(p.deps)) && Finishes(completed, levels)
      && Denotes(p, parallel, completed) && SerialDenotes(p, serial) {
      ChainResultsAgree(p, levels, completed, parallel, serial);
    }
  }

  // ----- what the controllers are told --------------------------------------------------------

  lemma LabelsDiffer(task: string, a: Name, x: string, b: Name, y: string)
    requires x != "" && y != "" && ']' !in a.text && ']' !in b.text && Augment(task, a, x) == Augment(task, b, y)
    ensures a == b
  {
    var s, k := Augment(task, a, x), |task| + 3;
    assert s == task + "\n\n[" + a.text + " output]\n" + x by { LabelIs(task, a, x); }
    assert s == task + "\n\n[" + b.text + " output]\n" + y by { LabelIs(task, b, y); }
    FirstBracket(s, k, a.text, x);
    FirstBracket(s, k, b.text, y);
    assert |a.text| == |b.text|;
    assert a.text == s[k..k + |a.text|] && b.text == s[k..k + |b.text|];
  }

  /** Where the first closing bracket stands after position k. */
  lemma FirstBracket(s: string, k: nat, name: string, text: string)
    requires ']' !in name && k <= |s| && s[k..] == name + " output]\n" + text
    ensures k + |name| + 7 < |s| && s[k + |name| + 7] == ']'
    ensures forall i :: k <= i < k + |name| + 7 ==> s[i] != ']'
  {
    var rest := s[k..];
    assert rest[|name| + 7] == ']';
    assert forall i :: 0 <= i < |name| ==> rest[i] == name[i];
    assert forall i :: |name| <= i < |name| + 7 ==> rest[i] == " output"[i - |name|];
    forall i | k <= i < k + |name| + 7 ensures s[i] != ']' {
      assert s[i] == rest[i - k];
    }
  }

  ghost predicate PlainNames<S>(p: Plan<S>) {
    forall n :: n in p.order ==> ']' !in n.text
  }

  /** What the serial task consists of: the original one, or that and the answer of an earlier group. */
  lemma {:induction false} LastAnswer<S>(p: Plan<S>, i: nat) returns (j: nat)
    requires Serial(p) && i <= |p.order|
    ensures SerialTask(p, i) == p.task
            || (j < i && !Silent(p, j) && SerialTask(p, i) == Augment(p.task, p.order[j], FinalText(p, j)))
  {
    hide SerialTask, SerialResult, Silent, Augment, Serial, FinalText;
    j := 0;
    if i > 0 {
      SerialStep(p, i - 1);
      if Silent(p, i - 1) {
        j := LastAnswer(p, i - 1);
      } else {
        j := i - 1;
      }
    } else if |p.order| > 0 {
      SerialStep(p, 0);
    } else {
      NotEmpty(p);
    }
  }

  lemma NotEmpty<S>(p: Plan<S>)
    requires Serial(p)
    ensures p.order != []
  {
  }

  lemma OtherName<S>(p: Plan<S>, i: nat, j: nat)
    requires Serial(p) && j < i < |p.order|
    ensures p.order[i] != p.order[j] && (PlainNames(p) ==> ']' !in p.order[i].text && ']' !in p.order[j].text)
  {
  }

  /** The serial executor hands the controller step of a group the task the group was given exactly when the group was
      silent. Otherwise the task has the group's own answer in it, for a shadow run to see that is compared with it. */
  lemma ToldItsOwnAnswer<S>(p: Plan<S>, i: nat)
    requires Serial(p) && i < |p.order| && PlainNames(p)
    ensures SerialTask(p, i + 1) == SerialTask(p, i) <==> Silent(p, i)
    ensures !Silent(p, i) ==> SerialTask(p, i + 1) == Augment(p.task, p.order[i], FinalText(p, i))
  {
    hide SerialTask, SerialResult, Augment, Serial, PlainNames;
    SerialStep(p, i);
    var j := LastAnswer(p, i);
    if !Silent(p, i) && SerialTask(p, i + 1) == SerialTask(p, i) {
      OtherName(p, i, j);
      LabelsDiffer(p.task, p.order[i], FinalText(p, i), p.order[j], FinalText(p, j));
    }
  }

  /** On a chain without a gap the two executors step the controller of a group on the same result, and on tasks that
      differ by the group's own answer. */
  lemma StepsOnTasks<S>(p: Plan<S>, i: nat)
    requires IsChain(p) && Runnable(p) && NoGap(p) && i < |p.order|
    ensures
      var n := p.order[i];
      && n in p.deps && n in p.start && n in Denotation(p)
      && Controlled(p, Denotation(p), n) == p.control(n, p.start[n], SerialTask(p, i), SerialResult(p, i))
      && SerialControlled(p, i) == p.control(n, p.start[n], SerialTask(p, i + 1), SerialResult(p, i))
  {
    assert p.order[i] in Elems(p.order);
    NoGapMeansSameTask(p, i);
    SameTaskSameResult(p, i);
    hide NoGap, SerialTask, SerialResult, Cyclic, Closed, Distinct;
  }

  /** So they leave the controller of a silent group in the same state. */
  lemma SilentStepsAgree<S>(p: Plan<S>, i: nat)
    requires IsChain(p) && Runnable(p) && NoGap(p) && i < |p.order| && Silent(p, i)
    ensures p.order[i] in p.deps && p.order[i] in p.start && p.order[i] in Denotation(p)
    ensures Controlled(p, Denotation(p), p.order[i]) == SerialControlled(p, i)
  {
    StepsOnTasks(p, i);
    SerialStep(p, i);
    hide SerialTask, SerialResult, Controlled, SerialControlled, Silent;
  }

  lemma {:induction false} ControlPlaysNoPart<S>(p: Plan<S>, q: Plan<S>, i: nat)
    requires Serial(p) && q == p.(control := q.control) && i <= |p.order|
    ensures Serial(q) && SerialTask(q, i) == SerialTask(p, i)
    ensures i < |p.order| ==> SerialResult(q, i) == SerialResult(p, i)
  {
    if i > 0 {
      ControlPlaysNoPart(p, q, i - 1);
    }
    hide Augment, Distinct;
  }

  lemma ControlKeepsChain<S>(p: Plan<S>, q: Plan<S>)
    requires IsChain(p) && Runnable(p) && NoGap(p) && q == p.(control := q.control)
    ensures IsChain(q) && Runnable(q) && NoGap(q)
  {
    assert Serial(q);
    forall i | 0 <= i < |p.order| ensures ChainAt(q, i) && Silent(q, i) == Silent(p, i) {
      assert ChainAt(p, i);
      ControlPlaysNoPart(p, q, i);
    }
    hide SerialTask, SerialResult, Distinct, Cyclic, Closed, Silent;
  }

  /** And there is a controller step that tells them apart after any other group. */
  lemma OtherStepsDiffer<S>(p: Plan<S>, i: nat, a: S, b: S) returns (q: Plan<S>)
    requires IsChain(p) && Runnable(p) && NoGap(p) && i < |p.order| && PlainNames(p) && !Silent(p, i)
    ensures q == p.(control := q.control) && IsChain(q) && Runnable(q) && NoGap(q)
    ensures q.order[i] in q.deps && q.order[i] in q.start && q.order[i] in Denotation(q)
    ensures Controlled(q, Denotation(q), q.order[i]) == a && SerialControlled(q, i) == b
  {
    assert Serial(p);
    var told := SerialTask(p, i);
    q := p.(control := (n, state, task, r) => if task == told then a else b);
    ControlKeepsChain(p, q);
    StepsOnTasks(q, i);
    ControlPlaysNoPart(p, q, i);
    ControlPlaysNoPart(p, q, i + 1);
    ToldItsOwnAnswer(p, i);
    hide SerialTask, SerialResult, Controlled, SerialControlled, Silent, IsChain, Runnable, NoGap, PlainNames;
  }
}
