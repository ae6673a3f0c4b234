/** What a pipeline means: every group's result as the one solution of its dependency equations,
    and the outputs of a run as the merge of the results in completion order. */
module Semantics {
  import opened Wrappers
  import opened Graphs
  import opened Levels
  import opened Checkpoint

  /** Agents may leave an output, or the whole result, unset. */
  datatype GroupResult = GroupResult(outputs: map<string, Option<string>>, finalOutput: Option<string>)

  /** What is saved of a result: unset texts become empty. */
  function ToEntry(r: GroupResult): Entry {
    Entry(map k | k in r.outputs :: OrEmpty(r.outputs[k]), OrEmpty(r.finalOutput))
  }

  /** What a later run replays. */
  function Replayed(e: Entry): GroupResult {
    GroupResult(map k | k in e.outputs :: Some(e.outputs[k]), Some(e.finalOutput))
  }

  /** What is saved of a result: every output under its key and the final output, a missing text as an empty one. */
  lemma WhatIsSaved(r: GroupResult, k: string)
    ensures
      var e := ToEntry(r);
      && (k in e.outputs <==> k in r.outputs)
      && (k in r.outputs && r.outputs[k].Some? ==> e.outputs[k] == r.outputs[k].value)
      && (k in r.outputs && r.outputs[k].None? ==> e.outputs[k] == "")
      && (r.finalOutput.Some? ==> e.finalOutput == r.finalOutput.value)
      && (r.finalOutput.None? ==> e.finalOutput == "")
  {
  }

  /** Replaying and saving again changes nothing. */
  lemma ReplayedIsSaved(e: Entry)
    ensures ToEntry(Replayed(e)) == e
  {
    assert ToEntry(Replayed(e)).outputs == e.outputs;
  }

  /** A replayed result has no unset text, and it is the only such result that is saved as this entry. */
  lemma ReplayedIsSet(e: Entry, r: GroupResult)
    ensures r == Replayed(e) <==>
      && ToEntry(r) == e
      && r.finalOutput.Some? && forall k :: k in r.outputs ==> r.outputs[k].Some?
  {
    ReplayedIsSaved(e);
    if ToEntry(r) == e && r.finalOutput.Some? && forall k :: k in r.outputs ==> r.outputs[k].Some? {
      assert r.outputs.Keys == ToEntry(r).outputs.Keys;
      forall k | k in r.outputs ensures r.outputs[k] == Some(e.outputs[k]) {
        assert ToEntry(r).outputs[k] == OrEmpty(r.outputs[k]);
      }
      assert r.outputs == Replayed(e).outputs;
    }
  }

  /** A pipeline to be run. `run` is the execution of one group at the level its controller state
      calls for, `control` the controller step after it; both see only the state of that group. */
  datatype Plan<!S> = Plan(
    task: string,
    order: seq<Name>,
    deps: GroupDeps,
    run: (Name, S, string) -> GroupResult,
    control: (Name, S, string, GroupResult) -> S,
    start: map<Name, S>)

  ghost predicate Runnable<S>(p: Plan<S>) {
    && p.order != [] && Distinct(p.order)
    && p.deps.Keys == Elems(p.order) && p.start.Keys == Elems(p.order)
    && Closed(GroupGraph(p.deps)) && !Cyclic(GroupGraph(p.deps))
  }

  function Labelled(dep: Name, text: string): string {
    "[" + dep.text + " output]\n" + text
  }

  function Separated(before: string, after: string): string {
    before + "\n\n" + after
  }

  /** Adds the text of one dependency to a task; an empty text leaves no trace. */
  function Augment(task: string, dep: Name, text: string): string {
    if text == "" then task else Separated(task, Labelled(dep, text))
  }

  function TextOf(texts: map<Name, string>, dep: Name): string {
    if dep in texts then texts[dep] else ""
  }

  /** The original task followed by the outputs of the dependencies, in the order they are listed. */
  function GroupTask(task: string, deps: seq<Name>, texts: map<Name, string>): string {
    if deps == [] then task else
      var dep := deps[|deps| - 1];
      Augment(GroupTask(task, deps[..|deps| - 1], texts), dep, TextOf(texts, dep))
  }

  lemma LabelIs(task: string, n: Name, text: string)
    requires text != ""
    ensures Augment(task, n, text) == task + "\n\n[" + n.text + " output]\n" + text
  {
    assert task + "\n\n" + ("[" + n.text + " output]\n" + text) == task + "\n\n[" + n.text + " output]\n" + text;
  }

  /** A task is built from left to right, and a single dependency adds its text under its name, or nothing if it has no
      text or an empty one. */
  lemma {:induction false} TaskIsConcatenation(task: string, a: seq<Name>, b: seq<Name>, d: Name,
                                               texts: map<Name, string>)
    ensures GroupTask(task, a + b, texts) == GroupTask(GroupTask(task, a, texts), b, texts)
    ensures GroupTask(task, [d], texts) ==
      if d in texts && texts[d] != "" then task + "\n\n[" + d.text + " output]\n" + texts[d] else task
    ensures GroupTask(task, [], texts) == task
  {
    assert [d][..0] == [];
    if d in texts && texts[d] != "" {
      LabelIs(task, d, texts[d]);
    }
    if b == [] {
      assert a + b == a;
    } else {
      var k := |b| - 1;
      assert (a + b)[..|a + b| - 1] == a + b[..k];
      TaskIsConcatenation(task, a, b[..k], d, texts);
      hide Augment;
    }
  }

  function Join(parts: seq<string>): string {
    if parts == [] then ""
    else if |parts| == 1 then parts[0]
    else Separated(Join(parts[..|parts| - 1]), parts[|parts| - 1])
  }

  lemma JoinOneMore(parts: seq<string>, part: string)
    requires parts != []
    ensures Join(parts + [part]) == Separated(Join(parts), part)
  {
    assert (parts + [part])[..|parts|] == parts;
  }

  lemma TaskOneMore(task: string, deps: seq<Name>, i: nat, texts: map<Name, string>)
    requires i < |deps|
    ensures GroupTask(task, deps[..i + 1], texts) ==
      Augment(GroupTask(task, deps[..i], texts), deps[i], TextOf(texts, deps[i]))
  {
    assert deps[..i + 1][..i] == deps[..i];
  }

  method BuildGroupTask(task: string, deps: seq<Name>, texts: map<Name, string>) returns (r: string)
    ensures r == GroupTask(task, deps, texts)
  {
    if deps == [] {
      return task;
    }
    var parts := [task];
    assert deps[..0] == [] && deps[..|deps|] == deps;
    hide Separated, Labelled, GroupTask, Join;
    assert Join(parts) == GroupTask(task, deps[..0], texts) by { TaskStart(task, texts); }
    for i := 0 to |deps|
      invariant parts != [] && Join(parts) == GroupTask(task, deps[..i], texts)
    {
      TaskOneMore(task, deps, i, texts);
      var out := TextOf(texts, deps[i]);
      if out != "" {
        JoinOneMore(parts, Labelled(deps[i], out));
        parts := parts + [Labelled(deps[i], out)];
      }
    }
    r := Join(parts);
  }

  lemma TaskStart(task: string, texts: map<Name, string>)
    ensures Join([task]) == task == GroupTask(task, [], texts)
  {
  }

  lemma {:induction false} TaskReadsOnlyDeps(task: string, deps: seq<Name>, a: map<Name, string>, b: map<Name, string>)
    requires forall d :: d in deps ==> TextOf(a, d) == TextOf(b, d)
    ensures GroupTask(task, deps, a) == GroupTask(task, deps, b)
  {
    if deps != [] {
      TaskReadsOnlyDeps(task, deps[..|deps| - 1], a, b);
    }
  }

  // ----- the denotation ----------------------------------------------------------------------

  type Results = map<Name, GroupResult>

  function Texts(results: Results): map<Name, string> {
    map n | n in results :: OrEmpty(results[n].finalOutput)
  }

  ghost function TaskOf<S>(p: Plan<S>, sol: Results, n: Name): string
    requires n in p.deps
  {
    GroupTask(p.task, p.deps[n], Texts(sol))
  }

  /** Every group's result is what running it on its dependencies' results gives. */
  ghost predicate Solves<S>(p: Plan<S>, sol: Results) {
    && sol.Keys == p.deps.Keys && p.deps.Keys <= p.start.Keys
    && forall n :: n in p.deps ==> sol[n] == p.run(n, p.start[n], TaskOf(p, sol, n))
  }

  /** A closed graph without cycles can be ranked, node by node. */
  lemma {:induction false} AcyclicIsRanked(g: Graph, done: set<Name>, rank0: map<Name, nat>)
    returns (rank: map<Name, nat>)
    requires Closed(g) && !Cyclic(g)
    requires done <= g.Keys && rank0.Keys == done && forall n :: n in done ==> g[n] <= done && rank0[n] < |done|
    requires forall n, d :: n in done && d in g[n] ==> d in done && rank0[d] < rank0[n]
    ensures Ranks(g, rank)
    decreases g.Keys - done
  {
    if done == g.Keys {
      rank := rank0;
    } else {
      var n := NextRanked(g, done);
      rank := AcyclicIsRanked(g, done + {n}, rank0[n := |done|]);
    }
  }

  lemma NextRanked(g: Graph, done: set<Name>) returns (n: Name)
    requires Closed(g) && !Cyclic(g) && done < g.Keys
    ensures n in g && n !in done && g[n] <= done
  {
    var stuck := g.Keys - done;
    assert !(g.Keys <= done);
    var m0 :| m0 in g.Keys && m0 !in done;
    assert m0 in stuck;
    if forall m :: m in stuck ==> !(g[m] <= done) {
      forall m | m in stuck ensures WaitsFor(g, stuck, m) {
        assert !(g[m] <= done) && g[m] <= g.Keys;
      }
      StuckSetIsCyclic(g, stuck);
    }
    n :| n in stuck && g[n] <= done;
  }

  ghost function Meaning<S>(p: Plan<S>, rank: map<Name, nat>, n: Name): GroupResult
    requires Runnable(p) && Ranks(GroupGraph(p.deps), rank) && n in p.deps
    decreases rank[n]
  {
    assert forall d :: d in p.deps[n] ==> d in GroupGraph(p.deps)[n];
    p.run(n, p.start[n],
          GroupTask(p.task, p.deps[n], map d | d in p.deps[n] :: OrEmpty(Meaning(p, rank, d).finalOutput)))
  }

  lemma RankOf<S>(p: Plan<S>) returns (rank: map<Name, nat>)
    requires Runnable(p)
    ensures Ranks(GroupGraph(p.deps), rank)
  {
    rank := AcyclicIsRanked(GroupGraph(p.deps), {}, map[]);
  }

  lemma SolutionExists<S>(p: Plan<S>)
    requires Runnable(p)
    ensures exists sol :: Solves(p, sol)
  {
    var rank := RankOf(p);
    hide Closed, Cyclic, Ranks, Distinct, TaskOf, Meaning;
    var sol := map n | n in p.deps :: Meaning(p, rank, n);
    forall n | n in p.deps ensures sol[n] == p.run(n, p.start[n], TaskOf(p, sol, n)) {
      MeaningSolves(p, rank, sol, n);
    }
    hide Meaning, TaskOf, Runnable, Ranks;
    assert Solves(p, sol);
  }

  lemma {:induction false} MeaningSolves<S>(p: Plan<S>, rank: map<Name, nat>, sol: Results, n: Name)
    requires Runnable(p) && Ranks(GroupGraph(p.deps), rank) && n in p.deps
    requires sol.Keys == p.deps.Keys && forall m :: m in p.deps ==> sol[m] == Meaning(p, rank, m)
    ensures Meaning(p, rank, n) == p.run(n, p.start[n], TaskOf(p, sol, n))
  {
    assert forall d :: d in p.deps[n] ==> d in GroupGraph(p.deps)[n];
    var own := map d | d in p.deps[n] :: OrEmpty(Meaning(p, rank, d).finalOutput);
    forall d | d in p.deps[n] ensures TextOf(own, d) == TextOf(Texts(sol), d) {
    }
    TaskReadsOnlyDeps(p.task, p.deps[n], own, Texts(sol));
  }

  lemma {:induction false} SolutionsAgree<S>(p: Plan<S>, rank: map<Name, nat>, a: Results, b: Results, n: Name)
    requires Runnable(p) && Ranks(GroupGraph(p.deps), rank) && Solves(p, a) && Solves(p, b) && n in p.deps
    ensures a[n] == b[n]
    decreases rank[n]
  {
    forall d | d in p.deps[n] ensures TextOf(Texts(a), d) == TextOf(Texts(b), d) {
      assert d in GroupGraph(p.deps)[n];
      SolutionsAgree(p, rank, a, b, d);
    }
    TaskReadsOnlyDeps(p.task, p.deps[n], Texts(a), Texts(b));
  }

  /** There is one solution only, so it can be spoken of as the meaning of the plan. */
  lemma SolutionIsUnique<S>(p: Plan<S>, a: Results, b: Results)
    requires Runnable(p) && Solves(p, a) && Solves(p, b)
    ensures a == b
  {
    var rank := RankOf(p);
    forall n | n in p.deps ensures a[n] == b[n] {
      SolutionsAgree(p, rank, a, b, n);
    }
  }

  ghost function Denotation<S>(p: Plan<S>): (sol: Results)
    requires Runnable(p)
    ensures Solves(p, sol)
  {
    SolutionExists(p);
    var sol :| Solves(p, sol);
    sol
  }

  /** The texts are those that these groups have left, where a group that left none counts as silent. */
  ghost predicate Left(sol: Results, names: seq<Name>, texts: map<Name, string>) {
    forall d :: d in names ==>
      && d in sol && d in texts
      && (sol[d].finalOutput.Some? ==> texts[d] == sol[d].finalOutput.value)
      && (sol[d].finalOutput.None? ==> texts[d] == "")
  }

  /** Every group is run from its starting state on the original task with what its dependencies have left. */
  lemma RunsOnItsDependencies<S>(p: Plan<S>, n: Name, texts: map<Name, string>)
    requires Runnable(p) && n in p.deps && Left(Denotation(p), p.deps[n], texts)
    ensures n in Denotation(p) && n in p.start
    ensures Denotation(p)[n] == p.run(n, p.start[n], GroupTask(p.task, p.deps[n], texts))
    ensures TaskOf(p, Denotation(p), n) == GroupTask(p.task, p.deps[n], texts)
  {
    var sol := Denotation(p);
    forall d | d in p.deps[n] ensures TextOf(texts, d) == TextOf(Texts(sol), d) {
    }
    TaskReadsOnlyDeps(p.task, p.deps[n], texts, Texts(sol));
    hide GroupTask, Cyclic, Closed, Distinct;
  }
}
