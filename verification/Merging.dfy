/** Merging the outputs of the groups, and when the order of completion does not matter. */
module Merging {
  import opened Wrappers
  import opened Graphs
  import opened Semantics

  type Outputs = map<string, string>

  /** The outputs after collecting the groups in this order: a later group overwrites. */
  ghost function Merge(sol: Results, completed: seq<Name>): Outputs
    requires forall n :: n in completed ==> n in sol
  {
    if completed == [] then map[] else
      var last := completed[|completed| - 1];
      Merge(sol, completed[..|completed| - 1]) + ToEntry(sol[last]).outputs
  }

  /** `completed` finishes the levels one after the other, each in some order. */
  ghost predicate Finishes(completed: seq<Name>, levels: seq<seq<Name>>)
    decreases |levels|
  {
    if levels == [] then completed == [] else
      var last := levels[|levels| - 1];
      var k := |completed| - |last|;
      && k >= 0
      && multiset(completed[k..]) == multiset(last)
      && Finishes(completed[..k], levels[..|levels| - 1])
  }

  ghost predicate Writes(sol: Results, n: Name, k: string) {
    n in sol && k in sol[n].outputs
  }

  ghost function Written(sol: Results, n: Name, k: string): string
    requires Writes(sol, n, k)
  {
    OrEmpty(sol[n].outputs[k])
  }

  ghost predicate Agree(sol: Results, level: seq<Name>, k: string) {
    forall a, b ::
      a in level && b in level && Writes(sol, a, k) && Writes(sol, b, k) ==> Written(sol, a, k) == Written(sol, b, k)
  }

  /** In the last level in which any group writes `k`, all groups that do write the same. */
  ghost predicate Decided(sol: Results, levels: seq<seq<Name>>, k: string) {
    if levels == [] then true else
      var last := levels[|levels| - 1];
      if exists n :: n in last && Writes(sol, n, k) then Agree(sol, last, k)
      else Decided(sol, levels[..|levels| - 1], k)
  }

  ghost predicate AllKnown(sol: Results, levels: seq<seq<Name>>) {
    forall l, n :: 0 <= l < |levels| && n in levels[l] ==> n in sol
  }

  lemma OverwriteIsAssociative(a: Outputs, b: Outputs, c: Outputs)
    ensures a + (b + c) == a + b + c
  {
  }

  lemma {:induction false} MergeAppend(sol: Results, a: seq<Name>, b: seq<Name>)
    requires forall n :: n in a || n in b ==> n in sol
    ensures forall n :: n in a + b ==> n in sol
    ensures Merge(sol, a + b) == Merge(sol, a) + Merge(sol, b)
  {
    if b == [] {
      assert a + b == a;
    } else {
      var front, last := b[..|b| - 1], b[|b| - 1];
      assert b == front + [last];
      MergeAppend(sol, a, front);
      assert a + b == (a + front) + [last];
      assert (a + b)[..|a + b| - 1] == a + front;
      hide ToEntry;
      OverwriteIsAssociative(Merge(sol, a), Merge(sol, front), ToEntry(sol[last]).outputs);
    }
  }

  lemma {:induction false} MergeHas(sol: Results, completed: seq<Name>, k: string)
    requires forall n :: n in completed ==> n in sol
    ensures k in Merge(sol, completed) <==> exists n :: n in completed && Writes(sol, n, k)
    ensures k in Merge(sol, completed) ==>
      exists n :: n in completed && Writes(sol, n, k) && Merge(sol, completed)[k] == Written(sol, n, k)
  {
    if completed != [] {
      var front, last := completed[..|completed| - 1], completed[|completed| - 1];
      assert completed == front + [last];
      MergeHas(sol, front, k);
      assert k in ToEntry(sol[last]).outputs <==> Writes(sol, last, k);
    }
  }

  lemma SameMembers(a: seq<Name>, b: seq<Name>)
    requires multiset(a) == multiset(b)
    ensures |a| == |b| && forall n :: n in a <==> n in b
  {
    assert |multiset(a)| == |a| && |multiset(b)| == |b|;
    forall n ensures n in a <==> n in b {
      assert n in multiset(a) <==> n in a;
      assert n in multiset(b) <==> n in b;
    }
  }

  lemma {:induction false} FinishedAreKnown(sol: Results, completed: seq<Name>, levels: seq<seq<Name>>)
    requires Finishes(completed, levels) && AllKnown(sol, levels)
    ensures forall n :: n in completed ==> n in sol
    decreases |levels|
  {
    if levels != [] {
      var last := levels[|levels| - 1];
      var k := |completed| - |last|;
      FinishedAreKnown(sol, completed[..k], levels[..|levels| - 1]);
      SameMembers(completed[k..], last);
      assert completed == completed[..k] + completed[k..];
    }
  }

  /** The last level overwrites what came before it. */
  lemma MergeLastLevel(sol: Results, c: seq<Name>, levels: seq<seq<Name>>, k: string)
    returns (before: seq<Name>, tail: seq<Name>)
    requires AllKnown(sol, levels) && Finishes(c, levels) && levels != []
    requires forall n :: n in c ==> n in sol
    ensures Finishes(before, levels[..|levels| - 1]) && forall n :: n in before ==> n in sol
    ensures forall n :: n in tail <==> n in levels[|levels| - 1]
    ensures forall n :: n in tail ==> n in sol
    ensures k in Merge(sol, c) <==> k in Merge(sol, before) || k in Merge(sol, tail)
    ensures k in Merge(sol, c) ==>
      Merge(sol, c)[k] == if k in Merge(sol, tail) then Merge(sol, tail)[k] else Merge(sol, before)[k]
  {
    var i := |c| - |levels[|levels| - 1]|;
    before, tail := c[..i], c[i..];
    assert c == before + tail;
    MergeAppend(sol, before, tail);
    SameMembers(tail, levels[|levels| - 1]);
  }

  /** The output under a key was written in the last level in which any group writes it. */
  lemma {:induction false} LastLevelWins(sol: Results, c: seq<Name>, levels: seq<seq<Name>>, k: string)
    returns (l: nat, n: Name)
    requires AllKnown(sol, levels) && Finishes(c, levels) && (forall m :: m in c ==> m in sol) && k in Merge(sol, c)
    ensures l < |levels| && n in levels[l] && Writes(sol, n, k) && Merge(sol, c)[k] == Written(sol, n, k)
    ensures forall j, m :: l < j < |levels| && m in levels[j] ==> !Writes(sol, m, k)
    decreases |levels|
  {
    if levels != [] {
      var last := |levels| - 1;
      hide Finishes;
      var before, tail := MergeLastLevel(sol, c, levels, k);
      MergeHas(sol, tail, k);
      hide Merge, Written;
      if m :| m in tail && Writes(sol, m, k) {
        n :| n in tail && Writes(sol, n, k) && Merge(sol, tail)[k] == Written(sol, n, k);
        l := last;
      } else {
        l, n := LastLevelWins(sol, before, levels[..last], k);
      }
    }
  }

  /** And among groups run one by one, by the last group that writes it. */
  lemma {:induction false} LastGroupWins(sol: Results, c: seq<Name>, k: string) returns (i: nat)
    requires (forall m :: m in c ==> m in sol) && k in Merge(sol, c)
    ensures i < |c| && Writes(sol, c[i], k) && Merge(sol, c)[k] == Written(sol, c[i], k)
    ensures forall j :: i < j < |c| ==> !Writes(sol, c[j], k)
  {
    var last := |c| - 1;
    if Writes(sol, c[last], k) {
      i := last;
    } else {
      i := LastGroupWins(sol, c[..last], k);
    }
  }

  /** The text written under a key; a missing one counts as empty. */
  lemma WrittenIs(sol: Results, n: Name, k: string)
    ensures Writes(sol, n, k) <==> n in sol && k in sol[n].outputs
    ensures Writes(sol, n, k) ==> Written(sol, n, k) == match sol[n].outputs[k] case Some(text) => text case None => ""
  {
  }

  /** A decided key gets one value, whatever the order of completion. */
  lemma {:induction false} DecidedIsStable(sol: Results, a: seq<Name>, b: seq<Name>, levels: seq<seq<Name>>, k: string)
    requires AllKnown(sol, levels) && Finishes(a, levels) && Finishes(b, levels) && Decided(sol, levels, k)
    requires forall n :: n in a || n in b ==> n in sol
    ensures k in Merge(sol, a) <==> k in Merge(sol, b)
    ensures k in Merge(sol, a) ==> Merge(sol, a)[k] == Merge(sol, b)[k]
    decreases |levels|
  {
    if levels != [] {
      var last := levels[|levels| - 1];
      hide Finishes;
      var before, tail := MergeLastLevel(sol, a, levels, k);
      var before', tail' := MergeLastLevel(sol, b, levels, k);
      MergeHas(sol, tail, k);
      MergeHas(sol, tail', k);
      if !exists n :: n in last && Writes(sol, n, k) {
        DecidedIsStable(sol, before, before', levels[..|levels| - 1], k);
      }
    }
  }

  ghost function Flat(levels: seq<seq<Name>>): seq<Name> {
    if levels == [] then [] else Flat(levels[..|levels| - 1]) + levels[|levels| - 1]
  }

  lemma FinishMore(completed: seq<Name>, levels: seq<seq<Name>>, more: seq<Name>, level: seq<Name>)
    requires Finishes(completed, levels) && multiset(more) == multiset(level)
    ensures Finishes(completed + more, levels + [level])
  {
    SameMembers(more, level);
    var all := completed + more;
    assert (levels + [level])[..|levels|] == levels;
    assert all[..|completed|] == completed && all[|completed|..] == more;
  }

  lemma {:induction false} FlatFinishes(levels: seq<seq<Name>>)
    ensures Finishes(Flat(levels), levels)
  {
    if levels != [] {
      FlatFinishes(levels[..|levels| - 1]);
      FinishMore(Flat(levels[..|levels| - 1]), levels[..|levels| - 1], levels[|levels| - 1], levels[|levels| - 1]);
      assert levels[..|levels| - 1] + [levels[|levels| - 1]] == levels;
    }
  }

  /** The level with `n` finishing last. */
  lemma FinishingLast(level: seq<Name>, n: Name) returns (order: seq<Name>)
    requires n in level
    ensures multiset(order) == multiset(level) && order != [] && order[|order| - 1] == n
  {
    var i :| 0 <= i < |level| && level[i] == n;
    assert level == level[..i] + [n] + level[i + 1..];
    order := level[..i] + level[i + 1..] + [n];
  }

  /** An undecided key: two ways to finish that give it different values. */
  lemma {:induction false} UndecidedDiffers(sol: Results, levels: seq<seq<Name>>, k: string)
    returns (a: seq<Name>, b: seq<Name>)
    requires AllKnown(sol, levels) && !Decided(sol, levels, k)
    ensures Finishes(a, levels) && Finishes(b, levels)
    ensures forall n :: n in a || n in b ==> n in sol
    ensures k in Merge(sol, a) && k in Merge(sol, b) && Merge(sol, a)[k] != Merge(sol, b)[k]
  {
    var front, last := levels[..|levels| - 1], levels[|levels| - 1];
    assert front + [last] == levels;
    if exists n :: n in last && Writes(sol, n, k) {
      var x, y :| x in last && y in last && Writes(sol, x, k) && Writes(sol, y, k)
        && Written(sol, x, k) != Written(sol, y, k);
      a := EndingWith(sol, front, last, x, k);
      b := EndingWith(sol, front, last, y, k);
    } else {
      a, b := UndecidedDiffers(sol, front, k);
      MergeAppend(sol, a, last);
      MergeAppend(sol, b, last);
      MergeHas(sol, last, k);
      FinishMore(a, front, last, last);
      FinishMore(b, front, last, last);
      a, b := a + last, b + last;
    }
  }

  lemma EndingWith(sol: Results, front: seq<seq<Name>>, last: seq<Name>, n: Name, k: string) returns (c: seq<Name>)
    requires AllKnown(sol, front + [last]) && n in last && Writes(sol, n, k)
    ensures Finishes(c, front + [last]) && forall m :: m in c ==> m in sol
    ensures k in Merge(sol, c) && Merge(sol, c)[k] == Written(sol, n, k)
  {
    var order := FinishingLast(last, n);
    FlatFinishes(front);
    FinishMore(Flat(front), front, order, last);
    c := Flat(front) + order;
    FinishedAreKnown(sol, c, front + [last]);
    assert c[|c| - 1] == n;
  }

  /** The merged outputs are the same for every order of completion exactly when every key is
      decided. Keys written by one group only always are. */
  lemma MergeIsScheduleFree(sol: Results, levels: seq<seq<Name>>)
    requires AllKnown(sol, levels)
    ensures (forall k :: Decided(sol, levels, k)) <==>
      (forall a, b :: Finishes(a, levels) && Finishes(b, levels) ==>
        (forall n :: n in a || n in b ==> n in sol) && Merge(sol, a) == Merge(sol, b))
  {
    if forall k :: Decided(sol, levels, k) {
      forall a, b | Finishes(a, levels) && Finishes(b, levels)
        ensures (forall n :: n in a || n in b ==> n in sol) && Merge(sol, a) == Merge(sol, b)
      {
        FinishedAreKnown(sol, a, levels);
        FinishedAreKnown(sol, b, levels);
        forall k
          ensures (k in Merge(sol, a) <==> k in Merge(sol, b))
            && (k in Merge(sol, a) ==> Merge(sol, a)[k] == Merge(sol, b)[k]) {
          DecidedIsStable(sol, a, b, levels, k);
        }
      }
    } else {
      var k :| !Decided(sol, levels, k);
      var a, b := UndecidedDiffers(sol, levels, k);
    }
  }

  /** Groups with output keys of their own leave nothing to chance. */
  lemma {:induction false} DisjointKeysAreDecided(sol: Results, levels: seq<seq<Name>>, k: string)
    requires forall a, b :: a != b && Writes(sol, a, k) ==> !Writes(sol, b, k)
    ensures Decided(sol, levels, k)
  {
    if levels != [] {
      DisjointKeysAreDecided(sol, levels[..|levels| - 1], k);
    }
  }
}
