/** The composition tree: agents and tools as leaves, compounds as inner nodes. */
module Capsules {
  import opened Graphs
  import opened Kahn

  datatype Capsule =
    | AgentLeaf(name: Name)
    | ToolLeaf(name: Name)
    | Compound(name: Name, children: seq<Capsule>, edges: seq<Edge>)
  {
    predicate IsLeaf() {
      AgentLeaf? || ToolLeaf?
    }
  }

  /** Every refusal carries the number of the composition rule that was broken. */
  datatype CompositionError =
    | NotAChild(rule: nat, missing: Arc)
    | CycleDetected(rule: nat)
    | Unreachable(rule: nat, names: set<Name>)

  function Names(capsules: seq<Capsule>): (names: seq<Name>)
    ensures |names| == |capsules|
    ensures forall i :: 0 <= i < |names| ==> names[i] == capsules[i].name
  {
    seq(|capsules|, i requires 0 <= i < |capsules| => capsules[i].name)
  }

  function Leaves(children: seq<Capsule>): (leaves: seq<Capsule>)
    ensures forall c :: c in leaves <==> c in children && c.IsLeaf()
  {
    if children == [] then [] else
      (if children[0].IsLeaf() then [children[0]] else []) + Leaves(children[1..])
  }

  /** They are the children that are no compounds, in their order. */
  lemma {:induction false} LeavesInOrder(a: seq<Capsule>, b: seq<Capsule>, c: Capsule)
    ensures Leaves(a + b) == Leaves(a) + Leaves(b)
    ensures Leaves([c]) == if c.Compound? then [] else [c]
  {
    assert Leaves([]) == [];
    if a == [] {
      assert a + b == b;
    } else {
      assert (a + b)[1..] == a[1..] + b;
      LeavesInOrder(a[1..], b, c);
    }
  }

  /** The keys of a dictionary filled in this order: each name where it occurs first. */
  function Keys(names: seq<Name>): (keys: seq<Name>)
    ensures Distinct(keys) && forall n :: n in keys <==> n in names
    ensures |keys| <= |names|
    ensures |keys| == |names| <==> Distinct(names)
    ensures Distinct(names) ==> keys == names
  {
    if names == [] then [] else
      var front, last := names[..|names| - 1], names[|names| - 1];
      assert names == front + [last];
      if last in front then Keys(front) else Keys(front) + [last]
  }

  /** What has been read stays where it is. */
  lemma {:induction false} KeysKeepOrder(names: seq<Name>, k: nat)
    requires k <= |names|
    ensures Keys(names[..k]) <= Keys(names)
  {
    if k == |names| {
      assert names[..k] == names;
    } else {
      var front := names[..|names| - 1];
      assert front[..k] == names[..k];
      KeysKeepOrder(front, k);
    }
  }

  lemma KeysAreAll(names: seq<Name>)
    ensures Elems(Keys(names)) == Elems(names)
  {
  }
}
