/** Dependency graphs over names: paths, cycles, longest chains and reachability. */
module Graphs {

  /** The name of an agent or a group; what it is spelled like does not matter to a graph. */
  datatype Name = Name(text: string)

  /** Each node with the set of nodes it depends on. */
  type Graph = map<Name, set<Name>>

  ghost predicate Closed(g: Graph) {
    forall n :: n in g ==> g[n] <= g.Keys
  }

  /** A walk from a node along its dependencies, never leaving the graph. */
  ghost predicate Path(g: Graph, p: seq<Name>) {
    && |p| > 0
    && (forall i :: 0 <= i < |p| ==> p[i] in g)
    && (forall i, j :: 0 <= i < |p| && j == i + 1 < |p| ==> p[j] in g[p[i]])
  }

  ghost predicate Cyclic(g: Graph) {
    exists p :: Path(g, p) && |p| > 1 && p[0] == p[|p| - 1]
  }

  /** `a` depends on `b`, directly or through others (or is `b`). */
  ghost predicate Reaches(g: Graph, a: Name, b: Name) {
    exists p :: Path(g, p) && p[0] == a && p[|p| - 1] == b
  }

  ghost predicate IsRoot(g: Graph, n: Name)
    requires n in g
  {
    g[n] * g.Keys == {}
  }

  /** The longest chain of dependencies below `n` has exactly `k` links. */
  ghost predicate LongestChain(g: Graph, n: Name, k: nat) {
    && (exists p :: Path(g, p) && p[0] == n && |p| == k + 1)
    && (forall p :: Path(g, p) && p[0] == n ==> |p| <= k + 1)
  }

  ghost predicate Ranks(g: Graph, rank: map<Name, nat>) {
    && g.Keys <= rank.Keys
    && forall n, d :: n in g && d in g[n] && d in g ==> rank[d] < rank[n]
  }

  ghost predicate WaitsFor(g: Graph, stuck: set<Name>, n: Name) {
    n in g && exists d :: d in g[n] && d in stuck
  }

  ghost predicate StepsDown(g: Graph, rank: map<Name, nat>, n: Name)
    requires g.Keys <= rank.Keys
  {
    n in g && exists d :: d in g[n] && d in g && rank[d] + 1 == rank[n]
  }

  /** A rank in which every node stands directly above one of its dependencies. */
  ghost predicate TightRank(g: Graph, rank: map<Name, nat>) {
    && Ranks(g, rank)
    && forall n {:trigger StepsDown(g, rank, n)} :: n in g && rank[n] > 0 ==> StepsDown(g, rank, n)
  }

  ghost predicate Distinct<T>(s: seq<T>) {
    forall i, j :: 0 <= i < j < |s| ==> s[i] != s[j]
  }

  function Elems<T>(s: seq<T>): set<T> {
    set x | x in s
  }

  ghost function IndexOf(names: seq<Name>, n: Name): (i: nat)
    requires n in names
    ensures i < |names| && names[i] == n
  {
    var i :| 0 <= i < |names| && names[i] == n;
    i
  }

  lemma {:induction false} RankDropsAlong(g: Graph, rank: map<Name, nat>, p: seq<Name>)
    requires Ranks(g, rank) && Path(g, p)
    ensures rank[p[|p| - 1]] + |p| - 1 <= rank[p[0]]
  {
    if |p| > 1 {
      var front := p[..|p| - 1];
      RankDropsAlong(g, rank, front);
      assert p[|p| - 1] in g[front[|front| - 1]];
    }
  }

  /** A graph that can be ranked has no cycle. */
  lemma RankedIsAcyclic(g: Graph, rank: map<Name, nat>)
    requires Ranks(g, rank)
    ensures !Cyclic(g)
  {
    forall p | Path(g, p) && |p| > 1 ensures p[0] != p[|p| - 1] {
      RankDropsAlong(g, rank, p);
    }
  }

  lemma ClosedLoop(g: Graph, walk: seq<Name>, d: Name)
    requires Path(g, walk) && d in walk && d in g[walk[|walk| - 1]]
    ensures Cyclic(g)
  {
    var i :| 0 <= i < |walk| && walk[i] == d;
    var loop := walk[i..] + [d];
    assert Path(g, loop) && |loop| > 1 && loop[0] == loop[|loop| - 1];
  }

  /** A walk can be prolonged to a node it has not visited. */
  lemma LongerWalk(g: Graph, walk: seq<Name>, d: Name)
    requires Path(g, walk) && d in g && d in g[walk[|walk| - 1]]
    ensures Path(g, walk + [d]) && Elems(walk + [d]) == Elems(walk) + {d}
  {
  }

  /** If every member of a set waits for another member, following the waits from any
      member runs into a cycle: each step either repeats a node or uses up a fresh one. */
  lemma {:induction false} StuckIsCyclic(g: Graph, stuck: set<Name>, walk: seq<Name>)
    requires stuck <= g.Keys
    requires forall n {:trigger WaitsFor(g, stuck, n)} :: n in stuck ==> WaitsFor(g, stuck, n)
    requires Path(g, walk) && Elems(walk) <= stuck
    ensures Cyclic(g)
    decreases stuck - Elems(walk)
  {
    var last := walk[|walk| - 1];
    assert last in Elems(walk);
    assert WaitsFor(g, stuck, last);
    var d :| d in g[last] && d in stuck;
    if d in walk {
      ClosedLoop(g, walk, d);
    } else {
      LongerWalk(g, walk, d);
      StuckIsCyclic(g, stuck, walk + [d]);
    }
  }

  /** The form in which the algorithms use it: a stuck set is not empty. */
  lemma StuckSetIsCyclic(g: Graph, stuck: set<Name>)
    requires stuck <= g.Keys && stuck != {}
    requires forall n {:trigger WaitsFor(g, stuck, n)} :: n in stuck ==> WaitsFor(g, stuck, n)
    ensures Cyclic(g)
  {
    var n :| n in stuck;
    StuckIsCyclic(g, stuck, [n]);
  }

  lemma {:induction false} ChainOfRank(g: Graph, rank: map<Name, nat>, n: Name) returns (p: seq<Name>)
    requires TightRank(g, rank) && n in g
    ensures Path(g, p) && p[0] == n && |p| == rank[n] + 1
    decreases rank[n]
  {
    if rank[n] == 0 {
      p := [n];
    } else {
      assert StepsDown(g, rank, n);
      var d :| d in g[n] && d in g && rank[d] + 1 == rank[n];
      var rest := ChainOfRank(g, rank, d);
      p := [n] + rest;
    }
  }

  /** A tight rank is the length of the longest dependency chain. */
  lemma TightRankIsLongestChain(g: Graph, rank: map<Name, nat>, n: Name)
    requires TightRank(g, rank) && n in g
    ensures LongestChain(g, n, rank[n])
  {
    var p := ChainOfRank(g, rank, n);
    forall q | Path(g, q) && q[0] == n ensures |q| <= rank[n] + 1 {
      RankDropsAlong(g, rank, q);
    }
  }

  lemma LongestChainUnique(g: Graph, n: Name, a: nat, b: nat)
    requires LongestChain(g, n, a) && LongestChain(g, n, b)
    ensures a == b
  {
  }

  /** In a graph without cycles every node depends, in the end, on a root. */
  lemma {:induction false} AcyclicReachesRoot(g: Graph, walk: seq<Name>)
    requires !Cyclic(g) && Path(g, walk)
    ensures exists p :: Path(g, p) && p[0] == walk[0] && IsRoot(g, p[|p| - 1])
    decreases g.Keys - Elems(walk)
  {
    var last := walk[|walk| - 1];
    if !IsRoot(g, last) {
      var d :| d in g[last] && d in g;
      if d in walk {
        ClosedLoop(g, walk, d);
      }
      LongerWalk(g, walk, d);
      AcyclicReachesRoot(g, walk + [d]);
    }
  }

  /** Dropping nodes, or dependencies, cannot create a cycle. */
  lemma SubgraphStaysAcyclic(g: Graph, h: Graph)
    requires !Cyclic(g)
    requires h.Keys <= g.Keys && forall n :: n in h ==> h[n] * h.Keys <= g[n]
    ensures !Cyclic(h)
  {
    forall p | Path(h, p) && |p| > 1 ensures p[0] != p[|p| - 1] {
      assert forall i :: 0 < i < |p| ==> p[i] in h[p[i - 1]] * h.Keys;
      assert Path(g, p);
    }
  }

  lemma {:induction false} DistinctSize<T>(s: seq<T>)
    ensures Distinct(s) <==> |Elems(s)| == |s|
    ensures |Elems(s)| <= |s|
  {
    if s != [] {
      var front, last := s[..|s| - 1], s[|s| - 1];
      DistinctSize(front);
      assert s == front + [last];
      assert Elems(s) == Elems(front) + {last};
      if last in front {
        var i :| 0 <= i < |front| && front[i] == last;
        assert s[i] == s[|s| - 1];
      }
    }
  }
}
