/** Rolling windows over a growing series of measurements. */
module Series {
  import opened Wrappers

  /** The last w entries, or all of them while there are fewer. */
  function Last<T>(s: seq<T>, w: nat): seq<T> {
    if |s| <= w then s else s[|s| - w..]
  }

  function Sum(s: seq<real>): real {
    if s == [] then 0.0 else s[0] + Sum(s[1..])
  }

  function Average(s: seq<real>): real
    requires s != []
  {
    Sum(s) / |s| as real
  }

  /** The rolling mean; there is none before the first entry. */
  function Mean(s: seq<real>, w: nat): Option<real>
    requires w >= 1
  {
    if s == [] then None else Some(Average(Last(s, w)))
  }

  /** A sum adds up its parts and a single entry is its own sum; no other function does both. */
  lemma {:induction false} SumOfParts(a: seq<real>, b: seq<real>, x: real)
    ensures Sum(a + b) == Sum(a) + Sum(b) && Sum([x]) == x
  {
    if a == [] {
      assert a + b == b;
      assert [x][1..] == [] && Sum([]) == 0.0;
    } else {
      assert (a + b)[1..] == a[1..] + b;
      SumOfParts(a[1..], b, x);
    }
  }

  /** The last entries of a series, one by one: as many as fit in the window, and none left out. */
  lemma LastEntries<T>(s: seq<T>, w: nat)
    ensures |Last(s, w)| == if |s| < w then |s| else w
    ensures forall i :: 0 <= i < |Last(s, w)| ==> Last(s, w)[i] == s[|s| - |Last(s, w)| + i]
  {
  }

  /** A mean stands to a bound as the sum of its window stands to that many bounds. */
  lemma MeanAgainst(s: seq<real>, w: nat, bound: real)
    requires w >= 1
    ensures Mean(s, w).None? <==> s == []
    ensures s != [] ==>
      var mean, last := Mean(s, w).value, Last(s, w);
      && (mean < bound <==> Sum(last) < bound * |last| as real)
      && (mean > bound <==> Sum(last) > bound * |last| as real)
      && (mean == 0.0 <==> Sum(last) == 0.0)
  {
    if s != [] {
      AverageAgainst(Last(s, w), bound);
      AverageAgainst(Last(s, w), 0.0);
      hide Average, Sum, Last;
    }
  }

  lemma AverageAgainst(s: seq<real>, bound: real)
    requires s != []
    ensures Average(s) < bound <==> Sum(s) < bound * |s| as real
    ensures Average(s) > bound <==> Sum(s) > bound * |s| as real
  {
    QuotientAgainst(Sum(s), |s|, bound);
    hide Sum;
  }

  lemma QuotientAgainst(x: real, n: nat, bound: real)
    requires n > 0
    ensures x / n as real < bound <==> x < bound * n as real
    ensures x / n as real > bound <==> x > bound * n as real
  {
    var q := x / n as real;
    assert q * n as real == x;
    if q < bound {
      assert q * n as real < bound * n as real;
    } else if q > bound {
      assert q * n as real > bound * n as real;
    }
  }

  function CountAtLeast(s: seq<real>, t: real): nat {
    if s == [] then 0 else (if s[0] >= t then 1 else 0) + CountAtLeast(s[1..], t)
  }

  function CountAtMost(s: seq<real>, t: real): nat {
    if s == [] then 0 else (if s[0] <= t then 1 else 0) + CountAtMost(s[1..], t)
  }

  lemma {:induction false} CountAtLeastSplit(a: seq<real>, b: seq<real>, t: real)
    ensures CountAtLeast(a + b, t) == CountAtLeast(a, t) + CountAtLeast(b, t)
  {
    if a == [] {
      assert a + b == b;
    } else {
      assert (a + b)[1..] == a[1..] + b;
      CountAtLeastSplit(a[1..], b, t);
    }
  }

  lemma {:induction false} CountAtMostSplit(a: seq<real>, b: seq<real>, t: real)
    ensures CountAtMost(a + b, t) == CountAtMost(a, t) + CountAtMost(b, t)
  {
    if a == [] {
      assert a + b == b;
    } else {
      assert (a + b)[1..] == a[1..] + b;
      CountAtMostSplit(a[1..], b, t);
    }
  }

  lemma {:induction false} NeverBoth(s: seq<real>, low: real, high: real)
    requires low < high
    ensures CountAtLeast(s, high) + CountAtMost(s, low) <= |s|
  {
    if s != [] {
      NeverBoth(s[1..], low, high);
    }
  }

  /** Two stretches of one series hold no more high and low entries than they span together. */
  lemma TwoStretches(s: seq<real>, a: nat, b: nat, c: nat, d: nat, low: real, high: real)
    requires a <= b <= d <= |s| && a <= c <= d && low < high
    ensures CountAtLeast(s[a..b], high) + CountAtMost(s[c..d], low) <= d - a
    ensures CountAtMost(s[a..b], low) + CountAtLeast(s[c..d], high) <= d - a
  {
    assert s[a..d] == s[a..b] + s[b..d] && s[a..d] == s[a..c] + s[c..d];
    CountAtLeastSplit(s[a..b], s[b..d], high);
    CountAtLeastSplit(s[a..c], s[c..d], high);
    CountAtMostSplit(s[a..b], s[b..d], low);
    CountAtMostSplit(s[a..c], s[c..d], low);
    NeverBoth(s[a..d], low, high);
  }

  /** The share of a window is a count once more. */
  lemma ShareIsCount(count: nat, size: nat, share: real)
    requires size > 0 && count as real / size as real >= share
    ensures count as real >= share * size as real
  {
    var q := count as real / size as real;
    assert q * size as real == count as real;
  }

  /** The least number of votes that make up a share of so many. */
  function VotesNeeded(share: real, size: nat): (votes: nat)
    requires share >= 0.0
    ensures votes as real >= share * size as real > votes as real - 1.0
  {
    NotNegative(share, size as real);
    var x := share * size as real;
    if x == x.Floor as real then x.Floor else x.Floor + 1
  }

  lemma NotNegative(x: real, y: real)
    requires x >= 0.0 && y >= 0.0
    ensures x * y >= 0.0
  {
  }

  lemma EnoughVotes(share: real, size: nat, count: nat)
    requires share >= 0.0
    ensures count as real >= share * size as real <==> count >= VotesNeeded(share, size)
  {
  }

  /** A share of at most everything takes at most everybody, and any share at all somebody. */
  lemma VotesOfMany(share: real, size: nat)
    requires 0.0 < share <= 1.0 && size > 0
    ensures 1 <= VotesNeeded(share, size) <= size
  {
    Share(share, size as real);
    hide VotesNeeded;
  }

  lemma Share(share: real, size: real)
    requires 0.0 < share <= 1.0 && size > 0.0
    ensures 0.0 < share * size <= size
  {
    assert share * size <= 1.0 * size;
  }
}
