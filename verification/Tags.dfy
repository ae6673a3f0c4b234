/** Iteration spaces: the cross product of named dimensions, and its partition into batches. */
module Tags {
  import opened Wrappers

  datatype Dimension = Dimension(name: string, values: seq<string>)

  /** What a tag space can be constructed from. */
  predicate Accepted(dims: seq<Dimension>) {
    dims != [] && AllFilled(dims)
  }

  predicate AllFilled(dims: seq<Dimension>) {
    forall i :: 0 <= i < |dims| ==> dims[i].values != []
  }

  function SizeOf(dims: seq<Dimension>): nat {
    if dims == [] then 1 else SizeOf(dims[..|dims| - 1]) * |dims[|dims| - 1].values|
  }

  method Size(dims: seq<Dimension>) returns (size: nat)
    requires Accepted(dims)
    ensures size == SizeOf(dims) > 0
  {
    size := 1;
    for i := 0 to |dims|
      invariant size == SizeOf(dims[..i]) > 0
    {
      assert dims[..i + 1][..i] == dims[..i];
      NonZero(size, |dims[i].values|);
      size := size * |dims[i].values|;
    }
    assert dims[..|dims|] == dims;
  }

  lemma NonZero(a: nat, b: nat)
    requires a > 0 && b > 0
    ensures a * b > 0
  {
  }

  // ----- the cross product --------------------------------------------------------------------

  function Extended(combo: seq<string>, values: seq<string>): seq<seq<string>> {
    seq(|values|, j requires 0 <= j < |values| => combo + [values[j]])
  }

  function ExtendAll(combos: seq<seq<string>>, values: seq<string>): seq<seq<string>> {
    if combos == [] then [] else ExtendAll(combos[..|combos| - 1], values) + Extended(combos[|combos| - 1], values)
  }

  /** All combinations, the last dimension changing fastest. */
  function Product(dims: seq<Dimension>): seq<seq<string>> {
    if dims == [] then [[]] else ExtendAll(Product(dims[..|dims| - 1]), dims[|dims| - 1].values)
  }

  function Join(dims: seq<Dimension>, combo: seq<string>): string
    requires |combo| == |dims|
  {
    if dims == [] then "" else
      var n := |dims| - 1;
      Join(dims[..n], combo[..n]) + (if n == 0 then "" else "__") + dims[n].name + "=" + combo[n]
  }

  /** The id of a combination says which value each dimension takes, dimension by dimension. */
  lemma JoinIs(dims: seq<Dimension>, combo: seq<string>, d: Dimension, value: string)
    requires |combo| == |dims|
    ensures Join([d], [value]) == d.name + "=" + value
    ensures dims != [] ==> Join(dims + [d], combo + [value]) == Join(dims, combo) + "__" + d.name + "=" + value
  {
    assert (dims + [d])[..|dims|] == dims && (combo + [value])[..|dims|] == combo;
    assert [d][..0] == [] && [value][..0] == [] && Join([], []) == "";
    assert "" + "" + d.name == d.name;
  }

  /** A position in the space: one index per dimension. */
  ghost predicate Position(dims: seq<Dimension>, d: seq<nat>) {
    |d| == |dims| && forall j :: 0 <= j < |d| ==> d[j] < |dims[j].values|
  }

  function Pick(dims: seq<Dimension>, d: seq<nat>): seq<string>
    requires Position(dims, d)
  {
    seq(|dims|, j requires 0 <= j < |dims| => dims[j].values[d[j]])
  }

  /** The digits of i in the mixed radix of the dimension lengths. */
  function Digits(dims: seq<Dimension>, i: nat): (d: seq<nat>)
    requires AllFilled(dims) && i < SizeOf(dims)
    ensures Position(dims, d)
  {
    if dims == [] then [] else
      var n := |dims| - 1;
      var r := |dims[n].values|;
      QuotientFits(i, SizeOf(dims[..n]), r);
      Digits(dims[..n], i / r) + [i % r]
  }

  /** The number that digits stand for. */
  function Rank(dims: seq<Dimension>, d: seq<nat>): nat
    requires Position(dims, d)
  {
    if dims == [] then 0 else
      var n := |dims| - 1;
      Rank(dims[..n], d[..n]) * |dims[n].values| + d[n]
  }

  lemma Order(x: int, y: int, r: nat)
    requires x <= y
    ensures x * r <= y * r
  {
  }

  lemma Cancel(x: int, y: int, r: nat)
    requires x * r < y * r
    ensures x < y
  {
    if y <= x {
      Order(y, x, r);
    }
  }

  lemma QuotientFits(i: nat, a: nat, r: nat)
    requires r > 0 && i < a * r
    ensures 0 <= i / r < a && 0 <= i % r < r && i == (i / r) * r + i % r
  {
    assert i == (i / r) * r + i % r;
    Cancel(i / r, a, r);
  }

  lemma SplitBack(q: nat, m: nat, r: nat, a: nat)
    requires m < r && q < a
    ensures (q * r + m) / r == q && (q * r + m) % r == m && q * r + m < a * r
  {
    var x := q * r + m;
    Order(q + 1, a, r);
    assert x == (x / r) * r + x % r;
    Cancel(x / r, q + 1, r);
    Cancel(q, x / r + 1, r);
  }

  /** Positions and numbers below the size correspond one to one. */
  lemma {:induction false} RankOfDigits(dims: seq<Dimension>, i: nat)
    requires AllFilled(dims) && i < SizeOf(dims)
    ensures Rank(dims, Digits(dims, i)) == i
  {
    if dims != [] {
      var n := |dims| - 1;
      QuotientFits(i, SizeOf(dims[..n]), |dims[n].values|);
      RankOfDigits(dims[..n], i / |dims[n].values|);
      assert Digits(dims, i)[..n] == Digits(dims[..n], i / |dims[n].values|);
    }
  }

  lemma {:induction false} DigitsOfRank(dims: seq<Dimension>, d: seq<nat>)
    requires AllFilled(dims) && Position(dims, d)
    ensures Rank(dims, d) < SizeOf(dims) && Digits(dims, Rank(dims, d)) == d
  {
    if dims != [] {
      var n := |dims| - 1;
      DigitsOfRank(dims[..n], d[..n]);
      SplitBack(Rank(dims[..n], d[..n]), d[n], |dims[n].values|, SizeOf(dims[..n]));
      assert d == d[..n] + [d[n]];
    }
  }

  lemma {:induction false} ExtendAllAt(combos: seq<seq<string>>, values: seq<string>, q: nat, m: nat)
    requires q < |combos| && m < |values|
    ensures |ExtendAll(combos, values)| == |combos| * |values|
    ensures q * |values| + m < |combos| * |values|
    ensures ExtendAll(combos, values)[q * |values| + m] == combos[q] + [values[m]]
  {
    var n, r := |combos| - 1, |values|;
    SplitBack(q, m, r, |combos|);
    ExtendAllLength(combos, values);
    ExtendAllLength(combos[..n], values);
    if q < n {
      ExtendAllAt(combos[..n], values, q, m);
    }
  }

  lemma {:induction false} ExtendAllLength(combos: seq<seq<string>>, values: seq<string>)
    ensures |ExtendAll(combos, values)| == |combos| * |values|
  {
    if combos != [] {
      ExtendAllLength(combos[..|combos| - 1], values);
      assert |combos| * |values| == (|combos| - 1) * |values| + |values|;
    }
  }

  /** The i-th combination takes from every dimension the value at the i-th position's digit. */
  lemma {:induction false} ProductAt(dims: seq<Dimension>, i: nat)
    requires AllFilled(dims) && i < SizeOf(dims)
    ensures |Product(dims)| == SizeOf(dims) && Product(dims)[i] == Pick(dims, Digits(dims, i))
  {
    if dims != [] {
      var n := |dims| - 1;
      var values := dims[n].values;
      QuotientFits(i, SizeOf(dims[..n]), |values|);
      ProductAt(dims[..n], i / |values|);
      ExtendAllAt(Product(dims[..n]), values, i / |values|, i % |values|);
    }
  }

  lemma {:induction false} ProductShape(dims: seq<Dimension>)
    requires AllFilled(dims)
    ensures |Product(dims)| == SizeOf(dims)
    ensures forall i :: 0 <= i < |Product(dims)| ==> Product(dims)[i] == Pick(dims, Digits(dims, i))
  {
    Filled(dims);
    ProductAt(dims, 0);
    forall i | 0 <= i < |Product(dims)| ensures Product(dims)[i] == Pick(dims, Digits(dims, i)) {
      ProductAt(dims, i);
    }
  }

  lemma {:induction false} Filled(dims: seq<Dimension>)
    requires AllFilled(dims)
    ensures SizeOf(dims) > 0
  {
    if dims != [] {
      Filled(dims[..|dims| - 1]);
      NonZero(SizeOf(dims[..|dims| - 1]), |dims[|dims| - 1].values|);
    }
  }

  /** The i-th combination. */
  function At(dims: seq<Dimension>, i: nat): seq<string>
    requires AllFilled(dims) && i < SizeOf(dims)
  {
    Pick(dims, Digits(dims, i))
  }

  /** The order of a dictionary: at the first dimension where two combinations part, the earlier value comes first. */
  lemma {:induction false} InDictionaryOrder(dims: seq<Dimension>, i: nat, j: nat) returns (k: nat, a: nat, b: nat)
    requires AllFilled(dims) && i < j < SizeOf(dims)
    ensures k < |dims| && a < b < |dims[k].values|
    ensures At(dims, i)[..k] == At(dims, j)[..k]
    ensures At(dims, i)[k] == dims[k].values[a] && At(dims, j)[k] == dims[k].values[b]
  {
    k, a, b := DigitsInOrder(dims, i, j);
    var d, e := Digits(dims, i), Digits(dims, j);
    forall m | 0 <= m < k ensures At(dims, i)[m] == At(dims, j)[m] {
      assert d[..k][m] == e[..k][m];
    }
  }

  lemma {:induction false} DigitsInOrder(dims: seq<Dimension>, i: nat, j: nat) returns (k: nat, a: nat, b: nat)
    requires AllFilled(dims) && i < j < SizeOf(dims)
    ensures k < |dims| == |Digits(dims, i)| == |Digits(dims, j)| && Digits(dims, i)[..k] == Digits(dims, j)[..k]
    ensures a == Digits(dims, i)[k] < b == Digits(dims, j)[k]
  {
    var n := |dims| - 1;
    var q, m := LastDigit(dims, i);
    var q', m' := LastDigit(dims, j);
    Earlier(q, m, q', m', |dims[n].values|);
    hide *;
    if q < q' {
      k, a, b := DigitsInOrder(dims[..n], q, q');
    } else {
      k, a, b := n, m, m';
    }
  }

  lemma Earlier(q: nat, m: nat, q': nat, m': nat, r: nat)
    requires m < r && m' < r && q * r + m < q' * r + m'
    ensures q < q' || (q == q' && m < m')
  {
    if q' < q {
      Order(q' + 1, q, r);
    }
  }

  lemma LastDigit(dims: seq<Dimension>, i: nat) returns (q: nat, m: nat)
    requires AllFilled(dims) && i < SizeOf(dims) && dims != []
    ensures q < SizeOf(dims[..|dims| - 1]) && i == q * |dims[|dims| - 1].values| + m
    ensures m < |dims[|dims| - 1].values| && AllFilled(dims[..|dims| - 1])
    ensures Digits(dims, i) == Digits(dims[..|dims| - 1], q) + [m] && |Digits(dims, i)| == |dims|
  {
    var r := |dims[|dims| - 1].values|;
    QuotientFits(i, SizeOf(dims[..|dims| - 1]), r);
    q, m := i / r, i % r;
  }

  /** The task ids of the space, in cross-product order. */
  method Enumerate(dims: seq<Dimension>) returns (ids: seq<string>)
    requires Accepted(dims)
    ensures |ids| == SizeOf(dims)
    ensures forall i :: 0 <= i < |ids| ==> ids[i] == Join(dims, Pick(dims, Digits(dims, i)))
  {
    ids := [];
    var combos := Product(dims);
    ProductShape(dims);
    hide SizeOf, Digits, Join, Product;
    for k := 0 to |combos|
      invariant |ids| == k
      invariant forall i :: 0 <= i < k ==> ids[i] == Join(dims, Pick(dims, Digits(dims, i)))
    {
      ids := ids + [Join(dims, combos[k])];
    }
  }

  // ----- batches ------------------------------------------------------------------------------

  function Batches<T>(s: seq<T>, k: nat): seq<seq<T>>
    requires k >= 1
    decreases |s|
  {
    if s == [] then [] else if |s| <= k then [s] else [s[..k]] + Batches(s[k..], k)
  }

  datatype PartitionError = BatchSizeTooSmall(k: int)

  method Partition(dims: seq<Dimension>, k: int) returns (r: Result<seq<seq<string>>, PartitionError>)
    requires Accepted(dims)
    ensures r.Err? <==> k < 1
    ensures r.Ok? ==>
      var ids := Flatten(r.value);
      && |ids| == SizeOf(dims)
      && (forall i :: 0 <= i < |ids| ==> ids[i] == Join(dims, Pick(dims, Digits(dims, i))))
      && EvenBatches(r.value, k) && |r.value| == CeilDiv(SizeOf(dims), k)
  {
    if k < 1 {
      return Err(BatchSizeTooSmall(k));
    }
    var ids := Enumerate(dims);
    BatchesShape(ids, k);
    r := Ok(Batches(ids, k));
  }

  function Flatten<T>(batches: seq<seq<T>>): seq<T> {
    if batches == [] then [] else batches[0] + Flatten(batches[1..])
  }

  /** All batches are full but the last, and that one is not empty. */
  ghost predicate EvenBatches<T>(batches: seq<seq<T>>, k: nat) {
    && (forall i :: 0 <= i < |batches| - 1 ==> |batches[i]| == k)
    && (batches != [] ==> 1 <= |batches[|batches| - 1]| <= k)
  }

  function CeilDiv(n: nat, k: nat): nat
    requires k >= 1
  {
    (n + k - 1) / k
  }

  /** Batches put one after the other give the whole space, in as few batches as possible. */
  lemma {:induction false} BatchesShape<T>(s: seq<T>, k: nat)
    requires k >= 1
    ensures
      var b := Batches(s, k);
      && Flatten(b) == s && EvenBatches(b, k) && |b| == CeilDiv(|s|, k)
    decreases |s|
  {
    Ceiling(|s|, k);
    hide CeilDiv;
    if s == [] {
    } else if |s| <= k {
      assert [s][1..] == [];
    } else {
      BatchesShape(s[k..], k);
      var rest := Batches(s[k..], k);
      assert Batches(s, k) == [s[..k]] + rest;
      hide Batches;
      OneBatchMore(s[..k], rest, k);
      assert s == s[..k] + s[k..];
    }
  }

  lemma OneBatchMore<T>(first: seq<T>, rest: seq<seq<T>>, k: nat)
    requires |first| == k >= 1 && EvenBatches(rest, k)
    ensures EvenBatches([first] + rest, k) && Flatten([first] + rest) == first + Flatten(rest)
  {
    assert ([first] + rest)[1..] == rest;
  }

  lemma Ceiling(n: nat, k: nat)
    requires k >= 1
    ensures CeilDiv(n, k) == if n == 0 then 0 else if n <= k then 1 else CeilDiv(n - k, k) + 1
  {
    if n == 0 {
      SplitBack(0, k - 1, k, 1);
    } else if n <= k {
      SplitBack(1, n - 1, k, 2);
    } else {
      var q := (n - 1) / k;
      assert n - 1 == q * k + (n - 1) % k;
      assert n - 1 + k == (q + 1) * k + (n - 1) % k;
      SplitBack(q + 1, (n - 1) % k, k, q + 2);
    }
  }
}
