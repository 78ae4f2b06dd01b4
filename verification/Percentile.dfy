/** internal/intelligence/collector.go, percentile: nearest-rank percentile of a sorted copy. */
module Percentiles {

  function Insert(sorted: seq<int>, x: int): seq<int> {
    if sorted == [] || sorted[|sorted| - 1] <= x then sorted + [x]
    else Insert(sorted[..|sorted| - 1], x) + [sorted[|sorted| - 1]]
  }

  /** What sort.Slice leaves in the copied slice. */
  function Sorted(data: seq<int>): seq<int> {
    if data == [] then [] else Insert(Sorted(data[..|data| - 1]), data[|data| - 1])
  }

  /** ceil(p * n / 100), but at least 1 and at most n. */
  function Rank(p: int, n: nat): nat
    requires n > 0
  {
    var up := -((-p * n) / 100);
    if up < 1 then 1 else if up > n then n else up
  }

  function PercentileOf(data: seq<int>, p: int): int
    requires data != []
  {
    SortedIsPermutation(data);
    Sorted(data)[Rank(p, |data|) - 1]
  }

  method Percentile(data: seq<int>, p: int) returns (v: int)
    ensures v == if data == [] then 0 else PercentileOf(data, p)
  {
    if |data| == 0 {
      return 0;
    }
    var sorted := Sorted(data);
    SortedIsPermutation(data);
    var idx := -((-p * |sorted|) / 100) - 1;  // the ceiling of p/100 * len, less one
    if idx < 0 {
      idx := 0;
    }
    if idx >= |sorted| {
      idx := |sorted| - 1;
    }
    return sorted[idx];
  }

  /** How many samples do not exceed v. */
  function CountUpTo(data: seq<int>, v: int): nat {
    if data == [] then 0 else CountUpTo(data[..|data| - 1], v) + if data[|data| - 1] <= v then 1 else 0
  }

  /** v is the least sample that at least `rank` samples do not exceed. */
  ghost predicate IsPercentile(data: seq<int>, rank: nat, v: int) {
    && v in data
    && CountUpTo(data, v) >= rank
    && forall x | x in data && x < v :: CountUpTo(data, x) < rank
  }

  ghost predicate Ascending(data: seq<int>) {
    forall i, j | 0 <= i < j < |data| :: data[i] <= data[j]
  }

  lemma CountOneMore(data: seq<int>, x: int)
    ensures forall v :: CountUpTo(data + [x], v) == CountUpTo(data, v) + if x <= v then 1 else 0
  {
    assert (data + [x])[..|data|] == data;
  }

  lemma {:induction false} InsertAddsOne(sorted: seq<int>, x: int)
    ensures |Insert(sorted, x)| == |sorted| + 1
    ensures multiset(Insert(sorted, x)) == multiset(sorted) + multiset{x}
    ensures forall v :: CountUpTo(Insert(sorted, x), v) == CountUpTo(sorted, v) + if x <= v then 1 else 0
  {
    var n := |sorted| - 1;
    if sorted == [] || sorted[n] <= x {
      CountOneMore(sorted, x);
    } else {
      InsertAddsOne(sorted[..n], x);
      assert sorted == sorted[..n] + [sorted[n]];
      CountOneMore(Insert(sorted[..n], x), sorted[n]);
    }
  }

  lemma {:induction false} InsertBounded(sorted: seq<int>, x: int, bound: int)
    requires x <= bound && forall i | 0 <= i < |sorted| :: sorted[i] <= bound
    ensures forall i | 0 <= i < |Insert(sorted, x)| :: Insert(sorted, x)[i] <= bound
  {
    if sorted != [] && sorted[|sorted| - 1] > x {
      InsertBounded(sorted[..|sorted| - 1], x, bound);
    }
  }

  lemma {:induction false} InsertKeepsOrder(sorted: seq<int>, x: int)
    requires Ascending(sorted)
    ensures Ascending(Insert(sorted, x))
  {
    if sorted != [] && sorted[|sorted| - 1] > x {
      InsertKeepsOrder(sorted[..|sorted| - 1], x);
      InsertBounded(sorted[..|sorted| - 1], x, sorted[|sorted| - 1]);
    }
  }

  lemma {:induction false} SortedIsPermutation(data: seq<int>)
    ensures Ascending(Sorted(data)) && |Sorted(data)| == |data|
    ensures multiset(Sorted(data)) == multiset(data)
    ensures forall v :: CountUpTo(Sorted(data), v) == CountUpTo(data, v)
  {
    if data != [] {
      var n := |data| - 1;
      SortedIsPermutation(data[..n]);
      InsertAddsOne(Sorted(data[..n]), data[n]);
      InsertKeepsOrder(Sorted(data[..n]), data[n]);
      assert data == data[..n] + [data[n]];
      CountOneMore(data[..n], data[n]);
    }
  }

  lemma {:induction false} CountInSorted(sorted: seq<int>, k: nat)
    requires Ascending(sorted) && k < |sorted|
    ensures CountUpTo(sorted, sorted[k]) >= k + 1
    ensures forall x | x < sorted[k] :: CountUpTo(sorted, x) <= k
  {
    var n := |sorted| - 1;
    if k < n {
      CountInSorted(sorted[..n], k);
    } else {
      forall x | x < sorted[k] ensures CountUpTo(sorted, x) <= k {
        CountAtMost(sorted[..n], x);
      }
      CountWhole(sorted[..n], sorted[k]);
    }
  }

  lemma {:induction false} CountAtMost(data: seq<int>, v: int)
    ensures CountUpTo(data, v) <= |data|
  {
    if data != [] {
      CountAtMost(data[..|data| - 1], v);
    }
  }

  lemma {:induction false} CountWhole(data: seq<int>, v: int)
    requires forall i | 0 <= i < |data| :: data[i] <= v
    ensures CountUpTo(data, v) == |data|
  {
    if data != [] {
      CountWhole(data[..|data| - 1], v);
    }
  }

  lemma PercentileIsLeast(data: seq<int>, p: int)
    requires data != []
    ensures IsPercentile(data, Rank(p, |data|), PercentileOf(data, p))
  {
    SortedIsPermutation(data);
    var k := Rank(p, |data|) - 1;
    CountInSorted(Sorted(data), k);
    assert Sorted(data)[k] in multiset(Sorted(data));
  }
}
