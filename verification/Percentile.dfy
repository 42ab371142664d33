/** Nearest-rank percentiles (observability/metrics.py). */
module Percentiles {
  import opened Basics

  function AtMostCount(values: seq<int>, v: int): nat {
    if values == [] then 0 else AtMostCount(values[1..], v) + if values[0] <= v then 1 else 0
  }

  function BelowCount(values: seq<int>, v: int): nat {
    if values == [] then 0 else BelowCount(values[1..], v) + if values[0] < v then 1 else 0
  }

  function Insert(x: int, s: seq<int>): seq<int> {
    if s == [] || x <= s[0] then [x] + s else [s[0]] + Insert(x, s[1..])
  }

  function Sorted(values: seq<int>): (s: seq<int>)
    ensures |s| == |values|
  {
    if values == [] then []
    else
      InsertLength(values[0], Sorted(values[1..]));
      Insert(values[0], Sorted(values[1..]))
  }

  lemma {:induction false} InsertLength(x: int, s: seq<int>)
    ensures |Insert(x, s)| == |s| + 1
  {
    if s != [] && x > s[0] {
      InsertLength(x, s[1..]);
    }
  }

  lemma {:induction false} InsertCounts(x: int, s: seq<int>, v: int)
    ensures AtMostCount(Insert(x, s), v) == AtMostCount(s, v) + if x <= v then 1 else 0
    ensures BelowCount(Insert(x, s), v) == BelowCount(s, v) + if x < v then 1 else 0
  {
    if s == [] || x <= s[0] {
      assert ([x] + s)[1..] == s;
    } else {
      InsertCounts(x, s[1..], v);
      assert ([s[0]] + Insert(x, s[1..]))[1..] == Insert(x, s[1..]);
    }
  }

  lemma {:induction false} InsertKeepsOrder(x: int, s: seq<int>)
    requires NonDecreasing(s)
    ensures NonDecreasing(Insert(x, s))
    ensures Insert(x, s)[0] == if s == [] || x <= s[0] then x else s[0]
  {
    if s != [] && x > s[0] {
      assert NonDecreasing(s[1..]);
      InsertKeepsOrder(x, s[1..]);
      InsertLength(x, s[1..]);
      var r := Insert(x, s[1..]);
      assert forall i :: 0 <= i < |r| ==> r[0] <= r[i];
      assert s[0] <= r[0];
    }
  }

  lemma {:induction false} SortedIsOrdered(values: seq<int>)
    ensures NonDecreasing(Sorted(values))
  {
    if values != [] {
      SortedIsOrdered(values[1..]);
      InsertKeepsOrder(values[0], Sorted(values[1..]));
    }
  }

  lemma {:induction false} SortedCounts(values: seq<int>, v: int)
    ensures AtMostCount(Sorted(values), v) == AtMostCount(values, v)
    ensures BelowCount(Sorted(values), v) == BelowCount(values, v)
  {
    if values != [] {
      SortedCounts(values[1..], v);
      InsertCounts(values[0], Sorted(values[1..]), v);
    }
  }

  /** ceil(percent * n / 100) - 1, kept inside the list. */
  function Rank(n: nat, percent: int): int {
    Max(0, Min((percent * n + 99) / 100 - 1, n - 1))
  }

  function Percentile(values: seq<int>, percent: int): int
    requires values != []
  {
    Sorted(values)[Rank(|values|, percent)]
  }

  /** At least `percent` percent of the values are at most v and fewer lie strictly below it. */
  predicate IsNearestRank(values: seq<int>, percent: int, v: int) {
    && AtMostCount(values, v) * 100 >= percent * |values|
    && BelowCount(values, v) * 100 < percent * |values|
  }

  /** In an ordered list k + 1 values are at most the one at place k, at most k below it. */
  lemma {:induction false} OrderedCounts(s: seq<int>, k: nat)
    requires NonDecreasing(s) && k < |s|
    ensures AtMostCount(s, s[k]) >= k + 1 && BelowCount(s, s[k]) <= k
  {
    assert NonDecreasing(s[1..]);
    if k > 0 {
      OrderedCounts(s[1..], k - 1);
      assert s[1..][k - 1] == s[k];
    } else {
      NoneBelow(s[1..], s[0]);
    }
  }

  lemma {:induction false} NoneBelow(s: seq<int>, v: int)
    requires forall i :: 0 <= i < |s| ==> v <= s[i]
    ensures BelowCount(s, v) == 0
  {
    if s != [] {
      NoneBelow(s[1..], v);
    }
  }

  lemma {:induction false} BelowCoversAtMost(s: seq<int>, low: int, high: int)
    requires low < high
    ensures AtMostCount(s, low) <= BelowCount(s, high)
  {
    if s != [] {
      BelowCoversAtMost(s[1..], low, high);
    }
  }

  lemma PercentBounds(n: int, percent: int)
    requires 0 < n && 0 < percent <= 100
    ensures 0 < percent * n <= 100 * n
  {
  }

  lemma RankArithmetic(n: nat, percent: int)
    requires 0 < n && 0 < percent <= 100
    ensures (Rank(n, percent) + 1) * 100 >= percent * n && Rank(n, percent) * 100 < percent * n
  {
    PercentBounds(n, percent);
    CeilingBounds(percent * n, n);
  }

  lemma CeilingBounds(m: int, n: int)
    requires 0 < m <= 100 * n
    ensures var rank := Max(0, Min((m + 99) / 100 - 1, n - 1));
            (rank + 1) * 100 >= m && rank * 100 < m
  {
  }

  lemma PercentileIsNearestRank(values: seq<int>, percent: int)
    requires values != [] && 0 < percent <= 100
    ensures IsNearestRank(values, percent, Percentile(values, percent))
  {
    var k := Rank(|values|, percent);
    var v := Percentile(values, percent);
    SortedIsOrdered(values);
    OrderedCounts(Sorted(values), k);
    SortedCounts(values, v);
    RankArithmetic(|values|, percent);
  }

  /** The nearest rank is one value: nothing else meets both bounds. */
  lemma NearestRankIsUnique(values: seq<int>, percent: int, u: int, v: int)
    requires IsNearestRank(values, percent, u) && IsNearestRank(values, percent, v)
    ensures u == v
  {
    if u < v {
      BelowCoversAtMost(values, u, v);
    } else if v < u {
      BelowCoversAtMost(values, v, u);
    }
  }
}
