/** Nearest-rank percentiles over exact reals. */
module D1Rank {
  import opened Wrappers

  function Insert(x: real, s: seq<real>): seq<real> {
    if s == [] then [x]
    else if x <= s[0] then [x] + s
    else [s[0]] + Insert(x, s[1..])
  }

  function Sorted(s: seq<real>): seq<real> {
    if s == [] then [] else Insert(s[0], Sorted(s[1..]))
  }

  /** ceil(percentile * n / 100) */
  function Rank(n: nat, percentile: nat): nat {
    (percentile * n + 99) / 100
  }

  lemma RankInRange(n: nat, percentile: nat)
    requires n > 0 && 1 <= percentile <= 100
    ensures 1 <= Rank(n, percentile) <= n
  {
    assert percentile * n >= 1;
    assert percentile * n <= 100 * n;
  }

  lemma SortedLength(s: seq<real>)
    ensures |Sorted(s)| == |s|
  {
    if s != [] {
      SortedLength(s[1..]);
      InsertLength(s[0], Sorted(s[1..]));
    }
  }

  lemma InsertLength(x: real, s: seq<real>)
    ensures |Insert(x, s)| == |s| + 1
  {
  }

  predicate Rankable(values: seq<real>, percentile: int) {
    values != [] && 1 <= percentile <= 100
  }

  /** The value of rank ceil(percentile * n / 100) in sorted order. */
  function RankedValue(values: seq<real>, percentile: int): (r: real)
    requires Rankable(values, percentile)
  {
    SortedLength(values);
    RankInRange(|values|, percentile);
    Sorted(values)[Rank(|values|, percentile) - 1]
  }

  /** None is the ValueError for an empty sample or a percentile outside 1..100. */
  function NearestRank(values: seq<real>, percentile: int): (r: Option<real>)
    ensures r.Some? <==> Rankable(values, percentile)
  {
    if Rankable(values, percentile) then Some(RankedValue(values, percentile)) else None
  }

  // ---- Counting ----

  function CountAtMost(s: seq<real>, bound: real): nat {
    if s == [] then 0 else CountAtMost(s[1..], bound) + if s[0] <= bound then 1 else 0
  }

  function CountBelow(s: seq<real>, bound: real): nat {
    if s == [] then 0 else CountBelow(s[1..], bound) + if s[0] < bound then 1 else 0
  }

  function CountAtLeast(s: seq<real>, bound: real): nat {
    if s == [] then 0 else CountAtLeast(s[1..], bound) + if s[0] >= bound then 1 else 0
  }

  predicate Ascending(s: seq<real>) {
    forall i, j :: 0 <= i < j < |s| ==> s[i] <= s[j]
  }

  lemma {:induction false} InsertCounts(x: real, s: seq<real>, bound: real)
    ensures CountAtMost(Insert(x, s), bound) == CountAtMost(s, bound) + if x <= bound then 1 else 0
    ensures CountBelow(Insert(x, s), bound) == CountBelow(s, bound) + if x < bound then 1 else 0
  {
    if s != [] {
      if x <= s[0] {
        assert ([x] + s)[1..] == s;
      } else {
        InsertCounts(x, s[1..], bound);
        assert ([s[0]] + Insert(x, s[1..]))[1..] == Insert(x, s[1..]);
      }
    } else {
      assert [x][1..] == [];
    }
  }

  /** Sorting changes no count. */
  lemma {:induction false} SortedCounts(s: seq<real>, bound: real)
    ensures CountAtMost(Sorted(s), bound) == CountAtMost(s, bound)
    ensures CountBelow(Sorted(s), bound) == CountBelow(s, bound)
  {
    if s != [] {
      SortedCounts(s[1..], bound);
      InsertCounts(s[0], Sorted(s[1..]), bound);
    }
  }

  lemma {:induction false} InsertElements(x: real, s: seq<real>)
    ensures forall y :: y in Insert(x, s) <==> y == x || y in s
  {
    if s != [] && x > s[0] {
      InsertElements(x, s[1..]);
      assert s == [s[0]] + s[1..];
    }
  }

  lemma {:induction false} InsertAscending(x: real, s: seq<real>)
    requires Ascending(s)
    ensures Ascending(Insert(x, s))
  {
    if s != [] && x > s[0] {
      InsertAscending(x, s[1..]);
      InsertElements(x, s[1..]);
      var rest := Insert(x, s[1..]);
      forall j | 0 <= j < |rest| ensures s[0] <= rest[j] {
        assert rest[j] in rest;
      }
    }
  }

  lemma {:induction false} SortedAscending(s: seq<real>)
    ensures Ascending(Sorted(s))
    ensures forall y :: y in Sorted(s) <==> y in s
  {
    if s != [] {
      SortedAscending(s[1..]);
      InsertAscending(s[0], Sorted(s[1..]));
      InsertElements(s[0], Sorted(s[1..]));
      assert s == [s[0]] + s[1..];
    }
  }

  lemma {:induction false} AscendingCounts(s: seq<real>, k: nat, bound: real)
    requires Ascending(s) && k < |s|
    ensures s[k] <= bound ==> CountAtMost(s, bound) >= k + 1
    ensures s[k] >= bound ==> CountBelow(s, bound) <= k
  {
    if k > 0 {
      AscendingCounts(s[1..], k - 1, bound);
    } else if s[0] >= bound {
      NoneBelow(s, bound);
    }
  }

  lemma {:induction false} NoneBelow(s: seq<real>, bound: real)
    requires forall i :: 0 <= i < |s| ==> s[i] >= bound
    ensures CountBelow(s, bound) == 0
  {
    if s != [] { NoneBelow(s[1..], bound); }
  }

  lemma {:induction false} BelowOrAtLeast(s: seq<real>, bound: real)
    ensures CountBelow(s, bound) + CountAtLeast(s, bound) == |s|
  {
    if s != [] { BelowOrAtLeast(s[1..], bound); }
  }

  lemma {:induction false} CountsGrow(s: seq<real>, low: real, high: real)
    requires low <= high
    ensures CountAtMost(s, low) <= CountAtMost(s, high)
    ensures CountBelow(s, low) <= CountBelow(s, high)
    ensures low < high ==> CountAtMost(s, low) <= CountBelow(s, high)
  {
    if s != [] { CountsGrow(s[1..], low, high); }
  }

  /** What a nearest-rank percentile is: a value of the sample with at least `k` values at or
      below it and fewer than `k` strictly below, where `k` is the rank. */
  ghost predicate IsNearestRank(values: seq<real>, percentile: nat, v: real) {
    && v in values
    && CountAtMost(values, v) >= Rank(|values|, percentile)
    && CountBelow(values, v) < Rank(|values|, percentile)
  }

  lemma NearestRankIsRank(values: seq<real>, percentile: int)
    requires Rankable(values, percentile)
    ensures IsNearestRank(values, percentile, NearestRank(values, percentile).value)
  {
    SortedLength(values);
    RankInRange(|values|, percentile);
    SortedAscending(values);
    var k := Rank(|values|, percentile) - 1;
    var v := NearestRank(values, percentile).value;
    AscendingCounts(Sorted(values), k, v);
    SortedCounts(values, v);
    assert v in Sorted(values);
  }

  /** Only one value can be the percentile, so the definition leaves no choice. */
  lemma NearestRankUnique(values: seq<real>, percentile: nat, v: real, w: real)
    requires IsNearestRank(values, percentile, v) && IsNearestRank(values, percentile, w)
    ensures v == w
  {
    if v < w {
      CountsGrow(values, v, w);
    } else if w < v {
      CountsGrow(values, w, v);
    }
  }

  /** A percentile within a limit bounds how many values exceed the limit. */
  lemma PercentileWithin(values: seq<real>, percentile: int, limit: real)
    requires Rankable(values, percentile)
    ensures NearestRank(values, percentile).value <= limit <==> CountAtMost(values, limit) >= Rank(|values|, percentile)
    ensures NearestRank(values, percentile).value >= limit
            <==> CountAtLeast(values, limit) >= |values| - Rank(|values|, percentile) + 1
  {
    var v := NearestRank(values, percentile).value;
    NearestRankIsRank(values, percentile);
    BelowOrAtLeast(values, limit);
    if v <= limit {
      CountsGrow(values, v, limit);
    } else {
      CountsGrow(values, limit, v);
    }
    if v >= limit {
      CountsGrow(values, limit, v);
    }
  }
}
