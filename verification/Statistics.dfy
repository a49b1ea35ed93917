/**
 Order statistics of finite samples, as VrrAnalysis.cpp and DiagD3dkmtCadenceAnalysis.cpp use
 them: a sorted copy, nearest-rank quantiles, the median, minimum and maximum. Samples are reals.
 */
module Statistics {
  import opened Options
  import opened Permutation

  /** Every sample is at least `low`. */
  ghost predicate AtLeast(s: seq<real>, low: real) {
    forall v :: v in multiset(s) ==> low <= v
  }

  ghost predicate Ascending(s: seq<real>) {
    s == [] || (AtLeast(s[1..], s[0]) && Ascending(s[1..]))
  }

  lemma {:induction false} AscendingAt(s: seq<real>, i: nat, j: nat)
    requires Ascending(s) && i <= j < |s|
    ensures s[i] <= s[j]
  {
    if i > 0 {
      AscendingAt(s[1..], i - 1, j - 1);
    } else if j > 0 {
      assert s[1..][j - 1] in multiset(s[1..]);
    }
  }

  function Insert(x: real, s: seq<real>): (r: seq<real>)
    ensures multiset(r) == multiset(s) + multiset{x}
  {
    if s == [] then [x]
    else if x <= s[0] then [x] + s
    else
      assert s == [s[0]] + s[1..];
      [s[0]] + Insert(x, s[1..])
  }

  lemma {:induction false} InsertKeepsOrder(x: real, s: seq<real>)
    requires Ascending(s)
    ensures Ascending(Insert(x, s))
  {
    if s == [] {
    } else {
      var t := Insert(x, s);
      assert s == [s[0]] + s[1..];
      if x <= s[0] {
        assert t[1..] == s;
      } else {
        InsertKeepsOrder(x, s[1..]);
        assert t[1..] == Insert(x, s[1..]);
      }
    }
  }

  /** The samples in ascending order. */
  function Sort(s: seq<real>): (r: seq<real>)
    ensures Ascending(r) && multiset(r) == multiset(s) && |r| == |s|
  {
    if s == [] then [] else
      assert s == [s[0]] + s[1..];
      InsertKeepsOrder(s[0], Sort(s[1..]));
      var r := Insert(s[0], Sort(s[1..]));
      assert |multiset(r)| == |r| && |multiset(s)| == |s|;
      r
  }

  lemma LeastIsFirst(a: seq<real>, v: real)
    requires Ascending(a) && v in multiset(a)
    ensures a != [] && a[0] <= v
  {
    assert a == [a[0]] + a[1..];
  }

  lemma TailOf(s: seq<real>)
    requires s != []
    ensures multiset(s[1..]) == multiset(s) - multiset{s[0]}
  {
    assert s == [s[0]] + s[1..];
  }

  lemma HeadsAgree(a: seq<real>, b: seq<real>)
    requires Ascending(a) && Ascending(b) && multiset(a) == multiset(b) && a != []
    ensures b != [] && a[0] == b[0]
  {
    assert a[0] in multiset(b);
    LeastIsFirst(b, a[0]);
    assert b[0] in multiset(a);
    LeastIsFirst(a, b[0]);
  }

  /** There is only one ascending order. */
  lemma {:induction false} AscendingIsUnique(a: seq<real>, b: seq<real>)
    requires Ascending(a) && Ascending(b) && multiset(a) == multiset(b)
    ensures a == b
  {
    if a == [] {
      assert forall v :: v !in multiset(b);
    } else {
      HeadsAgree(a, b);
      TailOf(a);
      TailOf(b);
      AscendingIsUnique(a[1..], b[1..]);
      assert a == [a[0]] + a[1..] && b == [b[0]] + b[1..];
    }
  }

  lemma SortDependsOnMultiset(a: seq<real>, b: seq<real>)
    requires multiset(a) == multiset(b)
    ensures Sort(a) == Sort(b)
  {
    AscendingIsUnique(Sort(a), Sort(b));
  }

  /** ceil(percent / 100 * n), at least 1. */
  function Rank(percent: nat, n: nat): nat {
    var rank := (percent * n + 99) / 100;
    if rank < 1 then 1 else rank
  }

  lemma RankInRange(percent: nat, n: nat)
    requires percent <= 100 && n > 0
    ensures 1 <= Rank(percent, n) <= n
  {
    assert percent * n <= 100 * n;
  }

  lemma RankMonotone(p: nat, q: nat, n: nat)
    requires p <= q
    ensures Rank(p, n) <= Rank(q, n)
  {
    assert p * n <= q * n;
  }

  /** The nearest-rank quantile. */
  function NearestRank(values: seq<real>, percent: nat): Option<real>
    requires percent <= 100
  {
    if values == [] then None else
      RankInRange(percent, |values|);
      Some(Sort(values)[Rank(percent, |values|) - 1])
  }

  function CountAtMost(s: seq<real>, x: real): nat {
    if s == [] then 0 else CountAtMost(s[..|s| - 1], x) + (if s[|s| - 1] <= x then 1 else 0)
  }

  function CountBelow(s: seq<real>, x: real): nat {
    if s == [] then 0 else CountBelow(s[..|s| - 1], x) + (if s[|s| - 1] < x then 1 else 0)
  }

  lemma {:induction false} AscendingPrefix(s: seq<real>, n: nat)
    requires Ascending(s) && n <= |s|
    ensures Ascending(s[..n])
  {
    if n > 0 {
      var rest := s[1..][..n - 1];
      AscendingPrefix(s[1..], n - 1);
      assert s[..n][1..] == rest && s[..n][0] == s[0];
      assert s[1..] == rest + s[n..];
      forall v | v in multiset(rest) ensures s[0] <= v {
        assert v in multiset(s[1..]);
      }
    }
  }

  lemma {:induction false} CountsInAscending(s: seq<real>, k: nat)
    requires Ascending(s) && k < |s|
    ensures CountAtMost(s, s[k]) >= k + 1 && CountBelow(s, s[k]) <= k
    decreases |s|
  {
    var n := |s| - 1;
    if k < n {
      AscendingPrefix(s, n);
      AscendingAt(s, k, n);
      CountsInAscending(s[..n], k);
    } else if n > 0 {
      AscendingPrefix(s, n);
      AscendingAt(s, n - 1, n);
      CountsInAscending(s[..n], n - 1);
      CountMonotone(s[..n], s[n - 1], s[n]);
      CountBelowAtMostLength(s[..n], s[n]);
    }
  }

  lemma {:induction false} CountMonotone(s: seq<real>, x: real, y: real)
    requires x <= y
    ensures CountAtMost(s, x) <= CountAtMost(s, y)
  {
    if s != [] { CountMonotone(s[..|s| - 1], x, y); }
  }

  lemma {:induction false} CountBelowAtMostLength(s: seq<real>, x: real)
    ensures CountBelow(s, x) <= |s|
  {
    if s != [] { CountBelowAtMostLength(s[..|s| - 1], x); }
  }

  /** Counting does not look at the order. */
  lemma {:induction false} CountsOfPermutation(a: seq<real>, b: seq<real>, x: real)
    requires multiset(a) == multiset(b)
    ensures CountAtMost(a, x) == CountAtMost(b, x) && CountBelow(a, x) == CountBelow(b, x)
    decreases |a|
  {
    LengthOfPermutation(a, b);
    if a != [] {
      var k := LastElement(a, b);
      CountsSplit(b, k, x);
      CountsOfPermutation(a[..|a| - 1], Without(b, k), x);
    }
  }

  lemma {:induction false} CountsSplit(b: seq<real>, k: nat, x: real)
    requires k < |b|
    ensures CountAtMost(b, x) == CountAtMost(Without(b, k), x) + (if b[k] <= x then 1 else 0)
    ensures CountBelow(b, x) == CountBelow(Without(b, k), x) + (if b[k] < x then 1 else 0)
    decreases |b|
  {
    var n := |b| - 1;
    if k == n {
      assert Without(b, k) == b[..n];
    } else {
      CountsSplit(b[..n], k, x);
      assert Without(b, k)[..n - 1] == Without(b[..n], k);
    }
  }

  /**
   The nearest-rank quantile is a sample with at least `rank` samples at or below it and fewer
   than `rank` samples strictly below it.
   */
  lemma NearestRankCounts(values: seq<real>, percent: nat)
    requires percent <= 100 && values != []
    ensures NearestRank(values, percent).Some?
    ensures NearestRank(values, percent).value in values
    ensures CountAtMost(values, NearestRank(values, percent).value) >= Rank(percent, |values|)
    ensures CountBelow(values, NearestRank(values, percent).value) < Rank(percent, |values|)
  {
    RankInRange(percent, |values|);
    SortedCounts(values, Rank(percent, |values|) - 1);
  }

  lemma SortedCounts(values: seq<real>, k: nat)
    requires k < |values|
    ensures Sort(values)[k] in values
    ensures CountAtMost(values, Sort(values)[k]) >= k + 1 && CountBelow(values, Sort(values)[k]) <= k
  {
    var s := Sort(values);
    var x := s[k];
    assert x in multiset(s);
    CountsInAscending(s, k);
    CountsOfPermutation(values, s, x);
  }

  /** The rank is the least that reaches the percentage. */
  lemma RankMeans(percent: nat, n: nat)
    requires 0 < percent && n > 0
    ensures 100 * Rank(percent, n) >= percent * n && 100 * (Rank(percent, n) - 1) < percent * n
  {
    assert percent * n > 0;
  }

  /** At least so many percent of the samples are at or below the quantile, and less are below it. */
  lemma QuantileMeans(values: seq<real>, percent: nat)
    requires 0 < percent <= 100 && values != []
    ensures NearestRank(values, percent).Some?
    ensures NearestRank(values, percent).value in values
    ensures 100 * CountAtMost(values, NearestRank(values, percent).value) >= percent * |values|
    ensures 100 * CountBelow(values, NearestRank(values, percent).value) < percent * |values|
  {
    NearestRankCounts(values, percent);
    RankMeans(percent, |values|);
  }

  // ---------------------------------------------------------------- extremes, mean, median

  function Minimum(s: seq<real>): (m: real)
    requires s != []
    ensures m in s && forall k :: 0 <= k < |s| ==> m <= s[k]
  {
    if |s| == 1 then s[0] else
      var m := Minimum(s[..|s| - 1]);
      if s[|s| - 1] < m then s[|s| - 1] else m
  }

  function Maximum(s: seq<real>): (m: real)
    requires s != []
    ensures m in s && forall k :: 0 <= k < |s| ==> s[k] <= m
  {
    if |s| == 1 then s[0] else
      var m := Maximum(s[..|s| - 1]);
      if s[|s| - 1] > m then s[|s| - 1] else m
  }

  function Sum(s: seq<real>): real {
    if s == [] then 0.0 else Sum(s[..|s| - 1]) + s[|s| - 1]
  }

  function Median(s: seq<real>): real
    requires s != []
  {
    var sorted, middle := Sort(s), |s| / 2;
    if |s| % 2 == 1 then sorted[middle] else (sorted[middle - 1] + sorted[middle]) / 2.0
  }

  /** The two samples in the middle, the same one for an odd number. */
  function LowerMiddle(s: seq<real>): real
    requires s != []
  {
    Sort(s)[(|s| - 1) / 2]
  }

  function UpperMiddle(s: seq<real>): real
    requires s != []
  {
    Sort(s)[|s| / 2]
  }

  lemma LowerMiddleCounts(s: seq<real>)
    requires s != []
    ensures LowerMiddle(s) in s
    ensures 2 * CountAtMost(s, LowerMiddle(s)) >= |s| && 2 * CountBelow(s, LowerMiddle(s)) < |s|
  {
    SortedCounts(s, (|s| - 1) / 2);
  }

  lemma UpperMiddleCounts(s: seq<real>)
    requires s != []
    ensures UpperMiddle(s) in s
    ensures 2 * CountAtMost(s, UpperMiddle(s)) > |s| && 2 * CountBelow(s, UpperMiddle(s)) <= |s|
  {
    SortedCounts(s, |s| / 2);
  }

  lemma MiddlesOrdered(s: seq<real>)
    requires s != []
    ensures LowerMiddle(s) <= UpperMiddle(s) && (|s| % 2 == 1 ==> LowerMiddle(s) == UpperMiddle(s))
  {
    AscendingAt(Sort(s), (|s| - 1) / 2, |s| / 2);
  }

  lemma MedianOfMiddles(s: seq<real>)
    requires s != []
    ensures 2.0 * Median(s) == LowerMiddle(s) + UpperMiddle(s)
  {
    Halves(|s|);
    var t, middle := Sort(s), |s| / 2;
    if |s| % 2 == 0 { Halved(t[middle - 1] + t[middle]); } else { Doubled(t[middle]); }
  }

  lemma Halves(n: nat)
    requires n > 0
    ensures (n - 1) / 2 == if n % 2 == 1 then n / 2 else n / 2 - 1
  {
  }

  lemma Halved(x: real)
    ensures 2.0 * (x / 2.0) == x
  {
  }

  lemma Doubled(x: real)
    ensures 2.0 * x == x + x
  {
  }

  /** Twice the median is the sum of two samples, the same one for an odd number, that split the samples in half. */
  lemma MedianMeans(s: seq<real>) returns (low: real, high: real)
    requires s != []
    ensures low in s && high in s && low <= high && 2.0 * Median(s) == low + high
    ensures 2 * CountAtMost(s, low) >= |s| && 2 * CountBelow(s, low) < |s|
    ensures 2 * CountAtMost(s, high) > |s| && 2 * CountBelow(s, high) <= |s|
    ensures |s| % 2 == 1 ==> low == high
  {
    low, high := LowerMiddle(s), UpperMiddle(s);
    LowerMiddleCounts(s);
    UpperMiddleCounts(s);
    MiddlesOrdered(s);
    MedianOfMiddles(s);
  }

  /** Sums of parts make up the sum. */
  lemma {:induction false} SumConcat(a: seq<real>, b: seq<real>)
    ensures Sum(a + b) == Sum(a) + Sum(b)
    decreases |b|
  {
    if b == [] {
      assert a + b == a;
    } else {
      SumConcat(a, b[..|b| - 1]);
      assert (a + b)[..|a + b| - 1] == a + b[..|b| - 1];
    }
  }

  lemma SumOne(x: real)
    ensures Sum([x]) == x
  {
    assert [x][..0] == [];
  }

  /** The mean, as often as there are samples, is their sum. */
  lemma MeanMeans(s: seq<real>)
    requires s != []
    ensures Mean(s) * |s| as real == Sum(s)
  {
  }

  lemma SortedIsSample(s: seq<real>, k: nat)
    requires k < |s|
    ensures Sort(s)[k] in s
  {
    assert Sort(s)[k] in multiset(s);
  }

  lemma SortedBetweenExtremes(s: seq<real>, k: nat)
    requires k < |s|
    ensures Minimum(s) <= Sort(s)[k] <= Maximum(s)
  {
    SortedIsSample(s, k);
  }

  function Mean(s: seq<real>): real
    requires s != []
  {
    Sum(s) / |s| as real
  }

  lemma {:induction false} SumBetween(s: seq<real>, low: real, high: real)
    requires forall k :: 0 <= k < |s| ==> low <= s[k] <= high
    ensures low * |s| as real <= Sum(s) <= high * |s| as real
  {
    if s != [] {
      var n := |s| - 1;
      SumBetween(s[..n], low, high);
      assert low * |s| as real == low * n as real + low;
      assert high * |s| as real == high * n as real + high;
    }
  }

  lemma Quotient(low: real, total: real, n: real, high: real)
    requires n > 0.0 && low * n <= total <= high * n
    ensures low <= total / n <= high
  {
  }

  lemma MeanBetween(s: seq<real>, low: real, high: real)
    requires s != [] && forall k :: 0 <= k < |s| ==> low <= s[k] <= high
    ensures low <= Mean(s) <= high
  {
    SumBetween(s, low, high);
    Quotient(low, Sum(s), |s| as real, high);
  }

  lemma QuantilesOrdered(s: seq<real>, p: nat, q: nat)
    requires s != [] && p <= q <= 100
    ensures Minimum(s) <= NearestRank(s, p).value <= NearestRank(s, q).value <= Maximum(s)
  {
    RankInRange(p, |s|);
    RankInRange(q, |s|);
    RankMonotone(p, q, |s|);
    AscendingAt(Sort(s), Rank(p, |s|) - 1, Rank(q, |s|) - 1);
    SortedBetweenExtremes(s, Rank(p, |s|) - 1);
    SortedBetweenExtremes(s, Rank(q, |s|) - 1);
  }

  lemma Midpoint(x: real, y: real, low: real, high: real)
    requires low <= x <= high && low <= y <= high
    ensures low <= (x + y) / 2.0 <= high
  {
  }

  lemma MedianBetween(s: seq<real>)
    requires s != []
    ensures Minimum(s) <= Median(s) <= Maximum(s)
  {
    var t := Sort(s);
    SortedBetweenExtremes(s, |s| / 2);
    if |s| % 2 == 0 {
      SortedBetweenExtremes(s, |s| / 2 - 1);
      Midpoint(t[|s| / 2 - 1], t[|s| / 2], Minimum(s), Maximum(s));
    }
  }

  lemma MeanBetweenExtremes(s: seq<real>)
    requires s != []
    ensures Minimum(s) <= Mean(s) <= Maximum(s)
  {
    MeanBetween(s, Minimum(s), Maximum(s));
  }

  // ---------------------------------------------------------------- order of the samples

  /** A quantile does not depend on the order in which the samples came. */
  lemma QuantileOfPermutation(a: seq<real>, b: seq<real>, percent: nat)
    requires multiset(a) == multiset(b) && percent <= 100
    ensures |a| == |b| && NearestRank(a, percent) == NearestRank(b, percent)
  {
    LengthOfPermutation(a, b);
    SortDependsOnMultiset(a, b);
  }

  lemma MaximumOfPermutation(a: seq<real>, b: seq<real>)
    requires multiset(a) == multiset(b) && a != []
    ensures b != [] && Maximum(a) == Maximum(b)
  {
    assert Maximum(a) in multiset(b);
    assert Maximum(b) in multiset(a);
  }
}
