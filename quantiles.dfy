/** Quintile binning as `pd.qcut(x, q=5, labels=...)` does it, and
    `rank(method='first')` (dashboard/dashboard.py, lines 275-277).

    Quantiles are computed exactly: each bin edge is kept multiplied by 5,
    so that linear interpolation between closest ranks stays in integers. */
module Quantiles {

  /** `qcut` raises when two of its bin edges coincide. */
  datatype QcutError = BinEdgesNotUnique

  datatype Result<T> = Ok(value: T) | Err(error: QcutError)

  /** Number of bins (`q=5`). */
  const BINS: int := 5

  predicate Sorted(s: seq<int>)
  {
    forall i, j :: 0 <= i < j < |s| ==> s[i] <= s[j]
  }

  function Insert(x: int, s: seq<int>): (r: seq<int>)
    requires Sorted(s)
    ensures Sorted(r)
    ensures multiset(r) == multiset(s) + multiset{x}
    ensures |r| == |s| + 1 && r[0] == if s == [] || x <= s[0] then x else s[0]
  {
    if s == [] || x <= s[0] then
      SortedCons(x, s);
      [x] + s
    else
      assert s == [s[0]] + s[1..];
      var tail := Insert(x, s[1..]);
      SortedCons(s[0], tail);
      [s[0]] + tail
  }

  /** A sorted sequence stays sorted under a head no larger than its first entry. */
  lemma SortedCons(h: int, t: seq<int>)
    requires Sorted(t) && (t == [] || h <= t[0])
    ensures Sorted([h] + t)
  {
    var r := [h] + t;
    forall i, j | 0 <= i < j < |r| ensures r[i] <= r[j] {
      if i > 0 {
        assert r[i] == t[i - 1] && r[j] == t[j - 1];
      } else {
        assert r[j] == t[j - 1];
      }
    }
  }

  /** The population in ascending order. */
  function SortAscending(s: seq<int>): (r: seq<int>)
    ensures |r| == |s|
    ensures Sorted(r)
    ensures multiset(r) == multiset(s)
  {
    if s == [] then []
    else
      var n := |s| - 1;
      assert s == s[..n] + [s[n]];
      Insert(s[n], SortAscending(s[..n]))
  }

  /** c copies of d added up: the product c * d for a count c, written as a
      sum so that quantiles stay linear arithmetic. */
  function Times(c: nat, d: int): int
  {
    if c == 0 then 0 else Times(c - 1, d) + d
  }

  lemma {:induction false} TimesIsProduct(c: nat, d: int)
    ensures Times(c, d) == c * d == d * c
  {
    if c > 0 {
      TimesIsProduct(c - 1, d);
    }
  }

  /** Five times the quantile at k/5 of a sorted, non-empty population,
      interpolating linearly between the two closest ranks. */
  function ScaledQuantile(sorted: seq<int>, k: int): (q: int)
    requires |sorted| >= 1 && 0 <= k <= BINS
    requires Sorted(sorted)
    ensures 5 * sorted[0] <= q <= 5 * sorted[|sorted| - 1]
    ensures k == 0 ==> q == 5 * sorted[0]
    ensures k == BINS ==> q == 5 * sorted[|sorted| - 1]
  {
    var n := |sorted|;
    var h := Times(k, n - 1);
    TimesIsProduct(k, n - 1);
    MulBounds(n - 1, k);
    var j := h / 5;
    if h % 5 == 0 then 5 * sorted[j]
    else
      assert j + 1 < n;
      var step := sorted[j + 1] - sorted[j];
      TimesIsProduct(h % 5, step);
      MulBounds(step, h % 5);
      5 * sorted[j] + Times(h % 5, step)
  }

  /** A product of a non-negative d with a count between 0 and 5 lies
      between 0 and 5d. */
  lemma MulBounds(d: int, c: int)
    requires d >= 0 && 0 <= c <= BINS
    ensures 0 <= d * c <= d * BINS
    ensures c < BINS ==> d * c <= d * BINS - d
  {
  }

  /** The six bin edges of a sorted population, each multiplied by 5. */
  function EdgesOfSorted(sorted: seq<int>): (edges: seq<int>)
    requires |sorted| >= 1 && Sorted(sorted)
    ensures |edges| == BINS + 1
    ensures forall k :: 0 <= k <= BINS ==> edges[k] == ScaledQuantile(sorted, k)
  {
    seq(BINS + 1, k requires 0 <= k <= BINS => ScaledQuantile(sorted, k))
  }

  /** The six bin edges `qcut` computes, each multiplied by 5. */
  function Edges(values: seq<int>): (edges: seq<int>)
    requires |values| >= 1
    ensures |edges| == BINS + 1
  {
    EdgesOfSorted(SortAscending(values))
  }

  /** No two edges coincide; stated head first, see AllDistinctPairwise. */
  predicate AllDistinct(edges: seq<int>)
  {
    edges == [] || (edges[0] !in edges[1..] && AllDistinct(edges[1..]))
  }

  lemma {:induction false} AllDistinctPairwise(edges: seq<int>)
    ensures AllDistinct(edges) <==> forall i, j :: 0 <= i < j < |edges| ==> edges[i] != edges[j]
  {
    if edges != [] {
      var t := edges[1..];
      AllDistinctPairwise(t);
      if forall i, j :: 0 <= i < j < |edges| ==> edges[i] != edges[j] {
        assert edges[0] !in t;
        forall i, j | 0 <= i < j < |t| ensures t[i] != t[j] {
          assert edges[i + 1] != edges[j + 1];
        }
      }
      if AllDistinct(edges) {
        forall i, j | 0 <= i < j < |edges| ensures edges[i] != edges[j] {
          if i == 0 {
            assert edges[j] == t[j - 1];
          } else {
            assert t[i - 1] != t[j - 1];
          }
        }
      }
    }
  }

  /** The first bin, from k on, whose right edge is at or above the value
      (bins are right-closed; the last bin takes whatever is left). */
  function BinFrom(edges: seq<int>, x5: int, k: int): (b: int)
    requires |edges| == BINS + 1 && 1 <= k <= BINS
    ensures k <= b <= BINS
    ensures b < BINS ==> x5 <= edges[b]
    ensures forall i :: k <= i < b ==> edges[i] < x5
    decreases BINS - k
  {
    if k == BINS || x5 <= edges[k] then k else BinFrom(edges, x5, k + 1)
  }

  /** The 1-based bin of a value (the lowest edge belongs to bin 1). */
  function Bin(edges: seq<int>, x: int): (b: int)
    requires |edges| == BINS + 1
    ensures 1 <= b <= BINS
    ensures b < BINS ==> 5 * x <= edges[b]
    ensures forall k :: 1 <= k < b ==> edges[k] < 5 * x
  {
    BinFrom(edges, 5 * x, 1)
  }

  /** `pd.qcut(values, q=5, labels=labels)`. */
  function QCut(values: seq<int>, labels: seq<int>): (r: Result<seq<int>>)
    requires |labels| == BINS
    ensures r.Ok? <==> |values| >= 1 && AllDistinct(Edges(values))
    ensures r.Ok? ==> |r.value| == |values|
    ensures r.Ok? ==> forall i :: 0 <= i < |values| ==> r.value[i] == labels[Bin(Edges(values), values[i]) - 1]
  {
    if |values| == 0 then Err(BinEdgesNotUnique)
    else
      var edges := Edges(values);
      if !AllDistinct(edges) then Err(BinEdgesNotUnique)
      else Ok(seq(|values|, i requires 0 <= i < |values| => labels[Bin(edges, values[i]) - 1]))
  }

  /** A larger value never lands in a lower bin. */
  lemma BinMonotone(edges: seq<int>, x: int, y: int)
    requires |edges| == BINS + 1 && x <= y
    ensures Bin(edges, x) <= Bin(edges, y)
  {
  }

  /** A bin is exactly the range between its two edges: the value lies above
      every edge left of its bin and at or below its bin's right edge. */
  lemma BinBetweenEdges(values: seq<int>, i: int)
    requires 0 <= i < |values|
    ensures var edges := Edges(values);
      var b := Bin(edges, values[i]);
      && 5 * values[i] <= edges[b]
      && forall k :: 1 <= k < b ==> edges[k] < 5 * values[i]
  {
    var sorted := SortAscending(values);
    var n := |sorted|;
    AtMostLast(values, i);
    assert Edges(values) == EdgesOfSorted(sorted);
    assert Edges(values)[BINS] == 5 * sorted[n - 1];
  }

  /** No value exceeds the last of the sorted population. */
  lemma AtMostLast(values: seq<int>, i: int)
    requires 0 <= i < |values|
    ensures values[i] <= SortAscending(values)[|values| - 1]
  {
    var sorted := SortAscending(values);
    assert values[i] in multiset(sorted);
    var m :| 0 <= m < |sorted| && sorted[m] == values[i];
  }

  /** The outer edges are five times the smallest and the largest value:
      every value lies between them and both are attained. */
  lemma EdgesSpan(values: seq<int>, i: int)
    requires 0 <= i < |values|
    ensures Edges(values)[0] <= 5 * values[i] <= Edges(values)[BINS]
    ensures exists lo :: 0 <= lo < |values| && Edges(values)[0] == 5 * values[lo]
    ensures exists hi :: 0 <= hi < |values| && Edges(values)[BINS] == 5 * values[hi]
  {
    var sorted := SortAscending(values);
    var n := |sorted|;
    AtMostLast(values, i);
    AtLeastFirst(values, i);
    assert Edges(values) == EdgesOfSorted(sorted);
    assert sorted[0] in multiset(values) && sorted[n - 1] in multiset(values);
  }

  /** No value is below the first of the sorted population. */
  lemma AtLeastFirst(values: seq<int>, i: int)
    requires 0 <= i < |values|
    ensures SortAscending(values)[0] <= values[i]
  {
    var sorted := SortAscending(values);
    assert values[i] in multiset(sorted);
    var m :| 0 <= m < |sorted| && sorted[m] == values[i];
  }

  /** A population of one value has all its edges equal, so `qcut` fails. */
  lemma QCutSingleValue(v: int, labels: seq<int>)
    requires |labels| == BINS
    ensures QCut([v], labels).Err?
  {
    var edges := Edges([v]);
    assert edges[0] == edges[1];
    AllDistinctPairwise(edges);
  }

  /** Two distinct values are enough: interpolation spreads the edges of
      [0, 10] evenly, so `qcut` succeeds and puts them in bins 1 and 5. */
  lemma QCutTwoValues()
    ensures QCut([0, 10], [1, 2, 3, 4, 5]) == Ok([1, 5])
  {
    EdgesOfTwoValues();
    BinsOfTwoValues();
    var r := QCut([0, 10], [1, 2, 3, 4, 5]);
    assert r.value[0] == 1 && r.value[1] == 5;
    assert r.value == [1, 5];
  }

  lemma BinsOfTwoValues()
    ensures AllDistinct([0, 10, 20, 30, 40, 50])
    ensures Bin([0, 10, 20, 30, 40, 50], 0) == 1
    ensures Bin([0, 10, 20, 30, 40, 50], 10) == 5
  {
    var edges := [0, 10, 20, 30, 40, 50];
    assert forall i, j :: 0 <= i < j < |edges| ==> edges[i] != edges[j] by {
      assert forall i :: 0 <= i < |edges| ==> edges[i] == 10 * i;
    }
    AllDistinctPairwise(edges);
  }

  lemma EdgesOfTwoValues()
    ensures Edges([0, 10]) == [0, 10, 20, 30, 40, 50]
  {
    SortTwoValues();
    var edges := EdgesOfSorted([0, 10]);
    forall k | 0 <= k <= BINS ensures edges[k] == [0, 10, 20, 30, 40, 50][k] {
      QuantileOfTwoValues(k);
    }
  }

  lemma SortTwoValues()
    ensures SortAscending([0, 10]) == [0, 10]
  {
    var sorted := SortAscending([0, 10]);
    assert multiset(sorted) == multiset{0, 10};
    assert sorted[0] in multiset(sorted) && sorted[1] in multiset(sorted);
  }

  lemma QuantileOfTwoValues(k: int)
    requires 0 <= k <= BINS
    ensures Sorted([0, 10]) && ScaledQuantile([0, 10], k) == [0, 10, 20, 30, 40, 50][k]
  {
    TimesIsProduct(k, 1);
    if 0 < k < BINS {
      TimesIsProduct(k, 10);
    }
  }

  // ----- rank(method='first') -----

  /** How many of s[0..hi] are below x. */
  function CountBelow(s: seq<int>, x: int, hi: nat): nat
    requires hi <= |s|
  {
    if hi == 0 then 0 else CountBelow(s, x, hi - 1) + (if s[hi - 1] < x then 1 else 0)
  }

  /** How many of s[0..hi] equal x. */
  function CountEqual(s: seq<int>, x: int, hi: nat): nat
    requires hi <= |s|
  {
    if hi == 0 then 0 else CountEqual(s, x, hi - 1) + (if s[hi - 1] == x then 1 else 0)
  }

  /** The rank of entry i: one more than the number of smaller entries and of
      equal entries that come before it. */
  function RankOf(s: seq<int>, i: int): (rank: int)
    requires 0 <= i < |s|
    ensures 1 <= rank <= |s|
  {
    BelowPlusEqualAtMost(s, s[i], |s|);
    CountEqualPast(s, s[i], i, |s|);
    1 + CountBelow(s, s[i], |s|) + CountEqual(s, s[i], i)
  }

  /** `rank(method='first')`: ties are ranked in the order they appear. */
  function RankFirst(s: seq<int>): (ranks: seq<int>)
    ensures |ranks| == |s|
    ensures forall i :: 0 <= i < |s| ==> ranks[i] == RankOf(s, i)
  {
    seq(|s|, i requires 0 <= i < |s| => RankOf(s, i))
  }

  lemma {:induction false} BelowPlusEqualAtMost(s: seq<int>, x: int, hi: nat)
    requires hi <= |s|
    ensures CountBelow(s, x, hi) + CountEqual(s, x, hi) <= hi
  {
    if hi > 0 {
      BelowPlusEqualAtMost(s, x, hi - 1);
    }
  }

  /** Counting past an occurrence of x adds at least one. */
  lemma {:induction false} CountEqualPast(s: seq<int>, x: int, lo: nat, hi: nat)
    requires lo < hi <= |s| && s[lo] == x
    ensures CountEqual(s, x, hi) >= CountEqual(s, x, lo) + 1
  {
    if hi > lo + 1 {
      CountEqualPast(s, x, lo, hi - 1);
    }
  }

  /** Everything below or equal to x is below a larger y. */
  lemma {:induction false} CountBelowLarger(s: seq<int>, x: int, y: int, hi: nat)
    requires hi <= |s| && x < y
    ensures CountBelow(s, y, hi) >= CountBelow(s, x, hi) + CountEqual(s, x, hi)
  {
    if hi > 0 {
      CountBelowLarger(s, x, y, hi - 1);
    }
  }

  /** Ranks follow the values, ties broken by position. */
  lemma RankOrder(s: seq<int>, i: int, j: int)
    requires 0 <= i < |s| && 0 <= j < |s|
    requires s[i] < s[j] || (s[i] == s[j] && i < j)
    ensures RankOf(s, i) < RankOf(s, j)
  {
    if s[i] < s[j] {
      CountBelowLarger(s, s[i], s[j], |s|);
      CountEqualPast(s, s[i], i, |s|);
    } else {
      CountEqualPast(s, s[i], i, j);
    }
  }

  predicate Injective(s: seq<int>)
  {
    forall i, j :: 0 <= i < j < |s| ==> s[i] != s[j]
  }

  /** The ranks 1..n in order. */
  function Iota(n: nat): (s: seq<int>)
    ensures |s| == n && forall i :: 0 <= i < n ==> s[i] == i + 1
  {
    seq(n, i requires 0 <= i < n => i + 1)
  }

  lemma {:induction false} InjectiveAtMostOnce(s: seq<int>)
    requires Injective(s)
    ensures forall v :: multiset(s)[v] <= 1
  {
    if s != [] {
      InjectiveAtMostOnce(s[1..]);
      assert s == [s[0]] + s[1..];
      assert s[0] !in s[1..];
    }
  }

  lemma AtMostOnceInjective(s: seq<int>)
    requires forall v :: multiset(s)[v] <= 1
    ensures Injective(s)
  {
    forall i, j | 0 <= i < j < |s| ensures s[i] != s[j] {
      assert s == s[..j] + s[j..];
      assert s[i] in s[..j] && s[j] in s[j..];
      assert multiset(s)[s[j]] == multiset(s[..j])[s[j]] + multiset(s[j..])[s[j]];
    }
  }

  /** A strictly increasing sequence gains at least one per step. */
  lemma {:induction false} StrictGap(u: seq<int>, i: int, j: int)
    requires Sorted(u) && Injective(u) && 0 <= i <= j < |u|
    ensures u[j] - u[i] >= j - i
    decreases j - i
  {
    if i < j {
      StrictGap(u, i, j - 1);
    }
  }

  /** No two entries share a rank. */
  lemma RanksInjective(s: seq<int>)
    ensures Injective(RankFirst(s))
  {
    var ranks := RankFirst(s);
    forall i, j | 0 <= i < j < |s| ensures ranks[i] != ranks[j] {
      if s[j] < s[i] {
        RankOrder(s, j, i);
      } else {
        RankOrder(s, i, j);
      }
    }
  }

  /** A sorted sequence of n distinct values from 1..n is 1..n. */
  lemma SortedDistinctIsIota(u: seq<int>)
    requires Sorted(u) && Injective(u)
    requires forall k :: 0 <= k < |u| ==> 1 <= u[k] <= |u|
    ensures u == Iota(|u|)
  {
    var n := |u|;
    forall k | 0 <= k < n ensures u[k] == k + 1 {
      StrictGap(u, 0, k);
      StrictGap(u, k, n - 1);
    }
  }

  /** `rank(method='first')` is a permutation of 1..n: sorted, it is 1..n. */
  lemma RankFirstPermutation(s: seq<int>)
    ensures SortAscending(RankFirst(s)) == Iota(|s|)
  {
    var ranks := RankFirst(s);
    var n := |s|;
    RanksInjective(s);
    InjectiveAtMostOnce(ranks);
    var u := SortAscending(ranks);
    AtMostOnceInjective(u);
    forall k | 0 <= k < n ensures 1 <= u[k] <= n {
      assert u[k] in multiset(ranks);
      var i :| 0 <= i < n && ranks[i] == u[k];
    }
    SortedDistinctIsIota(u);
  }

  /** The bin of rank x among n ranks: max(1, ceil(5(x-1)/(n-1))). */
  function RankBin(x: int, n: int): int
    requires n >= 2
  {
    var c := (5 * (x - 1) + n - 2) / (n - 1);
    if c < 1 then 1 else c
  }

  /** The quantile at k/5 of 1..n is 1 + (n-1)k/5. */
  lemma QuantileOfIota(n: nat, k: int)
    requires n >= 1 && 0 <= k <= BINS
    ensures Sorted(Iota(n))
    ensures ScaledQuantile(Iota(n), k) == 5 + Times(k, n - 1)
  {
    var sorted := Iota(n);
    var h := Times(k, n - 1);
    TimesIsProduct(k, n - 1);
    MulBounds(n - 1, k);
    var j := h / 5;
    assert sorted[j] == j + 1;
    if h % 5 != 0 {
      assert sorted[j + 1] == j + 2;
      TimesIsProduct(h % 5, 1);
    }
  }

  /** The edges of the ranks 1..n are 1 + (n-1)k/5. */
  lemma EdgesOfIota(n: nat, k: int)
    requires n >= 1 && 0 <= k <= BINS
    ensures Sorted(Iota(n))
    ensures EdgesOfSorted(Iota(n))[k] == 5 + (n - 1) * k
  {
    QuantileOfIota(n, k);
    TimesIsProduct(k, n - 1);
  }

  lemma MulMonotone(d: int, a: int, b: int)
    requires d >= 0 && a <= b
    ensures d * a <= d * b
  {
  }

  lemma MulStrict(d: int, a: int, b: int)
    requires d >= 1 && a < b
    ensures d * a < d * b
  {
  }

  /** Whether rank x among n ranks fits under the k-th edge. */
  predicate RankFits(x: int, n: int, k: int)
  {
    5 * (x - 1) <= (n - 1) * k
  }

  /** The rounded-up quotient of a by d brackets a between two multiples of d. */
  lemma CeilDivBrackets(a: int, d: int)
    requires a >= 0 && d >= 1
    ensures var c := (a + d - 1) / d;
      c >= 0 && d * c >= a && d * (c - 1) < a
  {
    var c := (a + d - 1) / d;
    var rem := (a + d - 1) % d;
    assert a + d - 1 == d * c + rem && 0 <= rem < d;
  }

  /** RankBin is the first k in 1..5 with 5(x-1) <= (n-1)k. */
  lemma RankBinFirst(x: int, n: int)
    requires n >= 2 && 1 <= x <= n
    ensures 1 <= RankBin(x, n) <= BINS
    ensures RankFits(x, n, RankBin(x, n))
    ensures forall k :: 1 <= k < RankBin(x, n) ==> !RankFits(x, n, k)
  {
    var d := n - 1;
    var a := 5 * (x - 1);
    var c := (a + d - 1) / d;
    CeilDivBrackets(a, d);
    assert a <= d * 5;
    if c > 5 {
      MulMonotone(d, 6, c);
      assert false;
    }
    forall k | 1 <= k < RankBin(x, n) ensures !RankFits(x, n, k) {
      MulMonotone(d, k, c - 1);
    }
    if c < 1 {
      assert a == 0;
    }
  }

  /** With at least two customers the rank edges are distinct, so binning
      ranks never fails; with one it always fails. */
  lemma RankEdgesDistinct(s: seq<int>)
    requires |s| >= 1
    ensures AllDistinct(Edges(RankFirst(s))) <==> |s| >= 2
  {
    var ranks := RankFirst(s);
    var n := |s|;
    RankFirstPermutation(s);
    var edges := Edges(ranks);
    assert edges == EdgesOfSorted(Iota(n));
    forall k | 0 <= k <= BINS ensures edges[k] == 5 + (n - 1) * k {
      EdgesOfIota(n, k);
    }
    AllDistinctPairwise(edges);
    if n >= 2 {
      forall i, j | 0 <= i < j <= BINS ensures edges[i] != edges[j] {
        MulStrict(n - 1, i, j);
      }
    } else {
      assert edges[0] == edges[1];
    }
  }

  /** Against edges 1 + (n-1)k/5, bin and closed form agree. */
  lemma BinUnderRankEdges(edges: seq<int>, n: int, x: int)
    requires |edges| == BINS + 1 && n >= 2 && 1 <= x <= n
    requires forall k :: 0 <= k <= BINS ==> edges[k] == 5 + (n - 1) * k
    ensures Bin(edges, x) == RankBin(x, n)
  {
    var b := Bin(edges, x);
    var c := RankBin(x, n);
    RankBinFirst(x, n);
    assert forall k :: 1 <= k <= BINS ==> (5 * x <= edges[k] <==> RankFits(x, n, k));
  }

  /** Binning ranks 1..n puts rank x in bin max(1, ceil(5(x-1)/(n-1))). */
  lemma BinOfRank(s: seq<int>, i: int)
    requires 0 <= i < |s| && |s| >= 2
    ensures Bin(Edges(RankFirst(s)), RankFirst(s)[i]) == RankBin(RankFirst(s)[i], |s|)
  {
    var ranks := RankFirst(s);
    var n := |s|;
    RankFirstPermutation(s);
    var edges := Edges(ranks);
    assert edges == EdgesOfSorted(Iota(n));
    forall k | 0 <= k <= BINS ensures edges[k] == 5 + (n - 1) * k {
      EdgesOfIota(n, k);
    }
    BinUnderRankEdges(edges, n, ranks[i]);
  }
}
