/**
 * The salary KPIs of lines 68-69: `Series.mean()` and `Series.median()` over the integer
 * column `salary_in_usd`. pandas yields NaN for an empty series; here that is None.
 */
module Stats {
  import opened Wrappers
  import opened Selection
  import opened Sorting

  function Sum(xs: seq<int>): int
  {
    if xs == [] then 0 else Sum(xs[..|xs| - 1]) + xs[|xs| - 1]
  }

  /** The arithmetic mean: the value that, counted once per salary, gives the total. */
  function Mean(xs: seq<int>): (m: Option<real>)
    ensures m.None? <==> xs == []
    ensures m.Some? ==> m.value * |xs| as real == Sum(xs) as real
  {
    if xs == [] then None else Some(Sum(xs) as real / |xs| as real)
  }

  lemma {:induction false} SumBounds(xs: seq<int>, lo: int, hi: int)
    requires forall i :: 0 <= i < |xs| ==> lo <= xs[i] <= hi
    ensures |xs| * lo <= Sum(xs) <= |xs| * hi
  {
    if xs != [] {
      var n := |xs| - 1;
      SumBounds(xs[..n], lo, hi);
      assert |xs| * lo == n * lo + lo && |xs| * hi == n * hi + hi;
    }
  }

  /** The mean lies between the smallest and the largest salary. */
  lemma MeanWithin(xs: seq<int>, lo: int, hi: int)
    requires xs != []
    requires forall i :: 0 <= i < |xs| ==> lo <= xs[i] <= hi
    ensures lo as real <= Mean(xs).value <= hi as real
  {
    SumBounds(xs, lo, hi);
    var n := |xs| as real;
    CastProduct(|xs|, lo);
    CastProduct(|xs|, hi);
    QuotientWithin(Sum(xs) as real, n, lo as real, hi as real);
  }

  lemma QuotientWithin(total: real, n: real, lo: real, hi: real)
    requires n > 0.0 && lo * n <= total <= hi * n
    ensures lo <= total / n <= hi
  {
    assert total / n * n == total;
  }

  lemma CastProduct(a: int, b: int)
    ensures (a * b) as real == a as real * b as real
  {
  }

  function AsReal(x: int): real { x as real }

  /**
   * pandas' median: the middle salary in sorted order, or the mean of the two middle ones when
   * the count is even.
   */
  function Median(xs: seq<int>): (m: Option<real>)
    ensures m.None? <==> xs == []
  {
    if xs == [] then None else Some(Middle(SortBy(xs, AsReal)))
  }

  /** The middle of a sorted sequence: its middle element, or the mean of its two middle ones. */
  function Middle(s: seq<int>): real
    requires s != []
  {
    var k := |s| / 2;
    if |s| % 2 == 1 then s[k] as real else (s[k - 1] + s[k]) as real / 2.0
  }

  function AtMost(m: real): int -> bool { x => x as real <= m }
  function AtLeast(m: real): int -> bool { x => x as real >= m }
  function LessThan(m: real): int -> bool { x => x as real < m }

  /** The positions lo..hi all pass the mask, so at least hi - lo rows are selected. */
  lemma SegmentCount(s: seq<int>, keep: int -> bool, lo: int, hi: int)
    requires 0 <= lo <= hi <= |s|
    requires forall i :: lo <= i < hi ==> keep(s[i])
    ensures |Select(s, keep)| >= hi - lo
  {
    assert s == s[..lo] + s[lo..hi] + s[hi..];
    SelectConcat(s[..lo] + s[lo..hi], s[hi..], keep);
    SelectConcat(s[..lo], s[lo..hi], keep);
    SelectAll(s[lo..hi], keep);
  }

  /** The positions lo..hi all fail the mask, so at most |s| - (hi - lo) rows are selected. */
  lemma SegmentExcluded(s: seq<int>, keep: int -> bool, lo: int, hi: int)
    requires 0 <= lo <= hi <= |s|
    requires forall i :: lo <= i < hi ==> !keep(s[i])
    ensures |Select(s, keep)| <= |s| - (hi - lo)
  {
    assert s == s[..lo] + s[lo..hi] + s[hi..];
    SelectConcat(s[..lo] + s[lo..hi], s[hi..], keep);
    SelectConcat(s[..lo], s[lo..hi], keep);
    SelectNone(s[lo..hi], keep);
  }

  /**
   * `a` is the salary at position `k` (counting from 0) of the salaries in sorted order: it is
   * one of them, at most `k` salaries are below it, and more than `k` are at most it.
   */
  predicate IsOrderStatistic(xs: seq<int>, a: int, k: int)
  {
    a in xs && |Select(xs, LessThan(a as real))| <= k < |Select(xs, AtMost(a as real))|
  }

  /** In a sorted sequence the order statistic at position `j` is the value at `j`, and only it. */
  lemma SortedOrderStatistic(s: seq<int>, a: int, j: int)
    requires SortedBy(s, AsReal) && 0 <= j < |s|
    ensures IsOrderStatistic(s, a, j) <==> a == s[j]
  {
    var below, upTo := LessThan(a as real), AtMost(a as real);
    if a == s[j] {
      forall i | j <= i < |s| ensures !below(s[i]) {
        assert AsReal(s[j]) <= AsReal(s[i]);
      }
      SegmentExcluded(s, below, j, |s|);
      forall i | 0 <= i < j + 1 ensures upTo(s[i]) {
        assert AsReal(s[i]) <= AsReal(s[j]);
      }
      SegmentCount(s, upTo, 0, j + 1);
    } else if s[j] < a {
      forall i | 0 <= i < j + 1 ensures below(s[i]) {
        assert AsReal(s[i]) <= AsReal(s[j]);
      }
      SegmentCount(s, below, 0, j + 1);
    } else {
      forall i | j <= i < |s| ensures !upTo(s[i]) {
        assert AsReal(s[j]) <= AsReal(s[i]);
      }
      SegmentExcluded(s, upTo, j, |s|);
    }
  }

  /** Reordering the salaries changes no order statistic. */
  lemma OrderStatisticPermutation(xs: seq<int>, s: seq<int>, a: int, k: int)
    requires multiset(xs) == multiset(s)
    ensures IsOrderStatistic(xs, a, k) <==> IsOrderStatistic(s, a, k)
  {
    SelectRespectsPermutation(xs, s, LessThan(a as real));
    SelectRespectsPermutation(xs, s, AtMost(a as real));
    assert a in xs <==> a in multiset(s);
  }

  /** Every position of the salaries has exactly one order statistic. */
  lemma OrderStatisticExistsUnique(xs: seq<int>, k: int)
    requires 0 <= k < |xs|
    ensures exists a :: IsOrderStatistic(xs, a, k)
    ensures forall a, b :: IsOrderStatistic(xs, a, k) && IsOrderStatistic(xs, b, k) ==> a == b
  {
    var s := SortBy(xs, AsReal);
    SortedOrderStatistic(s, s[k], k);
    OrderStatisticPermutation(xs, s, s[k], k);
    forall a, b | IsOrderStatistic(xs, a, k) && IsOrderStatistic(xs, b, k) ensures a == b {
      OrderStatisticPermutation(xs, s, a, k);
      OrderStatisticPermutation(xs, s, b, k);
      SortedOrderStatistic(s, a, k);
      SortedOrderStatistic(s, b, k);
    }
  }

  /**
   * The median is the midpoint of the order statistics at positions (n - 1) / 2 and n / 2: the
   * middle salary when the count n is odd (the two positions coincide), the mean of the two
   * middle salaries when it is even.
   */
  lemma MedianOfOrderStatistics(xs: seq<int>, a: int, b: int)
    requires xs != []
    requires IsOrderStatistic(xs, a, (|xs| - 1) / 2) && IsOrderStatistic(xs, b, |xs| / 2)
    ensures Median(xs).value == (a + b) as real / 2.0
  {
    OrderStatisticInSortedOrder(xs, a, (|xs| - 1) / 2);
    OrderStatisticInSortedOrder(xs, b, |xs| / 2);
    MiddleIsMidpoint(SortBy(xs, AsReal));
  }

  /** The order statistic at position `k` is the salary at `k` once the salaries are sorted. */
  lemma OrderStatisticInSortedOrder(xs: seq<int>, a: int, k: int)
    requires 0 <= k < |xs| && IsOrderStatistic(xs, a, k)
    ensures a == SortBy(xs, AsReal)[k]
  {
    var s := SortBy(xs, AsReal);
    OrderStatisticPermutation(xs, s, a, k);
    SortedOrderStatistic(s, a, k);
  }

  /** `Middle` is the midpoint of the values at positions (n - 1) / 2 and n / 2. */
  lemma MiddleIsMidpoint(s: seq<int>)
    requires s != []
    ensures Middle(s) == (s[(|s| - 1) / 2] + s[|s| / 2]) as real / 2.0
  {
    var n, k := |s|, |s| / 2;
    if n % 2 == 1 {
      assert (n - 1) / 2 == k;
    } else {
      assert (n - 1) / 2 == k - 1;
    }
  }

  /** At least half of the salaries are at most the median and at least half are at least it. */
  lemma MedianSplitsInHalves(xs: seq<int>)
    requires xs != []
    ensures 2 * |Select(xs, AtMost(Median(xs).value))| >= |xs|
    ensures 2 * |Select(xs, AtLeast(Median(xs).value))| >= |xs|
  {
    var s := SortBy(xs, AsReal);
    var m := Middle(s);
    SelectRespectsPermutation(s, xs, AtMost(m));
    SelectRespectsPermutation(s, xs, AtLeast(m));
    MiddleSplitsInHalves(s);
  }

  lemma MiddleSplitsInHalves(s: seq<int>)
    requires s != [] && SortedBy(s, AsReal)
    ensures 2 * |Select(s, AtMost(Middle(s)))| >= |s|
    ensures 2 * |Select(s, AtLeast(Middle(s)))| >= |s|
  {
    var m := Middle(s);
    var n, k := |s|, |s| / 2;
    var low, high := if n % 2 == 1 then s[k] else s[k - 1], s[k];
    assert AsReal(low) <= AsReal(high);
    assert low as real <= m <= high as real;
    var lowEnd := if n % 2 == 1 then k + 1 else k;
    forall i | 0 <= i < lowEnd ensures AtMost(m)(s[i]) {
      assert AsReal(s[i]) <= AsReal(low);
    }
    forall i | k <= i < n ensures AtLeast(m)(s[i]) {
      assert AsReal(high) <= AsReal(s[i]);
    }
    SegmentCount(s, AtMost(m), 0, lowEnd);
    SegmentCount(s, AtLeast(m), k, n);
  }

  /** The median lies between the smallest and the largest salary. */
  lemma MedianWithin(xs: seq<int>, lo: int, hi: int)
    requires xs != []
    requires forall i :: 0 <= i < |xs| ==> lo <= xs[i] <= hi
    ensures lo as real <= Median(xs).value <= hi as real
  {
    var s := SortBy(xs, AsReal);
    var k := |s| / 2;
    assert s[k] in multiset(xs) && (|s| % 2 == 0 ==> s[k - 1] in multiset(xs));
  }
}
