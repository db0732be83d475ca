/**
 * Sorting by a real-valued rank, the one ordering step behind `sort_values`, `median` and the
 * ordered keys that `groupby` produces.
 */
module Sorting {

  /** `s` is in non-decreasing order of `rank`. */
  predicate SortedBy<T>(s: seq<T>, rank: T -> real)
  {
    forall i, j :: 0 <= i < j < |s| ==> rank(s[i]) <= rank(s[j])
  }

  /** Puts `x` into the sorted `s` before the first element that does not rank below it. */
  function Insert<T>(x: T, s: seq<T>, rank: T -> real): (r: seq<T>)
    requires SortedBy(s, rank)
    ensures SortedBy(r, rank)
    ensures multiset(r) == multiset(s) + multiset{x}
    ensures |r| == |s| + 1
  {
    if s == [] || rank(x) <= rank(s[0]) then [x] + s
    else
      var rest := Insert(x, s[1..], rank);
      assert s == [s[0]] + s[1..];
      FirstRanksLowest(s, x, rest, rank);
      [s[0]] + rest
  }

  /** The head of a sorted `s` ranks no higher than anything in `s[1..]` with `x` added, when `x` ranks above it. */
  lemma FirstRanksLowest<T>(s: seq<T>, x: T, rest: seq<T>, rank: T -> real)
    requires s != [] && SortedBy(s, rank) && rank(s[0]) < rank(x)
    requires multiset(rest) == multiset(s[1..]) + multiset{x}
    ensures forall j :: 0 <= j < |rest| ==> rank(s[0]) <= rank(rest[j])
  {
    forall j | 0 <= j < |rest| ensures rank(s[0]) <= rank(rest[j]) {
      var y := rest[j];
      assert y in multiset(rest);
      if y != x {
        assert y in multiset(s[1..]);
        var k :| 0 <= k < |s[1..]| && s[1..][k] == y;
        assert s[k + 1] == y;
      }
    }
  }

  /** Insertion sort: a permutation of `s` in non-decreasing order of `rank`. */
  function SortBy<T>(s: seq<T>, rank: T -> real): (r: seq<T>)
    ensures SortedBy(r, rank)
    ensures multiset(r) == multiset(s)
    ensures |r| == |s|
  {
    if s == [] then []
    else
      var n := |s| - 1;
      assert s == s[..n] + [s[n]];
      Insert(s[n], SortBy(s[..n], rank), rank)
  }
}
