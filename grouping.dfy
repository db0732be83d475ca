/**
 * `groupby(key)["salary_in_usd"].mean()`: one (key, mean salary) row per distinct key.
 * A grouped column is given as the sequence of (key, salary) pairs of the rows, in row order.
 */
module Grouping {
  import opened Wrappers
  import opened Selection
  import opened Sorting
  import opened Stats

  /**
   * The (key, salary) pairs of `rows`, in row order; `groupby` drops the rows whose key is
   * missing (NaN), so a row whose key is None gives no pair.
   */
  function Pairs<R, K>(rows: seq<R>, key: R -> Option<K>, value: R -> int): (p: seq<(K, int)>)
    ensures |p| <= |rows|
  {
    if rows == [] then []
    else
      var last := rows[|rows| - 1];
      Pairs(rows[..|rows| - 1], key, value) + (if key(last).Some? then [(key(last).value, value(last))] else [])
  }

  /** One column of `rows`, in row order. */
  function Column<R>(rows: seq<R>, value: R -> int): (xs: seq<int>)
    ensures |xs| == |rows|
  {
    if rows == [] then [] else Column(rows[..|rows| - 1], value) + [value(rows[|rows| - 1])]
  }

  /** The mask of the rows whose key is `k`. */
  function HasKey<R, K(==)>(key: R -> Option<K>, k: K): R -> bool
  {
    x => key(x) == Some(k)
  }

  /** The salaries of the rows whose key is `k`, in row order. */
  function SalariesOf<K(==)>(p: seq<(K, int)>, k: K): seq<int>
  {
    if p == [] then []
    else SalariesOf(p[..|p| - 1], k) + (if p[|p| - 1].0 == k then [p[|p| - 1].1] else [])
  }

  /** The distinct keys, in order of first appearance. */
  function KeysOf<K(==)>(p: seq<(K, int)>): (ks: seq<K>)
    ensures forall i, j :: 0 <= i < j < |ks| ==> ks[i] != ks[j]
  {
    if p == [] then []
    else
      var ks := KeysOf(p[..|p| - 1]);
      if p[|p| - 1].0 in ks then ks else ks + [p[|p| - 1].0]
  }

  /** A key is a group exactly when some row has it, and then its group has a salary. */
  lemma {:induction false} KeyMembership<K>(p: seq<(K, int)>, k: K)
    ensures k in KeysOf(p) <==> exists i :: 0 <= i < |p| && p[i].0 == k
    ensures k in KeysOf(p) <==> SalariesOf(p, k) != []
  {
    if p != [] {
      var n := |p| - 1;
      KeyMembership(p[..n], k);
      if exists i :: 0 <= i < n && p[..n][i].0 == k {
        var i :| 0 <= i < n && p[..n][i].0 == k;
        assert p[i].0 == k;
      }
      if exists i :: 0 <= i < |p| && p[i].0 == k {
        var i :| 0 <= i < |p| && p[i].0 == k;
        if i < n {
          assert p[..n][i].0 == k;
        }
      }
    }
  }

  /** The mean salary of the group with key `k`. */
  function GroupMean<K(==)>(p: seq<(K, int)>, k: K): real
    requires k in KeysOf(p)
  {
    KeyMembership(p, k);
    Mean(SalariesOf(p, k)).value
  }

  /**
   * The rows of `groupby(key).mean()`: each group with its mean, listed in order of first
   * appearance. `groupby` itself sorts its keys; the year and size charts restore that order by
   * sorting, and for the country chart the order here only decides ties between equal means.
   */
  function GroupMeans<K(==)>(p: seq<(K, int)>): (r: seq<(K, real)>)
    ensures |r| == |KeysOf(p)|
  {
    var ks := KeysOf(p);
    seq(|ks|, i requires 0 <= i < |ks| => (ks[i], GroupMean(p, ks[i])))
  }

  function KeyColumn<K(==), V>(r: seq<(K, V)>): (ks: seq<K>)
    ensures |ks| == |r|
  {
    seq(|r|, i requires 0 <= i < |r| => r[i].0)
  }

  predicate DistinctKeys<K(==), V>(r: seq<(K, V)>)
  {
    forall i, j :: 0 <= i < j < |r| ==> r[i].0 != r[j].0
  }

  /**
   * Every row of `r` is a group of `p` with that group's mean salary, and no group
   * appears twice.
   */
  ghost predicate GroupRows<K>(p: seq<(K, int)>, r: seq<(K, real)>)
  {
    && DistinctKeys(r)
    && forall i :: 0 <= i < |r| ==> r[i].0 in KeysOf(p) && r[i].1 == GroupMean(p, r[i].0)
  }

  /** `groupby().mean()` has exactly one row per group, holding that group's mean. */
  lemma GroupMeansRows<K>(p: seq<(K, int)>)
    ensures GroupRows(p, GroupMeans(p))
    ensures KeyColumn(GroupMeans(p)) == KeysOf(p)
  {
  }

  /** A table with distinct keys holds each (key, value) row at most once. */
  lemma {:induction false} DistinctKeysMultiplicity<K, V>(r: seq<(K, V)>, e: (K, V))
    requires DistinctKeys(r)
    ensures multiset(r)[e] <= 1
  {
    if r != [] {
      var n := |r| - 1;
      DistinctKeysMultiplicity(r[..n], e);
      assert r == r[..n] + [r[n]];
    }
  }

  /** Reordering rows keeps the keys distinct. */
  lemma DistinctKeysPermutation<K, V>(a: seq<(K, V)>, b: seq<(K, V)>)
    requires multiset(a) == multiset(b)
    requires DistinctKeys(a)
    ensures DistinctKeys(b)
  {
    forall i, j | 0 <= i < j < |b|
      ensures b[i].0 != b[j].0
    {
      assert b[i] in multiset(a) && b[j] in multiset(a);
      var x :| 0 <= x < |a| && a[x] == b[i];
      var y :| 0 <= y < |a| && a[y] == b[j];
      if b[i] == b[j] {
        assert b == b[..j] + b[j..];
        assert b[i] in b[..j] && b[j] == b[j..][0];
        assert multiset(b)[b[j]] == multiset(b[..j])[b[j]] + multiset(b[j..])[b[j]];
        DistinctKeysMultiplicity(a, b[j]);
      }
    }
  }

  /** Reordering the rows of a grouped table keeps it a grouped table over the same keys. */
  lemma GroupRowsPermutation<K>(p: seq<(K, int)>, a: seq<(K, real)>, b: seq<(K, real)>)
    requires multiset(a) == multiset(b)
    requires GroupRows(p, a)
    ensures GroupRows(p, b)
    ensures forall k :: k in KeyColumn(a) <==> k in KeyColumn(b)
  {
    DistinctKeysPermutation(a, b);
    forall i | 0 <= i < |b|
      ensures b[i].0 in KeysOf(p) && b[i].1 == GroupMean(p, b[i].0)
    {
      assert b[i] in multiset(a);
    }
    forall k ensures k in KeyColumn(a) <==> k in KeyColumn(b) {
      if k in KeyColumn(a) {
        var i :| 0 <= i < |a| && KeyColumn(a)[i] == k;
        assert a[i] in multiset(b);
        var j :| 0 <= j < |b| && b[j] == a[i];
        assert KeyColumn(b)[j] == k;
      }
      if k in KeyColumn(b) {
        var j :| 0 <= j < |b| && KeyColumn(b)[j] == k;
        assert b[j] in multiset(a);
        var i :| 0 <= i < |a| && a[i] == b[j];
        assert KeyColumn(a)[i] == k;
      }
    }
  }

  /** `head(n)`: the first `n` rows, or all of them when there are fewer. */
  function Head<T>(s: seq<T>, n: nat): (r: seq<T>)
    ensures |r| == if |s| <= n then |s| else n
    ensures r == s[..|r|]
  {
    if |s| <= n then s else s[..n]
  }

  /** The salaries grouped under `k` are the salaries of the rows whose key is `k`, in row order. */
  lemma {:induction false} PairsGroup<R, K>(rows: seq<R>, key: R -> Option<K>, value: R -> int, k: K)
    ensures SalariesOf(Pairs(rows, key, value), k) == Column(Select(rows, HasKey(key, k)), value)
  {
    if rows != [] {
      var n := |rows| - 1;
      var front, last := rows[..n], rows[n];
      PairsGroup(front, key, value, k);
      var p := Pairs(front, key, value);
      var sel := Select(front, HasKey(key, k));
      if key(last).Some? {
        var e := (key(last).value, value(last));
        assert Pairs(rows, key, value) == p + [e];
        assert (p + [e])[..|p|] == p;
        assert SalariesOf(p + [e], k) == SalariesOf(p, k) + (if e.0 == k then [e.1] else []);
      } else {
        assert Pairs(rows, key, value) == p;
      }
      if HasKey(key, k)(last) {
        assert Select(rows, HasKey(key, k)) == sel + [last];
        assert (sel + [last])[..|sel|] == sel;
        assert Column(sel + [last], value) == Column(sel, value) + [value(last)];
      } else {
        assert Select(rows, HasKey(key, k)) == sel;
      }
    }
  }

  /** The groups are exactly the keys that some row has. */
  lemma PairsKeys<R, K>(rows: seq<R>, key: R -> Option<K>, value: R -> int, k: K)
    ensures k in KeysOf(Pairs(rows, key, value)) <==> exists i :: 0 <= i < |rows| && key(rows[i]) == Some(k)
  {
    var sel := Select(rows, HasKey(key, k));
    KeyMembership(Pairs(rows, key, value), k);
    PairsGroup(rows, key, value, k);
    if exists i :: 0 <= i < |rows| && key(rows[i]) == Some(k) {
      var i :| 0 <= i < |rows| && key(rows[i]) == Some(k);
      SelectMembership(rows, HasKey(key, k), rows[i]);
    }
    if sel != [] {
      SelectMembership(rows, HasKey(key, k), sel[0]);
    }
  }

  /** The mean of the group `k` is the mean salary of the rows whose key is `k`. */
  lemma PairsMean<R, K>(rows: seq<R>, key: R -> Option<K>, value: R -> int, k: K)
    requires k in KeysOf(Pairs(rows, key, value))
    ensures Mean(Column(Select(rows, HasKey(key, k)), value)) == Some(GroupMean(Pairs(rows, key, value), k))
  {
    PairsGroup(rows, key, value, k);
    KeyMembership(Pairs(rows, key, value), k);
  }

  /** Sorting the groups by any rank keeps one row per group, with its mean. */
  lemma SortedGroupRows<K>(p: seq<(K, int)>, rank: ((K, real)) -> real)
    ensures GroupRows(p, SortBy(GroupMeans(p), rank))
    ensures forall k :: k in KeyColumn(SortBy(GroupMeans(p), rank)) <==> k in KeysOf(p)
  {
    GroupMeansRows(p);
    GroupRowsPermutation(p, GroupMeans(p), SortBy(GroupMeans(p), rank));
  }
}
