/**
 * Boolean-mask selection `df[mask]`: the rows for which a predicate holds, unchanged and in
 * their original order. Every filter of the dashboard is one of these.
 */
module Selection {

  function Select<R>(t: seq<R>, keep: R -> bool): (r: seq<R>)
    ensures |r| <= |t|
  {
    if t == [] then []
    else Select(t[..|t| - 1], keep) + (if keep(t[|t| - 1]) then [t[|t| - 1]] else [])
  }

  /** `r` is the subsequence of `t` at the strictly increasing positions `idx`. */
  ghost predicate SubsequenceAt<R>(r: seq<R>, t: seq<R>, idx: seq<int>)
  {
    && |idx| == |r|
    && (forall k :: 0 <= k < |idx| ==> 0 <= idx[k] < |t| && r[k] == t[idx[k]])
    && (forall k, l :: 0 <= k < l < |idx| ==> idx[k] < idx[l])
  }

  /** The positions of `t` whose row satisfies `keep`, in increasing order. */
  function KeptIndices<R>(t: seq<R>, keep: R -> bool): seq<int>
  {
    if t == [] then []
    else KeptIndices(t[..|t| - 1], keep) + (if keep(t[|t| - 1]) then [|t| - 1] else [])
  }

  /** The selection is the subsequence of `t` at exactly the positions whose row satisfies `keep`. */
  lemma {:induction false} SelectKeepsOrder<R>(t: seq<R>, keep: R -> bool)
    ensures SubsequenceAt(Select(t, keep), t, KeptIndices(t, keep))
    ensures forall i :: 0 <= i < |t| ==> (i in KeptIndices(t, keep) <==> keep(t[i]))
  {
    if t != [] {
      var n := |t| - 1;
      var front := t[..n];
      SelectKeepsOrder(front, keep);
      var idx0, r0 := KeptIndices(front, keep), Select(front, keep);
      var idx, r := KeptIndices(t, keep), Select(t, keep);
      if keep(t[n]) {
        assert idx == idx0 + [n] && r == r0 + [t[n]];
      } else {
        assert idx == idx0 && r == r0;
      }
      assert forall k :: 0 <= k < |idx0| ==> idx[k] == idx0[k] && r[k] == r0[k] && t[idx0[k]] == front[idx0[k]];
      forall i | 0 <= i < |t|
        ensures i in idx <==> keep(t[i])
      {
        if i < n {
          assert front[i] == t[i];
          assert i in idx <==> i in idx0;
        }
      }
    }
  }

  /** How many copies of a row the selection holds. */
  lemma {:induction false} SelectMultiplicity<R>(t: seq<R>, keep: R -> bool, x: R)
    ensures multiset(Select(t, keep))[x] == if keep(x) then multiset(t)[x] else 0
  {
    if t != [] {
      var n := |t| - 1;
      SelectMultiplicity(t[..n], keep, x);
      assert t == t[..n] + [t[n]];
    }
  }

  /** Selecting from a permutation of `t` gives a permutation of the selection from `t`. */
  lemma SelectRespectsPermutation<R>(a: seq<R>, b: seq<R>, keep: R -> bool)
    requires multiset(a) == multiset(b)
    ensures multiset(Select(a, keep)) == multiset(Select(b, keep))
    ensures |Select(a, keep)| == |Select(b, keep)|
  {
    var sa, sb := Select(a, keep), Select(b, keep);
    forall x ensures multiset(sa)[x] == multiset(sb)[x] {
      SelectMultiplicity(a, keep, x);
      SelectMultiplicity(b, keep, x);
    }
    MultisetExt(multiset(sa), multiset(sb));
    assert |multiset(sa)| == |multiset(sb)|;
  }

  /** Multisets with the same multiplicities are equal. */
  lemma MultisetExt<R>(a: multiset<R>, b: multiset<R>)
    requires forall x :: a[x] == b[x]
    ensures a == b
  {}

  /** A row is in the selection exactly when it is in the table and passes the mask. */
  lemma SelectMembership<R>(t: seq<R>, keep: R -> bool, x: R)
    ensures x in Select(t, keep) <==> x in t && keep(x)
  {
    SelectMultiplicity(t, keep, x);
  }

  /** `SelectMembership` for every row at once. */
  lemma SelectMembers<R>(t: seq<R>, keep: R -> bool)
    ensures forall x :: x in Select(t, keep) <==> x in t && keep(x)
  {
    forall x ensures x in Select(t, keep) <==> x in t && keep(x) {
      SelectMembership(t, keep, x);
    }
  }

  lemma {:induction false} SelectConcat<R>(a: seq<R>, b: seq<R>, keep: R -> bool)
    ensures Select(a + b, keep) == Select(a, keep) + Select(b, keep)
  {
    if b != [] {
      var n := |b| - 1;
      SelectConcat(a, b[..n], keep);
      assert (a + b)[..|a + b| - 1] == a + b[..n];
    } else {
      assert a + b == a;
    }
  }

  /** Two masks that agree on every row select the same rows. */
  lemma {:induction false} SelectSameMask<R>(t: seq<R>, p: R -> bool, q: R -> bool)
    requires forall i :: 0 <= i < |t| ==> p(t[i]) == q(t[i])
    ensures Select(t, p) == Select(t, q)
  {
    if t != [] {
      var n := |t| - 1;
      SelectSameMask(t[..n], p, q);
    }
  }

  /** Selecting with `q` from the selection with `p` is selecting with the conjunction. */
  lemma {:induction false} SelectOfSelect<R>(t: seq<R>, p: R -> bool, q: R -> bool, both: R -> bool)
    requires forall x :: both(x) == (p(x) && q(x))
    ensures Select(Select(t, p), q) == Select(t, both)
  {
    if t != [] {
      var n := |t| - 1;
      SelectOfSelect(t[..n], p, q, both);
      SelectConcat(Select(t[..n], p), if p(t[n]) then [t[n]] else [], q);
    }
  }

  /** A mask that every row passes keeps the whole table. */
  lemma {:induction false} SelectAll<R>(t: seq<R>, keep: R -> bool)
    requires forall i :: 0 <= i < |t| ==> keep(t[i])
    ensures Select(t, keep) == t
  {
    if t != [] {
      var n := |t| - 1;
      SelectAll(t[..n], keep);
      assert t == t[..n] + [t[n]];
    }
  }

  /** A mask that no row passes keeps nothing. */
  lemma {:induction false} SelectNone<R>(t: seq<R>, keep: R -> bool)
    requires forall i :: 0 <= i < |t| ==> !keep(t[i])
    ensures Select(t, keep) == []
  {
    if t != [] {
      SelectNone(t[..|t| - 1], keep);
    }
  }

  /** Three masks such that every row passes exactly one split the table into three parts. */
  lemma SelectPartition<R>(t: seq<R>, p: R -> bool, q: R -> bool, s: R -> bool)
    requires forall i :: 0 <= i < |t| ==> (p(t[i]) || q(t[i]) || s(t[i]))
    requires forall i :: 0 <= i < |t| ==> !(p(t[i]) && q(t[i])) && !(p(t[i]) && s(t[i])) && !(q(t[i]) && s(t[i]))
    ensures multiset(Select(t, p)) + multiset(Select(t, q)) + multiset(Select(t, s)) == multiset(t)
    ensures |Select(t, p)| + |Select(t, q)| + |Select(t, s)| == |t|
  {
    var a, b, c := Select(t, p), Select(t, q), Select(t, s);
    var parts := multiset(a) + multiset(b) + multiset(c);
    forall x ensures parts[x] == multiset(t)[x] {
      SelectMultiplicity(t, p, x);
      SelectMultiplicity(t, q, x);
      SelectMultiplicity(t, s, x);
      if x in t {
        var i :| 0 <= i < |t| && t[i] == x;
      }
    }
    MultisetExt(parts, multiset(t));
    assert |parts| == |t|;
  }
}
