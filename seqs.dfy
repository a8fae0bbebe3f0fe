/**
 * The two list operations the portal's queries are made of: keeping the
 * elements that satisfy a condition (Firestore `where` clauses, Array `filter`)
 * and ordering by a numeric key, latest first (Firestore `orderBy(..., 'desc')`).
 */
module Seqs {

  /** `s.filter(p)`: the elements satisfying `p`, in their original order. */
  function Filter<T>(s: seq<T>, p: T -> bool): (r: seq<T>)
    ensures |r| <= |s|
    ensures forall i :: 0 <= i < |r| ==> p(r[i])
    decreases |s|
  {
    if s == [] then []
    else if p(s[0]) then [s[0]] + Filter(s[1..], p)
    else Filter(s[1..], p)
  }

  /** An element is kept exactly when it was there and satisfies the condition. */
  lemma {:induction false} FilterMembership<T>(s: seq<T>, p: T -> bool, x: T)
    ensures x in Filter(s, p) <==> x in s && p(x)
    decreases |s|
  {
    if s != [] {
      FilterMembership(s[1..], p, x);
      assert s == [s[0]] + s[1..];
    }
  }

  /** Two conditions that agree on every element keep the same elements. */
  lemma {:induction false} FilterExtensional<T>(s: seq<T>, p: T -> bool, q: T -> bool)
    requires forall i :: 0 <= i < |s| ==> p(s[i]) == q(s[i])
    ensures Filter(s, p) == Filter(s, q)
    decreases |s|
  {
    if s != [] {
      FilterExtensional(s[1..], p, q);
    }
  }

  /** A condition every element satisfies keeps everything. */
  lemma {:induction false} FilterAll<T>(s: seq<T>, p: T -> bool)
    requires forall i :: 0 <= i < |s| ==> p(s[i])
    ensures Filter(s, p) == s
    decreases |s|
  {
    if s != [] {
      FilterAll(s[1..], p);
      assert s == [s[0]] + s[1..];
    }
  }

  /** Each element is kept as often as it occurs when it satisfies the condition, and never otherwise. */
  lemma {:induction false} FilterCount<T>(s: seq<T>, p: T -> bool, x: T)
    ensures multiset(Filter(s, p))[x] == if p(x) then multiset(s)[x] else 0
    decreases |s|
  {
    if s != [] {
      FilterCount(s[1..], p, x);
      assert s == [s[0]] + s[1..];
    }
  }

  /** `a` is `b` with some elements removed and the rest kept in order. */
  ghost predicate IsSubsequence<T>(a: seq<T>, b: seq<T>)
    decreases |b|
  {
    if a == [] then true
    else if b == [] then false
    else (a[0] == b[0] && IsSubsequence(a[1..], b[1..])) || IsSubsequence(a, b[1..])
  }

  lemma {:induction false} FilterIsSubsequence<T>(s: seq<T>, p: T -> bool)
    ensures IsSubsequence(Filter(s, p), s)
    decreases |s|
  {
    if s != [] {
      FilterIsSubsequence(s[1..], p);
      var r := Filter(s, p);
      if p(s[0]) {
        assert r[0] == s[0] && r[1..] == Filter(s[1..], p);
      }
    }
  }

  /** Every element of a subsequence comes from the sequence, at a position no earlier. */
  lemma {:induction false} SubsequenceMembers<T>(a: seq<T>, b: seq<T>, i: nat)
    requires IsSubsequence(a, b) && i < |a|
    ensures |a| <= |b|
    ensures exists j :: i <= j < |b| && a[i] == b[j]
    decreases |b|
  {
    assert b != [];
    if a[0] == b[0] && IsSubsequence(a[1..], b[1..]) {
      if i > 0 {
        SubsequenceMembers(a[1..], b[1..], i - 1);
        var j :| i - 1 <= j < |b[1..]| && a[1..][i - 1] == b[1..][j];
        assert a[i] == b[j + 1];
      } else if |a| > 1 {
        SubsequenceMembers(a[1..], b[1..], 0);
      }
    } else {
      SubsequenceMembers(a, b[1..], i);
      var j :| i <= j < |b[1..]| && a[i] == b[1..][j];
      assert a[i] == b[j + 1];
    }
  }

  // ---------------------------------------------------------------------------
  // Ordering by a key, largest first

  /** Non-increasing in `key`: what `orderBy(field, 'desc')` delivers. */
  predicate SortedDesc<T>(s: seq<T>, key: T -> int) {
    forall i, j :: 0 <= i < j < |s| ==> key(s[i]) >= key(s[j])
  }

  function Insert<T>(x: T, s: seq<T>, key: T -> int): (r: seq<T>)
    ensures |r| == |s| + 1
    decreases |s|
  {
    if s == [] || key(x) >= key(s[0]) then [x] + s
    else [s[0]] + Insert(x, s[1..], key)
  }

  /** Insertion sort, latest (largest key) first. */
  function SortDesc<T>(s: seq<T>, key: T -> int): (r: seq<T>)
    ensures |r| == |s|
    decreases |s|
  {
    if s == [] then [] else Insert(s[0], SortDesc(s[1..], key), key)
  }

  lemma {:induction false} InsertPermutes<T>(x: T, s: seq<T>, key: T -> int)
    ensures multiset(Insert(x, s, key)) == multiset(s) + multiset{x}
    decreases |s|
  {
    if !(s == [] || key(x) >= key(s[0])) {
      InsertPermutes(x, s[1..], key);
      assert s == [s[0]] + s[1..];
    }
  }

  lemma {:induction false} InsertSorted<T>(x: T, s: seq<T>, key: T -> int)
    requires SortedDesc(s, key)
    ensures SortedDesc(Insert(x, s, key), key)
    ensures forall i :: 0 <= i < |Insert(x, s, key)| ==>
              key(Insert(x, s, key)[i]) == key(x) || exists j :: 0 <= j < |s| && key(Insert(x, s, key)[i]) == key(s[j])
    decreases |s|
  {
    var r := Insert(x, s, key);
    if s == [] || key(x) >= key(s[0]) {
      forall i | 0 <= i < |r| ensures key(r[i]) == key(x) || exists j :: 0 <= j < |s| && key(r[i]) == key(s[j]) {
        if i > 0 { assert r[i] == s[i - 1]; }
      }
    } else {
      var t := s[1..];
      InsertSorted(x, t, key);
      var rt := Insert(x, t, key);
      assert r == [s[0]] + rt;
      forall i | 0 <= i < |rt| ensures key(s[0]) >= key(rt[i]) {
        if key(rt[i]) != key(x) {
          var j :| 0 <= j < |t| && key(rt[i]) == key(t[j]);
          assert t[j] == s[j + 1];
        }
      }
      forall i | 0 <= i < |r| ensures key(r[i]) == key(x) || exists j :: 0 <= j < |s| && key(r[i]) == key(s[j]) {
        if i == 0 {
          assert key(r[0]) == key(s[0]);
        } else if key(r[i]) != key(x) {
          assert r[i] == rt[i - 1];
          var j :| 0 <= j < |t| && key(rt[i - 1]) == key(t[j]);
          assert key(r[i]) == key(s[j + 1]);
        }
      }
    }
  }

  /** The sorted sequence is ordered latest first ... */
  lemma {:induction false} SortDescSorted<T>(s: seq<T>, key: T -> int)
    ensures SortedDesc(SortDesc(s, key), key)
    decreases |s|
  {
    if s != [] {
      SortDescSorted(s[1..], key);
      InsertSorted(s[0], SortDesc(s[1..], key), key);
    }
  }

  /** ... and holds exactly the same elements, with the same multiplicities. */
  lemma {:induction false} SortDescPermutes<T>(s: seq<T>, key: T -> int)
    ensures multiset(SortDesc(s, key)) == multiset(s)
    decreases |s|
  {
    if s != [] {
      SortDescPermutes(s[1..], key);
      InsertPermutes(s[0], SortDesc(s[1..], key), key);
      assert s == [s[0]] + s[1..];
    }
  }

  lemma SortDescMembership<T>(s: seq<T>, key: T -> int, x: T)
    ensures x in SortDesc(s, key) <==> x in s
  {
    SortDescPermutes(s, key);
    assert x in SortDesc(s, key) <==> x in multiset(SortDesc(s, key));
    assert x in s <==> x in multiset(s);
  }

  /** Removing elements from an ordered sequence keeps it ordered. */
  lemma SubsequenceSorted<T>(a: seq<T>, b: seq<T>, key: T -> int)
    requires IsSubsequence(a, b) && SortedDesc(b, key)
    ensures SortedDesc(a, key)
  {
    forall i, j | 0 <= i < j < |a| ensures key(a[i]) >= key(a[j]) {
      SubsequenceIndices(a, b, i, j);
    }
  }

  lemma {:induction false} SubsequenceIndices<T>(a: seq<T>, b: seq<T>, i: nat, j: nat)
    requires IsSubsequence(a, b) && i < j < |a|
    ensures exists bi, bj :: 0 <= bi < bj < |b| && a[i] == b[bi] && a[j] == b[bj]
    decreases |b|
  {
    if a[0] == b[0] && IsSubsequence(a[1..], b[1..]) {
      if i == 0 {
        SubsequenceMembers(a[1..], b[1..], j - 1);
        var bj :| j - 1 <= bj < |b[1..]| && a[1..][j - 1] == b[1..][bj];
        assert a[j] == b[bj + 1];
      } else {
        SubsequenceIndices(a[1..], b[1..], i - 1, j - 1);
        var bi, bj :| 0 <= bi < bj < |b[1..]| && a[1..][i - 1] == b[1..][bi] && a[1..][j - 1] == b[1..][bj];
        assert a[i] == b[bi + 1] && a[j] == b[bj + 1];
      }
    } else {
      SubsequenceIndices(a, b[1..], i, j);
      var bi, bj :| 0 <= bi < bj < |b[1..]| && a[i] == b[1..][bi] && a[j] == b[1..][bj];
      assert a[i] == b[bi + 1] && a[j] == b[bj + 1];
    }
  }
}
