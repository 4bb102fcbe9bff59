/**
 * Sequence operations that the portal's list views are built from:
 * JavaScript's stable `Array.prototype.filter`, and the iteration order of
 * `[...new Set(xs)]` (distinct elements, in order of first occurrence).
 */
module Seqs {

  /** `idx` lists strictly increasing positions of `s` at which the elements of `r` sit. */
  ghost predicate Embeds<T>(r: seq<T>, s: seq<T>, idx: seq<nat>)
  {
    && |idx| == |r|
    && (forall k :: 0 <= k < |idx| ==> idx[k] < |s| && r[k] == s[idx[k]])
    && (forall k, l :: 0 <= k < l < |idx| ==> idx[k] < idx[l])
  }

  /** `r` is `s` with some elements dropped and the rest kept in their original order. */
  ghost predicate IsSubsequence<T>(r: seq<T>, s: seq<T>)
  {
    exists idx :: Embeds(r, s, idx)
  }

  /** The elements of `s` that satisfy `p`, in their original order. */
  function Filter<T(==,!new)>(s: seq<T>, p: T -> bool): (r: seq<T>)
    ensures |r| <= |s|
    ensures forall i :: 0 <= i < |r| ==> p(r[i])
    ensures forall x :: x in r <==> x in s && p(x)
    decreases |s|
  {
    if s == [] then []
    else if p(s[0]) then [s[0]] + Filter(s[1..], p)
    else Filter(s[1..], p)
  }

  /** Every position moved one place to the right. */
  function Shift(idx: seq<nat>): (r: seq<nat>)
    ensures |r| == |idx| && forall k :: 0 <= k < |idx| ==> r[k] == idx[k] + 1
  {
    seq(|idx|, k requires 0 <= k < |idx| => idx[k] + 1)
  }

  /** An embedding into the tail of `s` is, shifted by one, an embedding into `s`. */
  lemma EmbedsInTail<T>(r: seq<T>, s: seq<T>, idx: seq<nat>)
    requires s != [] && Embeds(r, s[1..], idx)
    ensures Embeds(r, s, Shift(idx))
  {
    forall k | 0 <= k < |idx| ensures Shift(idx)[k] < |s| && r[k] == s[Shift(idx)[k]] {
      assert s[1..][idx[k]] == s[idx[k] + 1];
    }
  }

  /** Placing `s[0]` first extends an embedding into the tail of `s` to one into `s`. */
  lemma EmbedsWithHead<T>(r: seq<T>, s: seq<T>, idx: seq<nat>)
    requires s != [] && Embeds(r, s[1..], idx)
    ensures Embeds([s[0]] + r, s, [0] + Shift(idx))
  {
    EmbedsInTail(r, s, idx);
    var idx' := [0] + Shift(idx);
    forall k | 0 <= k < |idx'| ensures idx'[k] < |s| && ([s[0]] + r)[k] == s[idx'[k]] {
      if k > 0 { assert idx'[k] == Shift(idx)[k - 1]; }
    }
  }

  /** A filter never re-sorts: its result is an order-preserving subsequence of its input. */
  lemma {:induction false} FilterIsSubsequence<T(!new)>(s: seq<T>, p: T -> bool)
    ensures IsSubsequence(Filter(s, p), s)
    decreases |s|
  {
    if s == [] {
      assert Embeds<T>([], s, []);
    } else {
      var tail := Filter(s[1..], p);
      FilterIsSubsequence(s[1..], p);
      var idx :| Embeds(tail, s[1..], idx);
      if p(s[0]) {
        EmbedsWithHead(tail, s, idx);
        assert Filter(s, p) == [s[0]] + tail;
      } else {
        EmbedsInTail(tail, s, idx);
        assert Filter(s, p) == tail;
      }
    }
  }

  /** When every element passes, the sequence is kept as it is. */
  lemma {:induction false} FilterAllPass<T(!new)>(s: seq<T>, p: T -> bool)
    requires forall i :: 0 <= i < |s| ==> p(s[i])
    ensures Filter(s, p) == s
    decreases |s|
  {
    if s != [] {
      var tail := s[1..];
      forall i | 0 <= i < |tail| ensures p(tail[i]) {
        assert tail[i] == s[i + 1];
      }
      FilterAllPass(tail, p);
      assert s == [s[0]] + tail;
    }
  }

  /** Keeping every element leaves the sequence unchanged, and only then. */
  lemma FilterKeepsAll<T(!new)>(s: seq<T>, p: T -> bool)
    ensures Filter(s, p) == s <==> forall i :: 0 <= i < |s| ==> p(s[i])
  {
    if forall i :: 0 <= i < |s| ==> p(s[i]) {
      FilterAllPass(s, p);
    }
  }

  /** Filters by two tests that agree everywhere give the same result. */
  lemma {:induction false} FilterSameTest<T(!new)>(s: seq<T>, p: T -> bool, q: T -> bool)
    requires forall x :: p(x) == q(x)
    ensures Filter(s, p) == Filter(s, q)
    decreases |s|
  {
    if s != [] {
      FilterSameTest(s[1..], p, q);
    }
  }

  /** Two filters applied one after the other are one filter by the conjunction. */
  lemma {:induction false} FilterFuse<T(!new)>(s: seq<T>, p: T -> bool, q: T -> bool, both: T -> bool)
    requires forall x :: both(x) == (p(x) && q(x))
    ensures Filter(Filter(s, p), q) == Filter(s, both)
    decreases |s|
  {
    if s != [] {
      FilterFuse(s[1..], p, q, both);
      if p(s[0]) {
        var fp := Filter(s, p);
        assert fp[0] == s[0] && fp[1..] == Filter(s[1..], p);
      }
    }
  }

  /** When no element passes, nothing is kept. */
  lemma {:induction false} FilterNone<T(!new)>(s: seq<T>, p: T -> bool)
    requires forall x :: x in s ==> !p(x)
    ensures Filter(s, p) == []
    decreases |s|
  {
    if s != [] {
      assert s[0] in s;
      FilterNone(s[1..], p);
    }
  }

  /** Filtering a concatenation filters each part. */
  lemma {:induction false} FilterAppend<T(!new)>(a: seq<T>, b: seq<T>, p: T -> bool)
    ensures Filter(a + b, p) == Filter(a, p) + Filter(b, p)
    decreases |a|
  {
    if a != [] {
      var rest := a[1..] + b;
      assert (a + b)[0] == a[0] && (a + b)[1..] == rest;
      FilterAppend(a[1..], b, p);
      if p(a[0]) {
        assert Filter(a + b, p) == [a[0]] + Filter(rest, p);
        assert Filter(a, p) == [a[0]] + Filter(a[1..], p);
      } else {
        assert Filter(a + b, p) == Filter(rest, p);
        assert Filter(a, p) == Filter(a[1..], p);
      }
    } else {
      assert a + b == b;
    }
  }

  /** A prefix is a subsequence. */
  lemma PrefixIsSubsequence<T>(s: seq<T>, n: nat)
    requires n <= |s|
    ensures IsSubsequence(s[..n], s)
  {
    var idx := seq(n, k requires 0 <= k < n => k);
    assert Embeds(s[..n], s, idx);
  }

  /** Subsequences compose. */
  lemma SubsequenceTransitive<T>(a: seq<T>, b: seq<T>, c: seq<T>)
    requires IsSubsequence(a, b) && IsSubsequence(b, c)
    ensures IsSubsequence(a, c)
  {
    var i1 :| Embeds(a, b, i1);
    var i2 :| Embeds(b, c, i2);
    var i3 := seq(|i1|, k requires 0 <= k < |i1| => i2[i1[k]]);
    assert Embeds(a, c, i3);
  }

  /** No element occurs twice. */
  ghost predicate NoDuplicates<T>(s: seq<T>)
  {
    forall i, j :: 0 <= i < j < |s| ==> s[i] != s[j]
  }

  /**
   * `r` lists elements in the order in which they first occur in `s`:
   * wherever a later element of `r` occurs in `s`, every earlier one has already occurred.
   */
  ghost predicate FirstOccurrenceOrder<T>(r: seq<T>, s: seq<T>)
  {
    forall i, j, m :: 0 <= i < j < |r| && 0 <= m < |s| && s[m] == r[j] ==> r[i] in s[..m]
  }

  /** The iteration order of `[...new Set(s)]`: each distinct element once, where it first occurs. */
  function Distinct<T(==,!new)>(s: seq<T>): (r: seq<T>)
    ensures forall x :: x in r <==> x in s
    ensures NoDuplicates(r)
    decreases |s|
  {
    if s == [] then []
    else
      var r := Distinct(s[..|s| - 1]);
      if s[|s| - 1] in r then r else r + [s[|s| - 1]]
  }

  lemma {:induction false} DistinctFirstOccurrenceOrder<T(!new)>(s: seq<T>)
    ensures FirstOccurrenceOrder(Distinct(s), s)
    decreases |s|
  {
    if s != [] {
      var n := |s|;
      var init := s[..n - 1];
      var last := s[n - 1];
      var r := Distinct(init);
      DistinctFirstOccurrenceOrder(init);
      var r' := Distinct(s);
      forall i, j, m | 0 <= i < j < |r'| && 0 <= m < n && s[m] == r'[j]
        ensures r'[i] in s[..m]
      {
        if m < n - 1 {
          assert s[m] == init[m] && init[..m] == s[..m];
          // r'[j] occurs in `init`, so it is not an appended `last`
          assert init[m] in init;
          assert j < |r|;
          assert r'[j] == r[j] && r'[i] == r[i];
        } else {
          assert s[..m] == init;
          assert i < |r| && r'[i] == r[i];
        }
      }
    }
  }
}
