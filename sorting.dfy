/** The ascending sort applied to the trial results (`std::sort` with the default `<`).
    The library routine is specified here by what it guarantees: the result is ascending and
    is a permutation of its input. `Sort` is an insertion sort that meets that contract. */
module Sorting {
  import opened Stats

  /** Ascending order. */
  predicate Sorted(s: seq<real>)
  {
    forall i, j :: 0 <= i < j < |s| ==> s[i] <= s[j]
  }

  /** Inserts `x` into an ascending sequence, keeping it ascending. */
  function Insert(x: real, s: seq<real>): (r: seq<real>)
    requires Sorted(s)
    ensures |r| == |s| + 1
    ensures Sorted(r)
    ensures multiset(r) == multiset(s) + multiset{x}
  {
    if |s| == 0 || x <= s[0] then [x] + s
    else
      var tail := Insert(x, s[1..]);
      assert s == [s[0]] + s[1..];
      BelowAll(s[0], s[1..], x, tail);
      [s[0]] + tail
  }

  /** A lower bound of `s` and of `x` is a lower bound of any arrangement of `s` plus `x`. */
  lemma BelowAll(y: real, s: seq<real>, x: real, r: seq<real>)
    requires forall k :: 0 <= k < |s| ==> y <= s[k]
    requires y <= x
    requires multiset(r) == multiset(s) + multiset{x}
    ensures forall k :: 0 <= k < |r| ==> y <= r[k]
  {
    forall k | 0 <= k < |r|
      ensures y <= r[k]
    {
      assert r[k] in multiset(r);
    }
  }

  /** An ascending permutation of `s`. */
  function Sort(s: seq<real>): (r: seq<real>)
    ensures |r| == |s|
    ensures Sorted(r)
    ensures multiset(r) == multiset(s)
  {
    if |s| == 0 then []
    else
      assert s == [s[0]] + s[1..];
      Insert(s[0], Sort(s[1..]))
  }

  /** The head of an ascending sequence is at most each of its values. */
  lemma HeadIsLeast(s: seq<real>, x: real)
    requires Sorted(s) && x in multiset(s)
    ensures |s| >= 1 && s[0] <= x
  {
    var i :| 0 <= i < |s| && s[i] == x;
    assert i == 0 || s[0] <= s[i];
  }

  /** Removing the head of a sequence removes one copy of it from the multiset. */
  lemma TailMultiset(s: seq<real>)
    requires |s| >= 1
    ensures multiset(s[1..]) == multiset(s) - multiset{s[0]}
  {
    assert s == [s[0]] + s[1..];
  }

  /** Dropping the head keeps a sequence ascending. */
  lemma SortedTail(s: seq<real>)
    requires Sorted(s) && |s| >= 1
    ensures Sorted(s[1..])
  {
    forall i, j | 0 <= i < j < |s| - 1
      ensures s[1..][i] <= s[1..][j]
    {
      assert s[1..][i] == s[i + 1] && s[1..][j] == s[j + 1];
    }
  }

  /** There is only one ascending arrangement of a multiset of values. */
  lemma {:induction false} SortedUnique(a: seq<real>, b: seq<real>)
    requires Sorted(a) && Sorted(b)
    requires multiset(a) == multiset(b)
    ensures a == b
  {
    if |a| == 0 {
      assert |b| == |multiset(b)| == 0;
    } else {
      assert a[0] in multiset(a);
      HeadIsLeast(b, a[0]);
      assert b[0] in multiset(b);
      HeadIsLeast(a, b[0]);
      assert a[0] == b[0];
      TailMultiset(a);
      TailMultiset(b);
      assert multiset(a[1..]) == multiset(b[1..]);
      SortedTail(a);
      SortedTail(b);
      SortedUnique(a[1..], b[1..]);
      assert a == [a[0]] + a[1..] && b == [b[0]] + b[1..];
    }
  }

  /** A sequence whose values lie in [lo, hi] still does so once sorted. */
  lemma SortWithin(s: seq<real>, lo: real, hi: real)
    requires AllWithin(s, lo, hi)
    ensures |Sort(s)| == |s| && AllWithin(Sort(s), lo, hi)
  {
    var r := Sort(s);
    assert |r| == |multiset(r)| == |multiset(s)| == |s|;
    forall i | 0 <= i < |r|
      ensures lo <= r[i] <= hi
    {
      assert r[i] in multiset(s);
    }
  }
}
