/** The two reductions of a sample: `sumAllElements` and `average`, over exact reals.
    Both are `std::accumulate` from 0.0, which adds the elements left to right. */
module Stats {

  /** Sum of `s`, accumulated left to right from 0.0. */
  function SumAllElements(s: seq<real>): real
  {
    if |s| == 0 then 0.0 else SumAllElements(s[..|s| - 1]) + s[|s| - 1]
  }

  /** Arithmetic mean; the source divides by `size()` unguarded, so an empty sample is excluded. */
  function Average(s: seq<real>): real
    requires |s| >= 1
  {
    SumAllElements(s) / (|s| as real)
  }

  /** Every element of `s` lies in the closed range [lo, hi]. */
  predicate AllWithin(s: seq<real>, lo: real, hi: real)
  {
    forall i :: 0 <= i < |s| ==> lo <= s[i] <= hi
  }

  /** Summing a concatenation is summing its parts. */
  lemma {:induction false} SumAppend(a: seq<real>, b: seq<real>)
    ensures SumAllElements(a + b) == SumAllElements(a) + SumAllElements(b)
  {
    if |b| == 0 {
      assert a + b == a;
    } else {
      assert (a + b)[..|a + b| - 1] == a + b[..|b| - 1];
      SumAppend(a, b[..|b| - 1]);
    }
  }

  /** The sum depends only on the multiset of values, not on their order. */
  lemma {:induction false} SumPermutation(a: seq<real>, b: seq<real>)
    requires multiset(a) == multiset(b)
    ensures SumAllElements(a) == SumAllElements(b)
  {
    if |a| == 0 {
      assert |b| == |multiset(b)| == 0;
    } else {
      var x := a[|a| - 1];
      var front := a[..|a| - 1];
      assert a == front + [x];
      assert x in multiset(b);
      var k :| 0 <= k < |b| && b[k] == x;
      var rest := b[..k] + b[k + 1..];
      assert b == b[..k] + [x] + b[k + 1..];
      assert multiset(b) == multiset(b[..k]) + multiset{x} + multiset(b[k + 1..]);
      assert multiset(rest) == multiset(b[..k]) + multiset(b[k + 1..]);
      assert multiset(a) == multiset(front) + multiset{x};
      assert multiset(front) == multiset(a) - multiset{x};
      assert multiset(rest) == multiset(b) - multiset{x};
      SumPermutation(front, rest);
      SumAppend(front, [x]);
      SumAppend(b[..k] + [x], b[k + 1..]);
      SumAppend(b[..k], [x]);
      SumAppend(b[..k], b[k + 1..]);
    }
  }

  /** The mean depends only on the multiset of values. */
  lemma AveragePermutation(a: seq<real>, b: seq<real>)
    requires |a| >= 1 && multiset(a) == multiset(b)
    ensures |b| == |a| && Average(a) == Average(b)
  {
    assert |a| == |multiset(a)| == |multiset(b)| == |b|;
    SumPermutation(a, b);
  }

  /** A sum of values in [lo, hi] lies between |s|*lo and |s|*hi. */
  lemma {:induction false} SumWithin(s: seq<real>, lo: real, hi: real)
    requires AllWithin(s, lo, hi)
    ensures (|s| as real) * lo <= SumAllElements(s) <= (|s| as real) * hi
  {
    if |s| > 0 {
      var n := |s| - 1;
      assert AllWithin(s[..n], lo, hi);
      SumWithin(s[..n], lo, hi);
      assert lo <= s[n] <= hi;
      assert (|s| as real) * lo == (n as real) * lo + lo;
      assert (|s| as real) * hi == (n as real) * hi + hi;
    }
  }

  /** The mean of values in [lo, hi] lies in [lo, hi]. */
  lemma AverageWithin(s: seq<real>, lo: real, hi: real)
    requires |s| >= 1 && AllWithin(s, lo, hi)
    ensures lo <= Average(s) <= hi
  {
    SumWithin(s, lo, hi);
    var n := |s| as real;
    assert Average(s) * n == SumAllElements(s);
  }

  /** The mean of [1, 2, 3, 4, 5] is exactly 3. */
  lemma AverageOfOneToFive()
    ensures Average([1.0, 2.0, 3.0, 4.0, 5.0]) == 3.0
  {
    var s := [1.0, 2.0, 3.0, 4.0, 5.0];
    assert [1.0][..0] == [];
    assert SumAllElements([1.0]) == 1.0;
    assert [1.0, 2.0][..1] == [1.0];
    assert SumAllElements([1.0, 2.0]) == 3.0;
    assert [1.0, 2.0, 3.0][..2] == [1.0, 2.0];
    assert SumAllElements([1.0, 2.0, 3.0]) == 6.0;
    assert [1.0, 2.0, 3.0, 4.0][..3] == [1.0, 2.0, 3.0];
    assert SumAllElements([1.0, 2.0, 3.0, 4.0]) == 10.0;
    assert s[..4] == [1.0, 2.0, 3.0, 4.0];
    assert SumAllElements(s) == 15.0;
  }
}
