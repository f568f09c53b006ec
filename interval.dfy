/** Percentile selection: after `res` is sorted, the bounds are read at
      lowerIndex = (int)(((100 - CI) / 2.0 / 100) * B)
      upperIndex = (int)(((100 - (100 - CI) / 2.0) / 100) * B)
    In exact arithmetic these are (100 - CI) * B / 200 and (100 + CI) * B / 200, and the
    C++ conversion to `int` truncates toward zero. Nothing clamps or validates the indices. */
module IntervalEstimator {
  import opened Sorting

  /** Division by a positive divisor, truncating toward zero as a C++ `(int)` cast does. */
  function TruncDiv(a: int, d: int): int
    requires d > 0
  {
    if a >= 0 then a / d else -((-a) / d)
  }

  /** The position of the lower bound among `b` sorted trial results. */
  function LowerIndex(ci: int, b: nat): int
  {
    TruncDiv((100 - ci) * b, 200)
  }

  /** The position of the upper bound among `b` sorted trial results. */
  function UpperIndex(ci: int, b: nat): int
  {
    TruncDiv((100 + ci) * b, 200)
  }

  /** Both reads `res[lowerIndex]` and `res[upperIndex]` fall inside a vector of size `b`. */
  predicate ReadsInBounds(ci: int, b: nat)
  {
    0 <= LowerIndex(ci, b) < b && 0 <= UpperIndex(ci, b) < b
  }

  /** The reads are legal exactly when there is at least one trial and -100 < CI < 100.
      In particular CI = 100 (and any larger value) runs off the end. */
  lemma InBoundsCharacterised(ci: int, b: nat)
    ensures ReadsInBounds(ci, b) <==> b >= 1 && -100 < ci < 100
  {
    var lo, hi := (100 - ci) * b, (100 + ci) * b;
    if b >= 1 && -100 < ci < 100 {
      assert 0 < lo < 200 * b by { MulMonotone(1, 100 - ci, b); MulMonotone(101 - ci, 200, b); }
      assert 0 < hi < 200 * b by { MulMonotone(1, 100 + ci, b); MulMonotone(101 + ci, 200, b); }
    } else if b >= 1 && ci >= 100 {
      assert hi >= 200 * b by { MulMonotone(200, 100 + ci, b); }
    } else if b >= 1 {
      assert lo >= 200 * b by { MulMonotone(200, 100 - ci, b); }
    }
  }

  /** Multiplying by a non-negative factor keeps the order. */
  lemma MulMonotone(x: int, y: int, b: int)
    requires x <= y && b >= 0
    ensures x * b <= y * b
  {
    assert y * b - x * b == (y - x) * b;
  }

  /** With a non-negative CI the lower index never exceeds the upper index. */
  lemma IndicesOrdered(ci: int, b: nat)
    requires 0 <= ci
    ensures LowerIndex(ci, b) <= UpperIndex(ci, b)
  {
    ScaledIndexMonotone(100 - ci, 100 + ci, b);
  }

  /** A single trial gives a degenerate interval: both indices are 0. */
  lemma SingleTrialDegenerate(ci: int)
    requires -100 < ci < 100
    ensures LowerIndex(ci, 1) == 0 && UpperIndex(ci, 1) == 0
  {
  }

  /** CI = 100 puts the upper index one past the last trial. */
  lemma FullConfidenceOverruns(b: nat)
    ensures UpperIndex(100, b) == b
  {
  }

  /** Raising CI never raises the lower index and never lowers the upper index. */
  lemma WidensWithConfidence(ci1: int, ci2: int, b: nat)
    requires ci1 <= ci2
    ensures LowerIndex(ci2, b) <= LowerIndex(ci1, b)
    ensures UpperIndex(ci1, b) <= UpperIndex(ci2, b)
  {
    ScaledIndexMonotone(100 - ci2, 100 - ci1, b);
    ScaledIndexMonotone(100 + ci1, 100 + ci2, b);
  }

  /** Scaling by the trial count and truncating keeps the order of the percentages. */
  lemma ScaledIndexMonotone(x: int, y: int, b: nat)
    requires x <= y
    ensures TruncDiv(x * b, 200) <= TruncDiv(y * b, 200)
  {
    assert y * b - x * b == (y - x) * b;
  }

  /** On sorted results, the interval for a higher CI contains the interval for a lower one. */
  lemma IntervalsNest(res: seq<real>, ci1: int, ci2: int)
    requires Sorted(res)
    requires 0 <= ci1 <= ci2 < 100 && |res| >= 1
    ensures ReadsInBounds(ci1, |res|) && ReadsInBounds(ci2, |res|)
    ensures res[LowerIndex(ci2, |res|)] <= res[LowerIndex(ci1, |res|)]
    ensures res[UpperIndex(ci1, |res|)] <= res[UpperIndex(ci2, |res|)]
    ensures res[UpperIndex(ci1, |res|)] - res[LowerIndex(ci1, |res|)]
         <= res[UpperIndex(ci2, |res|)] - res[LowerIndex(ci2, |res|)]
  {
    InBoundsCharacterised(ci1, |res|);
    InBoundsCharacterised(ci2, |res|);
    WidensWithConfidence(ci1, ci2, |res|);
  }
}
