/** `bootstrapCI` as a whole: run the B trials, merge the workers' buffers, sort, read the two
    percentile bounds and the two means. The console output becomes the returned report. */
module Bootstrap {
  import opened Stats
  import opened Sorting
  import opened Resampler
  import opened TrialAggregator
  import opened IntervalEstimator

  /** What `bootstrapCI` reports: the interval and the means of the sample and of the trials. */
  datatype Report = Report(lowerBound: real, upperBound: real, originalMean: real, bootstrappedMean: real)

  /** The report depends only on the sample, the draws, B and CI: not on how the iterations were
      shared among workers nor on the order of the critical sections. Line 72 reads `res` at both
      indices unchecked, so the call is legal only for -100 < CI < 100 and B >= 1. */
  method BootstrapCI(scores: seq<real>, b: int, ci: int, draws: seq<seq<int>>, chunks: seq<seq<int>>)
    returns (report: Report)
    requires |scores| >= 1
    requires b >= 1 && |draws| == b && AllDrawsValid(draws, |scores|)
    requires IsPartition(chunks, b)
    requires -100 < ci < 100
    ensures ReadsInBounds(ci, b)
    ensures report.lowerBound == Sort(TrialMeans(scores, draws))[LowerIndex(ci, b)]
    ensures report.upperBound == Sort(TrialMeans(scores, draws))[UpperIndex(ci, b)]
    ensures report.originalMean == Average(scores)
    ensures report.bootstrappedMean == Average(TrialMeans(scores, draws))
    ensures 0 <= ci ==> report.lowerBound <= report.upperBound
  {
    var res := RunTrials(scores, draws, chunks);
    res := Sort(res);
    InBoundsCharacterised(ci, |res|);
    var lowerIndex := LowerIndex(ci, |res|);
    var upperIndex := UpperIndex(ci, |res|);
    report := Report(res[lowerIndex], res[upperIndex], Average(scores), Average(res));
    SortedUnique(res, Sort(TrialMeans(scores, draws)));
    AveragePermutation(TrialMeans(scores, draws), res);
    if 0 <= ci {
      IndicesOrdered(ci, b);
    }
  }

  /** Every trial mean lies within any range that holds the whole sample. */
  lemma TrialMeansWithin(scores: seq<real>, draws: seq<seq<int>>, lo: real, hi: real)
    requires |scores| >= 1 && AllDrawsValid(draws, |scores|)
    requires AllWithin(scores, lo, hi)
    ensures AllWithin(TrialMeans(scores, draws), lo, hi)
  {
    var trials := TrialMeans(scores, draws);
    forall i | 0 <= i < |trials|
      ensures lo <= trials[i] <= hi
    {
      var r := Resample(scores, draws[i]);
      ResampleMembers(scores, draws[i]);
      forall j | 0 <= j < |r|
        ensures lo <= r[j] <= hi
      {
        assert r[j] in scores;
      }
      AverageWithin(r, lo, hi);
    }
  }

  /** The reported interval and bootstrapped mean never leave the range of the sample. */
  lemma ReportWithinSampleRange(scores: seq<real>, draws: seq<seq<int>>, ci: int, lo: real, hi: real)
    requires |scores| >= 1 && |draws| >= 1 && AllDrawsValid(draws, |scores|)
    requires -100 < ci < 100
    requires AllWithin(scores, lo, hi)
    ensures ReadsInBounds(ci, |draws|)
    ensures lo <= Sort(TrialMeans(scores, draws))[LowerIndex(ci, |draws|)] <= hi
    ensures lo <= Sort(TrialMeans(scores, draws))[UpperIndex(ci, |draws|)] <= hi
    ensures lo <= Average(TrialMeans(scores, draws)) <= hi
  {
    InBoundsCharacterised(ci, |draws|);
    TrialMeansWithin(scores, draws, lo, hi);
    SortWithin(TrialMeans(scores, draws), lo, hi);
    AverageWithin(TrialMeans(scores, draws), lo, hi);
  }
}
