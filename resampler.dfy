/** One bootstrap resample (`bootstrapVector`): a vector of the sample's length whose every slot
    is a copy of `scores[k]` for an index `k` drawn uniformly from [0, n-1]. The generator is not
    modelled; its draws are an input, one index per slot, each within the distribution's range. */
module Resampler {

  /** `draws` holds one index per slot of a sample of size `n`, each in [0, n-1]. */
  predicate ValidDraws(draws: seq<int>, n: int)
  {
    |draws| == n && forall i :: 0 <= i < |draws| ==> 0 <= draws[i] < n
  }

  /** The resample that the draws `draws` select from `scores`: slot `i` copies `scores[draws[i]]`. */
  function Resample(scores: seq<real>, draws: seq<int>): seq<real>
    requires ValidDraws(draws, |scores|)
  {
    seq(|draws|, i requires 0 <= i < |draws| => scores[draws[i]])
  }

  /** A resample has the sample's length and holds only values of the sample. */
  lemma ResampleMembers(scores: seq<real>, draws: seq<int>)
    requires ValidDraws(draws, |scores|)
    ensures |Resample(scores, draws)| == |scores|
    ensures forall x :: x in Resample(scores, draws) ==> x in scores
  {
    var r := Resample(scores, draws);
    forall x | x in r
      ensures x in scores
    {
      var i :| 0 <= i < |r| && r[i] == x;
      assert scores[draws[i]] == x;
    }
  }

  /** `bootstrapVector`: reserves `n` slots and pushes one drawn copy per loop iteration.
      `uniform_int_distribution(0, n-1)` needs `n >= 1`. The sample is read-only. */
  method BootstrapVector(scores: seq<real>, draws: seq<int>) returns (bootstrapedScores: seq<real>)
    requires |scores| >= 1
    requires ValidDraws(draws, |scores|)
    ensures bootstrapedScores == Resample(scores, draws)
    ensures |bootstrapedScores| == |scores|
    ensures forall x :: x in bootstrapedScores ==> x in scores
  {
    var sampleSize := |scores|;
    bootstrapedScores := [];
    for i := 0 to sampleSize
      invariant |bootstrapedScores| == i
      invariant forall j :: 0 <= j < i ==> bootstrapedScores[j] == scores[draws[j]]
    {
      bootstrapedScores := bootstrapedScores + [scores[draws[i]]];
    }
    ResampleMembers(scores, draws);
  }
}
