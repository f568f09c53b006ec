/** The parallel region of `bootstrapCI`: the iterations 0..B-1 are shared out among the
    workers, each worker runs a trial (resample, then mean) for every iteration it owns and pushes
    the result into a private buffer, then appends that buffer to the shared `res` inside a
    critical section. The threads are sequentialised: `chunks[w]` lists the iterations of the w-th
    worker to enter the critical section, so every partition and every entry order is an input. */
module TrialAggregator {
  import opened Stats
  import opened Resampler

  /** Every trial has a valid draw sequence for a sample of size `n`. */
  predicate AllDrawsValid(draws: seq<seq<int>>, n: int)
  {
    forall i :: 0 <= i < |draws| ==> ValidDraws(draws[i], n)
  }

  /** The statistic of one trial: the mean of the resample its draws select. */
  function TrialMean(scores: seq<real>, draws: seq<int>): real
    requires |scores| >= 1 && ValidDraws(draws, |scores|)
  {
    Average(Resample(scores, draws))
  }

  /** The result of trial `i` for every iteration `i` in 0..|draws|-1. */
  function TrialMeans(scores: seq<real>, draws: seq<seq<int>>): seq<real>
    requires |scores| >= 1 && AllDrawsValid(draws, |scores|)
  {
    seq(|draws|, i requires 0 <= i < |draws| => TrialMean(scores, draws[i]))
  }

  /** The iterations 0, 1, ..., n-1 of the trial loop. */
  function Iterations(n: nat): seq<int>
  {
    seq(n, i => i)
  }

  /** Concatenation of the chunks, in order. */
  function Flatten(chunks: seq<seq<int>>): seq<int>
  {
    if |chunks| == 0 then [] else Flatten(chunks[..|chunks| - 1]) + chunks[|chunks| - 1]
  }

  /** The chunks share out the iterations 0..b-1: each iteration belongs to exactly one chunk,
      exactly once, and nothing else does. */
  predicate IsPartition(chunks: seq<seq<int>>, b: nat)
  {
    multiset(Flatten(chunks)) == multiset(Iterations(b))
  }

  /** Every entry of `idx` is a position in [0, n-1]. */
  predicate InRange(idx: seq<int>, n: int)
  {
    forall j :: 0 <= j < |idx| ==> 0 <= idx[j] < n
  }

  /** The entries of `t` at the positions `idx`, in that order. */
  function Pick(t: seq<real>, idx: seq<int>): seq<real>
    requires InRange(idx, |t|)
  {
    seq(|idx|, j requires 0 <= j < |idx| => t[idx[j]])
  }

  /** Picking from a concatenation of positions concatenates the picks. */
  lemma PickAppend(t: seq<real>, a: seq<int>, b: seq<int>)
    requires InRange(a, |t|)
    requires InRange(b, |t|)
    ensures InRange(a + b, |t|)
    ensures Pick(t, a + b) == Pick(t, a) + Pick(t, b)
  {
    assert InRange(a + b, |t|);
  }

  /** Positions in range stay in range under any rearrangement. */
  lemma InRangePermutation(t: seq<real>, a: seq<int>, b: seq<int>)
    requires InRange(a, |t|)
    requires multiset(a) == multiset(b)
    ensures InRange(b, |t|)
  {
    forall j | 0 <= j < |b|
      ensures 0 <= b[j] < |t|
    {
      assert b[j] in multiset(a);
    }
  }

  /** Taking position `k` out of `b` takes its entry out of the picked values. */
  lemma PickRemove(t: seq<real>, b: seq<int>, k: int)
    requires InRange(b, |t|)
    requires 0 <= k < |b|
    ensures InRange(b[..k] + b[k + 1..], |t|)
    ensures multiset(Pick(t, b)) == multiset(Pick(t, b[..k] + b[k + 1..])) + multiset{t[b[k]]}
  {
    var left, right := b[..k], b[k + 1..];
    assert b == left + [b[k]] + right;
    PickAppend(t, left, [b[k]]);
    PickAppend(t, left + [b[k]], right);
    PickAppend(t, left, right);
  }

  /** Removing position `k` removes one copy of `b[k]` from the multiset. */
  lemma RemoveAt(b: seq<int>, k: int)
    requires 0 <= k < |b|
    ensures multiset(b[..k] + b[k + 1..]) == multiset(b) - multiset{b[k]}
  {
    assert b == b[..k] + [b[k]] + b[k + 1..];
  }

  /** Picking the same multiset of positions gives the same multiset of entries. */
  lemma {:induction false} PickPermutation(t: seq<real>, a: seq<int>, b: seq<int>)
    requires InRange(a, |t|)
    requires multiset(a) == multiset(b)
    ensures InRange(b, |t|)
    ensures multiset(Pick(t, a)) == multiset(Pick(t, b))
  {
    InRangePermutation(t, a, b);
    if |a| == 0 {
      assert |b| == |multiset(b)| == 0;
    } else {
      var last := |a| - 1;
      var x := a[last];
      assert x in multiset(b);
      var k :| 0 <= k < |b| && b[k] == x;
      PickRemove(t, a, last);
      RemoveAt(a, last);
      PickRemove(t, b, k);
      RemoveAt(b, k);
      PickPermutation(t, a[..last] + a[last + 1..], b[..k] + b[k + 1..]);
    }
  }

  /** Picking the positions 0..|t|-1 in order gives `t` back. */
  lemma PickAll(t: seq<real>)
    ensures InRange(Iterations(|t|), |t|)
    ensures Pick(t, Iterations(|t|)) == t
  {
  }

  /** Each entry of each chunk is an entry of the concatenation. */
  lemma {:induction false} InFlatten(chunks: seq<seq<int>>, w: int, j: int)
    requires 0 <= w < |chunks| && 0 <= j < |chunks[w]|
    ensures chunks[w][j] in Flatten(chunks)
  {
    var last := |chunks| - 1;
    if w < last {
      InFlatten(chunks[..last], w, j);
      assert chunks[..last][w] == chunks[w];
    } else {
      assert Flatten(chunks) == Flatten(chunks[..last]) + chunks[last];
      assert chunks[w][j] == Flatten(chunks)[|Flatten(chunks[..last])| + j];
    }
  }

  /** Under a partition of 0..b-1, every worker's iterations lie in 0..b-1. */
  lemma ChunkInRange(chunks: seq<seq<int>>, b: nat, w: int)
    requires IsPartition(chunks, b) && 0 <= w < |chunks|
    ensures InRange(chunks[w], b)
  {
    forall j | 0 <= j < |chunks[w]|
      ensures 0 <= chunks[w][j] < b
    {
      InFlatten(chunks, w, j);
      assert chunks[w][j] in multiset(Iterations(b));
    }
  }

  /** One worker's share of the `omp for` loop: for each iteration `i` it owns, it resamples
      with trial `i`'s draws and pushes the mean into its private buffer. */
  method WorkerShare(scores: seq<real>, draws: seq<seq<int>>, chunk: seq<int>)
    returns (resPrivate: seq<real>)
    requires |scores| >= 1 && AllDrawsValid(draws, |scores|)
    requires InRange(chunk, |draws|)
    ensures resPrivate == Pick(TrialMeans(scores, draws), chunk)
  {
    resPrivate := [];
    for j := 0 to |chunk|
      invariant |resPrivate| == j
      invariant forall k :: 0 <= k < j ==> resPrivate[k] == TrialMean(scores, draws[chunk[k]])
    {
      var bootstrapedScores := BootstrapVector(scores, draws[chunk[j]]);
      resPrivate := resPrivate + [Average(bootstrapedScores)];
    }
  }

  /** The whole parallel region: every worker fills its buffer and appends it to `res` in turn.
      Whatever the partition and the order of the critical sections, `res` ends up holding each
      trial's result exactly once. */
  method RunTrials(scores: seq<real>, draws: seq<seq<int>>, chunks: seq<seq<int>>)
    returns (res: seq<real>)
    requires |scores| >= 1 && AllDrawsValid(draws, |scores|)
    requires IsPartition(chunks, |draws|)
    ensures |res| == |draws|
    ensures multiset(res) == multiset(TrialMeans(scores, draws))
  {
    ghost var trials := TrialMeans(scores, draws);
    res := [];
    for w := 0 to |chunks|
      invariant InRange(Flatten(chunks[..w]), |trials|)
      invariant res == Pick(trials, Flatten(chunks[..w]))
    {
      ChunkInRange(chunks, |draws|, w);
      var resPrivate := WorkerShare(scores, draws, chunks[w]);
      assert chunks[..w + 1][..w] == chunks[..w];
      assert Flatten(chunks[..w + 1]) == Flatten(chunks[..w]) + chunks[w];
      PickAppend(trials, Flatten(chunks[..w]), chunks[w]);
      res := res + resPrivate;
    }
    assert chunks[..|chunks|] == chunks;
    PickPermutation(trials, Flatten(chunks), Iterations(|draws|));
    PickAll(trials);
    assert |res| == |multiset(res)| == |multiset(trials)| == |trials|;
  }
}
