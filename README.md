# Bootstrap confidence interval for the mean — Dafny model

`bootstrapCI.cc` estimates a confidence interval for the mean of a sample of scores by bootstrap
resampling. It runs B trials; each trial draws n indices uniformly with replacement, copies the
selected scores into a resample of size n and takes that resample's mean. OpenMP workers share out
the trials, fill private buffers and append them to a shared vector `res` in a critical section.
`res` is then sorted. The interval bounds are read at positions `(int)(alpha/100 * B)` and
`(int)((100 - alpha)/100 * B)` with `alpha = (100 - CI)/2`, and the code prints them together
with the sample's mean and the mean of the trial results.

The model is split into six modules:

- `Stats` (`stats.dfy`): `sumAllElements` and `average` over exact reals, as recursive functions.
- `Sorting` (`sorting.dfy`): the ascending sort of `res`, specified as an ascending permutation.
- `Resampler` (`resampler.dfy`): `bootstrapVector` as a loop that pushes one copied score per
  slot. The random generator's draws are an input: one index per slot, each in `[0, n-1]`.
- `TrialAggregator` (`aggregator.dfy`): the parallel region, run one worker after another.
  `chunks[w]` lists the iterations of the w-th worker to enter the critical section. Any
  partition of `0..B-1` and any entry order is allowed as input.
- `IntervalEstimator` (`interval.dfy`): the index formulas in exact arithmetic. The C++ `(int)`
  cast truncates toward zero, and the model keeps that for every integer CI.
- `Bootstrap` (`bootstrap.dfy`): `bootstrapCI` as one method. It returns the two bounds and the
  two means as a `Report` instead of printing them.

The code never validates or clamps anything. The model follows the code, not the intended
design:

- The two indices are not clamped into `[0, B-1]`. The reads at line 72 are legal exactly when
  `B >= 1` and `-100 < CI < 100` (`InBoundsCharacterised`). `CI = 100` reads one past the end
  (`FullConfidenceOverruns`). `BootstrapCI` requires exactly these conditions.
- A CI range of 1 to 99 is not enforced. A negative CI still gives legal reads, but the lower
  index can then exceed the upper index. This is why `IndicesOrdered` and the ordering guarantee
  of `BootstrapCI` require `CI >= 0`.
- An empty sample and `B = 0` are not rejected with an error. An empty sample builds
  `uniform_int_distribution(0, -1)` and divides by a zero size. `B = 0` reads from an empty
  vector. The model therefore requires `n >= 1` and `B >= 1`.

## Model

| member | source | states |
|---|---|---|
| `Stats.SumAppend` | bootstrapCI.cc:33-35 | The sum of a concatenation is the sum of the parts' sums. |
| `Stats.SumPermutation` | bootstrapCI.cc:33-35 | Two sequences with the same multiset of values have the same sum, whatever their order. |
| `Stats.AveragePermutation` | bootstrapCI.cc:29-31 | Two non-empty sequences with the same multiset have the same length and the same mean. So averaging the sorted `res` gives the mean of the trials in any merge order. |
| `Stats.AverageWithin` | bootstrapCI.cc:29-31 | The mean of a non-empty sequence whose values lie in `[lo, hi]` lies in `[lo, hi]`. |
| `Stats.AverageOfOneToFive` | bootstrapCI.cc:29-31 | The mean of `[1, 2, 3, 4, 5]` is exactly 3. |
| `Sorting.Sort` | bootstrapCI.cc:68 | The sorted result has the input's length, is ascending and is a permutation of the input. |
| `Sorting.SortedUnique` | bootstrapCI.cc:68 | Two ascending sequences with the same multiset are equal. So the sorted `res` does not depend on the order in which buffers were appended. |
| `Sorting.SortWithin` | bootstrapCI.cc:68 | Sorting keeps every value within any range that held the input. |
| `Resampler.BootstrapVector` | bootstrapCI.cc:38-51 | Needs `n >= 1` and one in-range draw per slot. Returns exactly n values. Slot i is `scores[draws[i]]`, and every value returned is a value of `scores`. The sample is a value parameter, so it is left unchanged. |
| `Resampler.ResampleMembers` | bootstrapCI.cc:42-48 | The resample chosen by in-range draws has the sample's length and holds only members of the sample. |
| `TrialAggregator.WorkerShare` | bootstrapCI.cc:57-62 | A worker's private buffer holds, in loop order, the mean of the resample of each iteration it owns, one entry per iteration. |
| `TrialAggregator.PickPermutation` | bootstrapCI.cc:57-66 | Rearranging the iterations that workers own and append (the same multiset of iterations) leaves the same multiset of trial results. |
| `TrialAggregator.RunTrials` | bootstrapCI.cc:54-67 | For every partition of `0..B-1` into worker chunks and every critical-section order, `res` holds exactly B values. Its multiset is exactly the results of trials 0..B-1, so no trial is lost or duplicated. |
| `IntervalEstimator.InBoundsCharacterised` | bootstrapCI.cc:69-72 | Both reads `res[lowerIndex]` and `res[upperIndex]` are in bounds if and only if `B >= 1` and `-100 < CI < 100`. |
| `IntervalEstimator.IndicesOrdered` | bootstrapCI.cc:69-71 | For `CI >= 0`, `lowerIndex <= upperIndex`. |
| `IntervalEstimator.SingleTrialDegenerate` | bootstrapCI.cc:69-72 | With `B = 1` and a legal CI, both indices are 0, so the interval is degenerate. |
| `IntervalEstimator.FullConfidenceOverruns` | bootstrapCI.cc:71-72 | With `CI = 100`, `upperIndex = B`, one past the last element. |
| `IntervalEstimator.WidensWithConfidence` | bootstrapCI.cc:69-71 | For a fixed B, raising CI never raises `lowerIndex` and never lowers `upperIndex`. |
| `IntervalEstimator.IntervalsNest` | bootstrapCI.cc:68-72 | On sorted results, for `0 <= CI1 <= CI2 < 100`, the CI2 interval contains the CI1 interval, and its width is at least as large. |
| `Bootstrap.BootstrapCI` | bootstrapCI.cc:53-75 | Needs `n >= 1`, `B >= 1`, `-100 < CI < 100` and a partition of the iterations. Both reads are in bounds. The bounds are the sorted trial means at the two indices, and so do not depend on the partition or the append order. The original mean is the sample's mean, and the bootstrapped mean is the mean of the trial means. For `CI >= 0`, lower bound <= upper bound. |
| `Bootstrap.TrialMeansWithin` | bootstrapCI.cc:59-62 | Every trial mean lies within any range that holds the whole sample. |
| `Bootstrap.ReportWithinSampleRange` | bootstrapCI.cc:68-74 | Both reported bounds and the bootstrapped mean lie within any range that holds the whole sample. |

## Left out

- `readFile` and `main` are not modelled. They do file I/O, `stod` parsing and `atoi` argument handling. `main` rejects only `argc <= 2` but then reads `argv[3]`. With exactly two arguments, `argv[3]` is the null pointer and `atoi` receives it.
- The console output at lines 72-74 is not modelled: `BootstrapCI` returns the values in a `Report` instead of printing them.
- OpenMP threading is not modelled: thread creation, the `omp for` schedule and mutual exclusion in the critical section. The model covers only their sequential effect. Each worker runs its chunk, then appends its whole buffer, and the workers run in the order they enter the critical section.
- `std::random_device` and `mt19937` seeding, and the uniformity of `uniform_int_distribution`, are not modelled. Each trial's draws are an input sequence of in-range indices.
- Floating point is not modelled. Sums and means are exact reals. The index formula is exact integer arithmetic, truncated toward zero as the `(int)` cast does. The double computation at lines 69-71 may round differently at exact integer boundaries, and NaN inputs are not considered.
- Machine integer widths are not modelled. `B`, `CI` and the indices are unbounded integers, so overflow of `100 - CI` for extreme `CI` is not captured. Neither is a `(int)` conversion of an out-of-range double.
- `std::sort` is modelled on values (`res := Sort(res)`) by an insertion sort that meets its contract. Its in-place update of the vector and its actual algorithm are not modelled.
