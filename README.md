# Depth characterisation of a two-phase cube solver, in Dafny

`characterize.py` measures a black-box Rubik's-cube solver. For each goal
depth from `minGoalDepth` to `maxGoalDepth` it runs `iterations` trials. A
trial randomises a cube, asks the solver for a solution of at most that many
moves under a one-second timeout, and records the solve time and the move
count. The samples of each depth are then summarised by `getSequenceStats`,
which reports min, max, median, mean and standard deviation. The means and
maxima are appended to per-depth lists. A final loop projects a composite
completion time in milliseconds: the solver's time plus the move count times
an assumed time per move.

This project models that measurement and aggregation core:

- `sorting.dfy`: the ascending sort `getSequenceStats` gets from Python's
  built-in `sorted`. It is written as an insertion sort and proved to return
  a sorted permutation of its input; sorted output is unique.
- `sequence_stats.dfy`: `getSequenceStats`, with its two accumulation loops
  and its median selection, proved equal to the specification function
  `Summary`. Lemmas cover the extrema, the ordering min ≤ median/mean ≤ max,
  the mean as sum over count, a non-negative variance, constant and
  singleton inputs, and independence of every reported figure from sample
  order.
- `solve_stats.dfy`: `getSolveStats`. The move count is the number of pieces
  Python's `str.split(" ")` produces, which is one more than the number of
  spaces. The time is the difference of the two clock readings.
- `depth_sampler.dfy`: the trial loop of `characterizeDepth`. Its running
  sums, goal-hit counter and sample sequences are proved against functions
  of the trial outcomes. The live progress figures are proved to agree with
  the final summaries.
- `characterize.dfy`: the per-depth lists as the fields of a class, the
  depth loop, the composite-time loop, and `entryPoint` as a whole.

Modelling choices:

- Python floats are `real`.
- The solver, the cube randomiser and the clock are one input function
  `Solver`. It maps a goal depth, a timeout and a trial number to the
  solver's output string and the two clock readings.
- Calling `getSequenceStats` on an empty sequence raises an `IndexError` in
  the source. That case is the `Failure(EmptySequence)` result. A run
  therefore fails exactly when there is a depth to characterise and
  `iterations < 1`.

Behaviour of `characterize.py` worth noting:

- Solve times and composite times are in milliseconds. The per-trial time is
  multiplied by 1000, so a 0.01 s trial at 3 moves and 0.5 s per move
  projects 1510 ms.
- A timed-out trial is recorded like any other. Its move count still goes
  into the move statistics.
- `minGoalDepth > maxGoalDepth` is not rejected. It yields an empty report.

## Model

| member | source | states |
|---|---|---|
| Sorting.Sort | characterize.py:69 | `sorted(sequence)` has the input's length, is in ascending order and holds the same elements with the same multiplicities |
| Sorting.SortOfSorted | characterize.py:69 | sorting an already ascending sequence returns it unchanged |
| Sorting.SortedEndsAreExtrema | characterize.py:83-84 | the first and last elements of the sorted copy are elements of the input and bound every input element from below and above |
| Sorting.SortedUnique | characterize.py:69 | two ascending sequences with equal multisets are equal, so the sorted copy is unique |
| Sorting.SortIgnoresOrder | characterize.py:69 | inputs that are permutations of each other have the same sorted copy |
| SequenceStatistics.SquaredDeviationSum | characterize.py:64-67 | the accumulated sum of squared deviations is never negative |
| SequenceStatistics.Median | characterize.py:71-80 | on an ascending sequence the median lies between its first and last elements |
| SequenceStatistics.Summary | characterize.py:57-88 | the summary fails exactly when the input is empty |
| SequenceStatistics.AddSamples | characterize.py:60-62 | the first loop leaves `meanSum` equal to the sum of the samples |
| SequenceStatistics.AddSquaredDeviations | characterize.py:64-67 | the second loop leaves `squaredDeviationSum` equal to the sum of squared deviations from the mean |
| SequenceStatistics.GetSequenceStats | characterize.py:57-88 | the loops, the sort and the median branches return exactly `Summary(sequence)`, including the failure on an empty input |
| SequenceStatistics.SumBounds | characterize.py:60-62 | a sum of n terms in [lo, hi] lies in [n·lo, n·hi] |
| SequenceStatistics.ConstantSums | characterize.py:60-67 | n copies of c sum to n·c, and their squared deviations from c sum to zero |
| SequenceStatistics.SummaryExtrema | characterize.py:83-84 | the reported min and max occur in the input and bound every sample |
| SequenceStatistics.MeanBounds | characterize.py:86 | the mean of samples in [lo, hi] lies in [lo, hi] |
| SequenceStatistics.MeanOfConstant | characterize.py:60-87 | the mean of n copies of c is c and their variance is zero |
| SequenceStatistics.SummaryMean | characterize.py:60-86 | the reported mean is the sum of the samples divided by their count |
| SequenceStatistics.SummaryMeanAtLeast | characterize.py:86 | samples all at least lo have a mean of at least lo |
| SequenceStatistics.SummaryOrdering | characterize.py:69-87 | for a non-empty input: min ≤ median ≤ max, min ≤ mean ≤ max, variance ≥ 0 |
| SequenceStatistics.SummaryOfConstant | characterize.py:57-88 | equal samples c give min = max = median = mean = c and variance 0 |
| SequenceStatistics.SummaryOfSingleton | characterize.py:57-88 | a single sample x gives min = max = median = mean = x and variance 0 |
| SequenceStatistics.MedianOfSortedInput | characterize.py:69-80 | for an input already ascending, the median is taken from the input itself |
| SequenceStatistics.SumIgnoresOrder | characterize.py:60-62 | the total `meanSum` accumulates does not depend on the order of the samples |
| SequenceStatistics.SquaredDeviationSumIgnoresOrder | characterize.py:64-67 | the squared deviations from a fixed mean total the same whatever the order of the samples |
| SequenceStatistics.SummaryIgnoresOrder | characterize.py:57-88 | min, max, median, mean and variance do not depend on the order of the samples |
| SequenceStatistics.MedianExamples | characterize.py:71-80 | even lengths average positions n/2-1 and n/2 (n = 2 and 4); odd lengths take position n/2 (n = 1 and 3) |
| SequenceStatistics.VarianceOfEqualSamples | characterize.py:64-87 | four equal samples have zero variance |
| SolveStats.Split | characterize.py:46 | `split(" ")` yields at least one piece, and no piece contains the separator |
| SolveStats.SplitCount | characterize.py:46 | the number of pieces is the number of separators plus one |
| SolveStats.JoinSplit | characterize.py:46 | joining the pieces with the separator gives back the solver's output |
| SolveStats.GetSolveStats | characterize.py:41-46 | the move count is the number of spaces plus one, so at least 1; the time is the difference of the clock readings |
| DepthSampling.GoalHits | characterize.py:135-136 | the goal-hit count never exceeds the number of trials |
| DepthSampling.TrialStep | characterize.py:124-138 | one more trial appends its time in ms and its move count to the samples and adds them to the running sums and the hit counter |
| DepthSampling.RunTrials | characterize.py:111-138 | after the loop: `numberSamples` is `max(iterations, 0)`; the time samples are the trial times ×1000; the move samples are the move counts; the running sums and the hit count match the trials |
| DepthSampling.DepthResult | characterize.py:151-161 | the row for a depth exists exactly when `iterations >= 1` |
| DepthSampling.SampleDepth | characterize.py:111-152 | running the trials and both summaries yields exactly `DepthResult` |
| DepthSampling.SumOfScaled | characterize.py:130-131 | the sum of the millisecond samples is 1000 times the running time sum |
| DepthSampling.MovesTotalIsSum | characterize.py:132-133 | the integer `runningDepthSum` equals the sum of the move samples |
| DepthSampling.GoalHitsExtremes | characterize.py:135-136 | the hit count equals the number of trials iff every trial met the goal, and is zero iff none did |
| DepthSampling.DepthResultRow | characterize.py:157-160 | the row holds the mean and max of the time summary and of the move summary |
| DepthSampling.MeanOfScaled | characterize.py:130-131 | the mean of the millisecond samples is 1000 times the mean in seconds |
| DepthSampling.ProgressTimeMatchesSummary | characterize.py:140-146 | the progress bar's final mean time equals the mean of the time summary |
| DepthSampling.ProgressDepthMatchesSummary | characterize.py:140-148 | the progress bar's final mean depth equals the mean of the move summary |
| DepthSampling.DepthResultBounds | characterize.py:151-161 | in every row the mean depth is at least 1 and at most the max depth, and the mean time is at most the max time |
| Characterize.Range | characterize.py:165 | `range(lo, hi + 1)` has hi - lo + 1 entries (none if lo > hi), the k-th being lo + k |
| Characterize.RangeContents | characterize.py:165 | the range holds exactly the integers from lo to hi, strictly ascending |
| Characterize.CombinedTimeMonotone | characterize.py:174-178 | with a non-negative time per move, more moves and more solve time never project a shorter time |
| Characterize.RowsMatchAppend | characterize.py:157-161 | appending a depth's summary row keeps every row equal to the summary of its depth's trials |
| Characterize.Characterization.constructor | characterize.py:50-54 | the per-depth lists start empty |
| Characterize.Characterization.CharacterizeDepth | characterize.py:111-161 | fails, changing nothing, exactly when `iterations < 1`; otherwise appends the depth to `goalDepths` and one row to each list, every row being its depth's summary |
| Characterize.Characterization.CharacterizeRange | characterize.py:165-167 | on success `goalDepths` gains exactly minGoalDepth..maxGoalDepth in order, and the rows stay summaries; it fails, changing nothing, exactly when there is a depth but `iterations < 1` |
| Characterize.Characterization.CombineTimes | characterize.py:171-178 | both composite lists have one entry per depth: mean (max) depth × time per move × 1000 plus mean (max) time |
| Characterize.EntryPoint | characterize.py:12-178 | fails exactly when minGoalDepth ≤ maxGoalDepth and iterations < 1; otherwise returns a report whose depths are the range, whose rows are the summaries and whose composite times are computed from the rows |
| Characterize.DescribesUnique | characterize.py:12-178 | the report of a run is determined by the solver and the settings |
| Characterize.ReportRowBounds | characterize.py:151-178 | every report row has 1 ≤ mean depth ≤ max depth and mean time ≤ max time; with a non-negative time per move, the mean composite time is at most the worst-case one |

## Left out

- The solver and the cube (characterize.py:28-29, 44, 48, 124, 127) are outside the model: their results are the input function `Solver`.
- The solver's table loading, its timeout behaviour and the content of its solution strings are not modelled; `timeoutSeconds` is only passed on.
- `time.time()` is not modelled: the two clock readings of each trial are part of the solver input, and `characterizeStartTime`/`characterizeEndTime` are not kept.
- SequenceStatistics.GetSequenceStats: returns the variance `squaredDeviationSum / len(sequence)`, not its square root, because real square roots are not available.
- Float rounding is not modelled: all arithmetic is exact on reals, so results can differ from IEEE doubles in the last bits.
- SequenceStatistics.AddSquaredDeviations: takes the mean as a parameter, where the source recomputes `meanSum / len(sequence)` on every pass; the value is the same on every pass.
- Characterize.Characterization.CharacterizeDepth: its contract states the new rows through `Valid()`, which ties every row to its depth's summary, instead of naming the appended values one by one.
- `getStatsSummaryString` (characterize.py:90-109), all `print` output and the `round` calls in it are text formatting and are not modelled.
- The tqdm progress bar (characterize.py:122, 140-149) is not modelled; its displayed mean time and mean depth are covered by the lemmas that relate them to the summaries, and its goal-hit percentage by `GoalHits`.
- Plotting (characterize.py:180-238), the `noPlot`/`toFile` switches, CSV output, argument parsing and the `KeyboardInterrupt` handler (characterize.py:241-304) are I/O and are not modelled.
- A failed run in the model stops at the first depth; the source's exception would also end the program, which the model shows as a `Failure` result rather than a crash.
