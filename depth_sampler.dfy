/**
 * `characterizeDepth`: `iterations` timed trials at one goal depth, folded
 * into running sums, a goal-hit counter, a sample counter and two sample
 * sequences, which are then summarised.
 *
 * The cube randomiser and the solver are one opaque input: `solver(goal,
 * timeout, k)` is what the k-th trial at that goal depth produces.
 */
module DepthSampling {
  import opened Failures
  import opened SolveStats
  import opened SequenceStatistics

  /** `timeoutSeconds = 1`: the solver's time budget for every trial. */
  const TimeoutSeconds: real := 1.0

  /** The solver applied to the k-th freshly randomised cube, for a goal depth and a timeout. */
  type Solver = (int, real, nat) -> SolverRun

  /** The outcomes of the first `count` trials at goal depth `depth`, in trial order. */
  function Outcomes(solver: Solver, depth: int, count: nat): seq<TrialOutcome> {
    seq(count, k requires 0 <= k < count => GetSolveStats(solver(depth, TimeoutSeconds, k)))
  }

  /** The trials' solve times converted to milliseconds. */
  function TimesMs(outcomes: seq<TrialOutcome>): seq<real> {
    seq(|outcomes|, k requires 0 <= k < |outcomes| => outcomes[k].seconds * 1000.0)
  }

  /** The trials' solve times in seconds. */
  function Seconds(outcomes: seq<TrialOutcome>): seq<real> {
    seq(|outcomes|, k requires 0 <= k < |outcomes| => outcomes[k].seconds)
  }

  /** The trials' move counts, as the samples `getSequenceStats` receives. */
  function Moves(outcomes: seq<TrialOutcome>): seq<real> {
    seq(|outcomes|, k requires 0 <= k < |outcomes| => outcomes[k].moves as real)
  }

  /** The total number of moves over the trials, as an integer. */
  function MovesTotal(outcomes: seq<TrialOutcome>): int {
    if outcomes == [] then 0
    else MovesTotal(outcomes[..|outcomes| - 1]) + outcomes[|outcomes| - 1].moves
  }

  /** The number of trials whose move count is at most the goal depth. */
  function GoalHits(outcomes: seq<TrialOutcome>, depth: int): (hits: nat)
    ensures hits <= |outcomes|
  {
    if outcomes == [] then 0
    else GoalHits(outcomes[..|outcomes| - 1], depth) + (if outcomes[|outcomes| - 1].moves <= depth then 1 else 0)
  }

  /** The state of `characterizeDepth`'s locals after its trial loop. */
  datatype DepthSamples = DepthSamples(
    solveTimeSequence: seq<real>,
    solveMovesSequence: seq<real>,
    runningTimeSum: real,
    runningDepthSum: int,
    numberGoalHits: nat,
    numberSamples: nat)

  /** `range(iterations)` runs no trial when `iterations` is zero or negative. */
  function TrialCount(iterations: int): nat {
    if iterations < 0 then 0 else iterations
  }

  /** The trial loop of `characterizeDepth`. */
  method RunTrials(solver: Solver, depth: int, iterations: int) returns (acc: DepthSamples)
    ensures acc.numberSamples == TrialCount(iterations)
    ensures var outcomes := Outcomes(solver, depth, acc.numberSamples);
      && acc.solveTimeSequence == TimesMs(outcomes)
      && acc.solveMovesSequence == Moves(outcomes)
      && acc.runningTimeSum == Sum(Seconds(outcomes))
      && acc.runningDepthSum == MovesTotal(outcomes)
      && acc.numberGoalHits == GoalHits(outcomes, depth)
  {
    var solveTimeSequence: seq<real> := [];
    var solveMovesSequence: seq<real> := [];
    var runningTimeSum := 0.0;
    var runningDepthSum := 0;
    var numberGoalHits := 0;
    var numberSamples := 0;

    for i := 0 to TrialCount(iterations)
      invariant numberSamples == i
      invariant solveTimeSequence == TimesMs(Outcomes(solver, depth, i))
      invariant solveMovesSequence == Moves(Outcomes(solver, depth, i))
      invariant runningTimeSum == Sum(Seconds(Outcomes(solver, depth, i)))
      invariant runningDepthSum == MovesTotal(Outcomes(solver, depth, i))
      invariant numberGoalHits == GoalHits(Outcomes(solver, depth, i), depth)
    {
      var stats := GetSolveStats(solver(depth, TimeoutSeconds, i));
      TrialStep(solver, depth, i);

      runningTimeSum := runningTimeSum + stats.seconds;
      solveTimeSequence := solveTimeSequence + [stats.seconds * 1000.0];
      runningDepthSum := runningDepthSum + stats.moves;
      solveMovesSequence := solveMovesSequence + [stats.moves as real];

      if stats.moves <= depth {
        numberGoalHits := numberGoalHits + 1;
      }

      numberSamples := numberSamples + 1;
    }
    acc := DepthSamples(solveTimeSequence, solveMovesSequence, runningTimeSum,
                        runningDepthSum, numberGoalHits, numberSamples);
  }

  /** One more trial extends every sample sequence and running total by that trial's outcome. */
  lemma TrialStep(solver: Solver, depth: int, i: nat)
    ensures var before, stats := Outcomes(solver, depth, i), GetSolveStats(solver(depth, TimeoutSeconds, i));
      var after := Outcomes(solver, depth, i + 1);
      && TimesMs(after) == TimesMs(before) + [stats.seconds * 1000.0]
      && Moves(after) == Moves(before) + [stats.moves as real]
      && Sum(Seconds(after)) == Sum(Seconds(before)) + stats.seconds
      && MovesTotal(after) == MovesTotal(before) + stats.moves
      && GoalHits(after, depth) == GoalHits(before, depth) + (if stats.moves <= depth then 1 else 0)
  {
    var before, after := Outcomes(solver, depth, i), Outcomes(solver, depth, i + 1);
    assert after[..i] == before;
    assert Seconds(after)[..i] == Seconds(before);
  }

  /** What `characterizeDepth` appends to the four per-depth lists. */
  datatype DepthRow = DepthRow(meanTime: real, maxTime: real, meanDepth: real, maxDepth: real)

  /**
   * The row `characterizeDepth` records for one goal depth: mean and max of
   * the solve times in milliseconds and of the move counts; the failure
   * `getSequenceStats` raises when no trial ran.
   */
  function DepthResult(solver: Solver, depth: int, iterations: int): (r: Result<DepthRow>)
    ensures r.Success? <==> iterations >= 1
  {
    var outcomes := Outcomes(solver, depth, TrialCount(iterations));
    match (Summary(TimesMs(outcomes)), Summary(Moves(outcomes)))
    case (Success(timeStats), Success(moveStats)) =>
      Success(DepthRow(timeStats.mean, timeStats.max, moveStats.mean, moveStats.max))
    case _ => Failure(EmptySequence)
  }

  /**
   * The trials and the two summaries of `characterizeDepth`: the row it
   * appends, or the failure of summarising an empty sample sequence.
   */
  method SampleDepth(solver: Solver, depth: int, iterations: int) returns (r: Result<DepthRow>)
    ensures r == DepthResult(solver, depth, iterations)
  {
    var samples := RunTrials(solver, depth, iterations);
    var timeStats := GetSequenceStats(samples.solveTimeSequence);
    var moveStats := GetSequenceStats(samples.solveMovesSequence);
    if timeStats.Failure? || moveStats.Failure? {
      return Failure(EmptySequence);
    }
    r := Success(DepthRow(timeStats.value.mean, timeStats.value.max, moveStats.value.mean, moveStats.value.max));
  }

  /** Scaling every term scales the sum. */
  lemma {:induction false} SumOfScaled(outcomes: seq<TrialOutcome>)
    ensures Sum(TimesMs(outcomes)) == Sum(Seconds(outcomes)) * 1000.0
  {
    if outcomes != [] {
      var n := |outcomes|;
      SumOfScaled(outcomes[..n - 1]);
      assert TimesMs(outcomes)[..n - 1] == TimesMs(outcomes[..n - 1]);
      assert Seconds(outcomes)[..n - 1] == Seconds(outcomes[..n - 1]);
    }
  }

  /** The integer move total equals the sum of the move samples. */
  lemma {:induction false} MovesTotalIsSum(outcomes: seq<TrialOutcome>)
    ensures MovesTotal(outcomes) as real == Sum(Moves(outcomes))
  {
    if outcomes != [] {
      var n := |outcomes|;
      MovesTotalIsSum(outcomes[..n - 1]);
      assert Moves(outcomes)[..n - 1] == Moves(outcomes[..n - 1]);
    }
  }

  /**
   * The counter of goal hits is the number of trials with at most `depth`
   * moves: it equals the number of trials exactly when every trial hit, and
   * it is zero exactly when none did.
   */
  lemma {:induction false} GoalHitsExtremes(outcomes: seq<TrialOutcome>, depth: int)
    ensures GoalHits(outcomes, depth) == |outcomes| <==> forall k :: 0 <= k < |outcomes| ==> outcomes[k].moves <= depth
    ensures GoalHits(outcomes, depth) == 0 <==> forall k :: 0 <= k < |outcomes| ==> outcomes[k].moves > depth
  {
    if outcomes != [] {
      var n := |outcomes|;
      var prefix := outcomes[..n - 1];
      GoalHitsExtremes(prefix, depth);
      assert forall k :: 0 <= k < n - 1 ==> prefix[k] == outcomes[k];
    }
  }

  /** The row of a depth at which trials ran holds the means and maxima of the two summaries. */
  lemma DepthResultRow(solver: Solver, depth: int, iterations: int)
    requires iterations >= 1
    ensures var outcomes := Outcomes(solver, depth, iterations);
      var timeStats := Summary(TimesMs(outcomes)).value;
      var moveStats := Summary(Moves(outcomes)).value;
      DepthResult(solver, depth, iterations).value
        == DepthRow(timeStats.mean, timeStats.max, moveStats.mean, moveStats.max)
  {
  }

  /**
   * The progress bar's live mean time after the last trial,
   * `runningTimeSum / numberSamples * 1000`, is the mean the summary of the
   * millisecond samples reports.
   */
  lemma ProgressTimeMatchesSummary(outcomes: seq<TrialOutcome>)
    requires outcomes != []
    ensures Summary(TimesMs(outcomes)).value.mean == Sum(Seconds(outcomes)) / (|outcomes| as real) * 1000.0
  {
    MeanOfScaled(outcomes);
    SummaryMean(TimesMs(outcomes));
  }

  /** The mean of the millisecond samples is 1000 times the mean of the second samples. */
  lemma MeanOfScaled(outcomes: seq<TrialOutcome>)
    requires outcomes != []
    ensures Sum(TimesMs(outcomes)) / (|outcomes| as real) == Sum(Seconds(outcomes)) / (|outcomes| as real) * 1000.0
  {
    SumOfScaled(outcomes);
    DivideScaled(Sum(Seconds(outcomes)), Sum(TimesMs(outcomes)), |outcomes| as real, 1000.0);
  }

  /**
   * The progress bar's live mean depth after the last trial,
   * `runningDepthSum / numberSamples`, is the mean the summary of the move
   * samples reports.
   */
  lemma ProgressDepthMatchesSummary(outcomes: seq<TrialOutcome>)
    requires outcomes != []
    ensures Summary(Moves(outcomes)).value.mean == MovesTotal(outcomes) as real / (|outcomes| as real)
  {
    SummaryMean(Moves(outcomes));
    MovesTotalIsSum(outcomes);
  }

  /**
   * Every trial's move count is at least one, since splitting yields at
   * least one piece, so the mean depth of a row is at least one; each mean
   * is at most its max.
   */
  lemma DepthResultBounds(solver: Solver, depth: int, iterations: int)
    requires iterations >= 1
    ensures var row := DepthResult(solver, depth, iterations).value;
      && 1.0 <= row.meanDepth <= row.maxDepth
      && row.meanTime <= row.maxTime
  {
    var outcomes := Outcomes(solver, depth, iterations);
    DepthResultRow(solver, depth, iterations);
    SummaryOrdering(TimesMs(outcomes));
    SummaryOrdering(Moves(outcomes));
    forall k | 0 <= k < iterations
      ensures 1.0 <= Moves(outcomes)[k]
    {
      assert outcomes[k] == GetSolveStats(solver(depth, TimeoutSeconds, k));
    }
    SummaryMeanAtLeast(Moves(outcomes), 1.0);
  }
}
