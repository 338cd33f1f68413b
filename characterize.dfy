/**
 * The body of `entryPoint`: `characterizeDepth` for every goal depth from
 * `minGoalDepth` to `maxGoalDepth`, each appending one row to the per-depth
 * lists, then the composite-time projection over those lists.
 *
 * The lists that `entryPoint` creates and its nested `characterizeDepth`
 * appends to are the fields of a `Characterization` object.
 */
module Characterize {
  import opened Failures
  import opened DepthSampling

  /** `range(lo, hi + 1)`: the goal depths from `lo` to `hi` in ascending order. */
  function Range(lo: int, hi: int): (r: seq<int>)
    ensures |r| == if lo <= hi then hi - lo + 1 else 0
    ensures forall k :: 0 <= k < |r| ==> r[k] == lo + k
    decreases hi - lo
  {
    if lo > hi then [] else Range(lo, hi - 1) + [hi]
  }

  /** The range holds exactly the integers from `lo` to `hi`, each once, ascending. */
  lemma RangeContents(lo: int, hi: int)
    ensures forall d :: d in Range(lo, hi) <==> lo <= d <= hi
    ensures forall i, j :: 0 <= i < j < |Range(lo, hi)| ==> Range(lo, hi)[i] < Range(lo, hi)[j]
  {
    var r := Range(lo, hi);
    forall d | lo <= d <= hi
      ensures d in r
    {
      assert r[d - lo] == d;
    }
  }

  /**
   * The projected completion time in milliseconds: `moves` moves at
   * `timeSecondsPerMove` seconds each, plus `solveMs` of solver time.
   */
  function CombinedTime(moves: real, solveMs: real, timeSecondsPerMove: real): real {
    moves * (timeSecondsPerMove * 1000.0) + solveMs
  }

  /** With a non-negative time per move, more moves and more solve time never project a shorter time. */
  lemma CombinedTimeMonotone(moves: real, solveMs: real, moves': real, solveMs': real, timeSecondsPerMove: real)
    requires timeSecondsPerMove >= 0.0 && moves <= moves' && solveMs <= solveMs'
    ensures CombinedTime(moves, solveMs, timeSecondsPerMove) <= CombinedTime(moves', solveMs', timeSecondsPerMove)
  {
    assert moves * (timeSecondsPerMove * 1000.0) <= moves' * (timeSecondsPerMove * 1000.0);
  }

  /**
   * The per-depth lists are aligned, and each row is the summary of the
   * trials at the goal depth in the same position.
   */
  ghost predicate RowsMatch(solver: Solver, iterations: int, goalDepths: seq<int>,
                            meanTime: seq<real>, maxTime: seq<real>, meanDepth: seq<real>, maxDepth: seq<real>) {
    && |meanTime| == |goalDepths| && |maxTime| == |goalDepths|
    && |meanDepth| == |goalDepths| && |maxDepth| == |goalDepths|
    && forall k {:trigger DepthResult(solver, goalDepths[k], iterations)} :: 0 <= k < |goalDepths| ==>
         DepthResult(solver, goalDepths[k], iterations)
           == Success(DepthRow(meanTime[k], maxTime[k], meanDepth[k], maxDepth[k]))
  }

  /** Appending the row of a further goal depth keeps the lists matched. */
  lemma RowsMatchAppend(solver: Solver, iterations: int, goalDepths: seq<int>,
                        meanTime: seq<real>, maxTime: seq<real>, meanDepth: seq<real>, maxDepth: seq<real>,
                        depth: int, row: DepthRow)
    requires RowsMatch(solver, iterations, goalDepths, meanTime, maxTime, meanDepth, maxDepth)
    requires DepthResult(solver, depth, iterations) == Success(row)
    ensures RowsMatch(solver, iterations, goalDepths + [depth], meanTime + [row.meanTime], maxTime + [row.maxTime],
                      meanDepth + [row.meanDepth], maxDepth + [row.maxDepth])
  {
  }

  /** The lists `entryPoint` holds at its end. */
  datatype Report = Report(
    goalDepths: seq<int>,
    meanTime: seq<real>,
    maxTime: seq<real>,
    meanDepth: seq<real>,
    maxDepth: seq<real>,
    combinedTimes: seq<real>,
    combinedMaxTimes: seq<real>)

  /**
   * `report` is what a run over the goal depths `lo..hi` yields: one entry
   * per depth in every list, each row the summary of that depth's trials,
   * and each composite time computed from the row at the same position.
   */
  ghost predicate Describes(report: Report, solver: Solver, iterations: int, timeSecondsPerMove: real, lo: int, hi: int) {
    && report.goalDepths == Range(lo, hi)
    && |report.combinedTimes| == |report.combinedMaxTimes| == |report.goalDepths|
    && RowsMatch(solver, iterations, report.goalDepths, report.meanTime, report.maxTime, report.meanDepth, report.maxDepth)
    && (forall k :: 0 <= k < |report.goalDepths| ==>
          && report.combinedTimes[k] == CombinedTime(report.meanDepth[k], report.meanTime[k], timeSecondsPerMove)
          && report.combinedMaxTimes[k] == CombinedTime(report.maxDepth[k], report.maxTime[k], timeSecondsPerMove))
  }

  /** The frame of `entryPoint`: its settings and the lists it builds. */
  class Characterization {
    const iterations: int
    const timeSecondsPerMove: real
    const solver: Solver

    var meanTime: seq<real>
    var maxTime: seq<real>
    var meanDepth: seq<real>
    var maxDepth: seq<real>
    var goalDepths: seq<int>
    var combinedTimes: seq<real>
    var combinedMaxTimes: seq<real>

    /** The per-depth lists stay aligned, and each row summarises the trials at its goal depth. */
    ghost predicate Valid()
      reads this
    {
      RowsMatch(solver, iterations, goalDepths, meanTime, maxTime, meanDepth, maxDepth)
    }

    constructor (iterations: int, timeSecondsPerMove: real, solver: Solver)
      ensures Valid()
      ensures this.iterations == iterations && this.timeSecondsPerMove == timeSecondsPerMove && this.solver == solver
      ensures goalDepths == [] && meanTime == [] && maxTime == [] && meanDepth == [] && maxDepth == []
      ensures combinedTimes == [] && combinedMaxTimes == []
    {
      this.iterations := iterations;
      this.timeSecondsPerMove := timeSecondsPerMove;
      this.solver := solver;
      meanTime, maxTime, meanDepth, maxDepth := [], [], [], [];
      goalDepths := [];
      combinedTimes, combinedMaxTimes := [], [];
    }

    /**
     * `characterizeDepth`: run the trials at `depth`, summarise both sample
     * sequences and append one row. Fails, appending nothing, when no trial
     * ran: the summary of an empty sequence raises. The appended row is
     * fixed by `Valid()`: it is the summary of the trials at `depth`.
     */
    method CharacterizeDepth(depth: int) returns (ok: bool)
      requires Valid()
      modifies this
      ensures Valid()
      ensures ok <==> iterations >= 1
      ensures ok ==> goalDepths == old(goalDepths) + [depth]
      ensures !ok ==> (goalDepths == old(goalDepths) && meanTime == old(meanTime) && maxTime == old(maxTime)
        && meanDepth == old(meanDepth) && maxDepth == old(maxDepth))
      ensures combinedTimes == old(combinedTimes) && combinedMaxTimes == old(combinedMaxTimes)
    {
      var result := SampleDepth(solver, depth, iterations);
      if result.Failure? {
        return false;
      }
      var row := result.value;
      RowsMatchAppend(solver, iterations, goalDepths, meanTime, maxTime, meanDepth, maxDepth, depth, row);
      meanTime := meanTime + [row.meanTime];
      maxTime := maxTime + [row.maxTime];
      meanDepth := meanDepth + [row.meanDepth];
      maxDepth := maxDepth + [row.maxDepth];
      goalDepths := goalDepths + [depth];
      ok := true;
    }

    /**
     * The depth loop: `characterizeDepth(i)` for `i` in `range(minGoalDepth,
     * maxGoalDepth + 1)`. The first failing depth ends the run, and since
     * every depth runs the same number of trials that is the first depth.
     */
    method CharacterizeRange(minGoalDepth: int, maxGoalDepth: int) returns (ok: bool)
      requires Valid()
      modifies this
      ensures Valid()
      ensures ok <==> minGoalDepth > maxGoalDepth || iterations >= 1
      ensures ok ==> goalDepths == old(goalDepths) + Range(minGoalDepth, maxGoalDepth)
      ensures !ok ==> (goalDepths == old(goalDepths) && meanTime == old(meanTime) && maxTime == old(maxTime)
        && meanDepth == old(meanDepth) && maxDepth == old(maxDepth))
      ensures combinedTimes == old(combinedTimes) && combinedMaxTimes == old(combinedMaxTimes)
    {
      var i := minGoalDepth;
      while i <= maxGoalDepth
        invariant Valid()
        invariant minGoalDepth <= maxGoalDepth ==> minGoalDepth <= i <= maxGoalDepth + 1
        invariant minGoalDepth > maxGoalDepth ==> i == minGoalDepth
        invariant i > minGoalDepth ==> iterations >= 1
        invariant goalDepths == old(goalDepths) + Range(minGoalDepth, i - 1)
        invariant i == minGoalDepth ==> (meanTime == old(meanTime) && maxTime == old(maxTime)
          && meanDepth == old(meanDepth) && maxDepth == old(maxDepth))
        invariant combinedTimes == old(combinedTimes) && combinedMaxTimes == old(combinedMaxTimes)
        decreases maxGoalDepth - i
      {
        var depthOk := CharacterizeDepth(i);
        if !depthOk {
          return false;
        }
        i := i + 1;
      }
      ok := true;
    }

    /** The composite-time loop over the recorded depths. */
    method CombineTimes()
      requires Valid()
      modifies this`combinedTimes, this`combinedMaxTimes
      ensures Valid()
      ensures |combinedTimes| == |goalDepths| && |combinedMaxTimes| == |goalDepths|
      ensures forall k :: 0 <= k < |goalDepths| ==>
        && combinedTimes[k] == CombinedTime(meanDepth[k], meanTime[k], timeSecondsPerMove)
        && combinedMaxTimes[k] == CombinedTime(maxDepth[k], maxTime[k], timeSecondsPerMove)
    {
      combinedTimes := [];
      combinedMaxTimes := [];
      for i := 0 to |goalDepths|
        invariant Valid()
        invariant |combinedTimes| == i && |combinedMaxTimes| == i
        invariant forall k :: 0 <= k < i ==>
          && combinedTimes[k] == CombinedTime(meanDepth[k], meanTime[k], timeSecondsPerMove)
          && combinedMaxTimes[k] == CombinedTime(maxDepth[k], maxTime[k], timeSecondsPerMove)
      {
        combinedTimes := combinedTimes + [(meanDepth[i] * (timeSecondsPerMove * 1000.0)) + meanTime[i]];
        combinedMaxTimes := combinedMaxTimes + [(maxDepth[i] * (timeSecondsPerMove * 1000.0)) + maxTime[i]];
      }
    }
  }

  /**
   * `entryPoint` without its I/O: characterise every goal depth from
   * `minGoalDepth` to `maxGoalDepth`, then project the composite times.
   * The run fails exactly when there is a depth to characterise but no
   * trial to run at it.
   */
  method EntryPoint(iterations: int, timeSecondsPerMove: real, minGoalDepth: int, maxGoalDepth: int, solver: Solver)
    returns (r: Result<Report>)
    ensures r.Failure? <==> minGoalDepth <= maxGoalDepth && iterations < 1
    ensures r.Success? ==> Describes(r.value, solver, iterations, timeSecondsPerMove, minGoalDepth, maxGoalDepth)
  {
    var c := new Characterization(iterations, timeSecondsPerMove, solver);
    var ok := c.CharacterizeRange(minGoalDepth, maxGoalDepth);
    if !ok {
      return Failure(EmptySequence);
    }
    c.CombineTimes();
    r := Success(Report(c.goalDepths, c.meanTime, c.maxTime, c.meanDepth, c.maxDepth,
                        c.combinedTimes, c.combinedMaxTimes));
  }

  /** A run's report is determined by its inputs: two reports that describe the same run are equal. */
  lemma DescribesUnique(a: Report, b: Report, solver: Solver, iterations: int, timeSecondsPerMove: real, lo: int, hi: int)
    requires Describes(a, solver, iterations, timeSecondsPerMove, lo, hi)
    requires Describes(b, solver, iterations, timeSecondsPerMove, lo, hi)
    ensures a == b
  {
    var n := |a.goalDepths|;
    forall k | 0 <= k < n
      ensures a.meanTime[k] == b.meanTime[k] && a.maxTime[k] == b.maxTime[k]
      ensures a.meanDepth[k] == b.meanDepth[k] && a.maxDepth[k] == b.maxDepth[k]
    {
      assert DepthResult(solver, a.goalDepths[k], iterations) == DepthResult(solver, b.goalDepths[k], iterations);
    }
  }

  /**
   * In every row of a report the mean depth is at least one move and at
   * most the max depth, the mean time is at most the max time, and, with a
   * non-negative time per move, the mean projection is at most the
   * worst-case projection.
   */
  lemma ReportRowBounds(report: Report, solver: Solver, iterations: int, timeSecondsPerMove: real, lo: int, hi: int, k: int)
    requires Describes(report, solver, iterations, timeSecondsPerMove, lo, hi)
    requires 0 <= k < |report.goalDepths|
    ensures 1.0 <= report.meanDepth[k] <= report.maxDepth[k]
    ensures report.meanTime[k] <= report.maxTime[k]
    ensures timeSecondsPerMove >= 0.0 ==> report.combinedTimes[k] <= report.combinedMaxTimes[k]
  {
    assert DepthResult(solver, report.goalDepths[k], iterations).Success?;
    DepthResultBounds(solver, report.goalDepths[k], iterations);
    if timeSecondsPerMove >= 0.0 {
      CombinedTimeMonotone(report.meanDepth[k], report.meanTime[k], report.maxDepth[k], report.maxTime[k], timeSecondsPerMove);
    }
  }
}
