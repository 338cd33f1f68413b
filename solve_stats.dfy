/**
 * `getSolveStats`: one timed solver call. The solver and the clock are
 * outside the model; what is modelled is how their results are turned into
 * a trial outcome: the move count is the number of tokens of the solver's
 * output split at single spaces, and the solve time is the difference of the
 * two clock readings taken around the call.
 */
module SolveStats {

  /** What the outside world hands back for one trial: the solver's output and the clock readings around the call. */
  datatype SolverRun = SolverRun(solution: string, startTime: real, endTime: real)

  /** One trial's outcome, as the pair `(moves, seconds)` that `getSolveStats` returns. */
  datatype TrialOutcome = TrialOutcome(moves: nat, seconds: real)

  /** The number of occurrences of `c` in `s`. */
  function Occurrences(s: string, c: char): nat {
    if s == [] then 0 else (if s[0] == c then 1 else 0) + Occurrences(s[1..], c)
  }

  /**
   * Python's `s.split(sep)` with an explicit one-character separator: the
   * pieces between consecutive separators, empty pieces included, so that
   * the empty string splits into one empty piece.
   */
  function Split(s: string, sep: char): (parts: seq<string>)
    ensures |parts| >= 1
    ensures forall k :: 0 <= k < |parts| ==> sep !in parts[k]
  {
    if s == [] then [""]
    else
      var rest := Split(s[1..], sep);
      if s[0] == sep then [""] + rest
      else [[s[0]] + rest[0]] + rest[1..]
  }

  /** Python's `sep.join(parts)`. */
  function Join(parts: seq<string>, sep: char): string
    requires |parts| >= 1
  {
    if |parts| == 1 then parts[0] else parts[0] + [sep] + Join(parts[1..], sep)
  }

  /** Splitting yields one piece more than there are separators. */
  lemma {:induction false} SplitCount(s: string, sep: char)
    ensures |Split(s, sep)| == Occurrences(s, sep) + 1
  {
    if s != [] {
      SplitCount(s[1..], sep);
    }
  }

  /** Joining the pieces with the separator gives back the original string. */
  lemma {:induction false} JoinSplit(s: string, sep: char)
    ensures Join(Split(s, sep), sep) == s
  {
    if s != [] {
      JoinSplit(s[1..], sep);
      var rest := Split(s[1..], sep);
      if s[0] != sep {
        if |rest| == 1 {
          assert Join(Split(s, sep), sep) == [s[0]] + rest[0];
        } else {
          assert ([s[0]] + rest[0]) + [sep] + Join(rest[1..], sep) == [s[0]] + Join(rest, sep);
        }
      }
      assert s == [s[0]] + s[1..];
    }
  }

  /**
   * `getSolveStats`: the solver's output counted as space-separated tokens
   * and the elapsed time between the two clock readings.
   */
  function GetSolveStats(run: SolverRun): (outcome: TrialOutcome)
    ensures outcome.moves == Occurrences(run.solution, ' ') + 1
    ensures outcome.seconds == run.endTime - run.startTime
  {
    SplitCount(run.solution, ' ');
    TrialOutcome(|Split(run.solution, ' ')|, run.endTime - run.startTime)
  }
}
