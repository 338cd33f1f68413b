/** The failure that ends a run: an index into an empty sorted sequence. */
module Failures {

  datatype Error = EmptySequence

  datatype Result<T> = Success(value: T) | Failure(error: Error)
}

/**
 * `getSequenceStats`: min, max, median, mean and the population variance of
 * a sequence of samples. Python floats are modelled as `real`; the square
 * root the source takes of the variance is not modelled, so the summary
 * carries its argument, `squaredDeviationSum / len(sequence)`.
 */
module SequenceStatistics {
  import opened Sorting
  import opened Failures

  /** The source's result tuple, with the variance in place of its square root. */
  datatype SequenceStats = SequenceStats(min: real, max: real, median: real, mean: real, variance: real)

  /** The left-to-right running total of `s`, as `meanSum` accumulates it. */
  function Sum(s: seq<real>): real {
    if s == [] then 0.0 else Sum(s[..|s| - 1]) + s[|s| - 1]
  }

  /** The left-to-right total of the squared deviations of `s` from `m`; never negative. */
  function SquaredDeviationSum(s: seq<real>, m: real): (r: real)
    ensures r >= 0.0
  {
    if s == [] then 0.0
    else
      var d := s[|s| - 1] - m;
      SquaredDeviationSum(s[..|s| - 1], m) + d * d
  }

  /**
   * The median of a sorted sequence: the middle element when the length is
   * odd, the average of the two middle elements when it is even.
   */
  function Median(t: seq<real>): (r: real)
    requires |t| > 0
    ensures IsSorted(t) ==> t[0] <= r <= t[|t| - 1]
  {
    var n := |t|;
    if n % 2 == 0 then (t[n / 2] + t[n / 2 - 1]) / 2.0 else t[n / 2]
  }

  /** What `getSequenceStats` returns for `s`, or the failure it raises on an empty `s`. */
  function Summary(s: seq<real>): (r: Result<SequenceStats>)
    ensures r.Failure? <==> s == []
  {
    if s == [] then Failure(EmptySequence)
    else
      var t := Sort(s);
      var n := |s| as real;
      var mean := Sum(s) / n;
      Success(SequenceStats(t[0], t[|t| - 1], Median(t), mean, SquaredDeviationSum(s, mean) / n))
  }

  /** The first loop of `getSequenceStats`: the running total of the samples. */
  method AddSamples(sequence: seq<real>) returns (meanSum: real)
    ensures meanSum == Sum(sequence)
  {
    meanSum := 0.0;
    for i := 0 to |sequence|
      invariant meanSum == Sum(sequence[..i])
    {
      SumStep(sequence, i);
      meanSum := meanSum + sequence[i];
    }
    assert sequence[..|sequence|] == sequence;
  }

  /**
   * The second loop of `getSequenceStats`: the running total of the squared
   * deviations of the samples from `mean`, the value of `meanSum /
   * len(sequence)` that the source recomputes on every pass.
   */
  method AddSquaredDeviations(sequence: seq<real>, mean: real) returns (squaredDeviationSum: real)
    ensures squaredDeviationSum == SquaredDeviationSum(sequence, mean)
  {
    squaredDeviationSum := 0.0;
    for i := 0 to |sequence|
      invariant squaredDeviationSum == SquaredDeviationSum(sequence[..i], mean)
    {
      var deviation := sequence[i] - mean;
      SquaredDeviationStep(sequence, i, mean, deviation);
      squaredDeviationSum := squaredDeviationSum + deviation * deviation;
    }
    assert sequence[..|sequence|] == sequence;
  }

  /** `getSequenceStats`: two accumulation loops, a sort and the median selection. */
  method GetSequenceStats(sequence: seq<real>) returns (r: Result<SequenceStats>)
    ensures r == Summary(sequence)
  {
    var meanSum := AddSamples(sequence);
    var squaredDeviationSum := 0.0;
    if |sequence| > 0 {
      // With no samples the second loop makes no pass and divides by nothing.
      squaredDeviationSum := AddSquaredDeviations(sequence, meanSum / (|sequence| as real));
    }

    var sortedSequence := Sort(sequence);
    var n := |sequence|;
    var median: real;
    if n % 2 == 0 {
      // For n = 0 the source's `sortedSequence[0]` raises: there is no median.
      if n == 0 {
        return Failure(EmptySequence);
      }
      var upper := sortedSequence[n / 2];
      var lower := sortedSequence[n / 2 - 1];
      median := (upper + lower) / 2.0;
    } else {
      // `int(floor(n) / 2)` truncates n / 2 toward zero: index n / 2 for n >= 0.
      median := sortedSequence[n / 2];
    }
    assert median == Median(sortedSequence);
    SummaryFromParts(sequence, meanSum, squaredDeviationSum);
    r := Success(SequenceStats(
      sortedSequence[0],
      sortedSequence[n - 1],
      median,
      meanSum / (n as real),
      squaredDeviationSum / (n as real)));
  }

  /** Extending the running total by the next sample. */
  lemma SumStep(s: seq<real>, i: nat)
    requires i < |s|
    ensures Sum(s[..i + 1]) == Sum(s[..i]) + s[i]
  {
    assert s[..i + 1][..i] == s[..i];
  }

  /** Extending the running squared-deviation total by the next sample. */
  lemma SquaredDeviationStep(s: seq<real>, i: nat, m: real, d: real)
    requires i < |s| && d == s[i] - m
    ensures SquaredDeviationSum(s[..i + 1], m) == SquaredDeviationSum(s[..i], m) + d * d
  {
    assert s[..i + 1][..i] == s[..i];
  }

  /** The summary assembled from the sum, the squared deviations from the mean and the sorted copy. */
  lemma SummaryFromParts(s: seq<real>, total: real, squares: real)
    requires s != []
    requires total == Sum(s) && squares == SquaredDeviationSum(s, total / (|s| as real))
    ensures Summary(s) == Success(SequenceStats(
      Sort(s)[0], Sort(s)[|s| - 1], Median(Sort(s)), total / (|s| as real), squares / (|s| as real)))
  {
  }

  /** Dividing a bound on `n * x` by a positive `n`. */
  lemma DivideBounds(total: real, n: real, lo: real, hi: real)
    requires n > 0.0 && n * lo <= total <= n * hi
    ensures lo <= total / n <= hi
  {
  }

  /** Scaling the total scales the quotient. */
  lemma DivideScaled(total: real, scaled: real, n: real, c: real)
    requires n > 0.0 && scaled == total * c
    ensures scaled / n == total / n * c
  {
  }

  /** Dividing `n * c` by a positive `n` gives back `c`. */
  lemma DivideProduct(n: real, c: real)
    requires n > 0.0
    ensures (n * c) / n == c && 0.0 / n == 0.0
  {
  }

  /** A sum of terms that all lie in [lo, hi] lies in [|s| * lo, |s| * hi]. */
  lemma {:induction false} SumBounds(s: seq<real>, lo: real, hi: real)
    requires forall i :: 0 <= i < |s| ==> lo <= s[i] <= hi
    ensures (|s| as real) * lo <= Sum(s) <= (|s| as real) * hi
  {
    if s != [] {
      SumBounds(s[..|s| - 1], lo, hi);
      assert (|s| as real) * lo == ((|s| - 1) as real) * lo + lo;
      assert (|s| as real) * hi == ((|s| - 1) as real) * hi + hi;
    }
  }

  /** The sum of `n` copies of `c` is `n * c`, and their deviations from `c` sum to zero. */
  lemma {:induction false} ConstantSums(s: seq<real>, c: real)
    requires forall i :: 0 <= i < |s| ==> s[i] == c
    ensures Sum(s) == (|s| as real) * c
    ensures SquaredDeviationSum(s, c) == 0.0
  {
    if s != [] {
      ConstantSums(s[..|s| - 1], c);
      assert (|s| as real) * c == ((|s| - 1) as real) * c + c;
    }
  }

  /**
   * The reported min and max are elements of the input, and every element of
   * the input lies between them.
   */
  lemma SummaryExtrema(s: seq<real>)
    requires s != []
    ensures Summary(s).value.min in s && Summary(s).value.max in s
    ensures forall i :: 0 <= i < |s| ==> Summary(s).value.min <= s[i] <= Summary(s).value.max
  {
    SortedEndsAreExtrema(s);
  }

  /** The mean of terms that all lie in [lo, hi] lies in [lo, hi]. */
  lemma MeanBounds(s: seq<real>, lo: real, hi: real)
    requires s != []
    requires forall i :: 0 <= i < |s| ==> lo <= s[i] <= hi
    ensures lo <= Sum(s) / (|s| as real) <= hi
  {
    SumBounds(s, lo, hi);
    DivideBounds(Sum(s), |s| as real, lo, hi);
  }

  /** The mean of `n` copies of `c` is `c`. */
  lemma MeanOfConstant(s: seq<real>, c: real)
    requires s != []
    requires forall i :: 0 <= i < |s| ==> s[i] == c
    ensures Sum(s) / (|s| as real) == c
    ensures SquaredDeviationSum(s, c) / (|s| as real) == 0.0
  {
    ConstantSums(s, c);
    DivideProduct(|s| as real, c);
  }

  /** The reported mean is the sum divided by the number of samples. */
  lemma SummaryMean(s: seq<real>)
    requires s != []
    ensures Summary(s).value.mean == Sum(s) / (|s| as real)
  {
  }

  /** The mean of samples that are all at least `lo` is at least `lo`. */
  lemma SummaryMeanAtLeast(s: seq<real>, lo: real)
    requires s != []
    requires forall i :: 0 <= i < |s| ==> lo <= s[i]
    ensures Summary(s).value.mean >= lo
  {
    SummaryExtrema(s);
    MeanBounds(s, lo, Sort(s)[|s| - 1]);
  }

  /** For a non-empty input, min <= median <= max, min <= mean <= max, and the variance is not negative. */
  lemma SummaryOrdering(s: seq<real>)
    requires s != []
    ensures var st := Summary(s).value;
      st.min <= st.median <= st.max && st.min <= st.mean <= st.max && st.variance >= 0.0
  {
    SortedEndsAreExtrema(s);
    MeanBounds(s, Sort(s)[0], Sort(s)[|s| - 1]);
  }

  /**
   * When every sample has the same value `c`, all of min, max, median and
   * mean are `c` and the variance is zero; a single sample is the special
   * case `[x]`.
   */
  lemma SummaryOfConstant(s: seq<real>, c: real)
    requires s != []
    requires forall i :: 0 <= i < |s| ==> s[i] == c
    ensures Summary(s) == Success(SequenceStats(c, c, c, c, 0.0))
  {
    assert IsSorted(s);
    SortOfSorted(s);
    MeanOfConstant(s, c);
    SummaryFromParts(s, Sum(s), SquaredDeviationSum(s, c));
    assert Median(s) == c;
  }

  lemma SummaryOfSingleton(x: real)
    ensures Summary([x]) == Success(SequenceStats(x, x, x, x, 0.0))
  {
    SummaryOfConstant([x], x);
  }

  /** For an input already in ascending order the median is read off the input itself. */
  lemma MedianOfSortedInput(s: seq<real>)
    requires s != [] && IsSorted(s)
    ensures Summary(s).value.median == Median(s)
  {
    SortOfSorted(s);
  }

  /** Min, max and median do not depend on the order in which the samples arrive. */
  lemma SummaryIgnoresOrder(s: seq<real>, s': seq<real>)
    requires s != [] && multiset(s) == multiset(s')
    ensures s' != []
    ensures Summary(s).value.min == Summary(s').value.min
    ensures Summary(s).value.max == Summary(s').value.max
    ensures Summary(s).value.median == Summary(s').value.median
    ensures Summary(s).value.mean == Summary(s').value.mean
    ensures Summary(s).value.variance == Summary(s').value.variance
  {
    assert |s| == |multiset(s)| == |s'|;
    SortIgnoresOrder(s, s');
    SumIgnoresOrder(s, s');
    SquaredDeviationSumIgnoresOrder(s, s', Sum(s) / (|s| as real));
  }

  /** Totals over a concatenation add up. */
  lemma {:induction false} SumAppend(a: seq<real>, b: seq<real>)
    ensures Sum(a + b) == Sum(a) + Sum(b)
  {
    if b == [] {
      assert a + b == a;
    } else {
      assert (a + b)[..|a + b| - 1] == a + b[..|b| - 1];
      SumAppend(a, b[..|b| - 1]);
    }
  }

  /** Squared-deviation totals over a concatenation add up. */
  lemma {:induction false} SquaredDeviationSumAppend(a: seq<real>, b: seq<real>, m: real)
    ensures SquaredDeviationSum(a + b, m) == SquaredDeviationSum(a, m) + SquaredDeviationSum(b, m)
  {
    if b == [] {
      assert a + b == a;
    } else {
      assert (a + b)[..|a + b| - 1] == a + b[..|b| - 1];
      SquaredDeviationSumAppend(a, b[..|b| - 1], m);
    }
  }

  /**
   * A sample of `s'` that is the last sample of `s`: removing it from `s'`
   * leaves a permutation of the rest of `s`.
   */
  lemma RemoveLast(s: seq<real>, s': seq<real>) returns (j: nat)
    requires s != [] && multiset(s) == multiset(s')
    ensures j < |s'| && s'[j] == s[|s| - 1]
    ensures s' == s'[..j] + [s'[j]] + s'[j + 1..]
    ensures multiset(s[..|s| - 1]) == multiset(s'[..j] + s'[j + 1..])
  {
    var x := s[|s| - 1];
    assert s == s[..|s| - 1] + [x];
    assert x in multiset(s');
    j :| 0 <= j < |s'| && s'[j] == x;
    assert s' == s'[..j] + [x] + s'[j + 1..];
    assert multiset(s'[..j] + s'[j + 1..]) == multiset(s') - multiset{x};
  }

  /** The total of the samples does not depend on their order. */
  lemma {:induction false} SumIgnoresOrder(s: seq<real>, s': seq<real>)
    requires multiset(s) == multiset(s')
    ensures Sum(s) == Sum(s')
    decreases |s|
  {
    if s == [] {
      assert |s'| == |multiset(s')| == 0;
    } else {
      var j := RemoveLast(s, s');
      var before, after := s'[..j], s'[j + 1..];
      SumIgnoresOrder(s[..|s| - 1], before + after);
      SumAppend(before + [s'[j]], after);
      SumAppend(before, [s'[j]]);
      SumAppend(before, after);
      assert s == s[..|s| - 1] + [s'[j]];
      SumAppend(s[..|s| - 1], [s'[j]]);
    }
  }

  /** The squared deviations from a fixed mean do not depend on the order of the samples. */
  lemma {:induction false} SquaredDeviationSumIgnoresOrder(s: seq<real>, s': seq<real>, m: real)
    requires multiset(s) == multiset(s')
    ensures SquaredDeviationSum(s, m) == SquaredDeviationSum(s', m)
    decreases |s|
  {
    if s == [] {
      assert |s'| == |multiset(s')| == 0;
    } else {
      var j := RemoveLast(s, s');
      var before, after := s'[..j], s'[j + 1..];
      SquaredDeviationSumIgnoresOrder(s[..|s| - 1], before + after, m);
      SquaredDeviationSumAppend(before + [s'[j]], after, m);
      SquaredDeviationSumAppend(before, [s'[j]], m);
      SquaredDeviationSumAppend(before, after, m);
      assert s == s[..|s| - 1] + [s'[j]];
      SquaredDeviationSumAppend(s[..|s| - 1], [s'[j]], m);
    }
  }

  /**
   * Worked medians on sorted samples: an even length averages the two middle
   * elements (positions 1 and 2 for n = 4), an odd length takes the middle
   * one (position 1 for n = 3, position 0 for n = 1).
   */
  lemma MedianExamples()
    ensures Median([1.0, 2.0, 3.0, 4.0]) == 2.5
    ensures Median([1.0, 2.0]) == 1.5
    ensures Median([1.0, 2.0, 3.0]) == 2.0
    ensures Median([7.0]) == 7.0
  {
  }

  /** Four equal samples have zero variance. */
  lemma VarianceOfEqualSamples()
    ensures Summary([2.0, 2.0, 2.0, 2.0]).value.variance == 0.0
  {
    SummaryOfConstant([2.0, 2.0, 2.0, 2.0], 2.0);
  }
}
