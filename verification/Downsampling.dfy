/** Reducing a time series by bucket averages, in exact arithmetic. */
module Downsampling {
  import opened Sums

  /** Where bucket `i` of `m` starts in a series of length `n`. */
  function BucketStart(i: nat, n: nat, m: nat): nat
    requires m > 0
  {
    i * n / m
  }

  lemma Scale(x: nat, y: nat, m: nat)
    requires x <= y
    ensures x * m <= y * m
  {
  }

  lemma DivisionBounds(x: nat, m: nat)
    requires m > 0
    ensures (x / m) * m <= x < (x / m + 1) * m
  {
    assert x == m * (x / m) + x % m;
  }

  lemma AtLeastQuotient(x: nat, m: nat, q: nat)
    requires m > 0 && q * m <= x
    ensures q <= x / m
  {
    DivisionBounds(x, m);
    if x / m + 1 <= q {
      Scale(x / m + 1, q, m);
    }
  }

  lemma DivisionStep(a: nat, d: nat, m: nat)
    requires m > 0 && d >= m
    ensures a / m < (a + d) / m
  {
    DivisionBounds(a, m);
    assert (a / m + 1) * m == (a / m) * m + m;
    AtLeastQuotient(a + d, m, a / m + 1);
  }

  lemma LessThanQuotient(x: nat, m: nat, q: nat)
    requires m > 0 && x < q * m
    ensures x / m < q
  {
    DivisionBounds(x, m);
    if q <= x / m {
      Scale(q, x / m, m);
    }
  }

  lemma QuotientOfSum(a: nat, d: nat, m: nat, p: nat, q: nat)
    requires m > 0 && p == a / m && q == d / m
    ensures p + q <= (a + d) / m <= p + q + 1
  {
    DivisionBounds(a, m);
    DivisionBounds(d, m);
    assert (p + q) * m == p * m + q * m;
    assert (p + q + 2) * m == (p + 1) * m + (q + 1) * m;
    AtLeastQuotient(a + d, m, p + q);
    LessThanQuotient(a + d, m, p + q + 2);
  }

  /** Bucket lengths differ by at most one from each other. */
  lemma BucketsAreBalanced(i: nat, n: nat, m: nat)
    requires m > 0
    ensures n / m <= BucketStart(i + 1, n, m) - BucketStart(i, n, m) <= n / m + 1
  {
    assert (i + 1) * n == i * n + n;
    QuotientOfSum(i * n, n, m, i * n / m, n / m);
  }

  lemma BucketIsNonEmpty(i: nat, n: nat, m: nat)
    requires 0 < m < n
    ensures BucketStart(i, n, m) < BucketStart(i + 1, n, m)
  {
    assert (i + 1) * n == i * n + n;
    DivisionStep(i * n, n, m);
  }

  lemma BucketsEnd(n: nat, m: nat)
    requires m > 0
    ensures BucketStart(0, n, m) == 0 && BucketStart(m, n, m) == n
  {
    assert 0 * n == 0;
    var whole := m * n;
    assert whole == n * m;
    AtLeastQuotient(whole, m, n);
    DivisionBounds(whole, m);
    if n + 1 <= whole / m {
      Scale(n + 1, whole / m, m);
    }
  }

  /** Positions that cut a series of length `n` into contiguous, non-empty runs covering it. */
  predicate Cuts(starts: seq<nat>, n: nat) {
    && |starts| >= 2 && starts[0] == 0 && starts[|starts| - 1] == n
    && forall i: nat | i < |starts| - 1 :: IsRun(starts, i, n)
  }

  /** The run from position `i` to the next is not empty and lies in a series of length `n`. */
  predicate IsRun(starts: seq<nat>, i: nat, n: nat)
    requires i < |starts| - 1
  {
    starts[i] < starts[i + 1] <= n
  }

  function Boundaries(n: nat, m: nat): seq<nat>
    requires m > 0
  {
    seq(m + 1, i requires 0 <= i <= m => BucketStart(i, n, m))
  }

  lemma {:induction false} BoundariesFit(n: nat, m: nat, i: nat)
    requires 0 < m < n && i <= m
    ensures BucketStart(i, n, m) <= n
    decreases m - i
  {
    if i == m {
      BucketsEnd(n, m);
    } else {
      BucketIsNonEmpty(i, n, m);
      BoundariesFit(n, m, i + 1);
    }
  }

  /** The bucket boundaries partition the series: contiguous, non-empty, covering. */
  lemma BoundariesCut(n: nat, m: nat)
    requires 0 < m < n
    ensures Cuts(Boundaries(n, m), n)
  {
    BucketsEnd(n, m);
    forall i: nat | i < m ensures IsRun(Boundaries(n, m), i, n) {
      BucketIsNonEmpty(i, n, m);
      BoundariesFit(n, m, i + 1);
    }
  }

  function Run(src: seq<real>, starts: seq<nat>, k: nat): (r: seq<real>)
    requires Cuts(starts, |src|) && k < |starts| - 1
    ensures r != []
  {
    assert IsRun(starts, k, |src|);
    src[starts[k]..starts[k + 1]]
  }

  function Averages(src: seq<real>, starts: seq<nat>): (r: seq<real>)
    requires Cuts(starts, |src|)
    ensures |r| == |starts| - 1
  {
    seq(|starts| - 1, i requires 0 <= i < |starts| - 1 => Average(Run(src, starts, i)))
  }

  function Downsample(src: seq<real>, maxPoints: nat): (r: seq<real>)
    requires maxPoints > 0
    ensures |r| == if |src| <= maxPoints then |src| else maxPoints
  {
    if |src| <= maxPoints then src
    else
      BoundariesCut(|src|, maxPoints);
      Averages(src, Boundaries(|src|, maxPoints))
  }

  method RunDownsample(src: seq<real>, maxPoints: nat) returns (result: seq<real>)
    requires maxPoints > 0
    ensures result == Downsample(src, maxPoints)
  {
    if |src| <= maxPoints {
      return src;
    }
    ghost var starts := Boundaries(|src|, maxPoints);
    BoundariesCut(|src|, maxPoints);
    result := [];
    for i := 0 to maxPoints
      invariant |result| == i
      invariant forall k | 0 <= k < i :: result[k] == Average(Run(src, starts, k))
    {
      assert IsRun(starts, i, |src|);
      var average := AverageBetween(src, i * |src| / maxPoints, (i + 1) * |src| / maxPoints, Run(src, starts, i));
      result := result + [average];
    }
  }

  method AverageBetween(src: seq<real>, start: nat, stop: nat, ghost run: seq<real>) returns (average: real)
    requires start < stop <= |src| && run == src[start..stop]
    ensures average == Average(run)
  {
    var end := if stop < |src| then stop else |src|;
    var sum := 0.0;
    for j := start to end
      invariant sum == Sum(src[start..j])
    {
      assert src[start..j + 1][..j - start] == src[start..j];
      sum := sum + src[j];
    }
    average := sum / ((end - start) as real);
  }

  /** The output for run `k`, counted once per element it stands for. */
  function Weighted(src: seq<real>, starts: seq<nat>, k: nat): real
    requires Cuts(starts, |src|) && k < |starts| - 1
  {
    Times(Averages(src, starts)[k], |Run(src, starts, k)|)
  }

  /** The outputs of the first `k` runs, each counted once per element it stands for. */
  function WeightedSum(src: seq<real>, starts: seq<nat>, k: nat): real
    requires Cuts(starts, |src|) && k < |starts|
  {
    if k == 0 then 0.0 else WeightedSum(src, starts, k - 1) + Weighted(src, starts, k - 1)
  }

  lemma WeightedRun(src: seq<real>, starts: seq<nat>, k: nat)
    requires Cuts(starts, |src|) && k < |starts| - 1
    ensures starts[k] < starts[k + 1] <= |src|
    ensures Sum(src[..starts[k + 1]]) == Sum(src[..starts[k]]) + Weighted(src, starts, k)
  {
    assert IsRun(starts, k, |src|);
    AverageStandsForSum(Run(src, starts, k));
    FrontAndRun(src, starts[k], starts[k + 1]);
  }

  lemma {:induction false} WeightedSumIsPrefixSum(src: seq<real>, starts: seq<nat>, k: nat)
    requires Cuts(starts, |src|) && k < |starts|
    ensures starts[k] <= |src| && WeightedSum(src, starts, k) == Sum(src[..starts[k]])
  {
    if k == 0 {
      assert src[..starts[0]] == [];
    } else {
      var j: nat := k - 1;
      WeightedSumIsPrefixSum(src, starts, j);
      WeightedRun(src, starts, j);
      WeightedSumStep(src, starts, j);
    }
  }

  lemma WeightedSumStep(src: seq<real>, starts: seq<nat>, j: nat)
    requires Cuts(starts, |src|) && j < |starts| - 1
    ensures WeightedSum(src, starts, j + 1) == WeightedSum(src, starts, j) + Weighted(src, starts, j)
  {
  }

  /** A value that stands for a run: its mean, and so within its extremes. */
  ghost predicate StandsFor(value: real, run: seq<real>) {
    run != [] && Min(run) <= value <= Max(run) && Times(value, |run|) == Sum(run)
  }

  lemma AverageStandsFor(run: seq<real>)
    requires run != []
    ensures StandsFor(Average(run), run)
  {
    AverageBounds(run);
    AverageStandsForSum(run);
  }

  lemma AveragesStandForRuns(src: seq<real>, starts: seq<nat>)
    requires Cuts(starts, |src|)
    ensures forall i: nat | i < |starts| - 1 :: StandsFor(Averages(src, starts)[i], Run(src, starts, i))
  {
    forall i: nat | i < |starts| - 1 ensures StandsFor(Averages(src, starts)[i], Run(src, starts, i)) {
      AverageStandsFor(Run(src, starts, i));
    }
  }

  lemma WeightedSumIsSum(src: seq<real>, starts: seq<nat>, m: nat)
    requires Cuts(starts, |src|) && m == |starts| - 1
    ensures WeightedSum(src, starts, m) == Sum(src)
  {
    WeightedSumIsPrefixSum(src, starts, m);
    WholeSum(src, starts[m]);
  }

  lemma WholeSum(src: seq<real>, n: nat)
    requires n == |src|
    ensures Sum(src[..n]) == Sum(src)
  {
    assert src[..n] == src;
  }

  /**
   * A reduced series loses nothing on the whole: the buckets partition the input, every output is
   * the mean of its own bucket and so within its extremes, and the outputs weighted by bucket length
   * add up to the input.
   */
  lemma DownsamplePreservesTheSeries(src: seq<real>, m: nat)
    requires 0 < m < |src|
    ensures |Downsample(src, m)| == m
    ensures var starts := Boundaries(|src|, m);
      && Cuts(starts, |src|)
      && (forall i: nat | i < m :: StandsFor(Downsample(src, m)[i], Run(src, starts, i)))
      && WeightedSum(src, starts, m) == Sum(src)
  {
    var starts := Boundaries(|src|, m);
    BoundariesCut(|src|, m);
    AveragesStandForRuns(src, starts);
    WeightedSumIsSum(src, starts, m);
  }
}
