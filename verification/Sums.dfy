/** Sums, averages and extremes of sequences of reals. */
module Sums {

  function Sum(s: seq<real>): real {
    if s == [] then 0.0 else Sum(s[..|s| - 1]) + s[|s| - 1]
  }

  function Max(s: seq<real>): (m: real)
    requires s != []
    ensures m in s && forall i | 0 <= i < |s| :: s[i] <= m
  {
    if |s| == 1 then s[0]
    else
      assert s == s[..|s| - 1] + [s[|s| - 1]];
      var front := Max(s[..|s| - 1]);
      if s[|s| - 1] > front then s[|s| - 1] else front
  }

  function Min(s: seq<real>): (m: real)
    requires s != []
    ensures m in s && forall i | 0 <= i < |s| :: m <= s[i]
  {
    if |s| == 1 then s[0]
    else
      assert s == s[..|s| - 1] + [s[|s| - 1]];
      var front := Min(s[..|s| - 1]);
      if s[|s| - 1] < front then s[|s| - 1] else front
  }

  function Average(s: seq<real>): real
    requires s != []
  {
    Sum(s) / (|s| as real)
  }

  lemma {:induction false} SumConcat(a: seq<real>, b: seq<real>)
    ensures Sum(a + b) == Sum(a) + Sum(b)
  {
    if b == [] {
      assert a + b == a;
    } else {
      SumConcat(a, b[..|b| - 1]);
      assert (a + b)[..|a + b| - 1] == a + b[..|b| - 1];
    }
  }

  lemma {:induction false} SumBounds(s: seq<real>, lo: real, hi: real)
    requires forall i | 0 <= i < |s| :: lo <= s[i] <= hi
    ensures lo * (|s| as real) <= Sum(s) <= hi * (|s| as real)
  {
    if s != [] {
      SumBounds(s[..|s| - 1], lo, hi);
      var n := |s[..|s| - 1]| as real;
      assert (|s| as real) == n + 1.0;
      assert lo * (n + 1.0) == lo * n + lo && hi * (n + 1.0) == hi * n + hi;
    }
  }

  lemma QuotientTimes(x: real, n: real)
    requires n > 0.0
    ensures (x / n) * n == x
  {
  }

  lemma Cancel(q: real, n: real, bound: real)
    requires n > 0.0
    ensures q * n >= bound * n ==> q >= bound
    ensures q * n <= bound * n ==> q <= bound
  {
    assert (q - bound) * n == q * n - bound * n;
    assert q < bound ==> (q - bound) * n < 0.0;
    assert q > bound ==> (q - bound) * n > 0.0;
  }

  lemma QuotientBounds(x: real, n: real, lo: real, hi: real)
    requires n > 0.0 && lo * n <= x <= hi * n
    ensures lo <= x / n <= hi && x / n * n == x
  {
    QuotientTimes(x, n);
    Cancel(x / n, n, lo);
    Cancel(x / n, n, hi);
  }

  /** An average lies between any bounds on the elements, and stands for its sum. */
  lemma AverageWithin(s: seq<real>, lo: real, hi: real)
    requires s != [] && forall i | 0 <= i < |s| :: lo <= s[i] <= hi
    ensures lo <= Average(s) <= hi
    ensures Average(s) * (|s| as real) == Sum(s)
  {
    SumBounds(s, lo, hi);
    QuotientBounds(Sum(s), |s| as real, lo, hi);
  }

  /** An average lies between the extremes, and stands for its sum. */
  lemma AverageBounds(s: seq<real>)
    requires s != []
    ensures Min(s) <= Average(s) <= Max(s)
    ensures Average(s) * (|s| as real) == Sum(s)
  {
    AverageWithin(s, Min(s), Max(s));
  }

  /** A value repeated. */
  function Times(x: real, n: nat): real {
    x * (n as real)
  }

  lemma AverageStandsForSum(s: seq<real>)
    requires s != []
    ensures Times(Average(s), |s|) == Sum(s)
  {
    QuotientTimes(Sum(s), |s| as real);
  }

  lemma FrontAndRun(s: seq<real>, lo: nat, hi: nat)
    requires lo < hi <= |s|
    ensures Sum(s[..hi]) == Sum(s[..lo]) + Sum(s[lo..hi])
  {
    assert s[..hi] == s[..lo] + s[lo..hi];
    SumConcat(s[..lo], s[lo..hi]);
  }
}
