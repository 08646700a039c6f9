/** The sample statistics the simulators report: `statistics.mean`, `statistics.stdev`
    (the n - 1 sample form) and the 95% normal-approximation margin 1.96 * stdev / sqrt(n).
    The margin is carried as its square, 1.96^2 * variance / n, so that no square root is
    needed. */
module SampleStats {
  import opened Sums
  import opened RealArith

  /** A point estimate with its squared 95% margin. */
  datatype Estimate = Estimate(mean: real, marginSquared: real)

  function Mean(xs: seq<real>): (m: real)
    requires |xs| > 0
    ensures m * |xs| as real == Sum(xs)
  {
    Sum(xs) / |xs| as real
  }

  /** A sample whose values all lie in [lo, hi] has its mean in [lo, hi]: the mean of
      non-negative waits is non-negative, and it never exceeds the largest sample. */
  lemma MeanBetween(xs: seq<real>, lo: real, hi: real)
    requires |xs| > 0 && forall i :: 0 <= i < |xs| ==> lo <= xs[i] <= hi
    ensures lo <= Mean(xs) <= hi
  {
    SumBetween(xs, lo, hi);
    var n := |xs| as real;
    ScaleCompare(Mean(xs), lo, n);
    ScaleCompare(hi, Mean(xs), n);
  }

  lemma {:induction false} SumBetween(xs: seq<real>, lo: real, hi: real)
    requires forall i :: 0 <= i < |xs| ==> lo <= xs[i] <= hi
    ensures |xs| as real * lo <= Sum(xs) <= |xs| as real * hi
  {
    if xs != [] {
      SumBetween(xs[..|xs| - 1], lo, hi);
      assert (|xs| - 1) as real * lo + lo == |xs| as real * lo;
      assert (|xs| - 1) as real * hi + hi == |xs| as real * hi;
    }
  }

  function Square(x: real): real
  {
    x * x
  }

  /** Sum of squared deviations from m. */
  function SquaredDeviations(xs: seq<real>, m: real): real
  {
    if xs == [] then 0.0 else SquaredDeviations(xs[..|xs| - 1], m) + Square(xs[|xs| - 1] - m)
  }

  /** statistics.variance: squared deviations from the mean over n - 1. */
  function SampleVariance(xs: seq<real>): (v: real)
    requires |xs| >= 2
    ensures 0.0 <= v
  {
    SquaredDeviationsNonNegative(xs, Mean(xs));
    SquaredDeviations(xs, Mean(xs)) / (|xs| - 1) as real
  }

  /** (1.96 * stdev / sqrt(n))^2. */
  function MarginSquared(xs: seq<real>): (r: real)
    requires |xs| >= 2
    ensures 0.0 <= r
  {
    1.96 * 1.96 * SampleVariance(xs) / |xs| as real
  }

  lemma {:induction false} SquaredDeviationsNonNegative(xs: seq<real>, m: real)
    ensures 0.0 <= SquaredDeviations(xs, m)
  {
    if xs != [] {
      SquaredDeviationsNonNegative(xs[..|xs| - 1], m);
      var d := xs[|xs| - 1] - m;
      if d < 0.0 {
        assert Square(d) == (-d) * (-d);
      }
    }
  }

  /** A sample whose values are all equal has that value as its mean and no spread. */
  lemma {:induction false} ConstantSample(xs: seq<real>, c: real)
    requires |xs| > 0 && forall i :: 0 <= i < |xs| ==> xs[i] == c
    ensures Mean(xs) == c
    ensures |xs| >= 2 ==> SampleVariance(xs) == 0.0 && MarginSquared(xs) == 0.0
  {
    ConstantSum(xs, c);
    assert Sum(xs) == |xs| as real * c;
    ConstantDeviations(xs, c);
  }

  lemma {:induction false} ConstantSum(xs: seq<real>, c: real)
    requires forall i :: 0 <= i < |xs| ==> xs[i] == c
    ensures Sum(xs) == |xs| as real * c
  {
    if xs != [] {
      ConstantSum(xs[..|xs| - 1], c);
      assert (|xs| - 1) as real * c + c == |xs| as real * c;
    }
  }

  lemma {:induction false} ConstantDeviations(xs: seq<real>, c: real)
    requires forall i :: 0 <= i < |xs| ==> xs[i] == c
    ensures SquaredDeviations(xs, c) == 0.0
  {
    if xs != [] {
      ConstantDeviations(xs[..|xs| - 1], c);
    }
  }
}
