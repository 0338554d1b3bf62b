/**
 * Python's `sum`, `min` and `statistics.pstdev` over real samples, as the
 * tracker's metrics and the behaviour flagger use them.  The standard
 * deviation is compared through the variance, so no square root is needed.
 */
module Stats {

  import opened Common
  import Sorting

  /** `sum(xs)`, adding from the left. */
  function Sum(xs: seq<real>): real {
    if xs == [] then 0.0 else Sum(xs[..|xs| - 1]) + xs[|xs| - 1]
  }

  lemma {:induction false} SumAtLeast(xs: seq<real>, lo: real)
    requires forall i :: 0 <= i < |xs| ==> lo <= xs[i]
    ensures |xs| as real * lo <= Sum(xs)
  {
    if xs != [] {
      SumAtLeast(xs[..|xs| - 1], lo);
    }
  }

  lemma {:induction false} SumAtMost(xs: seq<real>, hi: real)
    requires forall i :: 0 <= i < |xs| ==> xs[i] <= hi
    ensures Sum(xs) <= |xs| as real * hi
  {
    if xs != [] {
      SumAtMost(xs[..|xs| - 1], hi);
    }
  }

  /** `sum(xs) / len(xs)`. */
  function Mean(xs: seq<real>): real
    requires |xs| > 0
  {
    Sum(xs) / |xs| as real
  }

  /** The mean lies between the least and the greatest sample. */
  lemma MeanBounds(xs: seq<real>, lo: real, hi: real)
    requires |xs| > 0
    requires forall i :: 0 <= i < |xs| ==> lo <= xs[i] <= hi
    ensures lo <= Mean(xs) <= hi
  {
    SumAtLeast(xs, lo);
    SumAtMost(xs, hi);
    var n := |xs| as real;
    assert Mean(xs) * n == Sum(xs);
  }

  /** The mean is at least any lower bound of the samples. */
  lemma MeanAtLeast(xs: seq<real>, lo: real)
    requires |xs| > 0
    requires forall i :: 0 <= i < |xs| ==> lo <= xs[i]
    ensures lo <= Mean(xs)
  {
    SumAtLeast(xs, lo);
    assert Mean(xs) * |xs| as real == Sum(xs);
  }

  predicate RealLe(a: real, b: real) {
    a <= b
  }

  lemma RealLeTotalPreorder()
    ensures Sorting.TotalPreorder(RealLe)
  {
  }

  /** `min(xs)` if `xs` is non-empty, else nothing. */
  function MinOf(xs: seq<real>): (m: Option<real>)
    ensures m.None? <==> xs == []
    ensures m.Some? ==> m.value in xs
    ensures m.Some? ==> forall i :: 0 <= i < |xs| ==> m.value <= xs[i]
  {
    if xs == [] then None
    else
      RealLeTotalPreorder();
      Sorting.MinIndexIsFirstLeast(xs, RealLe);
      Some(xs[Sorting.MinIndex(xs, RealLe)])
  }

  /** The minimum of the samples is at most v iff some sample is at most v. */
  lemma MinOfAtMost(xs: seq<real>, v: real)
    requires xs != []
    ensures MinOf(xs).value <= v <==> exists i :: 0 <= i < |xs| && xs[i] <= v
  {
  }

  /** Sum of squared deviations from `m`. */
  function SquaredDeviation(xs: seq<real>, m: real): (r: real)
    ensures r >= 0.0
  {
    if xs == [] then 0.0
    else
      var d := xs[|xs| - 1] - m;
      SquareNonNegative(d);
      SquaredDeviation(xs[..|xs| - 1], m) + d * d
  }

  lemma SquareNonNegative(d: real)
    ensures d * d >= 0.0
  {
    if d < 0.0 {
      assert d * d == (-d) * (-d);
    }
  }

  /** The population variance (`statistics.pvariance`). */
  function Variance(xs: seq<real>): (v: real)
    requires |xs| > 0
    ensures v >= 0.0
  {
    SquaredDeviation(xs, Mean(xs)) / |xs| as real
  }

  /**
   * `pstdev(xs) >= m`: the square root of the variance reaches m exactly
   * when m is not positive or the variance reaches m squared.
   */
  predicate StdAtLeast(xs: seq<real>, m: real)
    requires |xs| > 0
  {
    m <= 0.0 || Variance(xs) >= m * m
  }

  lemma {:induction false} ConstantSum(xs: seq<real>, c: real)
    requires forall i :: 0 <= i < |xs| ==> xs[i] == c
    ensures Sum(xs) == |xs| as real * c
  {
    if xs != [] {
      ConstantSum(xs[..|xs| - 1], c);
    }
  }

  lemma {:induction false} ConstantDeviation(xs: seq<real>, c: real)
    requires forall i :: 0 <= i < |xs| ==> xs[i] == c
    ensures SquaredDeviation(xs, c) == 0.0
  {
    if xs != [] {
      ConstantDeviation(xs[..|xs| - 1], c);
    }
  }

  /** Samples that never move have no spread. */
  lemma ConstantHasNoVariance(xs: seq<real>)
    requires |xs| > 0 && forall i :: 0 <= i < |xs| ==> xs[i] == xs[0]
    ensures Variance(xs) == 0.0
  {
    ConstantSum(xs, xs[0]);
    assert Mean(xs) == xs[0];
    ConstantDeviation(xs, xs[0]);
  }

  /** ... so they never reach a positive standard-deviation threshold. */
  lemma ConstantHasNoSpread(xs: seq<real>, m: real)
    requires |xs| > 0 && forall i :: 0 <= i < |xs| ==> xs[i] == xs[0]
    requires m > 0.0
    ensures !StdAtLeast(xs, m)
  {
    ConstantHasNoVariance(xs);
    calc {
      Variance(xs);
    ==
      0.0;
    <
      m * m;
    }
  }
}
