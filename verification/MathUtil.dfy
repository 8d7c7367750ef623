/** The outlier-filtered mean (lib/calibration/mathutil.h). */
module MathUtil {
  import opened Common

  function Sum(xs: seq<real>): real {
    if xs == [] then 0.0 else Sum(xs[..|xs| - 1]) + xs[|xs| - 1]
  }

  function SumSquares(xs: seq<real>): real {
    if xs == [] then 0.0 else SumSquares(xs[..|xs| - 1]) + xs[|xs| - 1] * xs[|xs| - 1]
  }

  function Mean(xs: seq<real>): real
    requires xs != []
  {
    Sum(xs) / |xs| as real
  }

  /** The variance as the code computes it: mean of squares minus square of mean. */
  function Variance(xs: seq<real>): real
    requires xs != []
  {
    SumSquares(xs) / |xs| as real - Mean(xs) * Mean(xs)
  }

  /** `|v - mean| <= limit * sigma` for the non-negative square root sigma of `variance`. */
  predicate Survives(v: real, mean: real, variance: real, limit: real) {
    if limit >= 0.0 then (v - mean) * (v - mean) <= limit * limit * variance
    else v == mean && variance == 0.0
  }

  lemma MulPositive(a: real, b: real)
    requires a > 0.0 && b > 0.0
    ensures a * b > 0.0
  {
  }

  lemma SquareMono(a: real, b: real)
    requires a >= 0.0 && b >= 0.0
    ensures a * a <= b * b <==> a <= b
  {
    if a <= b {
      assert a * a <= a * b <= b * b;
    } else {
      MulPositive(a - b, a + b);
      assert (a - b) * (a + b) == a * a - b * b;
    }
  }

  /** The comparison of squares decides the comparison with sigma, for every limit. */
  lemma SurvivesMeansWithinSigma(v: real, mean: real, variance: real, limit: real, sigma: real)
    requires sigma >= 0.0 && sigma * sigma == variance
    ensures Survives(v, mean, variance, limit) <==> Abs(v - mean) <= limit * sigma
  {
    var d := Abs(v - mean);
    SquareOfAbs(v - mean);
    if limit >= 0.0 {
      SquareOfProduct(limit, sigma);
      SquareMono(d, limit * sigma);
    } else if sigma > 0.0 {
      MulPositive(-limit, sigma);
      MulPositive(sigma, sigma);
      assert limit * sigma == -((-limit) * sigma);
    } else {
      assert limit * sigma == 0.0;
    }
  }

  lemma SquareOfAbs(x: real)
    ensures Abs(x) * Abs(x) == x * x
  {
  }

  lemma SquareOfProduct(a: real, b: real)
    requires a >= 0.0 && b >= 0.0
    ensures a * b >= 0.0 && (a * b) * (a * b) == a * a * (b * b)
  {
    assert (a * b) * (a * b) == a * (b * (a * b)) == a * (a * (b * b)) == a * a * (b * b);
  }

  function Survivors(xs: seq<real>, mean: real, variance: real, limit: real): (r: seq<real>)
    ensures |r| <= |xs|
  {
    if xs == [] then []
    else
      var n := |xs| - 1;
      Survivors(xs[..n], mean, variance, limit) + if Survives(xs[n], mean, variance, limit) then [xs[n]] else []
  }

  function SurvivorsOf(xs: seq<real>, limit: real): seq<real>
    requires xs != []
  {
    Survivors(xs, Mean(xs), Variance(xs), limit)
  }

  /** The first loop: sum and sum of squares. */
  method Sums(container: seq<real>) returns (exsum: real, ex2sum: real)
    ensures exsum == Sum(container) && ex2sum == SumSquares(container)
  {
    ex2sum, exsum := 0.0, 0.0;
    for i := 0 to |container|
      invariant ex2sum == SumSquares(container[..i]) && exsum == Sum(container[..i])
    {
      assert container[..i + 1][..i] == container[..i];
      ex2sum := ex2sum + container[i] * container[i];
      exsum := exsum + container[i];
    }
    assert container[..|container|] == container;
  }

  /** The second loop: sum and number of the values that survive the filter. */
  method FilterSum(container: seq<real>, ex: real, variance: real, limit: real) returns (sum: real, count: nat)
    ensures sum == Sum(Survivors(container, ex, variance, limit))
    ensures count == |Survivors(container, ex, variance, limit)|
  {
    hide Survives;
    sum, count := 0.0, 0;
    ghost var s := [];
    for i := 0 to |container|
      invariant s == Survivors(container[..i], ex, variance, limit)
      invariant sum == Sum(s) && count == |s|
    {
      assert container[..i + 1][..i] == container[..i];
      if Survives(container[i], ex, variance, limit) {
        assert (s + [container[i]])[..|s|] == s;
        sum := sum + container[i];
        count := count + 1;
        s := s + [container[i]];
      }
    }
    assert container[..|container|] == container;
  }

  /**
    The mean of the values that are at most `sigmaLimit` standard deviations from the mean of
    all values; `None` stands for the not-a-number result of a division by zero.
   */
  method FilteredAverage(container: seq<real>, sigmaLimit: real) returns (r: Option<real>)
    ensures container == [] ==> r == None
    ensures container != [] ==>
              var s := SurvivorsOf(container, sigmaLimit);
              r == if s == [] then None else Some(Sum(s) / |s| as real)
  {
    hide Sum, SumSquares, Survivors;
    if container == [] {
      return None;
    }
    var exsum, ex2sum := Sums(container);
    var ex := exsum / |container| as real;
    var ex2 := ex2sum / |container| as real;
    var variance := ex2 - ex * ex;
    assert ex == Mean(container) && variance == Variance(container);
    var sum, count := FilterSum(container, ex, variance, sigmaLimit);
    r := if count == 0 then None else Some(sum / count as real);
  }

  // ---------------------------------------------------------------- deviations

  /** Squared distance. */
  ghost function Distance2(x: real, m: real): real {
    (x - m) * (x - m)
  }

  /** Sum of squared distances from `m`. */
  ghost function Spread(xs: seq<real>, m: real): real {
    if xs == [] then 0.0 else Spread(xs[..|xs| - 1], m) + Distance2(xs[|xs| - 1], m)
  }

  lemma {:induction false} SpreadNonNegative(xs: seq<real>, m: real)
    ensures Spread(xs, m) >= 0.0
  {
    if xs != [] {
      SpreadNonNegative(xs[..|xs| - 1], m);
      var d := xs[|xs| - 1] - m;
      assert d * d >= 0.0;
    }
  }

  lemma {:induction false} SpreadExpands(xs: seq<real>, m: real)
    ensures Spread(xs, m) == SumSquares(xs) - 2.0 * m * Sum(xs) + |xs| as real * m * m
  {
    hide Distance2;
    if xs != [] {
      var n := |xs| - 1;
      var x := xs[n];
      SpreadExpands(xs[..n], m);
      assert |xs| as real == n as real + 1.0;
      ExpandOne(SumSquares(xs[..n]), Sum(xs[..n]), n as real, x, m);
    }
  }

  /** One more value in the expansion of the spread. */
  lemma ExpandOne(ss: real, s: real, n: real, x: real, m: real)
    ensures ss - 2.0 * m * s + n * m * m + Distance2(x, m) == ss + x * x - 2.0 * m * (s + x) + (n + 1.0) * m * m
  {
    assert (x - m) * (x - m) == x * x - 2.0 * m * x + m * m;
    assert (n + 1.0) * m * m == n * m * m + m * m;
    assert 2.0 * m * (s + x) == 2.0 * m * s + 2.0 * m * x;
  }

  /** The spread around the mean is the variance times the number of values. */
  lemma SpreadIsVariance(xs: seq<real>)
    requires xs != []
    ensures Spread(xs, Mean(xs)) == |xs| as real * Variance(xs)
  {
    hide Sum, SumSquares, Spread;
    var n, m := |xs| as real, Mean(xs);
    SpreadExpands(xs, m);
    assert n * m == Sum(xs);
    assert n * (SumSquares(xs) / n) == SumSquares(xs);
    assert 2.0 * m * Sum(xs) == 2.0 * (m * (n * m));
    assert n * m * m == m * (n * m);
    assert n * Variance(xs) == SumSquares(xs) - n * m * m by {
      assert n * (SumSquares(xs) / n - m * m) == n * (SumSquares(xs) / n) - n * (m * m);
    }
  }

  /** The expression under the square root is never negative. */
  lemma VarianceNonNegative(xs: seq<real>)
    requires xs != []
    ensures Variance(xs) >= 0.0
  {
    hide Sum, SumSquares, Spread, Variance, Mean;
    var n, v := |xs| as real, Variance(xs);
    SpreadIsVariance(xs);
    SpreadNonNegative(xs, Mean(xs));
    assert v < 0.0 ==> n * v < 0.0;
  }

  // ---------------------------------------------------------------- the filter

  ghost function Outliers(xs: seq<real>, mean: real, variance: real, limit: real): seq<real> {
    if xs == [] then []
    else
      var n := |xs| - 1;
      Outliers(xs[..n], mean, variance, limit) + if Survives(xs[n], mean, variance, limit) then [] else [xs[n]]
  }

  lemma SpreadNone(m: real)
    ensures Spread([], m) == 0.0
  {
  }

  lemma SpreadAppend(xs: seq<real>, x: real, m: real)
    ensures Spread(xs + [x], m) == Spread(xs, m) + Distance2(x, m)
  {
    assert (xs + [x])[..|xs|] == xs;
  }

  /** Survivors and outliers split the values and their spread. */
  lemma {:induction false} FilterSplits(xs: seq<real>, mean: real, variance: real, limit: real, m: real)
    ensures var s, o := Survivors(xs, mean, variance, limit), Outliers(xs, mean, variance, limit);
            |s| + |o| == |xs| && Spread(s, m) + Spread(o, m) == Spread(xs, m)
  {
    hide Survives, Spread, Distance2;
    SpreadNone(m);
    if xs != [] {
      var n := |xs| - 1;
      SpreadAppend(xs[..n], xs[n], m);
      assert xs == xs[..n] + [xs[n]];
      var s, o := Survivors(xs[..n], mean, variance, limit), Outliers(xs[..n], mean, variance, limit);
      FilterSplits(xs[..n], mean, variance, limit, m);
      SpreadAppend(s, xs[n], m);
      SpreadAppend(o, xs[n], m);
      assert s + [] == s && o + [] == o;
    }
  }

  lemma FarAway(v: real, mean: real, variance: real, limit: real)
    requires limit >= 0.0 && !Survives(v, mean, variance, limit)
    ensures Distance2(v, mean) > limit * limit * variance
  {
  }

  /** Outliers are more than `limit` standard deviations away, so they carry that much spread. */
  lemma {:induction false} OutlierSpread(xs: seq<real>, mean: real, variance: real, limit: real, b: real)
    requires limit >= 0.0 && b == limit * limit * variance
    ensures var o := Outliers(xs, mean, variance, limit);
            if o == [] then Spread(o, mean) == 0.0 else Spread(o, mean) > |o| as real * b
  {
    hide Survives, Spread, Distance2;
    SpreadNone(mean);
    if xs != [] {
      var n := |xs| - 1;
      var o := Outliers(xs[..n], mean, variance, limit);
      OutlierSpread(xs[..n], mean, variance, limit, b);
      assert o + [] == o;
      if !Survives(xs[n], mean, variance, limit) {
        FarAway(xs[n], mean, variance, limit);
        MoreSpread(o, xs[n], mean, b);
      }
    }
  }

  lemma MoreSpread(o: seq<real>, x: real, mean: real, b: real)
    requires Distance2(x, mean) > b
    requires if o == [] then Spread(o, mean) == 0.0 else Spread(o, mean) > |o| as real * b
    ensures Spread(o + [x], mean) > |o + [x]| as real * b
  {
    hide Spread, Distance2;
    SpreadAppend(o, x, mean);
    var k := |o| as real;
    assert |o + [x]| as real == k + 1.0;
    assert (k + 1.0) * b == k * b + b;
    assert o == [] ==> k * b == 0.0;
  }

  lemma Chebyshev(k: real, n: real, l2: real, v: real)
    requires k >= 0.0 && n > 0.0 && v >= 0.0
    requires k > 0.0 ==> k * (l2 * v) < n * v
    ensures k * l2 < n
  {
    if k == 0.0 {
      assert k * l2 == 0.0;
    } else {
      assert (k * l2 - n) * v == k * (l2 * v) - n * v;
      assert k * l2 >= n ==> (k * l2 - n) * v >= 0.0;
    }
  }

  /** The number of outliers times the squared limit is less than the number of values. */
  lemma FewOutliers(xs: seq<real>, limit: real)
    requires xs != [] && limit >= 0.0
    ensures (|xs| - |SurvivorsOf(xs, limit)|) as real * (limit * limit) < |xs| as real
  {
    hide Sum, SumSquares, Spread, Variance, Mean, Survives, Survivors, Outliers;
    var m, v := Mean(xs), Variance(xs);
    var s, o := Survivors(xs, m, v, limit), Outliers(xs, m, v, limit);
    FilterSplits(xs, m, v, limit, m);
    OutlierSpread(xs, m, v, limit, limit * limit * v);
    SpreadNonNegative(s, m);
    SpreadIsVariance(xs);
    VarianceNonNegative(xs);
    assert |o| == 0 ==> |o| as real == 0.0;
    Chebyshev(|o| as real, |xs| as real, limit * limit, v);
  }

  /** With the limit of two that the calibration uses, more than three quarters survive. */
  lemma ThreeQuartersSurvive(xs: seq<real>)
    requires xs != []
    ensures 4 * |SurvivorsOf(xs, 2.0)| > 3 * |xs|
  {
    hide SurvivorsOf;
    FewOutliers(xs, 2.0);
    var k := |xs| - |SurvivorsOf(xs, 2.0)|;
    assert k as real * 4.0 < |xs| as real;
    assert (4 * k) as real == k as real * 4.0;
  }

  /**
    The filtered mean exists for all non-empty inputs exactly when the limit is at least one
    standard deviation.
   */
  lemma AlwaysDefinedIff(limit: real)
    ensures (forall xs :: xs != [] ==> SurvivorsOf(xs, limit) != []) <==> limit >= 1.0
  {
    if limit >= 1.0 {
      forall xs: seq<real> | xs != []
        ensures SurvivorsOf(xs, limit) != []
      {
        SomeoneSurvives(xs, limit);
      }
    } else {
      NobodySurvives(limit);
      assert [-1.0, 1.0] != [];
    }
  }

  lemma SomeoneSurvives(xs: seq<real>, limit: real)
    requires xs != [] && limit >= 1.0
    ensures SurvivorsOf(xs, limit) != []
  {
    hide SurvivorsOf;
    FewOutliers(xs, limit);
    var n := |xs| as real;
    assert limit * limit >= 1.0 by { assert (limit - 1.0) * (limit + 1.0) >= 0.0; }
    assert n * (limit * limit) >= n by { assert n * (limit * limit - 1.0) >= 0.0; }
  }

  /** Two values at distance one standard deviation from their mean. */
  lemma NobodySurvives(limit: real)
    requires limit < 1.0
    ensures SurvivorsOf([-1.0, 1.0], limit) == []
  {
    var xs := [-1.0, 1.0];
    assert xs[..1] == [-1.0] && [-1.0][..0] == [];
    assert Sum([-1.0]) == -1.0 && SumSquares([-1.0]) == 1.0;
    assert Mean(xs) == 0.0 && Variance(xs) == 1.0;
    assert limit >= 0.0 ==> limit * limit <= limit * 1.0;
    assert !Survives(-1.0, 0.0, 1.0, limit) && !Survives(1.0, 0.0, 1.0, limit);
    assert Survivors([-1.0], 0.0, 1.0, limit) == [];
  }

  // ---------------------------------------------------------------- the result

  lemma {:induction false} SurvivorsAre(xs: seq<real>, mean: real, variance: real, limit: real, i: nat)
    requires i < |Survivors(xs, mean, variance, limit)|
    ensures Survivors(xs, mean, variance, limit)[i] in xs
    ensures Survives(Survivors(xs, mean, variance, limit)[i], mean, variance, limit)
  {
    hide Survives;
    var n := |xs| - 1;
    var s := Survivors(xs[..n], mean, variance, limit);
    if i < |s| {
      SurvivorsAre(xs[..n], mean, variance, limit, i);
    }
  }

  /** Exactly the values within the limit survive, each as often as it occurs. */
  lemma {:induction false} SurvivorsExactly(xs: seq<real>, mean: real, variance: real, limit: real, v: real)
    ensures multiset(Survivors(xs, mean, variance, limit))[v] ==
            if Survives(v, mean, variance, limit) then multiset(xs)[v] else 0
  {
    hide Survives;
    if xs != [] {
      var n := |xs| - 1;
      SurvivorsExactly(xs[..n], mean, variance, limit, v);
      assert xs == xs[..n] + [xs[n]];
    }
  }

  lemma {:induction false} SumBounds(xs: seq<real>, lo: real, hi: real)
    requires forall i :: 0 <= i < |xs| ==> lo <= xs[i] <= hi
    ensures |xs| as real * lo <= Sum(xs) <= |xs| as real * hi
  {
    if xs != [] {
      var n := |xs| - 1;
      SumBounds(xs[..n], lo, hi);
      assert |xs| as real * lo == n as real * lo + lo && |xs| as real * hi == n as real * hi + hi;
    }
  }

  lemma MeanBounds(xs: seq<real>, lo: real, hi: real)
    requires xs != [] && forall i :: 0 <= i < |xs| ==> lo <= xs[i] <= hi
    ensures lo <= Mean(xs) <= hi
  {
    hide Sum;
    SumBounds(xs, lo, hi);
    var n, m := |xs| as real, Mean(xs);
    assert n * m == Sum(xs);
    assert m < lo ==> n * (lo - m) > 0.0;
    assert m > hi ==> n * (m - hi) > 0.0;
  }

  /** The result lies between the smallest and the largest input. */
  lemma ResultInRange(xs: seq<real>, limit: real, lo: real, hi: real)
    requires xs != [] && SurvivorsOf(xs, limit) != []
    requires forall x :: x in xs ==> lo <= x <= hi
    ensures lo <= Mean(SurvivorsOf(xs, limit)) <= hi
  {
    hide Survivors, Mean, Variance;
    var s := SurvivorsOf(xs, limit);
    forall i | 0 <= i < |s|
      ensures lo <= s[i] <= hi
    {
      SurvivorsAre(xs, Mean(xs), Variance(xs), limit, i);
    }
    MeanBounds(s, lo, hi);
  }

  lemma {:induction false} SpreadBound(xs: seq<real>, m: real, b: real)
    requires forall i :: 0 <= i < |xs| ==> Distance2(xs[i], m) <= b
    ensures Spread(xs, m) <= |xs| as real * b
  {
    if xs != [] {
      var n := |xs| - 1;
      SpreadBound(xs[..n], m, b);
      assert |xs| as real * b == n as real * b + b;
    }
  }

  /** The mean of values is no further from `m` than their mean square distance from `m`. */
  lemma MeanCloser(xs: seq<real>, m: real, b: real)
    requires xs != [] && Spread(xs, m) <= |xs| as real * b
    ensures (Mean(xs) - m) * (Mean(xs) - m) <= b
  {
    hide Sum, SumSquares, Spread;
    var n, a := |xs| as real, Mean(xs);
    SpreadExpands(xs, m);
    SpreadExpands(xs, a);
    SpreadNonNegative(xs, a);
    assert Sum(xs) == n * a;
    var d := (a - m) * (a - m);
    assert Spread(xs, m) == Spread(xs, a) + n * d by {
      assert 2.0 * m * (n * a) == n * (2.0 * m * a);
      assert 2.0 * a * (n * a) == n * (2.0 * a * a);
      assert n * m * m == n * (m * m) && n * a * a == n * (a * a);
      assert d == a * a - 2.0 * m * a + m * m;
    }
    assert d > b ==> n * (d - b) > 0.0;
    assert n * (d - b) == n * d - n * b;
  }

  /** The result is at most `limit` standard deviations away from the mean of all values. */
  lemma ResultWithinSigma(xs: seq<real>, limit: real)
    requires xs != [] && SurvivorsOf(xs, limit) != []
    ensures Survives(Mean(SurvivorsOf(xs, limit)), Mean(xs), Variance(xs), limit)
  {
    hide Survivors, Mean, Variance;
    var s, m, v := SurvivorsOf(xs, limit), Mean(xs), Variance(xs);
    forall i | 0 <= i < |s|
      ensures Survives(s[i], m, v, limit)
    {
      SurvivorsAre(xs, m, v, limit, i);
    }
    if limit >= 0.0 {
      SpreadBound(s, m, limit * limit * v);
      MeanCloser(s, m, limit * limit * v);
    } else {
      MeanBounds(s, m, m);
      assert Survives(s[0], m, v, limit);
    }
  }
}
