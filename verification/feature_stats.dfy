/**
 * The statistics of `UserTopTracks` in recommendations.js: the
 * interquartile-range outlier filter (`removeOutliers`) and the trimmed mean
 * of one feature over the listener's top tracks (`calculateAverageFeature`).
 * Feature values are exact reals, not IEEE doubles.
 */
module FeatureStats {
  import opened Sorting

  /**
   * The bounds outside which a value is an outlier: Q1 - 1.5 IQR and
   * Q3 + 1.5 IQR, with the positional quartiles Q1 = a[floor(n/4)] and
   * Q3 = a[floor(3n/4)].
   */
  function OutlierBounds(a: seq<real>): (real, real)
    requires |a| > 0
  {
    var firstQuartile := a[|a| / 4];
    var thirdQuartile := a[3 * |a| / 4];
    var interquartileRange := thirdQuartile - firstQuartile;
    (firstQuartile - 1.5 * interquartileRange, thirdQuartile + 1.5 * interquartileRange)
  }

  /** The elements of `s` within [lo, hi], in their order in `s`. */
  function Within(s: seq<real>, lo: real, hi: real): seq<real>
  {
    if s == [] then []
    else
      var last := s[|s| - 1];
      Within(s[..|s| - 1], lo, hi) + (if last < lo || last > hi then [] else [last])
  }

  /** What `removeOutliers` leaves of `a`. The empty array has no quartiles and stays empty. */
  function WithoutOutliers(a: seq<real>): seq<real>
  {
    if |a| == 0 then []
    else
      var (lo, hi) := OutlierBounds(a);
      Within(a, lo, hi)
  }

  /** A value is kept iff it lies within the bounds. */
  lemma {:induction false} WithinMembers(s: seq<real>, lo: real, hi: real)
    ensures forall x :: x in Within(s, lo, hi) <==> x in s && lo <= x <= hi
    ensures multiset(Within(s, lo, hi)) <= multiset(s)
  {
    if s != [] {
      WithinMembers(s[..|s| - 1], lo, hi);
      assert s == s[..|s| - 1] + [s[|s| - 1]];
    }
  }

  /** What is kept of an ascending sequence is ascending. */
  lemma {:induction false} WithinAscending(s: seq<real>, lo: real, hi: real)
    requires SortedBy(s, NumKey)
    ensures SortedBy(Within(s, lo, hi), NumKey)
  {
    if s != [] {
      var init, last := s[..|s| - 1], s[|s| - 1];
      assert SortedBy(init, NumKey) by {
        forall i, j | 0 <= i < j < |init|
          ensures init[i] <= init[j]
        {
          assert init[i] == s[i] && init[j] == s[j];
        }
      }
      WithinAscending(init, lo, hi);
      WithinMembers(init, lo, hi);
      var w := Within(init, lo, hi);
      forall i | 0 <= i < |w|
        ensures w[i] <= last
      {
        assert w[i] in w;
        var j :| 0 <= j < |init| && init[j] == w[i];
        assert init[j] == s[j];
      }
      if !(last < lo || last > hi) {
        var r := w + [last];
        forall i, j | 0 <= i < j < |r|
          ensures r[i] <= r[j]
        {
          if j < |w| {
            assert r[i] == w[i] && r[j] == w[j];
          }
        }
      } else {
        assert Within(s, lo, hi) == w + [];
      }
    }
  }

  /**
   * `removeOutliers`: walks the array once, and for each element outside the
   * bounds splices it out and steps the index back so that the element that
   * moves into its place is examined next.
   */
  method RemoveOutliers(featureArray: seq<real>) returns (kept: seq<real>)
    ensures kept == WithoutOutliers(featureArray)
  {
    if |featureArray| == 0 {
      // The quartiles are undefined and the loop below would not run.
      return featureArray;
    }
    var (lowerBound, upperBound) := OutlierBounds(featureArray);
    var remaining := featureArray;
    var i: int := 0;
    ghost var examined := 0;
    while i < |remaining|
      invariant 0 <= i <= |remaining| && 0 <= examined <= |featureArray|
      invariant remaining[..i] == Within(featureArray[..examined], lowerBound, upperBound)
      invariant remaining[i..] == featureArray[examined..]
      decreases |remaining| - i
    {
      assert featureArray[..examined + 1] == featureArray[..examined] + [featureArray[examined]];
      assert featureArray[..examined + 1][..examined] == featureArray[..examined];
      assert remaining[i] == featureArray[examined];
      if remaining[i] < lowerBound || remaining[i] > upperBound {
        assert remaining[i + 1..] == featureArray[examined + 1..];
        remaining := remaining[..i] + remaining[i + 1..];
        i := i - 1;
      } else {
        assert remaining[..i + 1] == remaining[..i] + [remaining[i]];
        assert remaining[i + 1..] == featureArray[examined + 1..];
      }
      i := i + 1;
      examined := examined + 1;
    }
    assert featureArray[..examined] == featureArray;
    kept := remaining;
  }

  /**
   * On an ascending non-empty array every element from position floor(n/4)
   * to position floor(3n/4), the quartiles included, survives; so the result
   * is never empty, and it is still ascending.
   */
  lemma QuartileRangeSurvives(a: seq<real>)
    requires |a| > 0 && SortedBy(a, NumKey)
    ensures forall k :: |a| / 4 <= k <= 3 * |a| / 4 ==> k < |a| && a[k] in WithoutOutliers(a)
    ensures |WithoutOutliers(a)| > 0
    ensures SortedBy(WithoutOutliers(a), NumKey)
  {
    var (lo, hi) := OutlierBounds(a);
    var q1, q3 := |a| / 4, 3 * |a| / 4;
    assert q1 <= q3 < |a|;
    assert a[q1] <= a[q3] by {
      if q1 < q3 {
        assert a[q1] <= a[q3];
      }
    }
    assert lo <= a[q1] && a[q3] <= hi;
    WithinMembers(a, lo, hi);
    forall k | q1 <= k <= q3
      ensures k < |a| && a[k] in WithoutOutliers(a)
    {
      if q1 < k {
        assert a[q1] <= a[k];
      }
      if k < q3 {
        assert a[k] <= a[q3];
      }
    }
    assert a[q1] in WithoutOutliers(a);
    WithinAscending(a, lo, hi);
  }

  /** `total += value` over the values, left to right. */
  function Sum(s: seq<real>): real
  {
    if s == [] then 0.0 else Sum(s[..|s| - 1]) + s[|s| - 1]
  }

  lemma {:induction false} SumBounds(s: seq<real>, lo: real, hi: real)
    requires forall x :: x in s ==> lo <= x <= hi
    ensures |s| as real * lo <= Sum(s) <= |s| as real * hi
  {
    if s != [] {
      var init := s[..|s| - 1];
      forall x | x in init
        ensures lo <= x <= hi
      {
        var j :| 0 <= j < |init| && init[j] == x;
        assert s[j] == x && s[j] in s;
      }
      SumBounds(init, lo, hi);
      assert s[|s| - 1] in s;
      var n := |init| as real;
      assert |s| as real * lo == n * lo + lo && |s| as real * hi == n * hi + hi;
    }
  }

  lemma MeanBounds(total: real, n: real, lo: real, hi: real)
    requires n > 0.0 && n * lo <= total <= n * hi
    ensures lo <= total / n <= hi
  {
    assert total / n * n == total;
  }

  /**
   * What `calculateAverageFeature` returns: the values are sorted, their
   * outliers removed, and the mean of the rest taken.
   */
  function AverageFeature(featureValues: seq<real>): real
    requires |featureValues| > 0
  {
    var sorted := MergeSort(featureValues, NumKey);
    QuartileRangeSurvives(sorted);
    var kept := WithoutOutliers(sorted);
    Sum(kept) / (|kept| as real)
  }

  /** What survives the outlier filter was among the values. */
  lemma KeptWithin(featureValues: seq<real>, lo: real, hi: real)
    requires |featureValues| > 0
    requires forall i :: 0 <= i < |featureValues| ==> lo <= featureValues[i] <= hi
    ensures forall x :: x in WithoutOutliers(MergeSort(featureValues, NumKey)) ==> lo <= x <= hi
  {
    var sorted := MergeSort(featureValues, NumKey);
    var (l, h) := OutlierBounds(sorted);
    WithinMembers(sorted, l, h);
    forall x | x in WithoutOutliers(sorted)
      ensures lo <= x <= hi
    {
      assert x in multiset(sorted);
      assert x in multiset(featureValues);
      var j :| 0 <= j < |featureValues| && featureValues[j] == x;
    }
  }

  lemma AverageFeatureIsMean(featureValues: seq<real>)
    requires |featureValues| > 0
    ensures var kept := WithoutOutliers(MergeSort(featureValues, NumKey));
      |kept| > 0 && AverageFeature(featureValues) == Sum(kept) / (|kept| as real)
  {
    QuartileRangeSurvives(MergeSort(featureValues, NumKey));
  }

  /**
   * The trimmed mean lies within any interval holding every value, in
   * particular between the smallest and the largest value.
   */
  lemma AverageFeatureWithin(featureValues: seq<real>, lo: real, hi: real)
    requires |featureValues| > 0
    requires forall i :: 0 <= i < |featureValues| ==> lo <= featureValues[i] <= hi
    ensures lo <= AverageFeature(featureValues) <= hi
  {
    var kept := WithoutOutliers(MergeSort(featureValues, NumKey));
    AverageFeatureIsMean(featureValues);
    KeptWithin(featureValues, lo, hi);
    KeptMeanWithin(kept, lo, hi);
  }

  lemma KeptMeanWithin(kept: seq<real>, lo: real, hi: real)
    requires |kept| > 0
    requires forall x :: x in kept ==> lo <= x <= hi
    ensures lo <= Sum(kept) / (|kept| as real) <= hi
  {
    SumBounds(kept, lo, hi);
    MeanBounds(Sum(kept), |kept| as real, lo, hi);
  }

  /**
   * `calculateAverageFeature`: sort, remove outliers, add the remaining
   * values up and divide by their number. An empty input is excluded (the
   * source divides 0 by 0).
   */
  method CalculateAverageFeature(featureValues: seq<real>) returns (average: real)
    requires |featureValues| > 0
    ensures average == AverageFeature(featureValues)
  {
    var values := MergeSort(featureValues, NumKey);
    values := RemoveOutliers(values);
    var total := 0.0;
    for k := 0 to |values|
      invariant total == Sum(values[..k])
    {
      assert values[..k + 1][..k] == values[..k];
      total := total + values[k];
    }
    assert values[..|values|] == values;
    // The result is well defined because the quartile range always survives.
    assert |values| > 0 by {
      var sorted := MergeSort(featureValues, NumKey);
      QuartileRangeSurvives(sorted);
    }
    average := total / (|values| as real);
  }
}
