/** The decision logic of utils/time_series_analysis.py: the Mann-Kendall
    S statistic and the sign of its continuity-corrected z score, the trend
    verdicts, and the stationarity conclusion from the ADF and KPSS
    p-values. The test statistics themselves (p-values, slopes, the square
    root of the variance) are inputs. */
module TimeSeries {

  // ---------------------------------------------------------------------
  // Mann-Kendall S statistic
  // ---------------------------------------------------------------------

  function Sign(x: real): (r: int)
    ensures -1 <= r <= 1
    ensures r == 1 <==> x > 0.0
    ensures r == -1 <==> x < 0.0
  {
    if x > 0.0 then 1 else if x < 0.0 then -1 else 0
  }

  /** The signs sign(data[k] - data[i]) for i < k < j, summed. */
  function RowUpTo(data: seq<real>, i: nat, j: nat): (r: int)
    requires i < j <= |data|
    decreases j
    ensures -(j - i - 1) <= r <= j - i - 1
  {
    if j == i + 1 then 0 else RowUpTo(data, i, j - 1) + Sign(data[j - 1] - data[i])
  }

  /** The number of pairs (i', k) with i' < i and i' < k < n. */
  function PairsUpTo(n: nat, i: nat): nat
    requires i <= n
  {
    if i == 0 then 0 else PairsUpTo(n, i - 1) + (n - i)
  }

  /** The partial S over the first i rows. */
  function RowsUpTo(data: seq<real>, i: nat): (r: int)
    requires i <= |data|
    ensures -(PairsUpTo(|data|, i) as int) <= r <= PairsUpTo(|data|, i)
  {
    if i == 0 then 0 else RowsUpTo(data, i - 1) + RowUpTo(data, i - 1, |data|)
  }

  /** S: the sum over all pairs i < j of sign(data[j] - data[i]). */
  function S(data: seq<real>): int
  {
    RowsUpTo(data, |data|)
  }

  /** There are n(n-1)/2 pairs. */
  lemma {:induction false} PairsCount(n: nat, i: nat)
    requires i <= n
    ensures 2 * PairsUpTo(n, i) == i * (2 * n - i - 1)
  {
    if i > 0 {
      PairsCount(n, i - 1);
      assert (i - 1) * (2 * n - i) + 2 * (n - i) == i * (2 * n - i - 1);
    }
  }

  /** |S| never exceeds the number of pairs n(n-1)/2. */
  lemma SBound(data: seq<real>)
    ensures 2 * S(data) <= |data| * (|data| - 1)
    ensures -(|data| * (|data| - 1)) <= 2 * S(data)
  {
    PairsCount(|data|, |data|);
  }

  predicate StrictlyIncreasing(data: seq<real>)
  {
    forall i, j :: 0 <= i < j < |data| ==> data[i] < data[j]
  }

  /** A strictly increasing series reaches the upper bound: every pair is
      concordant. */
  lemma {:induction false} RowIncreasing(data: seq<real>, i: nat, j: nat)
    requires StrictlyIncreasing(data) && i < j <= |data|
    ensures RowUpTo(data, i, j) == j - i - 1
    decreases j
  {
    if j > i + 1 {
      RowIncreasing(data, i, j - 1);
    }
  }

  lemma {:induction false} SIncreasing(data: seq<real>, i: nat)
    requires StrictlyIncreasing(data) && i <= |data|
    ensures RowsUpTo(data, i) == PairsUpTo(|data|, i)
  {
    if i > 0 {
      SIncreasing(data, i - 1);
      RowIncreasing(data, i - 1, |data|);
    }
  }

  /** A constant series has S = 0. */
  lemma {:induction false} RowConstant(data: seq<real>, i: nat, j: nat)
    requires (forall k :: 0 <= k < |data| ==> data[k] == data[0]) && i < j <= |data|
    ensures RowUpTo(data, i, j) == 0
    decreases j
  {
    if j > i + 1 {
      RowConstant(data, i, j - 1);
    }
  }

  lemma {:induction false} SConstant(data: seq<real>, i: nat)
    requires (forall k :: 0 <= k < |data| ==> data[k] == data[0]) && i <= |data|
    ensures RowsUpTo(data, i) == 0
  {
    if i > 0 {
      SConstant(data, i - 1);
      RowConstant(data, i - 1, |data|);
    }
  }

  /** The two extremes of S: a strictly increasing series has every pair
      concordant, S = n(n-1)/2, and a constant series has S = 0. */
  lemma SExtremes(data: seq<real>)
    ensures StrictlyIncreasing(data) ==> 2 * S(data) == |data| * (|data| - 1)
    ensures (forall k :: 0 <= k < |data| ==> data[k] == data[0]) ==> S(data) == 0
  {
    PairsCount(|data|, |data|);
    if StrictlyIncreasing(data) {
      SIncreasing(data, |data|);
    }
    if forall k :: 0 <= k < |data| ==> data[k] == data[0] {
      SConstant(data, |data|);
    }
  }

  /** The nested loops over i < j accumulate S. */
  method ComputeS(data: seq<real>) returns (s: int)
    ensures s == S(data)
    ensures 2 * s <= |data| * (|data| - 1) && -(|data| * (|data| - 1)) <= 2 * s
  {
    s := 0;
    var n := |data|;
    var i := 0;
    while i < n
      invariant 0 <= i <= n
      invariant s == RowsUpTo(data, i)
    {
      var j := i + 1;
      var row := 0;
      while j < n
        invariant i + 1 <= j <= n
        invariant row == RowUpTo(data, i, j)
      {
        row := row + Sign(data[j] - data[i]);
        j := j + 1;
      }
      s := s + row;
      i := i + 1;
    }
    SBound(data);
  }

  // ---------------------------------------------------------------------
  // z score and trend decision
  // ---------------------------------------------------------------------

  /** The variance of S under the no-trend hypothesis, n(n-1)(2n+5)/18. */
  function VarS(n: nat): real
  {
    (n * (n - 1) * (2 * n + 5)) as real / 18.0
  }

  lemma VarSPositive(n: nat)
    requires n >= 2
    ensures VarS(n) > 0.0
  {
    assert n * (n - 1) >= 2;
    assert n * (n - 1) * (2 * n + 5) >= 18;
  }

  /** S moved one step towards zero (the continuity correction) and
      divided by the standard deviation `sd`. */
  function ZScore(s: int, sd: real): (z: real)
    requires s != 0 ==> sd > 0.0
    ensures s > 0 ==> z >= 0.0
    ensures s < 0 ==> z <= 0.0
    ensures -1 <= s <= 1 ==> z == 0.0
    ensures s > 1 ==> z > 0.0
    ensures s < -1 ==> z < 0.0
  {
    if s > 0 then
      DivSign((s - 1) as real, sd);
      (s - 1) as real / sd
    else if s < 0 then
      DivSign((s + 1) as real, sd);
      (s + 1) as real / sd
    else 0.0
  }

  /** Dividing by a positive number keeps the sign. */
  lemma DivSign(x: real, d: real)
    requires d > 0.0
    ensures x > 0.0 ==> x / d > 0.0
    ensures x == 0.0 ==> x / d == 0.0
    ensures x < 0.0 ==> x / d < 0.0
  {
    if x > 0.0 {
      assert (x / d) * d == x;
    }
    if x < 0.0 {
      assert (x / d) * d == x;
    }
  }

  datatype Trend = Increasing | Decreasing | NoTrend

  /** Significant when the p-value is strictly below alpha; a significant
      trend is increasing for a positive z and decreasing otherwise (z = 0
      included). */
  function TrendOf(pValue: real, z: real, alpha: real): (t: Trend)
    ensures t != NoTrend <==> pValue < alpha
    ensures t == Increasing <==> pValue < alpha && z > 0.0
    ensures t == Decreasing <==> pValue < alpha && z <= 0.0
  {
    if pValue < alpha then (if z > 0.0 then Increasing else Decreasing) else NoTrend
  }

  datatype MannKendallResult = MannKendallResult(
    sStatistic: int,
    zStatistic: real,
    pValue: real,
    trend: Trend,
    hasSignificantTrend: bool)

  const DefaultAlpha: real := 0.05

  /** The Mann-Kendall test. The standard deviation `sd` of S (the square
      root of VarS) and the two-sided p-value 2(1 - Phi(|z|)) of z are
      computed outside the model and passed in; the only fact used about
      the p-value is that z = 0, which |S| <= 1 forces, gives p = 1. Hence
      for any alpha <= 1 a significant result has |S| >= 2 and a non-zero
      z, and a significant "decreasing" trend has z < 0. */
  method MannKendallTest(data: seq<real>, sd: real, pValue: real, alpha: real)
    returns (r: MannKendallResult)
    requires sd >= 0.0 && sd * sd == VarS(|data|)
    requires -1 <= S(data) <= 1 ==> pValue == 1.0
    ensures r.sStatistic == S(data)
    ensures 2 * r.sStatistic <= |data| * (|data| - 1)
    ensures -(|data| * (|data| - 1)) <= 2 * r.sStatistic
    ensures r.sStatistic > 0 ==> r.zStatistic >= 0.0
    ensures r.sStatistic < 0 ==> r.zStatistic <= 0.0
    ensures -1 <= r.sStatistic <= 1 ==> r.zStatistic == 0.0
    ensures r.hasSignificantTrend <==> pValue < alpha
    ensures r.trend == NoTrend <==> !r.hasSignificantTrend
    ensures r.hasSignificantTrend ==> (r.trend == Increasing <==> r.zStatistic > 0.0)
    ensures alpha <= 1.0 && r.hasSignificantTrend ==> r.sStatistic >= 2 || r.sStatistic <= -2
    ensures alpha <= 1.0 && r.trend == Decreasing ==> r.zStatistic < 0.0
  {
    var s := ComputeS(data);
    if s != 0 {
      // A non-zero S needs at least one pair, hence a positive variance.
      assert |data| >= 2;
      VarSPositive(|data|);
      assert sd != 0.0;
    }
    var z := ZScore(s, sd);
    var t := TrendOf(pValue, z, alpha);
    r := MannKendallResult(s, z, pValue, t, pValue < alpha);
  }

  /** The direction label of the fitted linear trend. */
  function LinearTrendDirection(slope: real): (t: Trend)
    ensures t == Increasing <==> slope > 0.0
    ensures t == Decreasing <==> slope < 0.0
    ensures t == NoTrend <==> slope == 0.0
  {
    if slope > 0.0 then Increasing else if slope < 0.0 then Decreasing else NoTrend
  }

  // ---------------------------------------------------------------------
  // Stationarity conclusion
  // ---------------------------------------------------------------------

  datatype Conclusion = Stationary | NonStationary | Inconclusive

  /** The ADF test rejects a unit root when its p-value is strictly below
      the significance level; the KPSS test keeps stationarity when its
      p-value is strictly above it. */
  function StationarityConclusion(adfPValue: real, kpssPValue: real, significance: real): (c: Conclusion)
    ensures c == Stationary <==> adfPValue < significance && kpssPValue > significance
    ensures c == NonStationary <==> adfPValue >= significance && kpssPValue <= significance
    ensures c == Inconclusive <==> (adfPValue < significance) != (kpssPValue > significance)
  {
    var adfStationary := adfPValue < significance;
    var kpssStationary := kpssPValue > significance;
    if adfStationary && kpssStationary then Stationary
    else if !adfStationary && !kpssStationary then NonStationary
    else Inconclusive
  }
}
