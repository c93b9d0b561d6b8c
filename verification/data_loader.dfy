/** The data-quality counters of utils/data_loader.py: duplicated dates,
    missing, zero and negative prices, IQR outliers for given quartiles,
    and gaps between consecutive dates. A price is `None` when it is
    missing (NaN); a missing price is never zero, negative or an outlier,
    since every comparison with NaN is false. */
module DataLoader {
  import opened Common

  /** Default largest acceptable distance between consecutive dates. */
  const DefaultMaxGapDays: int := 7

  /** Default IQR multiplier of the outlier rule. */
  const DefaultMultiplier: real := 1.5

  // ---------------------------------------------------------------------
  // Gaps
  // ---------------------------------------------------------------------

  /** The gaps among the first k dates: positions 1 <= j < k whose distance
      to the previous date is strictly greater than `maxGapDays`. */
  function GapsUpTo(dates: seq<int>, maxGapDays: int, k: nat): (n: nat)
    requires k <= |dates|
    ensures n <= k
    ensures k >= 1 ==> n <= k - 1
  {
    if k <= 1 then 0
    else GapsUpTo(dates, maxGapDays, k - 1) + (if dates[k - 1] - dates[k - 2] > maxGapDays then 1 else 0)
  }

  function Gaps(dates: seq<int>, maxGapDays: int): nat
  {
    GapsUpTo(dates, maxGapDays, |dates|)
  }

  /** Counts the consecutive date pairs further apart than `maxGapDays`
      days. The first date has no predecessor and never counts. */
  method DetectDataGaps(dates: seq<int>, maxGapDays: int) returns (gaps: nat)
    ensures gaps == Gaps(dates, maxGapDays)
    ensures |dates| < 2 ==> gaps == 0
    ensures |dates| >= 1 ==> gaps <= |dates| - 1
  {
    gaps := 0;
    var k := 1;
    while k < |dates|
      invariant 1 <= k <= |dates| || (|dates| == 0 && k == 1)
      invariant k <= |dates| ==> gaps == GapsUpTo(dates, maxGapDays, k)
      invariant |dates| == 0 ==> gaps == 0
    {
      if dates[k] - dates[k - 1] > maxGapDays {
        gaps := gaps + 1;
      }
      k := k + 1;
    }
  }

  /** No gap is counted exactly when every step between consecutive dates
      is at most `maxGapDays`; a step of exactly `maxGapDays` is not a
      gap. */
  lemma {:induction false} NoGapsIff(dates: seq<int>, maxGapDays: int, k: nat)
    requires k <= |dates|
    ensures GapsUpTo(dates, maxGapDays, k) == 0 <==>
            forall j :: 1 <= j < k ==> dates[j] - dates[j - 1] <= maxGapDays
  {
    if k > 1 {
      NoGapsIff(dates, maxGapDays, k - 1);
    }
  }

  /** A step count is monotone in the tolerance: allowing longer steps
      never reports more gaps. */
  lemma {:induction false} GapsShrinkWithTolerance(dates: seq<int>, g1: int, g2: int, k: nat)
    requires g1 <= g2 && k <= |dates|
    ensures GapsUpTo(dates, g2, k) <= GapsUpTo(dates, g1, k)
  {
    if k > 1 {
      GapsShrinkWithTolerance(dates, g1, g2, k - 1);
    }
  }

  // ---------------------------------------------------------------------
  // Duplicated dates
  // ---------------------------------------------------------------------

  /** The entries among the first k that repeat an earlier entry (what
      `index.duplicated()` marks, every occurrence after the first). */
  function DuplicatesUpTo(dates: seq<int>, k: nat): (n: nat)
    requires k <= |dates|
    ensures n <= k
  {
    if k == 0 then 0
    else DuplicatesUpTo(dates, k - 1) + (if dates[k - 1] in dates[..k - 1] then 1 else 0)
  }

  /** Counts the repeated dates (reported as `missing_dates` by the
      quality check). The count is the number of entries minus the number
      of distinct dates. */
  method CountDuplicates(dates: seq<int>) returns (dups: nat)
    ensures dups == DuplicatesUpTo(dates, |dates|)
    ensures dups + |set d | d in dates| == |dates|
  {
    dups := 0;
    var seen: set<int> := {};
    var i := 0;
    while i < |dates|
      invariant 0 <= i <= |dates|
      invariant seen == set d | d in dates[..i]
      invariant dups == DuplicatesUpTo(dates, i)
      invariant dups + |seen| == i
    {
      assert dates[..i + 1] == dates[..i] + [dates[i]];
      if dates[i] in seen {
        dups := dups + 1;
      } else {
        seen := seen + {dates[i]};
      }
      i := i + 1;
    }
    assert dates[..|dates|] == dates;
  }

  // ---------------------------------------------------------------------
  // Price counters
  // ---------------------------------------------------------------------

  function IsMissing(p: Option<real>): bool
  {
    p.None?
  }

  function IsZero(p: Option<real>): bool
  {
    p.Some? && p.value == 0.0
  }

  function IsNegative(p: Option<real>): bool
  {
    p.Some? && p.value < 0.0
  }

  function MissingPrices(prices: seq<Option<real>>): nat
  {
    |Filter(IsMissing, prices)|
  }

  function ZeroPrices(prices: seq<Option<real>>): nat
  {
    |Filter(IsZero, prices)|
  }

  function NegativePrices(prices: seq<Option<real>>): nat
  {
    |Filter(IsNegative, prices)|
  }

  /** Missing, zero and negative prices are three disjoint kinds, so their
      counts add up to at most the number of prices; the remainder are the
      positive prices. */
  lemma PriceCountsDisjoint(prices: seq<Option<real>>)
    ensures MissingPrices(prices) + ZeroPrices(prices) + NegativePrices(prices) <= |prices|
    ensures ZeroPrices(prices) + NegativePrices(prices)
         == |Filter((p: Option<real>) => p.Some? && p.value <= 0.0, prices)|
  {
    var nonPositive := (p: Option<real>) => p.Some? && p.value <= 0.0;
    var bad := (p: Option<real>) => p.None? || (p.Some? && p.value <= 0.0);
    FilterCountDisjoint(IsZero, IsNegative, nonPositive, prices);
    FilterCountDisjoint(IsMissing, nonPositive, bad, prices);
  }

  // ---------------------------------------------------------------------
  // IQR outliers
  // ---------------------------------------------------------------------

  function LowerFence(q1: real, q3: real, multiplier: real): real
  {
    q1 - multiplier * (q3 - q1)
  }

  function UpperFence(q1: real, q3: real, multiplier: real): real
  {
    q3 + multiplier * (q3 - q1)
  }

  /** A present price strictly outside [lower fence, upper fence]. */
  function OutsideFences(q1: real, q3: real, multiplier: real): Option<real> -> bool
  {
    (p: Option<real>) => p.Some? && (p.value < LowerFence(q1, q3, multiplier) || p.value > UpperFence(q1, q3, multiplier))
  }

  /** The number of outliers of the series for the given quartiles. */
  function DetectOutliersIqr(prices: seq<Option<real>>, q1: real, q3: real, multiplier: real): (n: nat)
    ensures n <= |prices|
  {
    |Filter(OutsideFences(q1, q3, multiplier), prices)|
  }

  lemma NonNegProduct(a: real, b: real)
    requires a >= 0.0 && b >= 0.0
    ensures a * b >= 0.0
  {
  }

  /** With ordered quartiles and a non-negative multiplier the fences
      enclose the interquartile range and widen with the multiplier. */
  lemma FencesEnclose(q1: real, q3: real, m1: real, m2: real)
    requires q1 <= q3 && 0.0 <= m1 <= m2
    ensures LowerFence(q1, q3, m2) <= LowerFence(q1, q3, m1) <= q1
    ensures q3 <= UpperFence(q1, q3, m1) <= UpperFence(q1, q3, m2)
  {
    NonNegProduct(m1, q3 - q1);
    NonNegProduct(m2 - m1, q3 - q1);
    assert (m2 - m1) * (q3 - q1) == m2 * (q3 - q1) - m1 * (q3 - q1);
  }

  /** A price counts as an outlier exactly when it lies strictly outside
      the fences; a missing price never does. */
  lemma OutlierIff(prices: seq<Option<real>>, q1: real, q3: real, multiplier: real)
    ensures forall p :: p in prices ==>
              (p in Filter(OutsideFences(q1, q3, multiplier), prices) <==>
               p.Some? && (p.value < LowerFence(q1, q3, multiplier) || p.value > UpperFence(q1, q3, multiplier)))
    ensures forall p :: p in Filter(OutsideFences(q1, q3, multiplier), prices) ==> p.Some?
  {
  }

  /** A price lying exactly on a fence is not an outlier (the comparisons
      are strict), whatever the series around it. */
  lemma FenceValuesNotOutliers(prices: seq<Option<real>>, q1: real, q3: real, multiplier: real)
    requires q1 <= q3 && 0.0 <= multiplier
    ensures forall p :: p in prices && p.Some?
                        && (p.value == LowerFence(q1, q3, multiplier) || p.value == UpperFence(q1, q3, multiplier)) ==>
              p !in Filter(OutsideFences(q1, q3, multiplier), prices)
  {
    FencesEnclose(q1, q3, multiplier, multiplier);
  }

  /** With ordered quartiles, a wider multiplier never finds more
      outliers, and prices between the quartiles are never outliers. */
  lemma OutliersShrinkWithMultiplier(prices: seq<Option<real>>, q1: real, q3: real, m1: real, m2: real)
    requires q1 <= q3 && 0.0 <= m1 <= m2
    ensures DetectOutliersIqr(prices, q1, q3, m2) <= DetectOutliersIqr(prices, q1, q3, m1)
    ensures forall p :: p in Filter(OutsideFences(q1, q3, m1), prices) ==> p.value < q1 || p.value > q3
  {
    FencesEnclose(q1, q3, m1, m2);
    FilterCountMonotone(OutsideFences(q1, q3, m2), OutsideFences(q1, q3, m1), prices);
  }

  // ---------------------------------------------------------------------
  // Quality report
  // ---------------------------------------------------------------------

  datatype QualityReport = QualityReport(
    missingDates: nat,
    missingPrices: nat,
    zeroPrices: nat,
    negativePrices: nat,
    outliersIqr: nat,
    dataGaps: nat)

  /** The quality report of a price frame (dates and prices of equal
      length), with the outlier quartiles given and the default multiplier
      and gap tolerance. */
  method CheckDataQuality(dates: seq<int>, prices: seq<Option<real>>, q1: real, q3: real)
    returns (report: QualityReport)
    requires |dates| == |prices|
    ensures report.missingDates + |set d | d in dates| == |dates|
    ensures report.missingPrices == MissingPrices(prices)
    ensures report.zeroPrices == ZeroPrices(prices)
    ensures report.negativePrices == NegativePrices(prices)
    ensures report.missingPrices + report.zeroPrices + report.negativePrices <= |prices|
    ensures report.outliersIqr == DetectOutliersIqr(prices, q1, q3, DefaultMultiplier)
    ensures report.dataGaps == Gaps(dates, DefaultMaxGapDays)
    ensures report.dataGaps <= |dates|
  {
    var dups := CountDuplicates(dates);
    var gaps := DetectDataGaps(dates, DefaultMaxGapDays);
    PriceCountsDisjoint(prices);
    report := QualityReport(dups, MissingPrices(prices), ZeroPrices(prices), NegativePrices(prices),
                            DetectOutliersIqr(prices, q1, q3, DefaultMultiplier), gaps);
  }
}
