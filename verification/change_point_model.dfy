/** The discrete parts of the change-point model of src/change_point_model.py:
    the domain of the change-point indices, the loop that assigns each time
    index its regime, the numbering and date lookup of the reported change
    points, and the R-hat / ESS verdicts. */
module ChangePointModel {
  import opened Common
  import BayesianModel

  // ---------------------------------------------------------------------
  // Regime assignment
  // ---------------------------------------------------------------------

  /** Each change-point index is drawn uniformly from 1 .. nObs - 2. */
  predicate InTauDomain(tau: seq<int>, nObs: int)
  {
    forall i :: 0 <= i < |tau| ==> 1 <= tau[i] <= nObs - 2
  }

  /** The number of change points at or before index `t`. */
  function Reached(tau: seq<int>, t: int): (r: nat)
    ensures r <= |tau|
  {
    if tau == [] then 0
    else (if tau[0] <= t then 1 else 0) + Reached(tau[1..], t)
  }

  /** The regime of time index `t`: starting from regime 0, the i-th change
      point switches every index t >= tau[i] to regime i + 1, later change
      points overriding earlier ones. For any change points the result is
      one past the last change point reached by `t` (0 when none is); for
      sorted ones it is the number of change points at or before `t`. */
  method RegimeIndex(tauSorted: seq<int>, t: int) returns (regime: nat)
    ensures regime <= |tauSorted|
    ensures regime == 0 || tauSorted[regime - 1] <= t
    ensures forall j :: regime <= j < |tauSorted| ==> t < tauSorted[j]
    ensures Ascending(tauSorted) ==> regime == Reached(tauSorted, t)
  {
    regime := 0;
    var i := 0;
    while i < |tauSorted|
      invariant 0 <= i <= |tauSorted|
      invariant regime <= i
      invariant regime == 0 || tauSorted[regime - 1] <= t
      invariant forall j :: regime <= j < i ==> t < tauSorted[j]
    {
      if t >= tauSorted[i] {
        regime := i + 1;
      }
      i := i + 1;
    }
    if Ascending(tauSorted) {
      ReachedSplits(tauSorted, t);
      assert regime < |tauSorted| ==> t < tauSorted[regime];
    }
  }

  /** With sorted change points exactly the first Reached(tau, t) of them
      are at or before `t`. */
  lemma {:induction false} ReachedSplits(tau: seq<int>, t: int)
    requires Ascending(tau)
    ensures forall i :: 0 <= i < Reached(tau, t) ==> tau[i] <= t
    ensures forall i :: Reached(tau, t) <= i < |tau| ==> t < tau[i]
  {
    if tau != [] {
      var rest := tau[1..];
      assert Ascending(rest);
      ReachedSplits(rest, t);
      var r := Reached(tau, t);
      if tau[0] <= t {
        forall i | 0 <= i < r ensures tau[i] <= t {
          if i > 0 { assert tau[i] == rest[i - 1]; }
        }
        forall i | r <= i < |tau| ensures t < tau[i] {
          assert tau[i] == rest[i - 1];
        }
      } else {
        forall i | 0 <= i < |rest| ensures t < rest[i] {
          assert tau[0] <= tau[i + 1];
        }
      }
    }
  }

  /** A later time index never falls in an earlier regime. */
  lemma {:induction false} ReachedMonotone(tau: seq<int>, t1: int, t2: int)
    requires t1 <= t2
    ensures Reached(tau, t1) <= Reached(tau, t2)
  {
    if tau != [] {
      ReachedMonotone(tau[1..], t1, t2);
    }
  }

  /** With every change point in its domain, index 0 is in regime 0, the
      last index in the last regime, and every regime selects one of the
      maxChangepoints + 1 means. */
  lemma {:induction false} RegimeRange(tau: seq<int>, nObs: int, t: int)
    requires InTauDomain(tau, nObs)
    ensures Reached(tau, 0) == 0
    ensures Reached(tau, nObs - 1) == |tau|
    ensures 0 <= Reached(tau, t) < |tau| + 1
  {
    if tau != [] {
      RegimeRange(tau[1..], nObs, t);
    }
  }

  /** The two files disagree about the change-point index itself: here it
      opens the new regime, whereas the multiple change-point model of
      src/bayesian_changepoint_model.py keeps it in the old one. The regime
      of index t here is the other model's regime of index t + 1. */
  lemma {:induction false} ConventionShift(tau: seq<int>, t: int)
    ensures Reached(tau, t) == BayesianModel.MultiRegime(tau, t + 1)
  {
    if tau != [] {
      ConventionShift(tau[1..], t);
    }
  }

  /** For a single change point at tau the two conventions put index tau in
      different regimes. */
  lemma ConventionsDisagreeAtTau(tau: int)
    ensures Reached([tau], tau) == 1
    ensures BayesianModel.MultiRegime([tau], tau) == 0
  {
    assert [tau][1..] == [];
  }

  // ---------------------------------------------------------------------
  // Reported change points
  // ---------------------------------------------------------------------

  /** Posterior summaries of one change-point index: mean, median, the two
      credible-interval percentiles, and the standard deviation. */
  datatype TauSummary = TauSummary(mean: real, median: real, ciLower: real, ciUpper: real, std: real)

  datatype ChangePointRow = ChangePointRow(
    changepointId: nat,
    meanPosition: real,
    meanDate: int,
    medianPosition: real,
    medianDate: int,
    ciLower: real,
    ciUpper: real,
    ciLowerDate: int,
    ciUpperDate: int,
    std: real)

  /** A summary of draws from 1 .. nObs - 2 lies in that range. */
  predicate SummaryInDomain(s: TauSummary, nObs: int)
  {
    && 1.0 <= s.mean <= (nObs - 2) as real
    && 1.0 <= s.median <= (nObs - 2) as real
    && 1.0 <= s.ciLower <= (nObs - 2) as real
    && 1.0 <= s.ciUpper <= (nObs - 2) as real
  }

  /** The four dates of a row lie strictly between the first and the last
      date of the series. */
  predicate DatesInside(dates: seq<int>, row: ChangePointRow)
  {
    && |dates| >= 3
    && dates[0] < row.meanDate < dates[|dates| - 1]
    && dates[0] < row.medianDate < dates[|dates| - 1]
    && dates[0] < row.ciLowerDate < dates[|dates| - 1]
    && dates[0] < row.ciUpperDate < dates[|dates| - 1]
  }

  function ToRow(dates: seq<int>, i: nat, s: TauSummary): (row: ChangePointRow)
    requires SummaryInDomain(s, |dates|)
    ensures row.changepointId == i + 1
    ensures && row.meanPosition == s.mean && row.medianPosition == s.median
            && row.ciLower == s.ciLower && row.ciUpper == s.ciUpper && row.std == s.std
    ensures && row.meanDate == DateAt(dates, s.mean) && row.medianDate == DateAt(dates, s.median)
            && row.ciLowerDate == DateAt(dates, s.ciLower) && row.ciUpperDate == DateAt(dates, s.ciUpper)
    ensures StrictlyAscending(dates) ==> DatesInside(dates, row)
  {
    DateAtInside(dates, s.mean);
    DateAtInside(dates, s.median);
    DateAtInside(dates, s.ciLower);
    DateAtInside(dates, s.ciUpper);
    ChangePointRow(i + 1, s.mean, DateAt(dates, s.mean), s.median, DateAt(dates, s.median),
                   s.ciLower, s.ciUpper, DateAt(dates, s.ciLower), DateAt(dates, s.ciUpper), s.std)
  }

  predicate StrictlyAscending(dates: seq<int>)
  {
    forall i, j :: 0 <= i < j < |dates| ==> dates[i] < dates[j]
  }

  /** One row per change point, numbered 1 .. maxChangepoints in order.
      On a strictly ascending date index every reported date lies strictly
      between the first and the last date of the series. */
  function GetChangePoints(dates: seq<int>, maxChangepoints: nat, summaries: seq<TauSummary>)
    : (rows: seq<ChangePointRow>)
    requires |summaries| == maxChangepoints
    requires forall i :: 0 <= i < |summaries| ==> SummaryInDomain(summaries[i], |dates|)
    ensures |rows| == maxChangepoints
    ensures forall i :: 0 <= i < |rows| ==>
              && rows[i].changepointId == i + 1
              && rows[i].medianPosition == summaries[i].median
              && rows[i].meanPosition == summaries[i].mean
              && rows[i].ciLower == summaries[i].ciLower
              && rows[i].ciUpper == summaries[i].ciUpper
              && rows[i].std == summaries[i].std
    ensures forall i :: 0 <= i < |summaries| ==>
              && SummaryInDomain(summaries[i], |dates|)
              && rows[i].meanDate == DateAt(dates, summaries[i].mean)
              && rows[i].medianDate == DateAt(dates, summaries[i].median)
              && rows[i].ciLowerDate == DateAt(dates, summaries[i].ciLower)
              && rows[i].ciUpperDate == DateAt(dates, summaries[i].ciUpper)
    ensures StrictlyAscending(dates) ==> forall i :: 0 <= i < |rows| ==> DatesInside(dates, rows[i])
  {
    var rows := seq(|summaries|, i requires 0 <= i < |summaries| => ToRow(dates, i, summaries[i]));
    assert forall i :: 0 <= i < |rows| ==> rows[i] == ToRow(dates, i, summaries[i]);
    rows
  }

  /** On an ascending date index the dates keep the order of the positions
      they are read at: an interval ordered as ciLower <= median <= ciUpper
      gives dates in the same order. */
  lemma DatesFollowPositions(dates: seq<int>, maxChangepoints: nat, summaries: seq<TauSummary>, i: nat)
    requires |summaries| == maxChangepoints
    requires forall i :: 0 <= i < |summaries| ==> SummaryInDomain(summaries[i], |dates|)
    requires Ascending(dates) && i < |summaries|
    requires summaries[i].ciLower <= summaries[i].median <= summaries[i].ciUpper
    ensures var row := GetChangePoints(dates, maxChangepoints, summaries)[i];
            row.ciLowerDate <= row.medianDate <= row.ciUpperDate
  {
    var s := summaries[i];
    var lo := s.ciLower.Floor;
    var md := s.median.Floor;
    var hi := s.ciUpper.Floor;
    assert lo <= md <= hi;
    assert DateAt(dates, s.ciLower) == dates[lo];
    assert DateAt(dates, s.median) == dates[md];
    assert DateAt(dates, s.ciUpper) == dates[hi];
  }

  // ---------------------------------------------------------------------
  // Diagnostics verdicts
  // ---------------------------------------------------------------------

  datatype RHatVerdict = Excellent | Good | Poor

  const ExcellentRHat: real := 1.01
  const GoodRHat: real := 1.05

  /** The convergence verdict on the largest R-hat. */
  function RHatVerdictOf(rhatMax: real): (v: RHatVerdict)
    ensures v == Excellent <==> rhatMax < ExcellentRHat
    ensures v == Good <==> ExcellentRHat <= rhatMax < GoodRHat
    ensures v == Poor <==> GoodRHat <= rhatMax
  {
    if rhatMax < ExcellentRHat then Excellent
    else if rhatMax < GoodRHat then Good
    else Poor
  }

  function Rank(v: RHatVerdict): nat
  {
    match v
    case Excellent => 0
    case Good => 1
    case Poor => 2
  }

  /** A larger R-hat never earns a better verdict. */
  lemma RHatVerdictMonotone(a: real, b: real)
    requires a <= b
    ensures Rank(RHatVerdictOf(a)) <= Rank(RHatVerdictOf(b))
  {
  }

  /** A verdict other than Poor implies the convergence flag of the
      Bayesian analyser (every R-hat below 1.1). */
  lemma VerdictImpliesConverged(rhats: seq<real>)
    requires |rhats| > 0
    requires RHatVerdictOf(BayesianModel.RealMax(rhats)) != Poor
    ensures BayesianModel.Converged(rhats)
  {
    BayesianModel.ConvergedIffMaxBelow(rhats);
  }

  const GoodEss: real := 400.0

  /** The smallest of a non-empty sequence of reals. */
  function RealMin(s: seq<real>): (m: real)
    requires |s| > 0
    ensures m in s
    ensures forall i :: 0 <= i < |s| ==> m <= s[i]
  {
    if |s| == 1 then s[0]
    else
      var rest := RealMin(s[1..]);
      assert forall i :: 1 <= i < |s| ==> s[i] == s[1..][i - 1];
      if s[0] <= rest then s[0] else rest
  }

  /** The effective sample size is good exactly when its minimum exceeds
      400; exactly 400 is low. */
  function EssIsGood(essMin: real): (good: bool)
    ensures good <==> essMin > GoodEss
    ensures essMin == GoodEss ==> !good
  {
    essMin > GoodEss
  }

  /** The verdict is taken on the minimum effective sample size, so it is
      good exactly when every parameter's ESS exceeds 400, and one parameter
      at 400 or below makes it low. */
  lemma EssGoodIffAllAbove(ess: seq<real>)
    requires |ess| > 0
    ensures EssIsGood(RealMin(ess)) <==> forall i :: 0 <= i < |ess| ==> ess[i] > GoodEss
  {
    var m := RealMin(ess);
    if !EssIsGood(m) {
      var k :| 0 <= k < |ess| && ess[k] == m;
      assert !(ess[k] > GoodEss);
    }
  }
}
