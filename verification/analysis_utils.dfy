/** Association of detected change points with catalogued events inside a
    tolerance window, segmentation of a price series into regimes at the
    change points, and the event impact summary (utils/analysis_utils.py). */
module AnalysisUtils {
  import opened Common
  import opened EventData

  // ---------------------------------------------------------------------
  // Change point / event association
  // ---------------------------------------------------------------------

  /** Whether the event happened strictly before the change point. */
  datatype Direction = Before | After

  /** A change point as reported by the detector: its mean date and the
      dates of its credible interval. */
  datatype DetectedChangePoint = DetectedChangePoint(
    changepointId: int, meanDate: int, ciLowerDate: int, ciUpperDate: int)

  /** An event found within the tolerance window of a change point. */
  datatype NearbyEvent = NearbyEvent(
    eventId: int,
    eventName: string,
    eventDate: int,
    category: string,
    expectedImpact: string,
    daysDifference: nat,
    direction: Direction)

  /** One row of the association table. */
  datatype Association = Association(
    changepointId: int,
    changepointDate: int,
    ciLowerDate: int,
    ciUpperDate: int,
    associatedEvents: nat,
    closestEvent: Option<NearbyEvent>,
    allNearbyEvents: seq<NearbyEvent>)

  predicate WithinTolerance(cpDate: int, e: Event, toleranceDays: int)
  {
    Abs(cpDate - e.date) <= toleranceDays
  }

  function ToNearby(cpDate: int, e: Event): NearbyEvent
  {
    NearbyEvent(e.eventId, e.eventName, e.date, e.category, e.expectedImpact,
                Abs(cpDate - e.date), if e.date < cpDate then Before else After)
  }

  /** The events inside the window of `cpDate`, in catalogue order; this is
      the list before it is sorted by proximity. */
  function NearbyInOrder(cpDate: int, events: seq<Event>, toleranceDays: int)
    : (r: seq<NearbyEvent>)
    ensures |r| <= |events|
    ensures forall n :: n in r ==>
              exists e :: e in events && WithinTolerance(cpDate, e, toleranceDays) && n == ToNearby(cpDate, e)
    ensures forall e :: e in events && WithinTolerance(cpDate, e, toleranceDays) ==>
              ToNearby(cpDate, e) in r
  {
    if events == [] then []
    else
      var rest := NearbyInOrder(cpDate, events[1..], toleranceDays);
      assert forall e :: e in events[1..] ==> e in events;
      assert events == [events[0]] + events[1..];
      if WithinTolerance(cpDate, events[0], toleranceDays)
      then [ToNearby(cpDate, events[0])] + rest
      else rest
  }

  /** The sort key of the nearby-event list. */
  function Proximity(n: NearbyEvent): real
  {
    n.daysDifference as real
  }

  /** The association row of one change point: every event within
      `toleranceDays` days (inclusive) of its mean date, closest first. */
  function AssociateOne(cp: DetectedChangePoint, events: seq<Event>, toleranceDays: int)
    : (a: Association)
    ensures a.changepointId == cp.changepointId && a.changepointDate == cp.meanDate
    ensures a.ciLowerDate == cp.ciLowerDate && a.ciUpperDate == cp.ciUpperDate
    ensures a.associatedEvents == |a.allNearbyEvents|
    ensures a.closestEvent == if a.allNearbyEvents == [] then None else Some(a.allNearbyEvents[0])
    ensures a.associatedEvents <= |events|
  {
    var sorted := SortBy(NearbyInOrder(cp.meanDate, events, toleranceDays), Proximity);
    Association(cp.changepointId, cp.meanDate, cp.ciLowerDate, cp.ciUpperDate,
                |sorted|, if sorted == [] then None else Some(sorted[0]), sorted)
  }

  /** An event is listed for a change point exactly when it lies within
      `toleranceDays` days of it, bounds included; every listed event
      carries its non-negative distance and is "before" exactly when it
      happened strictly before the change point. */
  lemma AssociationWindow(cp: DetectedChangePoint, events: seq<Event>, toleranceDays: int)
    ensures forall e :: e in events ==>
              (ToNearby(cp.meanDate, e) in AssociateOne(cp, events, toleranceDays).allNearbyEvents
               <==> Abs(cp.meanDate - e.date) <= toleranceDays)
    ensures forall n :: n in AssociateOne(cp, events, toleranceDays).allNearbyEvents ==>
              && n.daysDifference == Abs(cp.meanDate - n.eventDate)
              && n.daysDifference <= toleranceDays
              && (n.direction == Before <==> n.eventDate < cp.meanDate)
  {
    var inOrder := NearbyInOrder(cp.meanDate, events, toleranceDays);
    SortByMembers(inOrder, Proximity);
  }

  /** The listed events are ordered by non-decreasing distance; they are a
      permutation of the in-window events, and events at the same distance
      keep their catalogue order. */
  lemma AssociationOrder(cp: DetectedChangePoint, events: seq<Event>, toleranceDays: int)
    ensures var all := AssociateOne(cp, events, toleranceDays).allNearbyEvents;
            forall i, j :: 0 <= i < j < |all| ==> all[i].daysDifference <= all[j].daysDifference
    ensures multiset(AssociateOne(cp, events, toleranceDays).allNearbyEvents)
         == multiset(NearbyInOrder(cp.meanDate, events, toleranceDays))
    ensures forall d :: WithKey(Proximity, d, AssociateOne(cp, events, toleranceDays).allNearbyEvents)
                     == WithKey(Proximity, d, NearbyInOrder(cp.meanDate, events, toleranceDays))
  {
    var inOrder := NearbyInOrder(cp.meanDate, events, toleranceDays);
    var all := AssociateOne(cp, events, toleranceDays).allNearbyEvents;
    assert all == SortBy(inOrder, Proximity);
    assert forall i, j :: 0 <= i < j < |all| ==> Proximity(all[i]) <= Proximity(all[j]);
    forall d ensures WithKey(Proximity, d, all) == WithKey(Proximity, d, inOrder) {
      SortByStable(inOrder, Proximity, d);
    }
  }

  /** One association row per change point, in the order of the change
      points. */
  function AssociateEventsWithChangepoints(changepoints: seq<DetectedChangePoint>,
                                           events: seq<Event>, toleranceDays: int)
    : (r: seq<Association>)
    ensures |r| == |changepoints|
    ensures forall i :: 0 <= i < |r| ==> r[i].changepointId == changepoints[i].changepointId
    ensures forall i :: 0 <= i < |r| ==> r[i] == AssociateOne(changepoints[i], events, toleranceDays)
  {
    seq(|changepoints|, i requires 0 <= i < |changepoints| =>
      AssociateOne(changepoints[i], events, toleranceDays))
  }

  // ---------------------------------------------------------------------
  // Regime segmentation
  // ---------------------------------------------------------------------

  /** A regime: the observations with startDate <= date < endDate. */
  datatype Regime = Regime(
    regimeId: nat,
    startDate: int,
    endDate: int,
    durationDays: int,
    observations: seq<Observation>)

  /** The regime boundaries: the first date of the series, the change points
      in ascending order, and the last date of the series. */
  function Boundaries(data: seq<Observation>, changepoints: seq<int>): (b: seq<int>)
    requires |data| > 0
    ensures |b| == |changepoints| + 2
    ensures b[0] == MinOf(Dates(data)) && b[|b| - 1] == MaxOf(Dates(data))
    ensures forall i, j :: 1 <= i <= j <= |changepoints| ==> b[i] <= b[j]
    ensures multiset(b[1..|b| - 1]) == multiset(changepoints)
  {
    var sorted := SortBy(changepoints, IntKey);
    var b := [MinOf(Dates(data))] + sorted + [MaxOf(Dates(data))];
    assert b[1..|b| - 1] == sorted;
    assert forall i, j :: 1 <= i <= j <= |changepoints| ==> b[i] <= b[j] by {
      forall i, j | 1 <= i <= j <= |changepoints|
        ensures b[i] <= b[j]
      {
        assert b[i] == sorted[i - 1] && b[j] == sorted[j - 1];
        if i < j {
          assert IntKey(sorted[i - 1]) <= IntKey(sorted[j - 1]);
        }
      }
    }
    b
  }

  function InWindow(start: int, end: int): Observation -> bool
  {
    (o: Observation) => start <= o.date < end
  }

  predicate HasRegime(rs: seq<Regime>, id: nat)
  {
    exists k :: 0 <= k < |rs| && rs[k].regimeId == id
  }

  /** `r` is the non-empty regime of the boundary pair (b[id-1], b[id]). */
  predicate RegimeOf(data: seq<Observation>, b: seq<int>, r: Regime)
  {
    && 1 <= r.regimeId <= |b| - 1
    && r.startDate == b[r.regimeId - 1]
    && r.endDate == b[r.regimeId]
    && r.durationDays == r.endDate - r.startDate
    && r.observations == Filter(InWindow(r.startDate, r.endDate), data)
    && r.observations != []
  }

  /** The regimes for the boundary pairs (b[i], b[i+1]), (b[i+1], b[i+2]),
      ...; a pair with no observation yields no regime, but the ids of the
      remaining regimes still follow the pair's position. */
  function RegimesFrom(data: seq<Observation>, b: seq<int>, i: nat): (rs: seq<Regime>)
    requires 0 < |b| && i <= |b| - 1
    decreases |b| - i
    ensures forall k :: 0 <= k < |rs| ==> i + 1 <= rs[k].regimeId && RegimeOf(data, b, rs[k])
    ensures forall k, l :: 0 <= k < l < |rs| ==> rs[k].regimeId < rs[l].regimeId
  {
    if i == |b| - 1 then []
    else
      var members := Filter(InWindow(b[i], b[i + 1]), data);
      var rest := RegimesFrom(data, b, i + 1);
      if members == [] then
        rest
      else
        var r := Regime(i + 1, b[i], b[i + 1], b[i + 1] - b[i], members);
        assert forall k :: 0 <= k < |rest| ==> ([r] + rest)[k + 1] == rest[k];
        [r] + rest
  }

  /** Every boundary pair from position `i` on that holds an observation
      yields a regime with the pair's id. */
  lemma {:induction false} RegimesFromCovers(data: seq<Observation>, b: seq<int>, i: nat, a: nat)
    requires 0 < |b| && i <= a < |b| - 1
    requires Filter(InWindow(b[a], b[a + 1]), data) != []
    ensures HasRegime(RegimesFrom(data, b, i), a + 1)
    decreases a - i
  {
    var rs := RegimesFrom(data, b, i);
    var members := Filter(InWindow(b[i], b[i + 1]), data);
    var rest := RegimesFrom(data, b, i + 1);
    if a == i {
      assert rs[0].regimeId == i + 1;
    } else {
      RegimesFromCovers(data, b, i + 1, a);
      var k :| 0 <= k < |rest| && rest[k].regimeId == a + 1;
      if members == [] {
        assert rs == rest;
      } else {
        assert rs[k + 1] == rest[k];
      }
    }
  }

  /** The regimes of `data` delimited by the change-point dates. Each regime
      keeps exactly the observations with start <= date < end, in series
      order; empty regimes are skipped without renumbering the others. */
  function AnalyzeRegimes(data: seq<Observation>, changepoints: seq<int>): (rs: seq<Regime>)
    ensures data == [] ==> rs == []
    ensures forall k :: 0 <= k < |rs| ==>
              && 1 <= rs[k].regimeId <= |changepoints| + 1
              && rs[k].durationDays == rs[k].endDate - rs[k].startDate
              && rs[k].observations != []
              && SubsequenceOf(rs[k].observations, data)
              && (forall o :: o in rs[k].observations ==>
                    o in data && rs[k].startDate <= o.date < rs[k].endDate)
              && (forall o :: o in data && rs[k].startDate <= o.date < rs[k].endDate ==>
                    o in rs[k].observations)
    ensures forall k, l :: 0 <= k < l < |rs| ==> rs[k].regimeId < rs[l].regimeId
    ensures data != [] ==> forall k :: 0 <= k < |rs| ==> RegimeOf(data, Boundaries(data, changepoints), rs[k])
  {
    if data == [] then []
    else
      var b := Boundaries(data, changepoints);
      var rs := RegimesFrom(data, b, 0);
      assert forall k :: 0 <= k < |rs| ==> SubsequenceOf(rs[k].observations, data) by {
        forall k | 0 <= k < |rs| ensures SubsequenceOf(rs[k].observations, data) {
          FilterIsSubsequence(InWindow(rs[k].startDate, rs[k].endDate), data);
        }
      }
      rs
  }

  /** No observation belongs to two regimes. */
  lemma RegimesDisjoint(data: seq<Observation>, changepoints: seq<int>, k: nat, l: nat, o: Observation)
    requires k < l < |AnalyzeRegimes(data, changepoints)|
    ensures !(o in AnalyzeRegimes(data, changepoints)[k].observations
              && o in AnalyzeRegimes(data, changepoints)[l].observations)
  {
    var rs := AnalyzeRegimes(data, changepoints);
    var b := Boundaries(data, changepoints);
    assert rs == RegimesFrom(data, b, 0);
    var a := rs[k].regimeId - 1;
    var c := rs[l].regimeId - 1;
    assert a < c <= |changepoints|;
    // Regime k ends at b[a+1], regime l starts at b[c], and both are change
    // points in ascending order.
    assert b[a + 1] <= b[c];
  }

  /** Every observation dated before the last date of the series falls into
      some regime (hence into exactly one, by RegimesDisjoint). */
  lemma EarlierObservationsCovered(data: seq<Observation>, changepoints: seq<int>, o: Observation)
    requires o in data && o.date < MaxOf(Dates(data))
    ensures exists k :: 0 <= k < |AnalyzeRegimes(data, changepoints)|
                     && o in AnalyzeRegimes(data, changepoints)[k].observations
  {
    var b := Boundaries(data, changepoints);
    var rs := RegimesFrom(data, b, 0);
    assert rs == AnalyzeRegimes(data, changepoints);
    var idx :| 0 <= idx < |data| && data[idx] == o;
    assert Dates(data)[idx] == o.date;
    var a := Crossing(b, o.date);
    assert InWindow(b[a], b[a + 1])(o);
    assert o in Filter(InWindow(b[a], b[a + 1]), data);
    RegimesFromCovers(data, b, 0, a);
    var k :| 0 <= k < |rs| && rs[k].regimeId == a + 1;
    assert InWindow(rs[k].startDate, rs[k].endDate)(o);
  }

  /** A value that is at least the first element of `b` and below its last
      lies between two neighbouring elements. */
  lemma {:induction false} Crossing(b: seq<int>, d: int) returns (a: nat)
    requires |b| > 0 && b[0] <= d < b[|b| - 1]
    ensures a < |b| - 1 && b[a] <= d < b[a + 1]
  {
    if d < b[1] {
      a := 0;
    } else {
      var a' := Crossing(b[1..], d);
      a := a' + 1;
    }
  }

  /** When no change point lies after the last date of the series, the
      observation on that last date belongs to no regime: the last boundary
      is exclusive. */
  lemma LastDateInNoRegime(data: seq<Observation>, changepoints: seq<int>)
    requires |data| > 0
    requires forall c :: c in changepoints ==> c <= MaxOf(Dates(data))
    ensures forall k, o ::
              (0 <= k < |AnalyzeRegimes(data, changepoints)| && o in AnalyzeRegimes(data, changepoints)[k].observations)
              ==> o.date < MaxOf(Dates(data))
  {
    var rs := AnalyzeRegimes(data, changepoints);
    var b := Boundaries(data, changepoints);
    assert rs == RegimesFrom(data, b, 0);
    forall k | 0 <= k < |rs|
      ensures rs[k].endDate <= MaxOf(Dates(data))
    {
      var a := rs[k].regimeId;
      if a < |b| - 1 {
        assert b[a] in multiset(b[1..|b| - 1]) by {
          assert b[1..|b| - 1][a - 1] == b[a];
        }
        assert b[a] in changepoints by {
          assert b[a] in multiset(changepoints);
        }
      }
    }
  }

  // ---------------------------------------------------------------------
  // Impact summary
  // ---------------------------------------------------------------------

  /** The outcome of the price-impact calculation for one event: either the
      error marker or the measured figures. */
  datatype ImpactResult =
    | ImpactFailed
    | ImpactMeasured(eventDate: int, immediateImpactPct: real, avgImpactPct: real,
                     volatilityChangePct: real, significant: bool, pValue: real)

  datatype ImpactDirection = Increase | Decrease

  datatype ImpactSummaryRow = ImpactSummaryRow(
    eventId: int,
    eventName: string,
    eventDate: int,
    category: string,
    expectedImpact: string,
    immediateImpactPct: real,
    avgImpactPct: real,
    volatilityChangePct: real,
    statisticallySignificant: bool,
    pValue: real,
    impactMagnitude: real,
    impactDirection: ImpactDirection)

  /** Why the summary could not be built: a measured impact at a position
      that has no event row, or no measured impact at all (the empty table
      has no magnitude column to sort by). */
  datatype SummaryError = MissingEventRow(position: nat) | NoRowsToSort

  function RealAbs(x: real): real
  {
    if x < 0.0 then -x else x
  }

  /** The summary row of the event at some position and the impact at the
      same position. */
  function SummaryRow(e: Event, m: ImpactResult): ImpactSummaryRow
    requires m.ImpactMeasured?
  {
    ImpactSummaryRow(e.eventId, e.eventName, m.eventDate, e.category, e.expectedImpact,
                     m.immediateImpactPct, m.avgImpactPct, m.volatilityChangePct,
                     m.significant, m.pValue, RealAbs(m.avgImpactPct),
                     if m.avgImpactPct > 0.0 then Increase else Decrease)
  }

  predicate PairedFrom(events: seq<Event>, impacts: seq<ImpactResult>, k: nat)
  {
    forall j :: k <= j < |impacts| && impacts[j].ImpactMeasured? ==> j < |events|
  }

  /** The number of measured impacts at positions k, k+1, ... */
  function MeasuredFrom(impacts: seq<ImpactResult>, k: nat): nat
    requires k <= |impacts|
    decreases |impacts| - k
  {
    if k == |impacts| then 0
    else (if impacts[k].ImpactMeasured? then 1 else 0) + MeasuredFrom(impacts, k + 1)
  }

  /** The summary rows for positions k, k+1, ... of `impacts`, unsorted. */
  function PairFrom(events: seq<Event>, impacts: seq<ImpactResult>, k: nat)
    : (r: Result<seq<ImpactSummaryRow>, SummaryError>)
    requires k <= |impacts|
    decreases |impacts| - k
    ensures r.Ok? <==> PairedFrom(events, impacts, k)
    ensures r.Err? ==> exists p: nat :: r.error == MissingEventRow(p) && k <= p < |impacts|
                                   && impacts[p].ImpactMeasured? && p >= |events|
    ensures r.Ok? ==> forall row :: row in r.value ==>
              exists j :: k <= j < |impacts| && impacts[j].ImpactMeasured? && j < |events|
                          && row == SummaryRow(events[j], impacts[j])
    ensures r.Ok? ==> forall j :: k <= j < |impacts| && impacts[j].ImpactMeasured? ==>
              j < |events| && SummaryRow(events[j], impacts[j]) in r.value
    ensures r.Ok? ==> (r.value == [] <==> forall j :: k <= j < |impacts| ==> impacts[j].ImpactFailed?)
    ensures r.Ok? ==> |r.value| == MeasuredFrom(impacts, k)
  {
    if k == |impacts| then Ok([])
    else if impacts[k].ImpactFailed? then PairFrom(events, impacts, k + 1)
    else if k >= |events| then Err(MissingEventRow(k))
    else
      match PairFrom(events, impacts, k + 1)
      case Err(e) => Err(e)
      case Ok(rows) => Ok([SummaryRow(events[k], impacts[k])] + rows)
  }

  function NegMagnitude(row: ImpactSummaryRow): real
  {
    -row.impactMagnitude
  }

  /** Drops failed impacts, pairs each remaining impact with the event at
      the same position of the event table, and orders the rows by
      decreasing magnitude of the average impact. */
  function CreateImpactSummary(events: seq<Event>, impacts: seq<ImpactResult>)
    : (r: Result<seq<ImpactSummaryRow>, SummaryError>)
    ensures r.Ok? <==> PairedFrom(events, impacts, 0)
                       && exists j :: 0 <= j < |impacts| && impacts[j].ImpactMeasured?
    ensures r == Err(NoRowsToSort) <==> forall j :: 0 <= j < |impacts| ==> impacts[j].ImpactFailed?
    ensures r.Ok? ==> forall i, j :: 0 <= i < j < |r.value| ==>
              r.value[i].impactMagnitude >= r.value[j].impactMagnitude
  {
    match PairFrom(events, impacts, 0)
    case Err(e) => Err(e)
    case Ok(rows) =>
      if rows == [] then Err(NoRowsToSort)
      else
        var sorted := SortBy(rows, NegMagnitude);
        assert forall i, j :: 0 <= i < j < |sorted| ==>
          NegMagnitude(sorted[i]) <= NegMagnitude(sorted[j]);
        Ok(sorted)
  }

  /** Each summary row pairs a measured impact with the event at the SAME
      position of the event table (not its position among the measured
      impacts), and every measured impact yields exactly one row. */
  lemma ImpactSummaryPairing(events: seq<Event>, impacts: seq<ImpactResult>)
    requires CreateImpactSummary(events, impacts).Ok?
    ensures forall row :: row in CreateImpactSummary(events, impacts).value ==>
              exists j :: 0 <= j < |impacts| && impacts[j].ImpactMeasured? && j < |events|
                          && row == SummaryRow(events[j], impacts[j])
    ensures forall j :: 0 <= j < |impacts| && impacts[j].ImpactMeasured? ==>
              j < |events| && SummaryRow(events[j], impacts[j]) in CreateImpactSummary(events, impacts).value
    ensures |CreateImpactSummary(events, impacts).value| == MeasuredFrom(impacts, 0)
  {
    var rows := PairFrom(events, impacts, 0).value;
    SortByMembers(rows, NegMagnitude);
  }

  /** The magnitude is the absolute value of the average impact, and the
      direction is "increase" exactly when that average is positive (a zero
      average counts as a decrease). */
  lemma ImpactSummaryRowFacts(events: seq<Event>, impacts: seq<ImpactResult>)
    requires CreateImpactSummary(events, impacts).Ok?
    ensures forall row :: row in CreateImpactSummary(events, impacts).value ==>
              && row.impactMagnitude >= 0.0
              && (row.impactMagnitude == row.avgImpactPct || row.impactMagnitude == -row.avgImpactPct)
              && (row.impactDirection == Increase <==> row.avgImpactPct > 0.0)
  {
    ImpactSummaryPairing(events, impacts);
  }
}
