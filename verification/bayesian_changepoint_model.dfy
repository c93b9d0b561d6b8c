/** The discrete parts of the Bayesian change-point analyser
    (src/bayesian_changepoint_model.py): which parameter set each time index
    uses in the single and multiple change-point models, the convergence
    flag, the association of posterior change points with events, and the
    before/after windows used to quantify their impact. */
module BayesianModel {
  import opened Common
  import opened EventData

  // ---------------------------------------------------------------------
  // Regime index of a time step
  // ---------------------------------------------------------------------

  /** The change point of the single model is drawn uniformly from
      1 .. nObs - 2 (bounds included). */
  predicate TauInDomain(tau: int, nObs: int)
  {
    1 <= tau <= nObs - 2
  }

  /** Single model: index `t` takes the "before" parameters (0) when
      tau >= t and the "after" parameters (1) otherwise, so the change-point
      index itself still belongs to the first regime. */
  function SingleRegime(tau: int, t: int): (r: nat)
    ensures r <= 1
  {
    if tau >= t then 0 else 1
  }

  /** Multiple model: the regime of index `t` is the number of change
      points strictly before it. */
  function MultiRegime(tau: seq<int>, t: int): (r: nat)
    ensures r <= |tau|
  {
    if tau == [] then 0
    else (if tau[0] < t then 1 else 0) + MultiRegime(tau[1..], t)
  }

  function Below(t: int): int -> bool
  {
    (x: int) => x < t
  }

  /** The regime index counts the change points lying strictly before `t`. */
  lemma {:induction false} MultiRegimeCounts(tau: seq<int>, t: int)
    ensures MultiRegime(tau, t) == |Filter(Below(t), tau)|
  {
    if tau != [] {
      MultiRegimeCounts(tau[1..], t);
      assert tau == [tau[0]] + tau[1..];
    }
  }

  /** With sorted change points, regime r of index `t` means that exactly
      the first r change points lie before `t` and the others at or after
      it. */
  lemma {:induction false} MultiRegimeSplits(tau: seq<int>, t: int)
    requires Ascending(tau)
    ensures forall i :: 0 <= i < MultiRegime(tau, t) ==> tau[i] < t
    ensures forall i :: MultiRegime(tau, t) <= i < |tau| ==> t <= tau[i]
  {
    if tau != [] {
      var rest := tau[1..];
      assert Ascending(rest);
      MultiRegimeSplits(rest, t);
      var r := MultiRegime(tau, t);
      if tau[0] < t {
        forall i | 0 <= i < r ensures tau[i] < t {
          if i > 0 { assert tau[i] == rest[i - 1]; }
        }
        forall i | r <= i < |tau| ensures t <= tau[i] {
          assert tau[i] == rest[i - 1];
        }
      } else {
        forall i | 0 <= i < |rest| ensures t <= rest[i] {
          assert tau[0] <= tau[i + 1];
        }
      }
    }
  }

  /** A later index never belongs to an earlier regime. */
  lemma {:induction false} MultiRegimeMonotone(tau: seq<int>, t1: int, t2: int)
    requires t1 <= t2
    ensures MultiRegime(tau, t1) <= MultiRegime(tau, t2)
  {
    if tau != [] {
      MultiRegimeMonotone(tau[1..], t1, t2);
    }
  }

  /** The regime index of every time step selects one of the
      nChangepoints + 1 parameter entries. */
  lemma RegimeIndexInBounds(tauRaw: seq<int>, nObs: nat, t: int)
    requires forall i :: 0 <= i < |tauRaw| ==> TauInDomain(tauRaw[i], nObs)
    ensures 0 <= MultiRegime(SortBy(tauRaw, IntKey), t) < |tauRaw| + 1
    ensures MultiRegime(SortBy(tauRaw, IntKey), 0) == 0
    ensures MultiRegime(SortBy(tauRaw, IntKey), nObs - 1) == |tauRaw|
  {
    var tau := SortBy(tauRaw, IntKey);
    SortByMembers(tauRaw, IntKey);
    forall i | 0 <= i < |tau| ensures TauInDomain(tau[i], nObs) {
      assert tau[i] in tauRaw;
    }
    MultiRegimeNone(tau, 0);
    MultiRegimeAll(tau, nObs - 1);
  }

  lemma {:induction false} MultiRegimeNone(tau: seq<int>, t: int)
    requires forall i :: 0 <= i < |tau| ==> t <= tau[i]
    ensures MultiRegime(tau, t) == 0
  {
    if tau != [] {
      MultiRegimeNone(tau[1..], t);
    }
  }

  lemma {:induction false} MultiRegimeAll(tau: seq<int>, t: int)
    requires forall i :: 0 <= i < |tau| ==> tau[i] < t
    ensures MultiRegime(tau, t) == |tau|
  {
    if tau != [] {
      MultiRegimeAll(tau[1..], t);
    }
  }

  /** With one change point the two builders of this file agree: both keep
      the change-point index itself in the first regime (the opposite of
      the regime loop in src/change_point_model.py). */
  lemma SingleAgreesWithMultiple(tau: int, t: int)
    ensures SingleRegime(tau, t) == MultiRegime([tau], t)
    ensures SingleRegime(tau, t) == 0 <==> t <= tau
  {
    assert [tau][1..] == [];
  }

  /** For a change point drawn from its domain both regimes of the single
      model are non-empty: index 0 is before it and index nObs - 1 after. */
  lemma SingleRegimesNonEmpty(tau: int, nObs: int)
    requires TauInDomain(tau, nObs)
    ensures SingleRegime(tau, 0) == 0 && SingleRegime(tau, 1) == 0
    ensures SingleRegime(tau, nObs - 1) == 1
  {
  }

  // ---------------------------------------------------------------------
  // Convergence flag
  // ---------------------------------------------------------------------

  const RHatLimit: real := 1.1

  /** Converged when every R-hat is strictly below 1.1; an empty summary
      counts as converged. */
  predicate Converged(rhats: seq<real>)
  {
    forall i :: 0 <= i < |rhats| ==> rhats[i] < RHatLimit
  }

  function RealMax(s: seq<real>): (m: real)
    requires |s| > 0
    ensures m in s
    ensures forall i :: 0 <= i < |s| ==> s[i] <= m
  {
    if |s| == 1 then s[0]
    else
      var m := RealMax(s[1..]);
      assert forall i :: 1 <= i < |s| ==> s[i] == s[1..][i - 1];
      if s[0] >= m then s[0] else m
  }

  /** The flag agrees with the reported maximum R-hat. */
  lemma ConvergedIffMaxBelow(rhats: seq<real>)
    requires |rhats| > 0
    ensures Converged(rhats) <==> RealMax(rhats) < RHatLimit
  {
    if Converged(rhats) {
      var k :| 0 <= k < |rhats| && rhats[k] == RealMax(rhats);
    }
  }

  // ---------------------------------------------------------------------
  // Posterior change points
  // ---------------------------------------------------------------------

  /** A change point summarised from the posterior draws of its index; its
      date estimate is `DateAt(dates, tauMedian)`. */
  datatype ChangePointEstimate = ChangePointEstimate(dateEstimate: int, tauMedian: real, tauStd: real)

  /** The summary of one change point: its date is read at the truncated
      posterior median, which never is the first or last date of a
      strictly ascending series. */
  function EstimateChangePoint(dates: seq<int>, tauMedian: real, tauStd: real): (cp: ChangePointEstimate)
    requires 1.0 <= tauMedian <= (|dates| - 2) as real
    ensures cp.tauMedian == tauMedian && cp.tauStd == tauStd
    ensures cp.dateEstimate == DateAt(dates, tauMedian)
    ensures cp.dateEstimate in dates[1..|dates| - 1]
    ensures (forall i, j :: 0 <= i < j < |dates| ==> dates[i] < dates[j]) ==>
              dates[0] < cp.dateEstimate < dates[|dates| - 1]
  {
    var d := DateAt(dates, tauMedian);
    var k :| 1 <= k <= |dates| - 2 && d == dates[k] && k as real <= tauMedian < k as real + 1.0;
    assert dates[1..|dates| - 1][k - 1] == d;
    ChangePointEstimate(d, tauMedian, tauStd)
  }

  /** On an ascending date index a later median never gives an earlier
      date estimate. */
  lemma EstimateFollowsMedian(dates: seq<int>, m1: real, m2: real, tauStd: real)
    requires 1.0 <= m1 <= m2 <= (|dates| - 2) as real
    requires forall i, j :: 0 <= i <= j < |dates| ==> dates[i] <= dates[j]
    ensures EstimateChangePoint(dates, m1, tauStd).dateEstimate <= EstimateChangePoint(dates, m2, tauStd).dateEstimate
  {
    assert m1.Floor <= m2.Floor;
  }

  // ---------------------------------------------------------------------
  // Association with events
  // ---------------------------------------------------------------------

  /** An event near a change point with its SIGNED distance
      (event date minus change-point date). */
  datatype SignedNearby = SignedNearby(
    eventName: string,
    eventDate: int,
    daysDifference: int,
    category: string,
    expectedImpact: string)

  datatype EventAssociation = EventAssociation(
    changepointId: nat,
    changepointDate: int,
    tauMedian: real,
    tauStd: real,
    associatedEvents: seq<SignedNearby>,
    nNearbyEvents: nat)

  /** Number of closest events kept per change point. */
  const TopEvents: nat := 3

  function Attaches(cpDate: int, toleranceDays: int): Event -> bool
  {
    (e: Event) => Abs(e.date - cpDate) <= toleranceDays
  }

  function ToSigned(cpDate: int, e: Event): SignedNearby
  {
    SignedNearby(e.eventName, e.date, e.date - cpDate, e.category, e.expectedImpact)
  }

  function SignedAll(cpDate: int, es: seq<Event>): (r: seq<SignedNearby>)
    ensures |r| == |es|
    ensures forall i :: 0 <= i < |es| ==> r[i] == ToSigned(cpDate, es[i])
  {
    seq(|es|, i requires 0 <= i < |es| => ToSigned(cpDate, es[i]))
  }

  /** The events within tolerance, in event-table order. */
  function NearbyUnsorted(cpDate: int, events: seq<Event>, toleranceDays: int): seq<SignedNearby>
  {
    SignedAll(cpDate, Filter(Attaches(cpDate, toleranceDays), events))
  }

  function AbsDifference(n: SignedNearby): real
  {
    Abs(n.daysDifference) as real
  }

  /** The events within tolerance, closest first (a stable sort). */
  function NearbySorted(cpDate: int, events: seq<Event>, toleranceDays: int): seq<SignedNearby>
  {
    SortBy(NearbyUnsorted(cpDate, events, toleranceDays), AbsDifference)
  }

  function AssociateOne(position: nat, cp: ChangePointEstimate, events: seq<Event>, toleranceDays: int)
    : (a: EventAssociation)
    ensures a.changepointId == position + 1 && a.changepointDate == cp.dateEstimate
    ensures a.tauMedian == cp.tauMedian && a.tauStd == cp.tauStd
    ensures |a.associatedEvents| <= TopEvents && |a.associatedEvents| <= a.nNearbyEvents
  {
    var all := NearbySorted(cp.dateEstimate, events, toleranceDays);
    EventAssociation(position + 1, cp.dateEstimate, cp.tauMedian, cp.tauStd,
                     all[..Min(TopEvents, |all|)], |all|)
  }

  /** One association per change point, in detection order and numbered
      from 1; nothing when the change points or the events are missing. */
  function AssociateWithEvents(cps: Option<seq<ChangePointEstimate>>, events: Option<seq<Event>>,
                               toleranceDays: int)
    : (r: seq<EventAssociation>)
    ensures cps.None? || events.None? ==> r == []
    ensures cps.Some? && events.Some? ==> |r| == |cps.value|
    ensures forall i :: 0 <= i < |r| ==>
              && cps.Some?
              && i < |cps.value|
              && r[i].changepointId == i + 1
              && r[i].changepointDate == cps.value[i].dateEstimate
              && r[i].tauMedian == cps.value[i].tauMedian
              && r[i].tauStd == cps.value[i].tauStd
              && |r[i].associatedEvents| <= TopEvents
              && |r[i].associatedEvents| <= r[i].nNearbyEvents
  {
    match (cps, events)
    case (Some(c), Some(es)) =>
      seq(|c|, i requires 0 <= i < |c| => AssociateOne(i, c[i], es, toleranceDays))
    case _ => []
  }

  /** An event is listed among the nearby events of a change point exactly
      when it lies within `toleranceDays` of it, bounds included; each
      listed event carries the signed difference event date minus
      change-point date, and n_nearby_events counts them all. */
  lemma AttachmentWindow(cpDate: int, events: seq<Event>, toleranceDays: int)
    ensures forall e :: e in events ==>
              (ToSigned(cpDate, e) in NearbySorted(cpDate, events, toleranceDays)
               <==> Abs(e.date - cpDate) <= toleranceDays)
    ensures forall n :: n in NearbySorted(cpDate, events, toleranceDays) ==>
              n.daysDifference == n.eventDate - cpDate && Abs(n.daysDifference) <= toleranceDays
    ensures |NearbySorted(cpDate, events, toleranceDays)| == |Filter(Attaches(cpDate, toleranceDays), events)|
  {
    var unsorted := NearbyUnsorted(cpDate, events, toleranceDays);
    SortByMembers(unsorted, AbsDifference);
    UnsortedWindow(cpDate, events, toleranceDays);
  }

  /** The window facts before the nearby events are sorted. */
  lemma UnsortedWindow(cpDate: int, events: seq<Event>, toleranceDays: int)
    ensures forall e :: e in events && Abs(e.date - cpDate) <= toleranceDays ==>
              ToSigned(cpDate, e) in NearbyUnsorted(cpDate, events, toleranceDays)
    ensures forall n :: n in NearbyUnsorted(cpDate, events, toleranceDays) ==>
              n.daysDifference == n.eventDate - cpDate && Abs(n.daysDifference) <= toleranceDays
  {
    var kept := Filter(Attaches(cpDate, toleranceDays), events);
    var unsorted := NearbyUnsorted(cpDate, events, toleranceDays);
    forall e | e in events && Abs(e.date - cpDate) <= toleranceDays
      ensures ToSigned(cpDate, e) in unsorted
    {
      assert Attaches(cpDate, toleranceDays)(e);
      var k :| 0 <= k < |kept| && kept[k] == e;
      assert unsorted[k] == ToSigned(cpDate, e);
    }
    forall n | n in unsorted
      ensures n.daysDifference == n.eventDate - cpDate && Abs(n.daysDifference) <= toleranceDays
    {
      var k :| 0 <= k < |unsorted| && unsorted[k] == n;
      assert kept[k] in kept;
    }
  }

  /** The nearby events are ordered by non-decreasing absolute difference,
      events at the same distance keep their event-table order, and the
      kept ones are the first min(3, n): none of the dropped events is
      closer than a kept one. */
  lemma AssociationRanking(position: nat, cp: ChangePointEstimate, events: seq<Event>, toleranceDays: int)
    ensures var all := NearbySorted(cp.dateEstimate, events, toleranceDays);
            forall i, j :: 0 <= i < j < |all| ==> Abs(all[i].daysDifference) <= Abs(all[j].daysDifference)
    ensures forall d :: WithKey(AbsDifference, d, NearbySorted(cp.dateEstimate, events, toleranceDays))
                     == WithKey(AbsDifference, d, NearbyUnsorted(cp.dateEstimate, events, toleranceDays))
    ensures var a := AssociateOne(position, cp, events, toleranceDays);
            var all := NearbySorted(cp.dateEstimate, events, toleranceDays);
            && a.nNearbyEvents == |all|
            && |a.associatedEvents| == Min(TopEvents, |all|)
            && a.associatedEvents == all[..|a.associatedEvents|]
            && forall x, y :: x in a.associatedEvents && y in all[|a.associatedEvents|..] ==>
                 Abs(x.daysDifference) <= Abs(y.daysDifference)
  {
    var unsorted := NearbyUnsorted(cp.dateEstimate, events, toleranceDays);
    var all := NearbySorted(cp.dateEstimate, events, toleranceDays);
    assert forall i, j :: 0 <= i < j < |all| ==> AbsDifference(all[i]) <= AbsDifference(all[j]);
    forall d ensures WithKey(AbsDifference, d, all) == WithKey(AbsDifference, d, unsorted) {
      SortByStable(unsorted, AbsDifference, d);
    }
    var m := Min(TopEvents, |all|);
    forall x, y | x in all[..m] && y in all[m..]
      ensures Abs(x.daysDifference) <= Abs(y.daysDifference)
    {
      var i :| 0 <= i < m && all[..m][i] == x;
      var j :| 0 <= j < |all| - m && all[m..][j] == y;
      assert AbsDifference(all[i]) <= AbsDifference(all[m + j]);
    }
  }

  // ---------------------------------------------------------------------
  // Association summary table
  // ---------------------------------------------------------------------

  const NoNearbyEvents: string := "No nearby events"

  /** One row of the association summary; the date and difference columns
      are blank (None) for a change point without nearby events. */
  datatype AssociationRow = AssociationRow(
    changePoint: nat,
    cpDate: int,
    closestEvent: string,
    eventDate: Option<int>,
    daysDifference: Option<int>,
    eventCategory: string,
    expectedImpact: string)

  function SummaryRow(a: EventAssociation): AssociationRow
  {
    if a.associatedEvents != [] then
      var c := a.associatedEvents[0];
      AssociationRow(a.changepointId, a.changepointDate, c.eventName, Some(c.eventDate),
                     Some(c.daysDifference), c.category, c.expectedImpact)
    else
      AssociationRow(a.changepointId, a.changepointDate, NoNearbyEvents, None, None, "", "")
  }

  /** One summary row per association, in order; it describes the closest
      event, or says there is none. */
  function AssociationSummary(assocs: seq<EventAssociation>): (rows: seq<AssociationRow>)
    ensures |rows| == |assocs|
    ensures forall i :: 0 <= i < |rows| ==>
              && rows[i].changePoint == assocs[i].changepointId
              && rows[i].cpDate == assocs[i].changepointDate
              && (rows[i].eventDate.None? <==> assocs[i].associatedEvents == [])
              && (assocs[i].associatedEvents == [] ==> rows[i].closestEvent == NoNearbyEvents)
              && (assocs[i].associatedEvents != [] ==>
                    && rows[i].closestEvent == assocs[i].associatedEvents[0].eventName
                    && rows[i].daysDifference == Some(assocs[i].associatedEvents[0].daysDifference))
  {
    seq(|assocs|, i requires 0 <= i < |assocs| => SummaryRow(assocs[i]))
  }

  /** The event a summary row names is a nearest event of its change
      point: no event within tolerance is strictly closer. */
  lemma SummaryNamesNearest(cps: seq<ChangePointEstimate>, events: seq<Event>, toleranceDays: int, i: nat)
    requires i < |cps|
    ensures var a := AssociateWithEvents(Some(cps), Some(events), toleranceDays)[i];
            var row := AssociationSummary(AssociateWithEvents(Some(cps), Some(events), toleranceDays))[i];
            row.daysDifference.Some? ==>
              forall e :: e in events && Abs(e.date - cps[i].dateEstimate) <= toleranceDays ==>
                Abs(row.daysDifference.value) <= Abs(e.date - cps[i].dateEstimate)
  {
    var assocs := AssociateWithEvents(Some(cps), Some(events), toleranceDays);
    var a := assocs[i];
    var cpDate := cps[i].dateEstimate;
    assert a == AssociateOne(i, cps[i], events, toleranceDays);
    if a.associatedEvents != [] {
      AssociationRanking(i, cps[i], events, toleranceDays);
      NearestFirst(cpDate, events, toleranceDays);
      assert a.associatedEvents[0] == NearbySorted(cpDate, events, toleranceDays)[0];
    }
  }

  /** The first of the sorted nearby events is a nearest one. */
  lemma NearestFirst(cpDate: int, events: seq<Event>, toleranceDays: int)
    ensures var all := NearbySorted(cpDate, events, toleranceDays);
            all != [] ==> forall e :: e in events && Abs(e.date - cpDate) <= toleranceDays ==>
              Abs(all[0].daysDifference) <= Abs(e.date - cpDate)
  {
    var all := NearbySorted(cpDate, events, toleranceDays);
    AttachmentWindow(cpDate, events, toleranceDays);
    forall e | e in events && Abs(e.date - cpDate) <= toleranceDays
      ensures Abs(all[0].daysDifference) <= Abs(e.date - cpDate)
    {
      var k :| 0 <= k < |all| && all[k] == ToSigned(cpDate, e);
      if k > 0 {
        assert AbsDifference(all[0]) <= AbsDifference(all[k]);
      }
    }
  }

  // ---------------------------------------------------------------------
  // Impact windows
  // ---------------------------------------------------------------------

  /** The before window is [cp - w, cp): the change-point day excluded. */
  function BeforeWindow(cpDate: int, windowDays: int): Observation -> bool
  {
    (o: Observation) => cpDate - windowDays <= o.date < cpDate
  }

  /** The after window is (cp, cp + w]: the change-point day excluded. */
  function AfterWindow(cpDate: int, windowDays: int): Observation -> bool
  {
    (o: Observation) => cpDate < o.date <= cpDate + windowDays
  }

  /** The price data around one change point from which its impact
      statistics are computed. */
  datatype ImpactWindows = ImpactWindows(
    changepointId: nat,
    changepointDate: int,
    before: seq<Observation>,
    after: seq<Observation>,
    nObsBefore: nat,
    nObsAfter: nat)

  /** `r` is the record of change point number r.changepointId. */
  predicate ImpactOf(cps: seq<ChangePointEstimate>, data: seq<Observation>, windowDays: int, r: ImpactWindows)
  {
    && 1 <= r.changepointId <= |cps|
    && r.changepointDate == cps[r.changepointId - 1].dateEstimate
    && r.before == Filter(BeforeWindow(r.changepointDate, windowDays), data)
    && r.after == Filter(AfterWindow(r.changepointDate, windowDays), data)
    && r.before != [] && r.after != []
    && r.nObsBefore == |r.before| && r.nObsAfter == |r.after|
  }

  /** Both windows of the change point at position i hold an observation. */
  predicate HasWindows(cps: seq<ChangePointEstimate>, data: seq<Observation>, windowDays: int, i: nat)
  {
    && i < |cps|
    && Filter(BeforeWindow(cps[i].dateEstimate, windowDays), data) != []
    && Filter(AfterWindow(cps[i].dateEstimate, windowDays), data) != []
  }

  function WithWindows(cps: seq<ChangePointEstimate>, data: seq<Observation>, windowDays: int): nat -> bool
  {
    (i: nat) => HasWindows(cps, data, windowDays, i)
  }

  /** The positions 0 .. n-1. */
  function Positions(n: nat): (r: seq<nat>)
    ensures |r| == n
    ensures forall i :: 0 <= i < n ==> r[i] == i
  {
    seq(n, i requires 0 <= i < n => i)
  }

  function Position(i: nat): int
  {
    i
  }

  /** The record of the change point at position i. */
  function ImpactAt(cps: seq<ChangePointEstimate>, data: seq<Observation>, windowDays: int, i: nat)
    : ImpactWindows
    requires i < |cps|
  {
    var cpDate := cps[i].dateEstimate;
    var before := Filter(BeforeWindow(cpDate, windowDays), data);
    var after := Filter(AfterWindow(cpDate, windowDays), data);
    ImpactWindows(i + 1, cpDate, before, after, |before|, |after|)
  }

  /** The positions, in order, of the change points that get a record. */
  function Recorded(cps: seq<ChangePointEstimate>, data: seq<Observation>, windowDays: int): (pos: seq<nat>)
    ensures forall k :: 0 <= k < |pos| ==> HasWindows(cps, data, windowDays, pos[k])
  {
    var pos := Filter(WithWindows(cps, data, windowDays), Positions(|cps|));
    assert forall k :: 0 <= k < |pos| ==> pos[k] in pos;
    pos
  }

  /** The impact records: at most one per change point, in detection order,
      each built from the observations strictly inside its two windows; a
      change point with an empty window on either side is skipped, and
      there is nothing when no change points are available. */
  function QuantifyImpact(cps: Option<seq<ChangePointEstimate>>, data: seq<Observation>, windowDays: int)
    : (r: Option<seq<ImpactWindows>>)
    ensures r.None? <==> cps.None?
    ensures r.Some? ==> |r.value| <= |cps.value|
    ensures r.Some? ==> forall k :: 0 <= k < |r.value| ==> ImpactOf(cps.value, data, windowDays, r.value[k])
    ensures r.Some? ==> forall k, o :: 0 <= k < |r.value| && o in r.value[k].before ==>
              o in data && r.value[k].changepointDate - windowDays <= o.date < r.value[k].changepointDate
    ensures r.Some? ==> forall k, o :: 0 <= k < |r.value| && o in r.value[k].after ==>
              o in data && r.value[k].changepointDate < o.date <= r.value[k].changepointDate + windowDays
  {
    match cps
    case None => None
    case Some(c) =>
      var pos := Recorded(c, data, windowDays);
      Some(seq(|pos|, k requires 0 <= k < |pos| => ImpactAt(c, data, windowDays, pos[k])))
  }

  predicate HasImpact(rs: seq<ImpactWindows>, id: nat)
  {
    exists k :: 0 <= k < |rs| && rs[k].changepointId == id
  }

  /** The records come in detection order: strictly increasing ids. */
  lemma ImpactOrder(cps: seq<ChangePointEstimate>, data: seq<Observation>, windowDays: int)
    ensures var rs := QuantifyImpact(Some(cps), data, windowDays).value;
            forall k, l :: 0 <= k < l < |rs| ==> rs[k].changepointId < rs[l].changepointId
  {
    var pos := Recorded(cps, data, windowDays);
    FilterKeepsIncreasing(WithWindows(cps, data, windowDays), Positions(|cps|), Position);
    assert forall k, l :: 0 <= k < l < |pos| ==> Position(pos[k]) < Position(pos[l]);
  }

  /** A change point gets an impact record exactly when both of its windows
      hold at least one observation. */
  lemma ImpactRecordIff(cps: seq<ChangePointEstimate>, data: seq<Observation>, windowDays: int, a: nat)
    requires a < |cps|
    ensures HasImpact(QuantifyImpact(Some(cps), data, windowDays).value, a + 1)
        <==> (&& Filter(BeforeWindow(cps[a].dateEstimate, windowDays), data) != []
              && Filter(AfterWindow(cps[a].dateEstimate, windowDays), data) != [])
  {
    var rs := QuantifyImpact(Some(cps), data, windowDays).value;
    var pos := Recorded(cps, data, windowDays);
    if HasWindows(cps, data, windowDays, a) {
      assert Positions(|cps|)[a] == a;
      assert WithWindows(cps, data, windowDays)(a);
      assert a in pos;
      var k :| 0 <= k < |pos| && pos[k] == a;
      assert rs[k].changepointId == a + 1;
    }
  }
}
