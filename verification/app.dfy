/** The filtering and mapping logic of the dashboard API (backend/app.py):
    the events, historical-data, change-point and summary endpoints. HTTP
    routing, JSON conversion and date-string parsing are outside the model:
    query dates arrive as day ordinals, and an absent or empty query
    parameter is `None` (or the empty string for the type query). An
    endpoint that answers with an error status yields `Err`. */
module Api {
  import opened Common
  import BayesianModel
  import EventData

  datatype ApiError =
    | DataUnavailable       // the cached frame is missing
    | AnalysisUnavailable   // no analysis results have been computed
    | EmptySelection        // min()/max() of an empty index cannot be formatted

  // ---------------------------------------------------------------------
  // Case-insensitive substring match
  // ---------------------------------------------------------------------

  /** ASCII lower-casing of one character. */
  function LowerChar(c: char): char
  {
    if 'A' <= c <= 'Z' then (c as int - 'A' as int + 'a' as int) as char else c
  }

  function Lower(s: string): (r: string)
    ensures |r| == |s|
    ensures forall i :: 0 <= i < |s| ==> r[i] == LowerChar(s[i])
  {
    seq(|s|, i requires 0 <= i < |s| => LowerChar(s[i]))
  }

  /** `needle` occurs in `hay`, searching from the front. */
  predicate Contains(hay: string, needle: string)
    decreases |hay|
  {
    (|needle| <= |hay| && hay[..|needle|] == needle)
    || (hay != [] && Contains(hay[1..], needle))
  }

  /** `needle` occurs in `hay` starting at offset `i`. */
  predicate OccursAt(hay: string, needle: string, i: int)
  {
    0 <= i && i + |needle| <= |hay| && hay[i..i + |needle|] == needle
  }

  /** Every occurrence is found by the search. */
  lemma {:induction false} OccurrenceFound(hay: string, needle: string, i: int)
    requires OccursAt(hay, needle, i)
    ensures Contains(hay, needle)
    decreases i
  {
    if i == 0 {
      assert hay[..|needle|] == hay[0..0 + |needle|];
    } else {
      assert hay[1..][i - 1..i - 1 + |needle|] == hay[i..i + |needle|];
      assert OccursAt(hay[1..], needle, i - 1);
      OccurrenceFound(hay[1..], needle, i - 1);
    }
  }

  /** Whatever the search finds is an occurrence. */
  lemma {:induction false} FoundIsOccurrence(hay: string, needle: string)
    requires Contains(hay, needle)
    ensures exists i :: OccursAt(hay, needle, i)
    decreases |hay|
  {
    if |needle| <= |hay| && hay[..|needle|] == needle {
      assert OccursAt(hay, needle, 0);
    } else {
      var tail := hay[1..];
      FoundIsOccurrence(tail, needle);
      var i :| OccursAt(tail, needle, i);
      assert hay[i + 1..i + 1 + |needle|] == tail[i..i + |needle|];
      assert OccursAt(hay, needle, i + 1);
    }
  }

  /** The search finds exactly the occurrences at some offset. */
  lemma ContainsIff(hay: string, needle: string)
    ensures Contains(hay, needle) <==> exists i :: OccursAt(hay, needle, i)
  {
    if Contains(hay, needle) {
      FoundIsOccurrence(hay, needle);
    }
    forall i | OccursAt(hay, needle, i)
      ensures Contains(hay, needle)
    {
      OccurrenceFound(hay, needle, i);
    }
  }

  /** `hay` contains `needle` ignoring ASCII case. */
  predicate ContainsIgnoringCase(hay: string, needle: string)
  {
    Contains(Lower(hay), Lower(needle))
  }

  /** The match does not depend on the case of the query: lower-casing it
      first changes nothing. */
  lemma QueryCaseIrrelevant(hay: string, needle: string)
    ensures ContainsIgnoringCase(hay, Lower(needle)) == ContainsIgnoringCase(hay, needle)
  {
    assert Lower(Lower(needle)) == Lower(needle);
  }

  // ---------------------------------------------------------------------
  // Events endpoint
  // ---------------------------------------------------------------------

  /** One row of the events frame; the type may be missing (NaN), and the
      description and impact-level columns may be absent. */
  datatype EventRecord = EventRecord(
    date: int,
    event: string,
    eventType: Option<string>,
    description: Option<string>,
    impactLevel: Option<string>)

  /** A row together with its index label, which is its position in the
      frame as loaded. */
  datatype Numbered = Numbered(id: nat, record: EventRecord)

  datatype EventJson = EventJson(
    id: nat,
    date: int,
    event: string,
    eventType: Option<string>,
    description: string,
    impactLevel: string)

  const DefaultImpactLevel: string := "medium"

  function Number(events: seq<EventRecord>): (r: seq<Numbered>)
    ensures |r| == |events|
    ensures forall i :: 0 <= i < |r| ==> r[i] == Numbered(i, events[i])
  {
    seq(|events|, i requires 0 <= i < |events| => Numbered(i, events[i]))
  }

  function NumberOf(n: Numbered): int
  {
    n.id
  }

  function OnOrAfter(start: int): Numbered -> bool
  {
    (n: Numbered) => n.record.date >= start
  }

  function OnOrBefore(end: int): Numbered -> bool
  {
    (n: Numbered) => n.record.date <= end
  }

  /** A missing type never matches (`na=False`). */
  function TypeMatches(query: string): Numbered -> bool
  {
    (n: Numbered) => n.record.eventType.Some? && ContainsIgnoringCase(n.record.eventType.value, query)
  }

  /** Whether an event passes every filter that was requested. */
  predicate Selected(e: EventRecord, startDate: Option<int>, endDate: Option<int>, typeQuery: string)
  {
    && (startDate.None? || e.date >= startDate.value)
    && (endDate.None? || e.date <= endDate.value)
    && (typeQuery == [] || (e.eventType.Some? && ContainsIgnoringCase(e.eventType.value, typeQuery)))
  }

  function SelectedBy(startDate: Option<int>, endDate: Option<int>, typeQuery: string): Numbered -> bool
  {
    (n: Numbered) => Selected(n.record, startDate, endDate, typeQuery)
  }

  function ToJson(n: Numbered): EventJson
  {
    var e := n.record;
    EventJson(n.id, e.date, e.event, e.eventType,
              match e.description case Some(d) => d case None => "",
              match e.impactLevel case Some(l) => l case None => DefaultImpactLevel)
  }

  function ToJsonAll(ns: seq<Numbered>): (r: seq<EventJson>)
    ensures |r| == |ns|
    ensures forall i :: 0 <= i < |ns| ==> r[i] == ToJson(ns[i])
  {
    seq(|ns|, i requires 0 <= i < |ns| => ToJson(ns[i]))
  }

  /** The filters of the events endpoint, applied one after the other as
      requested: start date, end date, then type. */
  function FilteredEvents(events: seq<EventRecord>, startDate: Option<int>, endDate: Option<int>,
                          typeQuery: string): seq<Numbered>
  {
    var all := Number(events);
    var afterStart := if startDate.Some? then Filter(OnOrAfter(startDate.value), all) else all;
    var beforeEnd := if endDate.Some? then Filter(OnOrBefore(endDate.value), afterStart) else afterStart;
    if typeQuery != [] then Filter(TypeMatches(typeQuery), beforeEnd) else beforeEnd
  }

  /** The events endpoint: an error when no events are loaded, otherwise
      the selected events in frame order, each with its index label and
      with the defaults '' and 'medium' for a missing description and
      impact level. */
  function GetEvents(events: Option<seq<EventRecord>>, startDate: Option<int>, endDate: Option<int>,
                     typeQuery: string)
    : (r: Result<seq<EventJson>, ApiError>)
    ensures r.Err? <==> events.None?
    ensures r.Err? ==> r.error == DataUnavailable
    ensures r.Ok? ==> |r.value| <= |events.value|
  {
    match events
    case None => Err(DataUnavailable)
    case Some(es) => Ok(ToJsonAll(FilteredEvents(es, startDate, endDate, typeQuery)))
  }

  /** The three requested filters as tests that pass everything when the
      filter was not requested. */
  function StartOk(startDate: Option<int>): Numbered -> bool
  {
    (n: Numbered) => startDate.None? || n.record.date >= startDate.value
  }

  function EndOk(endDate: Option<int>): Numbered -> bool
  {
    (n: Numbered) => endDate.None? || n.record.date <= endDate.value
  }

  function TypeOk(typeQuery: string): Numbered -> bool
  {
    (n: Numbered) => typeQuery == []
                     || (n.record.eventType.Some? && ContainsIgnoringCase(n.record.eventType.value, typeQuery))
  }

  function DatesOk(startDate: Option<int>, endDate: Option<int>): Numbered -> bool
  {
    (n: Numbered) => StartOk(startDate)(n) && EndOk(endDate)(n)
  }

  lemma StartStep(all: seq<Numbered>, startDate: Option<int>)
    ensures (if startDate.Some? then Filter(OnOrAfter(startDate.value), all) else all)
         == Filter(StartOk(startDate), all)
  {
    if startDate.Some? {
      FilterExtensional(OnOrAfter(startDate.value), StartOk(startDate), all);
    } else {
      FilterAll(StartOk(startDate), all);
    }
  }

  lemma EndStep(a: seq<Numbered>, endDate: Option<int>)
    ensures (if endDate.Some? then Filter(OnOrBefore(endDate.value), a) else a)
         == Filter(EndOk(endDate), a)
  {
    if endDate.Some? {
      FilterExtensional(OnOrBefore(endDate.value), EndOk(endDate), a);
    } else {
      FilterAll(EndOk(endDate), a);
    }
  }

  lemma TypeStep(b: seq<Numbered>, typeQuery: string)
    ensures (if typeQuery != [] then Filter(TypeMatches(typeQuery), b) else b)
         == Filter(TypeOk(typeQuery), b)
  {
    if typeQuery != [] {
      FilterExtensional(TypeMatches(typeQuery), TypeOk(typeQuery), b);
    } else {
      FilterAll(TypeOk(typeQuery), b);
    }
  }

  /** The three filters one after the other select the same rows as their
      conjunction in a single pass; since conjunction is commutative, the
      order of the filters does not matter. */
  lemma FiltersCombineByAnd(events: seq<EventRecord>, startDate: Option<int>, endDate: Option<int>,
                            typeQuery: string)
    ensures FilteredEvents(events, startDate, endDate, typeQuery)
         == Filter(SelectedBy(startDate, endDate, typeQuery), Number(events))
  {
    var all := Number(events);
    var a := if startDate.Some? then Filter(OnOrAfter(startDate.value), all) else all;
    var b := if endDate.Some? then Filter(OnOrBefore(endDate.value), a) else a;
    StartStep(all, startDate);
    EndStep(a, endDate);
    TypeStep(b, typeQuery);
    FilterCompose(EndOk(endDate), StartOk(startDate), DatesOk(startDate, endDate), all);
    FilterCompose(TypeOk(typeQuery), DatesOk(startDate, endDate), SelectedBy(startDate, endDate, typeQuery), all);
  }

  /** A filter every element passes keeps the whole sequence. */
  lemma {:induction false} FilterAll<T>(p: T -> bool, s: seq<T>)
    requires forall x :: x in s ==> p(x)
    ensures Filter(p, s) == s
  {
    if s != [] {
      FilterAll(p, s[1..]);
    }
  }

  /** An event is returned exactly when it passes every requested filter:
      both date bounds are inclusive, and the type filter is a
      case-insensitive substring match that drops events without a type. */
  lemma GetEventsSelects(events: seq<EventRecord>, startDate: Option<int>, endDate: Option<int>,
                         typeQuery: string, i: nat)
    requires i < |events|
    ensures var r := GetEvents(Some(events), startDate, endDate, typeQuery).value;
            (exists j :: 0 <= j < |r| && r[j].id == i) <==> Selected(events[i], startDate, endDate, typeQuery)
  {
    var all := Number(events);
    var kept := Filter(SelectedBy(startDate, endDate, typeQuery), all);
    FiltersCombineByAnd(events, startDate, endDate, typeQuery);
    var r := GetEvents(Some(events), startDate, endDate, typeQuery).value;
    assert r == ToJsonAll(kept);
    if Selected(events[i], startDate, endDate, typeQuery) {
      assert SelectedBy(startDate, endDate, typeQuery)(all[i]);
      assert all[i] in kept;
      var j :| 0 <= j < |kept| && kept[j] == all[i];
      assert r[j].id == i;
    }
    if exists j :: 0 <= j < |r| && r[j].id == i {
      var j :| 0 <= j < |r| && r[j].id == i;
      assert kept[j] in all;
      assert kept[j] == all[i];
    }
  }

  /** `r` carries the fields of frame row r.id, with '' and 'medium' for a
      missing description and impact level. */
  predicate RowOf(events: seq<EventRecord>, r: EventJson)
  {
    && r.id < |events|
    && r.date == events[r.id].date
    && r.event == events[r.id].event
    && r.eventType == events[r.id].eventType
    && (events[r.id].description.None? ==> r.description == "")
    && (events[r.id].description.Some? ==> r.description == events[r.id].description.value)
    && (events[r.id].impactLevel.None? ==> r.impactLevel == DefaultImpactLevel)
    && (events[r.id].impactLevel.Some? ==> r.impactLevel == events[r.id].impactLevel.value)
  }

  /** Every returned event carries the fields of the frame row its id
      names. */
  lemma GetEventsRows(events: seq<EventRecord>, startDate: Option<int>, endDate: Option<int>,
                      typeQuery: string)
    ensures var r := GetEvents(Some(events), startDate, endDate, typeQuery).value;
            forall j :: 0 <= j < |r| ==> RowOf(events, r[j])
  {
    var all := Number(events);
    var kept := Filter(SelectedBy(startDate, endDate, typeQuery), all);
    FiltersCombineByAnd(events, startDate, endDate, typeQuery);
    var r := GetEvents(Some(events), startDate, endDate, typeQuery).value;
    assert r == ToJsonAll(kept);
    forall j | 0 <= j < |r|
      ensures RowOf(events, r[j])
    {
      assert kept[j] in all;
      var m :| 0 <= m < |all| && all[m] == kept[j];
      assert r[j] == ToJson(all[m]);
    }
  }

  /** The rows come in frame order: strictly increasing ids. */
  lemma GetEventsOrder(events: seq<EventRecord>, startDate: Option<int>, endDate: Option<int>,
                       typeQuery: string)
    ensures var r := GetEvents(Some(events), startDate, endDate, typeQuery).value;
            forall j, k :: 0 <= j < k < |r| ==> r[j].id < r[k].id
  {
    var all := Number(events);
    var p := SelectedBy(startDate, endDate, typeQuery);
    var kept := Filter(p, all);
    FiltersCombineByAnd(events, startDate, endDate, typeQuery);
    var r := GetEvents(Some(events), startDate, endDate, typeQuery).value;
    assert r == ToJsonAll(kept);
    FilterKeepsIncreasing(p, all, NumberOf);
    assert forall j, k :: 0 <= j < k < |kept| ==> NumberOf(kept[j]) < NumberOf(kept[k]);
  }

  // ---------------------------------------------------------------------
  // Historical-data endpoint
  // ---------------------------------------------------------------------

  datatype HistoricalResponse = HistoricalResponse(
    dates: seq<int>,
    prices: seq<real>,
    totalRecords: nat,
    rangeStart: int,
    rangeEnd: int)

  function InRange(startDate: Option<int>, endDate: Option<int>): Observation -> bool
  {
    (o: Observation) => (startDate.None? || o.date >= startDate.value) && (endDate.None? || o.date <= endDate.value)
  }

  function Prices(data: seq<Observation>): (ps: seq<real>)
    ensures |ps| == |data|
    ensures forall i :: 0 <= i < |data| ==> ps[i] == data[i].price
  {
    seq(|data|, i requires 0 <= i < |data| => data[i].price)
  }

  /** The historical-data endpoint: the observations within the inclusive
      date bounds, in series order, with their count and their first and
      last date. It fails when no data is loaded and when the selection is
      empty (the minimum of an empty index cannot be formatted). */
  function GetHistoricalData(data: Option<seq<Observation>>, startDate: Option<int>, endDate: Option<int>)
    : (r: Result<HistoricalResponse, ApiError>)
    ensures data.None? ==> r == Err(DataUnavailable)
    ensures data.Some? ==> (r == Err(EmptySelection) <==> Filter(InRange(startDate, endDate), data.value) == [])
    ensures r.Ok? ==>
              && r.value.totalRecords == |r.value.dates| == |r.value.prices|
              && r.value.totalRecords > 0
              && r.value.rangeStart in r.value.dates && r.value.rangeEnd in r.value.dates
              && (forall d :: d in r.value.dates ==> r.value.rangeStart <= d <= r.value.rangeEnd)
              && (forall d :: d in r.value.dates ==>
                    (startDate.None? || startDate.value <= d) && (endDate.None? || d <= endDate.value))
    ensures r.Ok? ==>
              && r.value.dates == Dates(Filter(InRange(startDate, endDate), data.value))
              && r.value.prices == Prices(Filter(InRange(startDate, endDate), data.value))
  {
    match data
    case None => Err(DataUnavailable)
    case Some(obs) =>
      var kept := Filter(InRange(startDate, endDate), obs);
      if kept == [] then Err(EmptySelection)
      else
        var ds := Dates(kept);
        assert forall d :: d in ds ==> exists o :: o in kept && o.date == d;
        Ok(HistoricalResponse(ds, Prices(kept), |kept|, MinOf(ds), MaxOf(ds)))
  }

  /** Every observation of the series within the bounds is returned. */
  lemma HistoricalDataComplete(data: seq<Observation>, startDate: Option<int>, endDate: Option<int>, o: Observation)
    requires o in data
    requires (startDate.None? || o.date >= startDate.value) && (endDate.None? || o.date <= endDate.value)
    ensures GetHistoricalData(Some(data), startDate, endDate).Ok?
    ensures o.date in GetHistoricalData(Some(data), startDate, endDate).value.dates
  {
    var kept := Filter(InRange(startDate, endDate), data);
    assert InRange(startDate, endDate)(o);
    assert o in kept;
    var k :| 0 <= k < |kept| && kept[k] == o;
    assert Dates(kept)[k] == o.date;
  }

  // ---------------------------------------------------------------------
  // Change-points endpoint
  // ---------------------------------------------------------------------

  /** A change point as cached by the analysis. */
  datatype ApiChangePoint = ApiChangePoint(
    date: int, probability: real, ciLower: int, ciUpper: int, priceAtChangepoint: Option<real>)

  datatype ChangePointJson = ChangePointJson(
    id: nat, date: int, probability: real, lower: int, upper: int, priceAtChangepoint: real)

  /** The change-points endpoint: one entry per cached change point, in
      order, numbered from 0, with a missing price reported as 0. */
  function GetChangePoints(changePoints: Option<seq<ApiChangePoint>>)
    : (r: Result<seq<ChangePointJson>, ApiError>)
    ensures r.Err? <==> changePoints.None?
    ensures r.Ok? ==> |r.value| == |changePoints.value|
    ensures r.Ok? ==> forall i :: 0 <= i < |r.value| ==>
              && r.value[i].id == i
              && r.value[i].date == changePoints.value[i].date
              && r.value[i].probability == changePoints.value[i].probability
              && r.value[i].lower == changePoints.value[i].ciLower
              && r.value[i].upper == changePoints.value[i].ciUpper
              && (changePoints.value[i].priceAtChangepoint.None? ==> r.value[i].priceAtChangepoint == 0.0)
              && (changePoints.value[i].priceAtChangepoint.Some? ==>
                    r.value[i].priceAtChangepoint == changePoints.value[i].priceAtChangepoint.value)
  {
    match changePoints
    case None => Err(AnalysisUnavailable)
    case Some(cps) =>
      Ok(seq(|cps|, i requires 0 <= i < |cps| =>
        ChangePointJson(i, cps[i].date, cps[i].probability, cps[i].ciLower, cps[i].ciUpper,
                        match cps[i].priceAtChangepoint case Some(p) => p case None => 0.0)))
  }

  // ---------------------------------------------------------------------
  // Summary endpoint
  // ---------------------------------------------------------------------

  /** The cached analysis results; a missing key is `None`. */
  datatype AnalysisResults = AnalysisResults(
    changePoints: Option<seq<ApiChangePoint>>,
    eventAssociations: Option<seq<BayesianModel.EventAssociation>>)

  datatype Summary = Summary(
    totalChangepoints: nat,
    totalEvents: nat,
    associatedEvents: nat,
    dataPeriod: Option<(int, int)>,
    totalDays: nat)

  /** The number of (change point, event) pairs listed. */
  function PairCount(assocs: seq<BayesianModel.EventAssociation>): (n: nat)
    ensures assocs == [] ==> n == 0
  {
    if assocs == [] then 0 else |assocs[0].associatedEvents| + PairCount(assocs[1..])
  }

  /** The pair count of a concatenation is the sum of the pair counts. */
  lemma {:induction false} PairCountAppend(a: seq<BayesianModel.EventAssociation>,
                                           b: seq<BayesianModel.EventAssociation>)
    ensures PairCount(a + b) == PairCount(a) + PairCount(b)
  {
    if a != [] {
      assert (a + b)[1..] == a[1..] + b;
      PairCountAppend(a[1..], b);
    } else {
      assert a + b == b;
    }
  }

  function Length<T>(s: Option<seq<T>>): nat
  {
    match s case Some(v) => |v| case None => 0
  }

  /** The summary endpoint: counts of change points, events and associated
      pairs, and the period covered by the series. Missing parts count as
      0; the period is absent without historical data and cannot be
      formatted for an empty series. */
  function GetSummary(results: Option<AnalysisResults>, events: Option<seq<EventRecord>>,
                      historical: Option<seq<Observation>>)
    : (r: Result<Summary, ApiError>)
    ensures results.None? ==> r == Err(AnalysisUnavailable)
    ensures r.Ok? <==> results.Some? && historical != Some([])
    ensures r.Ok? ==>
              && r.value.totalChangepoints == Length(results.value.changePoints)
              && r.value.totalEvents == Length(events)
              && (events.None? ==> r.value.totalEvents == 0)
              && r.value.totalDays == Length(historical)
              && (r.value.dataPeriod.None? <==> historical.None?)
              && (r.value.dataPeriod.Some? ==>
                    && r.value.dataPeriod.value.0 in Dates(historical.value)
                    && r.value.dataPeriod.value.1 in Dates(historical.value)
                    && r.value.dataPeriod.value.0 <= r.value.dataPeriod.value.1
                    && forall d :: d in Dates(historical.value) ==>
                         r.value.dataPeriod.value.0 <= d <= r.value.dataPeriod.value.1)
    ensures r.Ok? ==>
              r.value.associatedEvents == match results.value.eventAssociations
                                          case Some(a) => PairCount(a)
                                          case None => 0
  {
    match results
    case None => Err(AnalysisUnavailable)
    case Some(res) =>
      if historical == Some([]) then Err(EmptySelection)
      else
        var period := match historical
          case None => None
          case Some(h) => Some((MinOf(Dates(h)), MaxOf(Dates(h))));
        var pairs := match res.eventAssociations case Some(a) => PairCount(a) case None => 0;
        Ok(Summary(Length(res.changePoints), Length(events), pairs, period, Length(historical)))
  }

  /** associated_events counts pairs: it is the total length of the
      association lists, so with at most three events listed per change
      point it is at most three times the number of change points. */
  lemma {:induction false} PairCountBound(assocs: seq<BayesianModel.EventAssociation>)
    requires forall i :: 0 <= i < |assocs| ==> |assocs[i].associatedEvents| <= BayesianModel.TopEvents
    ensures PairCount(assocs) <= BayesianModel.TopEvents * |assocs|
  {
    if assocs != [] {
      PairCountBound(assocs[1..]);
    }
  }

  /** For the associations computed by the analyser the summary reports at
      most three pairs per change point. */
  lemma SummaryPairsBound(cps: seq<BayesianModel.ChangePointEstimate>, events: seq<EventRecord>,
                          catalogue: seq<EventData.Event>, toleranceDays: int,
                          historical: Option<seq<Observation>>)
    requires historical != Some([])
    ensures var assocs := BayesianModel.AssociateWithEvents(Some(cps), Some(catalogue), toleranceDays);
            var r := GetSummary(Some(AnalysisResults(None, Some(assocs))), Some(events), historical);
            r.Ok? && r.value.associatedEvents <= 3 * |cps|
  {
    var assocs := BayesianModel.AssociateWithEvents(Some(cps), Some(catalogue), toleranceDays);
    PairCountBound(assocs);
  }

  /** The same event listed for two change points is counted twice. */
  lemma PairsNotDistinctEvents(n: BayesianModel.SignedNearby)
    ensures var a := BayesianModel.EventAssociation(1, 0, 0.0, 0.0, [n], 1);
            var b := BayesianModel.EventAssociation(2, 0, 0.0, 0.0, [n], 1);
            PairCount([a, b]) == 2
  {
    var a := BayesianModel.EventAssociation(1, 0, 0.0, 0.0, [n], 1);
    var b := BayesianModel.EventAssociation(2, 0, 0.0, 0.0, [n], 1);
    assert [a, b][1..] == [b];
    assert [b][1..] == [];
  }
}
