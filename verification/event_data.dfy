/** The catalogue of major events that may have moved Brent oil prices, the
    derived end dates and impact windows, and the period and category
    filters over it (utils/event_data.py). */
module EventData {
  import opened Common

  /** One catalogued event. `endDate` is derived from `date` and
      `durationDays` when the catalogue is built. */
  datatype Event = Event(
    eventId: int,
    date: int,
    eventName: string,
    category: string,
    description: string,
    expectedImpact: string,
    region: string,
    durationDays: int,
    endDate: int)

  /** An event together with the window of days around it used for impact
      analysis. */
  datatype EventWindow = EventWindow(event: Event, windowStart: int, windowEnd: int)

  // ---------------------------------------------------------------------
  // Calendar dates as day ordinals (Python's date.toordinal)
  // ---------------------------------------------------------------------

  predicate IsLeap(year: int)
  {
    year % 4 == 0 && (year % 100 != 0 || year % 400 == 0)
  }

  function DaysBeforeYear(year: int): int
  {
    var y := year - 1;
    y * 365 + y / 4 - y / 100 + y / 400
  }

  function DaysBeforeMonth(year: int, month: int): int
    requires 1 <= month <= 12
  {
    [0, 31, 59, 90, 120, 151, 181, 212, 243, 273, 304, 334][month - 1]
      + (if month > 2 && IsLeap(year) then 1 else 0)
  }

  /** Day ordinal of a calendar date; 0001-01-01 is day 1. */
  function Ordinal(year: int, month: int, day: int): int
    requires 1 <= month <= 12 && 1 <= day <= 31
  {
    DaysBeforeYear(year) + DaysBeforeMonth(year, month) + day
  }

  // ---------------------------------------------------------------------
  // The built-in dataset
  // ---------------------------------------------------------------------

  /** The number of events in the built-in catalogue. */
  const CatalogueSize := 15

  /** The date of the catalogued event with id `id`. */
  function CatalogueDate(id: int): int
    requires 1 <= id <= CatalogueSize
  {
    match id
    case 1 => Ordinal(1990, 8, 2)
    case 2 => Ordinal(1997, 7, 2)
    case 3 => Ordinal(2001, 9, 11)
    case 4 => Ordinal(2003, 3, 20)
    case 5 => Ordinal(2008, 9, 15)
    case 6 => Ordinal(2010, 12, 17)
    case 7 => Ordinal(2011, 3, 11)
    case 8 => Ordinal(2014, 11, 27)
    case 9 => Ordinal(2016, 11, 30)
    case 10 => Ordinal(2018, 5, 8)
    case 11 => Ordinal(2020, 3, 6)
    case 12 => Ordinal(2020, 3, 11)
    case 13 => Ordinal(2021, 3, 23)
    case 14 => Ordinal(2022, 2, 24)
    case _ => Ordinal(2022, 3, 31)
  }

  /** Builds one catalogue row; the end date is the start date plus the
      duration in days. */
  function MakeEvent(eventId: int, eventName: string, category: string,
                     description: string, expectedImpact: string, region: string,
                     durationDays: int): (e: Event)
    requires 1 <= eventId <= CatalogueSize
    ensures e.eventId == eventId && e.date == CatalogueDate(eventId)
    ensures e.durationDays == durationDays && e.endDate - e.date == durationDays
  {
    var date := CatalogueDate(eventId);
    Event(eventId, date, eventName, category, description, expectedImpact, region,
          durationDays, date + durationDays)
  }

  /** Name of the catalogued event `id`. */
  function CatalogueName(id: int): string
    requires 1 <= id <= CatalogueSize
  {
    match id
    case 1 => "Iraq Invasion of Kuwait"
    case 2 => "Asian Financial Crisis"
    case 3 => "9/11 Terrorist Attacks"
    case 4 => "Iraq War Begins"
    case 5 => "Lehman Brothers Collapse"
    case 6 => "Arab Spring Begins"
    case 7 => "Fukushima Nuclear Disaster"
    case 8 => "OPEC Maintains Production"
    case 9 => "OPEC Production Cut Agreement"
    case 10 => "US Withdraws from Iran Nuclear Deal"
    case 11 => "Saudi-Russia Oil Price War"
    case 12 => "COVID-19 Pandemic Declaration"
    case 13 => "Suez Canal Blockage"
    case 14 => "Russia Invades Ukraine"
    case _ => "IEA Strategic Reserve Release"
  }

  /** Category of the catalogued event `id`. */
  function CatalogueCategory(id: int): string
    requires 1 <= id <= CatalogueSize
  {
    match id
    case 1 => "Geopolitical Conflict"
    case 2 => "Economic Crisis"
    case 3 => "Geopolitical Event"
    case 4 => "Geopolitical Conflict"
    case 5 => "Economic Crisis"
    case 6 => "Geopolitical Unrest"
    case 7 => "Natural/Industrial Disaster"
    case 8 => "OPEC Policy"
    case 9 => "OPEC Policy"
    case 10 => "Sanctions/Trade"
    case 11 => "OPEC Policy"
    case 12 => "Health Crisis"
    case 13 => "Supply Chain Disruption"
    case 14 => "Geopolitical Conflict"
    case _ => "Policy Response"
  }

  /** Description of the catalogued event `id`. */
  function CatalogueDescription(id: int): string
    requires 1 <= id <= CatalogueSize
  {
    match id
    case 1 => "Iraq invaded Kuwait, leading to Gulf War and oil supply disruption"
    case 2 => "Financial crisis in Asia leading to reduced oil demand"
    case 3 => "Terrorist attacks in US causing market uncertainty"
    case 4 => "US-led invasion of Iraq disrupting oil production"
    case 5 => "Global financial crisis reducing oil demand"
    case 6 => "Political upheaval across Middle East and North Africa"
    case 7 => "Nuclear disaster affecting energy markets and demand"
    case 8 => "OPEC decides not to cut production despite falling prices"
    case 9 => "OPEC agrees to cut oil production for first time since 2008"
    case 10 => "US reimposed sanctions on Iran affecting oil exports"
    case 11 => "Saudi Arabia and Russia failed to agree on production cuts"
    case 12 => "WHO declares COVID-19 pandemic, massive demand destruction"
    case 13 => "Ever Given ship blocks Suez Canal affecting oil transport"
    case 14 => "Russia invasion of Ukraine leading to energy supply concerns"
    case _ => "IEA coordinates largest strategic petroleum reserve release"
  }

  /** Expected price impact of the catalogued event `id`. */
  function CatalogueExpectedImpact(id: int): string
    requires 1 <= id <= CatalogueSize
  {
    match id
    case 1 => "Price Increase"
    case 2 => "Price Decrease"
    case 3 => "Price Volatility"
    case 4 => "Price Increase"
    case 5 => "Price Decrease"
    case 6 => "Price Increase"
    case 7 => "Price Increase"
    case 8 => "Price Decrease"
    case 9 => "Price Increase"
    case 10 => "Price Increase"
    case 11 => "Price Decrease"
    case 12 => "Price Decrease"
    case 13 => "Price Increase"
    case 14 => "Price Increase"
    case _ => "Price Decrease"
  }

  /** Region of the catalogued event `id`. */
  function CatalogueRegion(id: int): string
    requires 1 <= id <= CatalogueSize
  {
    match id
    case 1 => "Middle East"
    case 2 => "Asia"
    case 3 => "North America"
    case 4 => "Middle East"
    case 5 => "Global"
    case 6 => "Middle East/North Africa"
    case 7 => "Asia"
    case 8 => "Global"
    case 9 => "Global"
    case 10 => "Middle East"
    case 11 => "Global"
    case 12 => "Global"
    case 13 => "Middle East"
    case 14 => "Europe/Russia"
    case _ => "Global"
  }

  /** Duration in days of the catalogued event `id`. */
  function CatalogueDuration(id: int): int
    requires 1 <= id <= CatalogueSize
  {
    match id
    case 1 => 210
    case 2 => 365
    case 3 => 30
    case 4 => 180
    case 5 => 365
    case 6 => 730
    case 7 => 90
    case 8 => 180
    case 9 => 365
    case 10 => 180
    case 11 => 60
    case 12 => 365
    case 13 => 6
    case 14 => 180
    case _ => 90
  }

  /** The catalogued event with id `id`. */
  function CatalogueRow(id: int): (e: Event)
    requires 1 <= id <= CatalogueSize
    ensures e.eventId == id && e.date == CatalogueDate(id)
    ensures e.durationDays > 0 && e.endDate == e.date + e.durationDays
  {
    MakeEvent(id, CatalogueName(id), CatalogueCategory(id), CatalogueDescription(id),
              CatalogueExpectedImpact(id), CatalogueRegion(id), CatalogueDuration(id))
  }

  /** The fifteen hand-curated events, in catalogue order. */
  function MajorEventsDataset(): (r: seq<Event>)
    ensures |r| == CatalogueSize
    ensures forall i :: 0 <= i < |r| ==> r[i].eventId == i + 1
    ensures forall i :: 0 <= i < |r| ==> r[i].date == CatalogueDate(i + 1)
    ensures forall i :: 0 <= i < |r| ==> r[i].endDate == r[i].date + r[i].durationDays
    ensures forall i :: 0 <= i < |r| ==> r[i].durationDays > 0
  {
    seq(CatalogueSize, i requires 0 <= i < CatalogueSize => CatalogueRow(i + 1))
  }

  predicate Chronological(s: seq<Event>)
  {
    forall i, j :: 0 <= i < j < |s| ==> s[i].date < s[j].date
  }

  /** Each event is strictly later than its predecessor. */
  lemma {:induction false} StepwiseChronological(s: seq<Event>)
    requires forall i :: 0 <= i < |s| - 1 ==> s[i].date < s[i + 1].date
    ensures Chronological(s)
  {
    if |s| > 1 {
      StepwiseChronological(s[1..]);
      assert forall j :: 1 <= j < |s| ==> s[0].date < s[j].date by {
        forall j | 1 <= j < |s|
          ensures s[0].date < s[j].date
        {
          assert s[1..][0].date <= s[1..][j - 1].date;
        }
      }
      assert forall i, j :: 1 <= i < j < |s| ==> s[1..][i - 1] == s[i] && s[1..][j - 1] == s[j];
    }
  }

  /** The day ordinals of the catalogued dates, five at a time. */
  lemma EarlyCatalogueDates()
    ensures CatalogueDate(1) == 726681 && CatalogueDate(2) == 729207 && CatalogueDate(3) == 730739
    ensures CatalogueDate(4) == 731294 && CatalogueDate(5) == 733300
  {
  }

  lemma MiddleCatalogueDates()
    ensures CatalogueDate(6) == 734123 && CatalogueDate(7) == 734207 && CatalogueDate(8) == 735564
    ensures CatalogueDate(9) == 736298 && CatalogueDate(10) == 736822
  {
  }

  lemma LateCatalogueDates()
    ensures CatalogueDate(11) == 737490 && CatalogueDate(12) == 737495 && CatalogueDate(13) == 737872
    ensures CatalogueDate(14) == 738210 && CatalogueDate(15) == 738245
  {
  }

  /** Each catalogued date is later than the one before it. */
  lemma CatalogueStep(id: int)
    requires 1 <= id < CatalogueSize
    ensures CatalogueDate(id) < CatalogueDate(id + 1)
  {
    EarlyCatalogueDates();
    MiddleCatalogueDates();
    LateCatalogueDates();
  }

  /** The built-in catalogue lists its events in strictly increasing date
      order, so event ids (1..15, all distinct) follow the calendar. */
  lemma MajorEventsChronological()
    ensures Chronological(MajorEventsDataset())
    ensures forall i, j :: 0 <= i < j < |MajorEventsDataset()| ==>
              MajorEventsDataset()[i].eventId < MajorEventsDataset()[j].eventId
  {
    var r := MajorEventsDataset();
    forall i | 0 <= i < |r| - 1
      ensures r[i].date < r[i + 1].date
    {
      CatalogueStep(i + 1);
    }
    StepwiseChronological(r);
  }

  // ---------------------------------------------------------------------
  // Filters and windows
  // ---------------------------------------------------------------------

  /** The test "the event lies in the closed interval [start, end]". */
  function InPeriod(start: int, end: int): Event -> bool
  {
    (e: Event) => start <= e.date <= end
  }

  /** Events whose date lies in the closed interval [start, end], in
      catalogue order. */
  function EventsInPeriod(events: seq<Event>, start: int, end: int): (r: seq<Event>)
    ensures SubsequenceOf(r, events)
    ensures forall e :: e in r ==> e in events && start <= e.date <= end
    ensures forall e :: e in events && start <= e.date <= end ==> e in r
  {
    FilterIsSubsequence(InPeriod(start, end), events);
    Filter(InPeriod(start, end), events)
  }

  /** Narrowing a period twice is the same as filtering once by the
      intersection of the two periods, whichever is applied first. */
  lemma PeriodIntersection(events: seq<Event>, s1: int, e1: int, s2: int, e2: int)
    ensures EventsInPeriod(EventsInPeriod(events, s1, e1), s2, e2)
         == EventsInPeriod(events, if s1 < s2 then s2 else s1, Min(e1, e2))
    ensures EventsInPeriod(EventsInPeriod(events, s1, e1), s2, e2)
         == EventsInPeriod(EventsInPeriod(events, s2, e2), s1, e1)
  {
    FilterCompose(InPeriod(s2, e2), InPeriod(s1, e1),
                  InPeriod(if s1 < s2 then s2 else s1, Min(e1, e2)), events);
  }

  /** Events whose category equals `category` exactly (case-sensitive). */
  function EventsByCategory(events: seq<Event>, category: string): (r: seq<Event>)
    ensures SubsequenceOf(r, events)
    ensures forall e :: e in r ==> e in events && e.category == category
    ensures forall e :: e in events && e.category == category ==> e in r
  {
    FilterIsSubsequence((e: Event) => e.category == category, events);
    Filter((e: Event) => e.category == category, events)
  }

  /** Attaches to every event the window from `preEventDays` days before it
      to `postEventDays` days after it. The events themselves, their number
      and their order are kept. */
  function CreateEventImpactWindows(events: seq<Event>, preEventDays: int, postEventDays: int)
    : (r: seq<EventWindow>)
    ensures |r| == |events|
    ensures forall i :: 0 <= i < |r| ==> r[i].event == events[i]
    ensures forall i :: 0 <= i < |r| ==>
              r[i].windowStart == events[i].date - preEventDays && r[i].windowEnd == events[i].date + postEventDays
    ensures forall i :: 0 <= i < |r| ==>
              r[i].windowEnd - r[i].windowStart == preEventDays + postEventDays
    ensures forall i :: 0 <= i < |r| ==>
              (r[i].windowStart <= events[i].date <==> preEventDays >= 0)
    ensures forall i :: 0 <= i < |r| ==>
              (events[i].date <= r[i].windowEnd <==> postEventDays >= 0)
  {
    seq(|events|, i requires 0 <= i < |events| =>
      EventWindow(events[i], events[i].date - preEventDays, events[i].date + postEventDays))
  }

  /** The period filter over an event's own window selects that event
      exactly when neither offset is negative. */
  lemma WindowHoldsEvent(events: seq<Event>, preEventDays: int, postEventDays: int, i: nat)
    requires i < |events|
    ensures var w := CreateEventImpactWindows(events, preEventDays, postEventDays)[i];
            (events[i] in EventsInPeriod(events, w.windowStart, w.windowEnd)
             <==> preEventDays >= 0 && postEventDays >= 0)
  {
  }
}
