/**
 The archive writer of build_news_dart_archive.py: events are distributed into closed
 08:30-to-08:30 trading-day windows and written with their provenance.
 */
module NewsArchive {
  import opened Common
  import opened TradingCalendar
  import opened Events

  /**
   Whether an event lands in the window ending on day d. A timestamp that is missing or
   cannot be parsed defaults to the snapshot, so such an event lands in every window.
   */
  predicate Lands(cal: Calendar, d: Day, e: Event) {
    match e.eventTs
    case At(t) => WindowStart(cal, d) <= t <= Snapshot(d)
    case _ => true
  }

  function WindowEvents(cal: Calendar, d: Day, events: seq<Event>): seq<Event> {
    if |events| == 0 then []
    else
      var last := events[|events| - 1];
      WindowEvents(cal, d, events[..|events| - 1]) + (if Lands(cal, d, last) then [last] else [])
  }

  lemma WindowEventsStep(cal: Calendar, d: Day, events: seq<Event>, e: Event)
    ensures WindowEvents(cal, d, events + [e]) == WindowEvents(cal, d, events) + (if Lands(cal, d, e) then [e] else [])
  {
    assert (events + [e])[..|events|] == events;
  }

  lemma {:induction false} WindowEventsConcat(cal: Calendar, d: Day, a: seq<Event>, b: seq<Event>)
    ensures WindowEvents(cal, d, a + b) == WindowEvents(cal, d, a) + WindowEvents(cal, d, b)
    decreases |b|
  {
    if |b| == 0 {
      assert a + b == a;
    } else {
      WindowEventsConcat(cal, d, a, b[..|b| - 1]);
      assert (a + b)[..|a + b| - 1] == a + b[..|b| - 1];
    }
  }

  lemma {:induction false} WindowEventsMember(cal: Calendar, d: Day, events: seq<Event>, e: Event)
    ensures e in WindowEvents(cal, d, events) <==> e in events && Lands(cal, d, e)
  {
    if |events| > 0 {
      WindowEventsMember(cal, d, events[..|events| - 1], e);
      assert events == events[..|events| - 1] + [events[|events| - 1]];
    }
  }

  function LandsOn(cal: Calendar, d: Day): Event -> bool {
    (e: Event) => !e.eventTs.At? || WindowStart(cal, d) <= e.eventTs.t <= Snapshot(d)
  }

  /** A date's list holds exactly the events landing on it, in order, each as often as it was fetched. */
  lemma {:induction false} WindowEventsPick(cal: Calendar, d: Day, events: seq<Event>)
    ensures Picks(events, LandsOn(cal, d), Same, WindowEvents(cal, d, events))
  {
    hide Picks, WindowStart, Snapshot;
    if |events| == 0 {
      PicksNone(LandsOn(cal, d), Same<Event>);
    } else {
      var init, last := events[..|events| - 1], events[|events| - 1];
      WindowEventsPick(cal, d, init);
      PicksStep(init, last, LandsOn(cal, d), Same<Event>, WindowEvents(cal, d, init));
      assert events == init + [last] && WindowEvents(cal, d, init) + [] == WindowEvents(cal, d, init);
    }
  }

  function ParsedOr(stamp: Stamp, default: Instant): Instant {
    if stamp.At? then stamp.t else default
  }

  /** `groups` lists every ticker's fetched events in the order of the ticker dictionary. */
  method DistributeIntoDates(cal: Calendar, groups: seq<seq<Event>>, dates: seq<Day>)
    returns (byDate: map<Day, seq<Event>>)
    requires Ascending(dates)
    ensures byDate.Keys == set d | d in dates
    ensures forall d :: d in dates ==> byDate[d] == WindowEvents(cal, d, Flatten(groups))
  {
    hide Flatten, WindowEvents;
    byDate := map d | d in dates :: [];
    for i := 0 to |dates|
      invariant byDate.Keys == set d | d in dates
      invariant forall k :: 0 <= k < i ==> byDate[dates[k]] == WindowEvents(cal, dates[k], Flatten(groups))
      invariant forall k :: i <= k < |dates| ==> byDate[dates[k]] == []
    {
      var bucket := FillWindow(cal, groups, dates[i], byDate[dates[i]]);
      assert [] + WindowEvents(cal, dates[i], Flatten(groups)) == WindowEvents(cal, dates[i], Flatten(groups));
      byDate := byDate[dates[i] := bucket];
    }
  }

  /** The pass over all events for one date, appending to that date's list. */
  method FillWindow(cal: Calendar, groups: seq<seq<Event>>, d: Day, bucket0: seq<Event>) returns (bucket: seq<Event>)
    ensures bucket == bucket0 + WindowEvents(cal, d, Flatten(groups))
  {
    bucket := bucket0;
    for g := 0 to |groups|
      invariant bucket == bucket0 + WindowEvents(cal, d, Flatten(groups[..g]))
    {
      hide Flatten, WindowEvents;
      bucket := FillFromTicker(cal, groups[g], d, bucket);
      assert groups[..g + 1] == groups[..g] + [groups[g]];
      FlattenAppend(groups[..g], groups[g]);
      WindowEventsConcat(cal, d, Flatten(groups[..g]), groups[g]);
    }
    assert groups[..|groups|] == groups;
  }

  method FillFromTicker(cal: Calendar, events: seq<Event>, d: Day, bucket0: seq<Event>) returns (bucket: seq<Event>)
    ensures bucket == bucket0 + WindowEvents(cal, d, events)
  {
    var snapshot, windowStart := Snapshot(d), WindowStart(cal, d);
    bucket := bucket0;
    for k := 0 to |events|
      invariant bucket == bucket0 + WindowEvents(cal, d, events[..k])
    {
      hide WindowEvents, PreviousTradingDay;
      assert events[..k + 1] == events[..k] + [events[k]];
      WindowEventsStep(cal, d, events[..k], events[k]);
      var t := ParsedOr(events[k].eventTs, snapshot);
      if t > snapshot { continue; }
      if t < windowStart { continue; }
      bucket := bucket + [events[k]];
    }
    assert events[..|events|] == events;
  }

  // ----- conservation: what tiling the overall window does to every event

  function Bit(b: bool): nat { if b then 1 else 0 }

  function ArchivedTotal(cal: Calendar, dates: seq<Day>, events: seq<Event>): nat {
    if |dates| == 0 then 0
    else ArchivedTotal(cal, dates[..|dates| - 1], events) + |WindowEvents(cal, dates[|dates| - 1], events)|
  }

  function Landings(cal: Calendar, dates: seq<Day>, e: Event): nat {
    if |dates| == 0 then 0
    else Landings(cal, dates[..|dates| - 1], e) + Bit(Lands(cal, dates[|dates| - 1], e))
  }

  predicate InOverallWindow(cal: Calendar, dates: seq<Day>, t: Instant) {
    |dates| > 0 && WindowStart(cal, dates[0]) <= t <= Snapshot(dates[|dates| - 1])
  }

  /** 08:30 of a date that is not the last one: the end of a window and the start of the next. */
  predicate InteriorBoundary(dates: seq<Day>, t: Instant) {
    exists i :: 0 <= i < |dates| - 1 && Snapshot(dates[i]) == t
  }

  /** A dated event is archived once inside the overall window, twice on an interior boundary. */
  function ExpectedLandings(cal: Calendar, dates: seq<Day>, e: Event): nat {
    if !e.eventTs.At? then |dates|
    else if !InOverallWindow(cal, dates, e.eventTs.t) then 0
    else if InteriorBoundary(dates, e.eventTs.t) then 2 else 1
  }

  lemma {:induction false} WindowsTile(cal: Calendar, dates: seq<Day>, e: Event)
    requires Consecutive(cal, dates)
    ensures Landings(cal, dates, e) == ExpectedLandings(cal, dates, e)
  {
    if |dates| > 0 {
      hide PreviousTradingDay, IsTradingDay;
      var init, d := dates[..|dates| - 1], dates[|dates| - 1];
      ConsecutiveInit(cal, dates);
      WindowsTile(cal, init, e);
      ConsecutiveAscends(cal, dates);
      if e.eventTs.At? && |init| > 0 {
        var t, p := e.eventTs.t, dates[|dates| - 2];
        assert p == PreviousTradingDay(cal, d) && init[|init| - 1] == p;
        forall i | 0 <= i < |init| - 1 ensures Snapshot(init[i]) < Snapshot(p) {}
        BoundaryStep(dates, t);
        FirstWindowOpensEarlier(cal, dates);
      }
    }
  }

  lemma ConsecutiveInit(cal: Calendar, dates: seq<Day>)
    requires Consecutive(cal, dates) && |dates| > 0
    ensures Consecutive(cal, dates[..|dates| - 1])
  {
    hide PreviousTradingDay;
    var init := dates[..|dates| - 1];
    forall i {:trigger init[i]} | 0 < i < |init| ensures init[i - 1] == PreviousTradingDay(cal, init[i]) {
      assert dates[i - 1] == PreviousTradingDay(cal, dates[i]);
    }
  }

  lemma BoundaryStep(dates: seq<Day>, t: Instant)
    requires |dates| > 1
    ensures var init := dates[..|dates| - 1];
      InteriorBoundary(dates, t) <==> InteriorBoundary(init, t) || t == Snapshot(init[|init| - 1])
  {
    var init := dates[..|dates| - 1];
    if InteriorBoundary(dates, t) {
      var i :| 0 <= i < |dates| - 1 && Snapshot(dates[i]) == t;
      assert init[i] == dates[i];
    }
    if InteriorBoundary(init, t) {
      var i :| 0 <= i < |init| - 1 && Snapshot(init[i]) == t;
      assert Snapshot(dates[i]) == t;
    }
    assert Snapshot(dates[|dates| - 2]) == Snapshot(init[|init| - 1]);
  }

  lemma FirstWindowOpensEarlier(cal: Calendar, dates: seq<Day>)
    requires Consecutive(cal, dates) && |dates| > 0
    ensures forall i :: 0 <= i < |dates| ==> WindowStart(cal, dates[0]) < Snapshot(dates[i])
  {
    hide PreviousTradingDay;
    ConsecutiveAscends(cal, dates);
  }

  function TotalLandings(cal: Calendar, dates: seq<Day>, events: seq<Event>): nat {
    if |events| == 0 then 0
    else TotalLandings(cal, dates, events[..|events| - 1]) + Landings(cal, dates, events[|events| - 1])
  }

  /** Counting by date and counting by event agree. */
  lemma {:induction false} CountBothWays(cal: Calendar, dates: seq<Day>, events: seq<Event>)
    ensures ArchivedTotal(cal, dates, events) == TotalLandings(cal, dates, events)
    decreases |events|
  {
    if |events| == 0 {
      NothingArchived(cal, dates);
    } else {
      CountBothWays(cal, dates, events[..|events| - 1]);
      OneMoreEvent(cal, dates, events[..|events| - 1], events[|events| - 1]);
      assert events == events[..|events| - 1] + [events[|events| - 1]];
    }
  }

  lemma {:induction false} NothingArchived(cal: Calendar, dates: seq<Day>)
    ensures ArchivedTotal(cal, dates, []) == 0
  {
    if |dates| > 0 { NothingArchived(cal, dates[..|dates| - 1]); }
  }

  lemma {:induction false} OneMoreEvent(cal: Calendar, dates: seq<Day>, events: seq<Event>, e: Event)
    ensures ArchivedTotal(cal, dates, events + [e]) == ArchivedTotal(cal, dates, events) + Landings(cal, dates, e)
  {
    if |dates| > 0 {
      OneMoreEvent(cal, dates[..|dates| - 1], events, e);
      WindowEventsStep(cal, dates[|dates| - 1], events, e);
    }
  }

  function InWindowCount(cal: Calendar, dates: seq<Day>, events: seq<Event>): nat {
    if |events| == 0 then 0
    else
      var e := events[|events| - 1];
      InWindowCount(cal, dates, events[..|events| - 1])
      + Bit(e.eventTs.At? && InOverallWindow(cal, dates, e.eventTs.t))
  }

  function BoundaryCount(dates: seq<Day>, events: seq<Event>): nat {
    if |events| == 0 then 0
    else
      var e := events[|events| - 1];
      BoundaryCount(dates, events[..|events| - 1])
      + Bit(e.eventTs.At? && InteriorBoundary(dates, e.eventTs.t))
  }

  function UndatedCount(events: seq<Event>): nat {
    if |events| == 0 then 0
    else UndatedCount(events[..|events| - 1]) + Bit(!events[|events| - 1].eventTs.At?)
  }

  function DatedInside(cal: Calendar, dates: seq<Day>): Event -> bool {
    (e: Event) => e.eventTs.At? && InOverallWindow(cal, dates, e.eventTs.t)
  }

  function OnBoundary(dates: seq<Day>): Event -> bool {
    (e: Event) => e.eventTs.At? && InteriorBoundary(dates, e.eventTs.t)
  }

  function IsUndated(e: Event): bool { e.eventTs in {Absent, Malformed} }

  /** The counts are numbers of positions in the event list. */
  lemma {:induction false} CountsAreNumbers(cal: Calendar, dates: seq<Day>, events: seq<Event>)
    ensures InWindowCount(cal, dates, events) == |Indices(events, DatedInside(cal, dates))|
    ensures BoundaryCount(dates, events) == |Indices(events, OnBoundary(dates))|
    ensures UndatedCount(events) == |Indices(events, IsUndated)|
  {
    hide InOverallWindow, InteriorBoundary;
    if |events| > 0 {
      var init, e := events[..|events| - 1], events[|events| - 1];
      CountsAreNumbers(cal, dates, init);
      hide Indices;
      assert events == init + [e];
      IndicesStep(init, e, DatedInside(cal, dates));
      IndicesStep(init, e, OnBoundary(dates));
      IndicesStep(init, e, IsUndated);
    }
  }

  /** The total is the length of all dates' lists together, and an event's landings are the dates it is listed on. */
  lemma {:induction false} TotalsAreNumbers(cal: Calendar, dates: seq<Day>, events: seq<Event>, e: Event)
    ensures ArchivedTotal(cal, dates, events)
         == |Flatten(seq(|dates|, i requires 0 <= i < |dates| => WindowEvents(cal, dates[i], events)))|
    ensures Landings(cal, dates, e) == |set i: nat | i < |dates| && Lands(cal, dates[i], e)|
  {
    hide WindowEvents, Lands;
    if |dates| > 0 {
      var n := |dates| - 1;
      var init := dates[..n];
      TotalsAreNumbers(cal, init, events, e);
      var lists := seq(n + 1, i requires 0 <= i < n + 1 => WindowEvents(cal, dates[i], events));
      assert lists[..n] == seq(n, i requires 0 <= i < n => WindowEvents(cal, init[i], events));
      assert (set i: nat | i < |dates| && Lands(cal, dates[i], e))
          == (set i: nat | i < n && Lands(cal, init[i], e)) + (if Lands(cal, dates[n], e) then {n} else {});
    }
  }

  /**
   Over consecutive trading days the archive holds every in-window event once, every event on
   an interior 08:30 boundary a second time, and every undated event once per date.
   */
  lemma {:induction false} ArchiveConservesEvents(cal: Calendar, dates: seq<Day>, events: seq<Event>)
    requires Consecutive(cal, dates)
    ensures ArchivedTotal(cal, dates, events)
         == InWindowCount(cal, dates, events) + BoundaryCount(dates, events) + |dates| * UndatedCount(events)
  {
    CountBothWays(cal, dates, events);
    LandingsByKind(cal, dates, events);
    RepeatedIsProduct(|dates|, UndatedCount(events));
  }

  lemma {:induction false} LandingsByKind(cal: Calendar, dates: seq<Day>, events: seq<Event>)
    requires Consecutive(cal, dates)
    ensures TotalLandings(cal, dates, events)
         == InWindowCount(cal, dates, events) + BoundaryCount(dates, events) + Repeated(|dates|, UndatedCount(events))
  {
    if |events| > 0 {
      var init, e := events[..|events| - 1], events[|events| - 1];
      hide Consecutive, Landings, InOverallWindow, InteriorBoundary, Repeated;
      hide TotalLandings, InWindowCount, BoundaryCount, UndatedCount, Bit;
      CountsOfLast(cal, dates, events);
      LandingsByKind(cal, dates, init);
      EventByKind(cal, dates, e);
      RepeatedStep(|dates|, UndatedCount(init), !e.eventTs.At?);
    }
  }

  lemma CountsOfLast(cal: Calendar, dates: seq<Day>, events: seq<Event>)
    requires |events| > 0
    ensures var init, e := events[..|events| - 1], events[|events| - 1];
      && TotalLandings(cal, dates, events) == TotalLandings(cal, dates, init) + Landings(cal, dates, e)
      && InWindowCount(cal, dates, events)
         == InWindowCount(cal, dates, init) + Bit(e.eventTs.At? && InOverallWindow(cal, dates, e.eventTs.t))
      && BoundaryCount(dates, events)
         == BoundaryCount(dates, init) + Bit(e.eventTs.At? && InteriorBoundary(dates, e.eventTs.t))
      && UndatedCount(events) == UndatedCount(init) + Bit(!e.eventTs.At?)
  {
    hide Landings, InOverallWindow, InteriorBoundary, Bit;
  }

  /** n added up k times. */
  function Repeated(n: nat, k: nat): nat {
    if k == 0 then 0 else Repeated(n, k - 1) + n
  }

  lemma RepeatedStep(n: nat, k: nat, more: bool)
    ensures Repeated(n, k + Bit(more)) == Repeated(n, k) + (if more then n else 0)
  {
  }

  lemma {:induction false} RepeatedIsProduct(n: nat, k: nat)
    ensures Repeated(n, k) == n * k
  {
    if k > 0 {
      RepeatedIsProduct(n, k - 1);
      assert n * k == n * (k - 1) + n;
    }
  }

  lemma EventByKind(cal: Calendar, dates: seq<Day>, e: Event)
    requires Consecutive(cal, dates)
    ensures Landings(cal, dates, e)
         == Bit(e.eventTs.At? && InOverallWindow(cal, dates, e.eventTs.t))
            + Bit(e.eventTs.At? && InteriorBoundary(dates, e.eventTs.t))
            + (if !e.eventTs.At? then |dates| else 0)
  {
    WindowsTile(cal, dates, e);
    hide Landings;
    if e.eventTs.At? && InteriorBoundary(dates, e.eventTs.t) {
      FirstWindowOpensEarlier(cal, dates);
      ConsecutiveAscends(cal, dates);
    }
  }

  /** No dated event is archived under a date whose snapshot it postdates. */
  lemma NoFutureEvents(cal: Calendar, d: Day, events: seq<Event>)
    ensures forall e :: e in WindowEvents(cal, d, events) && e.eventTs.At? ==>
      WindowStart(cal, d) <= e.eventTs.t <= Snapshot(d)
  {
    forall e | e in WindowEvents(cal, d, events) && e.eventTs.At?
      ensures WindowStart(cal, d) <= e.eventTs.t <= Snapshot(d)
    {
      WindowEventsMember(cal, d, events, e);
    }
  }

  /** The file written for one date. */
  function ArchivePayload(cal: Calendar, d: Day, inWindow: seq<Event>): Payload {
    Payload(
      Some(Provenance(true, Some(|inWindow|), At(WindowStart(cal, d)), At(Snapshot(d)))),
      Some(seq(|inWindow|, i requires 0 <= i < |inWindow| => Object(inWindow[i]))))
  }

  /** The file declares its size and window, and holds the date's events in order. */
  lemma PayloadHolds(cal: Calendar, d: Day, inWindow: seq<Event>)
    ensures var payload := ArchivePayload(cal, d, inWindow);
      && payload.provenance.Some? && payload.provenance.value.deployQuality
      && payload.provenance.value.eventCount == Some(|inWindow|)
      && payload.provenance.value.windowStart == At(WindowStart(cal, d))
      && payload.provenance.value.windowEnd == At(Snapshot(d))
      && payload.events.Some? && |payload.events.value| == |inWindow|
      && forall i :: 0 <= i < |inWindow| ==> payload.events.value[i] == Object(inWindow[i])
  {
  }
}
