/**
 The readiness checker of phase2_input_readiness.py, and the agreement of the archive
 writer, this checker and the materializer on what a deploy-quality payload is.
 */
module InputReadiness {
  import opened Common
  import opened TradingCalendar
  import opened Events
  import NewsArchive
  import Materializer

  /** A candidate file as read from disk. */
  datatype RawFile = Unreadable | NotJsonObject | Readable(payload: Payload)

  datatype Reason =
    | PayloadUnreadable
    | PayloadNotObject
    | NotDeployQuality
    | MissingEvents
    | EmptyEvents
    | MissingEventCount
    | EventCountMismatch
    | MissingWindowStart
    | MissingWindowEnd
    | WindowInvalid
    | WindowStartMismatch
    | WindowEndMismatch
    | EventNotObject(index: nat)
    | EventTimestampInvalid
    | EventAfterSnapshot
    | EventBeforeWindow

  datatype Verdict = Verdict(reason: Option<Reason>, eventCount: nat) {
    predicate Valid() { reason.None? }
  }

  /** An event the checker lets through: an object dated inside the day's window. */
  predicate InsideWindow(cal: Calendar, d: Day, raw: RawEvent) {
    && raw.Object?
    && EventStamp(raw.event).At?
    && WindowStart(cal, d) <= EventStamp(raw.event).t <= Snapshot(d)
  }

  function EventReason(cal: Calendar, d: Day, raw: RawEvent, index: nat): Reason
    requires !InsideWindow(cal, d, raw)
  {
    if raw.NotAnObject? then EventNotObject(index)
    else if !EventStamp(raw.event).At? then EventTimestampInvalid
    else if EventStamp(raw.event).t > Snapshot(d) then EventAfterSnapshot
    else EventBeforeWindow
  }

  /** The declared provenance matches the events and the day's exact window. */
  predicate HeaderMatches(cal: Calendar, d: Day, payload: Payload) {
    && payload.provenance.Some? && payload.provenance.value.deployQuality
    && payload.events.Some? && payload.events.value != []
    && payload.provenance.value.eventCount == Some(|payload.events.value|)
    && payload.provenance.value.windowStart == At(WindowStart(cal, d))
    && payload.provenance.value.windowEnd == At(Snapshot(d))
  }

  /** A non-object has a stamp no reason speaks of. */
  function StampOf(raw: RawEvent): Stamp {
    if raw.NotAnObject? then At(0)
    else if raw.event.eventTs != Absent then raw.event.eventTs
    else if raw.event.publishedAt != Absent then raw.event.publishedAt else raw.event.ts
  }

  predicate DatedAfter(raw: RawEvent, t: Instant) { raw.Object? && StampOf(raw).At? && StampOf(raw).t > t }

  predicate DatedBefore(raw: RawEvent, t: Instant) { raw.Object? && StampOf(raw).At? && StampOf(raw).t < t }

  /** What each reason asserts about the file, whatever else may be wrong with it. */
  predicate Explains(reason: Reason, cal: Calendar, d: Day, file: RawFile) {
    if file.Unreadable? then reason == PayloadUnreadable
    else if file.NotJsonObject? then reason == PayloadNotObject
    else
      var header, events := file.payload.provenance, file.payload.events;
      match reason
      case PayloadUnreadable | PayloadNotObject => false
      case NotDeployQuality => header.None? || !header.value.deployQuality
      case MissingEvents => events.None?
      case EmptyEvents => events == Some([])
      case MissingEventCount => header.Some? && header.value.eventCount.None?
      case EventCountMismatch =>
        header.Some? && events.Some? && header.value.eventCount.Some? && header.value.eventCount.value != |events.value|
      case MissingWindowStart => header.Some? && header.value.windowStart.Absent?
      case MissingWindowEnd => header.Some? && header.value.windowEnd.Absent?
      case WindowInvalid => header.Some? && (header.value.windowStart.Malformed? || header.value.windowEnd.Malformed?)
      case WindowStartMismatch =>
        header.Some? && header.value.windowStart.At? && header.value.windowStart.t != WindowStart(cal, d)
      case WindowEndMismatch => header.Some? && header.value.windowEnd.At? && header.value.windowEnd.t != Snapshot(d)
      case EventNotObject(i) => events.Some? && i < |events.value| && events.value[i].NotAnObject?
      case EventTimestampInvalid =>
        events.Some? && exists i :: 0 <= i < |events.value| && StampOf(events.value[i]) in {Absent, Malformed}
      case EventAfterSnapshot =>
        events.Some? && exists i :: 0 <= i < |events.value| && DatedAfter(events.value[i], Snapshot(d))
      case EventBeforeWindow =>
        events.Some? && exists i :: 0 <= i < |events.value| && DatedBefore(events.value[i], WindowStart(cal, d))
  }

  /** The order in which the checks are made. */
  function Precedence(r: Reason): nat {
    match r
    case PayloadUnreadable => 0
    case PayloadNotObject => 1
    case NotDeployQuality => 2
    case MissingEvents => 3
    case EmptyEvents => 4
    case MissingEventCount => 5
    case EventCountMismatch => 6
    case MissingWindowStart => 7
    case MissingWindowEnd => 8
    case WindowInvalid => 9
    case WindowStartMismatch => 10
    case WindowEndMismatch => 11
    case _ => 12
  }

  ghost predicate DeployReady(cal: Calendar, d: Day, payload: Payload) {
    && HeaderMatches(cal, d, payload)
    && forall i :: 0 <= i < |payload.events.value| ==> InsideWindow(cal, d, payload.events.value[i])
  }

  lemma ReadyExcludes(cal: Calendar, d: Day, file: RawFile, r: Reason)
    requires file.Readable? && DeployReady(cal, d, file.payload)
    ensures !Explains(r, cal, d, file)
  {
    hide WindowStart, Snapshot;
  }

  lemma BadHeaderExplained(cal: Calendar, d: Day, file: RawFile)
    requires file.Readable? && !HeaderMatches(cal, d, file.payload)
    ensures exists r :: Explains(r, cal, d, file)
  {
    var header, events := file.payload.provenance, file.payload.events;
    var r :=
      if header.None? || !header.value.deployQuality then NotDeployQuality
      else if events.None? then MissingEvents
      else if events.value == [] then EmptyEvents
      else if header.value.eventCount.None? then MissingEventCount
      else if header.value.eventCount.value != |events.value| then EventCountMismatch
      else if header.value.windowStart.Absent? then MissingWindowStart
      else if header.value.windowEnd.Absent? then MissingWindowEnd
      else if header.value.windowStart.Malformed? || header.value.windowEnd.Malformed? then WindowInvalid
      else if header.value.windowStart.t != WindowStart(cal, d) then WindowStartMismatch
      else WindowEndMismatch;
    hide WindowStart, Snapshot;
    assert Explains(r, cal, d, file);
  }

  lemma BadEventExplained(cal: Calendar, d: Day, file: RawFile, i: nat)
    requires file.Readable? && HeaderMatches(cal, d, file.payload) && i < |file.payload.events.value|
    requires !InsideWindow(cal, d, file.payload.events.value[i])
    ensures exists r :: Explains(r, cal, d, file)
  {
    var raw := file.payload.events.value[i];
    hide WindowStart, Snapshot, HeaderMatches;
    var r :=
      if raw.NotAnObject? then EventNotObject(i)
      else if !StampOf(raw).At? then EventTimestampInvalid
      else if StampOf(raw).t > Snapshot(d) then EventAfterSnapshot
      else EventBeforeWindow;
    assert Explains(r, cal, d, file);
  }

  /** A file is ready iff no reason at all holds of it. */
  lemma ReadyIffNothingExplains(cal: Calendar, d: Day, file: RawFile)
    ensures file.Readable? && DeployReady(cal, d, file.payload) <==> forall r :: !Explains(r, cal, d, file)
  {
    if file.Readable? && DeployReady(cal, d, file.payload) {
      forall r ensures !Explains(r, cal, d, file) { ReadyExcludes(cal, d, file, r); }
    } else if file.Unreadable? {
      assert Explains(PayloadUnreadable, cal, d, file);
    } else if file.NotJsonObject? {
      assert Explains(PayloadNotObject, cal, d, file);
    } else {
      hide Explains, HeaderMatches, InsideWindow;
      if HeaderMatches(cal, d, file.payload) {
        var i :| 0 <= i < |file.payload.events.value| && !InsideWindow(cal, d, file.payload.events.value[i]);
        BadEventExplained(cal, d, file, i);
      } else {
        BadHeaderExplained(cal, d, file);
      }
    }
  }

  method RawPayloadReadiness(cal: Calendar, d: Day, file: RawFile) returns (v: Verdict)
    ensures v.Valid() <==> file.Readable? && DeployReady(cal, d, file.payload)
    ensures v.Valid() ==> v.eventCount == |file.payload.events.value|
    ensures !v.Valid() ==> Explains(v.reason.value, cal, d, file)
    ensures !v.Valid() ==>
      forall r :: Precedence(r) < Precedence(v.reason.value) ==> !Explains(r, cal, d, file)
    ensures file.Readable? && HeaderMatches(cal, d, file.payload) && !v.Valid() ==>
      exists i :: 0 <= i < |file.payload.events.value|
        && !InsideWindow(cal, d, file.payload.events.value[i])
        && (forall k :: 0 <= k < i ==> InsideWindow(cal, d, file.payload.events.value[k]))
        && v.reason == Some(EventReason(cal, d, file.payload.events.value[i], i))
  {
    if file.Unreadable? { return Verdict(Some(PayloadUnreadable), 0); }
    if file.NotJsonObject? { return Verdict(Some(PayloadNotObject), 0); }
    var payload := file.payload;
    if payload.provenance.None? || !payload.provenance.value.deployQuality {
      return Verdict(Some(NotDeployQuality), 0);
    }
    if payload.events.None? { return Verdict(Some(MissingEvents), 0); }
    var events, provenance := payload.events.value, payload.provenance.value;
    if events == [] { return Verdict(Some(EmptyEvents), 0); }
    if provenance.eventCount.None? { return Verdict(Some(MissingEventCount), |events|); }
    if provenance.eventCount.value != |events| { return Verdict(Some(EventCountMismatch), |events|); }
    if provenance.windowStart.Absent? { return Verdict(Some(MissingWindowStart), |events|); }
    if provenance.windowEnd.Absent? { return Verdict(Some(MissingWindowEnd), |events|); }
    if !provenance.windowStart.At? || !provenance.windowEnd.At? { return Verdict(Some(WindowInvalid), |events|); }
    if provenance.windowStart.t != WindowStart(cal, d) { return Verdict(Some(WindowStartMismatch), |events|); }
    if provenance.windowEnd.t != Snapshot(d) { return Verdict(Some(WindowEndMismatch), |events|); }
    hide WindowStart, Snapshot, EventStamp;
    for i := 0 to |events|
      invariant forall k :: 0 <= k < i ==> InsideWindow(cal, d, events[k])
    {
      if !InsideWindow(cal, d, events[i]) {
        return Verdict(Some(EventReason(cal, d, events[i], i)), |events|);
      }
    }
    v := Verdict(None, |events|);
  }

  // ----- the three scripts agree

  /** Fetched events carry their timestamp in event_ts and nowhere else. */
  predicate FromFetcher(e: Event) { e.publishedAt == Absent && e.ts == Absent }

  /**
   What the writer archives for a date is judged valid iff the window is not empty and every
   fetched event, wherever it belongs, has a timestamp: an undated event lands in all windows.
   */
  lemma CheckerAcceptsArchiveIff(cal: Calendar, d: Day, events: seq<Event>)
    requires forall i :: 0 <= i < |events| ==> FromFetcher(events[i])
    ensures var inWindow := NewsArchive.WindowEvents(cal, d, events);
      DeployReady(cal, d, NewsArchive.ArchivePayload(cal, d, inWindow))
      <==> inWindow != [] && forall i :: 0 <= i < |events| ==> events[i].eventTs.At?
  {
    var inWindow := NewsArchive.WindowEvents(cal, d, events);
    var payload := NewsArchive.ArchivePayload(cal, d, inWindow);
    if i :| 0 <= i < |events| && !events[i].eventTs.At? {
      NewsArchive.WindowEventsMember(cal, d, events, events[i]);
      var k :| 0 <= k < |inWindow| && inWindow[k] == events[i];
      assert !InsideWindow(cal, d, payload.events.value[k]);
    }
    if inWindow != [] && forall i :: 0 <= i < |events| ==> events[i].eventTs.At? {
      forall k | 0 <= k < |inWindow| ensures InsideWindow(cal, d, payload.events.value[k]) {
        NewsArchive.WindowEventsMember(cal, d, events, inWindow[k]);
        var i :| 0 <= i < |events| && events[i] == inWindow[k];
      }
    }
  }

  /** A payload the checker accepts never makes the materializer raise. */
  lemma CheckedPayloadMaterializes(cal: Calendar, d: Day, payload: Payload)
    requires DeployReady(cal, d, payload)
    ensures Materializer.Clean(payload.events.value, Snapshot(d))
  {
    forall i | 0 <= i < |payload.events.value|
      ensures Materializer.Complaint(payload.events.value[i], Snapshot(d)) == None
    {
      assert InsideWindow(cal, d, payload.events.value[i]);
    }
  }

  /** An entry the materializer lets pass and the checker does not. */
  predicate Overlooked(cal: Calendar, d: Day, raw: RawEvent) {
    || raw.NotAnObject?
    || (EventStamp(raw.event).At? && EventStamp(raw.event).t < WindowStart(cal, d))
    || (!Materializer.Accepted(raw) && !(EventStamp(raw.event).At? && EventStamp(raw.event).t <= Snapshot(d)))
  }

  /**
   Of the payloads that build and have the right header the checker refuses exactly those
   holding a non-object, an event before the window, or an event without ticker or text that
   is undated or in the future.
   */
  lemma RefusedThoughCleanIff(cal: Calendar, d: Day, payload: Payload)
    requires HeaderMatches(cal, d, payload) && Materializer.Clean(payload.events.value, Snapshot(d))
    ensures !DeployReady(cal, d, payload) <==>
      exists i :: 0 <= i < |payload.events.value| && Overlooked(cal, d, payload.events.value[i])
  {
    var events := payload.events.value;
    forall i | 0 <= i < |events| ensures Overlooked(cal, d, events[i]) <==> !InsideWindow(cal, d, events[i]) {
      assert Materializer.Complaint(events[i], Snapshot(d)) == None;
    }
    hide Overlooked, InsideWindow, HeaderMatches;
  }

  /** The checker is stricter: a stale event passes the materializer but not the checker. */
  lemma CheckerIsStricter(cal: Calendar, d: Day)
    ensures var stale := Object(Event("005930", "text", At(WindowStart(cal, d) - 1), Absent, Absent, "news"));
      && Materializer.Clean([stale], Snapshot(d))
      && !DeployReady(cal, d, NewsArchive.ArchivePayload(cal, d, [stale.event]))
  {
    var stale := Object(Event("005930", "text", At(WindowStart(cal, d) - 1), Absent, Absent, "news"));
    assert Materializer.Complaint(stale, Snapshot(d)) == None;
    assert !InsideWindow(cal, d, NewsArchive.ArchivePayload(cal, d, [stale.event]).events.value[0]);
  }

  /** The events of a date's archive as the materializer reads them. */
  function Archived(cal: Calendar, d: Day, events: seq<Event>): seq<RawEvent> {
    NewsArchive.ArchivePayload(cal, d, NewsArchive.WindowEvents(cal, d, events)).events.value
  }

  /** Writer to rows: a non-empty archive of dated events is built into the rows the filters prescribe. */
  method ArchiveToRows(cal: Calendar, d: Day, events: seq<Event>, universe: seq<string>,
                       sectors: Materializer.SectorMap, limits: Materializer.Limits)
    returns (out: Materializer.Outcome)
    requires forall i :: 0 <= i < |events| ==> FromFetcher(events[i]) && events[i].eventTs.At?
    ensures NewsArchive.WindowEvents(cal, d, events) != [] ==>
      && out.Built? && |out.report.rows| == |universe|
      && forall i :: 0 <= i < |universe| ==>
           && out.report.rows[i]
              == Materializer.RowFor(Archived(cal, d, events), universe[i], sectors, limits, Snapshot(d))
           && out.report.rows[i].dataTs <= Snapshot(d)
  {
    var inWindow := NewsArchive.WindowEvents(cal, d, events);
    var payload := NewsArchive.ArchivePayload(cal, d, inWindow);
    out := Materializer.PayloadRowsFromEvents(payload.events.value, universe, sectors, limits, Snapshot(d));
    if inWindow != [] {
      CheckerAcceptsArchiveIff(cal, d, events);
      CheckedPayloadMaterializes(cal, d, payload);
      forall i | 0 <= i < |universe| ensures out.report.rows[i].dataTs <= Snapshot(d) {
        Materializer.RowNotAfterSnapshot(payload.events.value, universe[i], sectors, limits, Snapshot(d));
      }
    }
  }
}
