/** Archived news/community events and the payload file that carries them between scripts. */
module Events {
  import opened Common
  import opened TradingCalendar

  /** Seconds; day d starts at d * 86400. */
  type Instant = int

  /** A timestamp field: missing or empty, unreadable, or parsed. */
  datatype Stamp = Absent | Malformed | At(t: Instant)

  datatype Event = Event(ticker: string, text: string, eventTs: Stamp, publishedAt: Stamp, ts: Stamp, source: string)

  /** JSON list entries need not be objects. */
  datatype RawEvent = NotAnObject | Object(event: Event)

  datatype Provenance = Provenance(
    deployQuality: bool,
    eventCount: Option<int>,
    windowStart: Stamp,
    windowEnd: Stamp)

  datatype Payload = Payload(provenance: Option<Provenance>, events: Option<seq<RawEvent>>)

  const SNAPSHOT_SECOND := 8 * 3600 + 30 * 60

  /** 08:30 on the given day: the last instant its archive may contain. */
  function Snapshot(d: Day): Instant { d * 86400 + SNAPSHOT_SECOND }

  /** 08:30 on the trading day before: the first instant of the day's window. */
  function WindowStart(cal: Calendar, d: Day): Instant { Snapshot(PreviousTradingDay(cal, d)) }

  /** The snapshot is the day's own 08:30, and the window opens at 08:30 of the nearest trading day before. */
  lemma WindowEnds(cal: Calendar, d: Day, x: Day)
    ensures DateOf(Snapshot(d)) == d && TimeOf(Snapshot(d)) == (8 * 60 + 30) * 60
    ensures var open := WindowStart(cal, d);
      && TimeOf(open) == (8 * 60 + 30) * 60 && DateOf(open) < d && IsTradingDay(cal, DateOf(open))
      && (DateOf(open) < x < d ==> !IsTradingDay(cal, x))
  {
    if IsTradingDay(cal, x) && x < d { PreviousIsGreatest(cal, d, x); }
    hide IsTradingDay, PreviousTradingDay;
  }

  /** The first non-empty field of event_ts, published_at and ts. */
  function EventStamp(e: Event): Stamp {
    if e.eventTs != Absent then e.eventTs else if e.publishedAt != Absent then e.publishedAt else e.ts
  }

  /** A stamp is one of the fields, and every field before it is empty. */
  lemma StampIsFirst(e: Event)
    ensures EventStamp(e) == Absent <==> e.eventTs == Absent && e.publishedAt == Absent && e.ts == Absent
    ensures EventStamp(e) in {e.eventTs, e.publishedAt, e.ts}
    ensures EventStamp(e) != e.eventTs ==> e.eventTs == Absent
    ensures EventStamp(e) !in {e.eventTs, e.publishedAt} ==> e.publishedAt == Absent
  {
  }
}
