/**
 The events-to-rows step of materialize_dual_source_history.py: one pass over the archived
 events fills per-ticker, per-sector and market dictionaries; a second pass gives every
 universe ticker the texts of its most specific non-empty scope, under caps.
 */
module Materializer {
  import opened Common
  import opened Events

  datatype Channel = News | Community

  datatype Scope = Ticker(ticker: string) | Sector(sector: string) | Market

  datatype Origin = OwnTicker | SectorFallback | MarketFallback | NoScope | MarketBackstop

  /** Text caps; a configured value of zero means no cap. */
  datatype Limits = Limits(
    newsPerTicker: nat,
    newsPerFallback: nat,
    marketBackstop: nat,
    communityPerTicker: nat,
    communityFallback: nat)

  datatype CapStat = CapStat(original: nat, kept: nat, dropped: nat)

  datatype Row = Row(
    ticker: string,
    newsTexts: seq<string>,
    communityTexts: seq<string>,
    volume: nat,
    dataTs: Instant,
    newsScope: Origin,
    communityScope: Origin,
    marketNewsTexts: seq<string>,
    marketNewsDataTs: Instant)

  /** One channel's bucket of the counters, keyed by the scope the texts came from. */
  type CapStats = map<Origin, CapStat>
  type ScopeCounts = map<Origin, nat>

  datatype Report = Report(
    rows: seq<Row>,
    eventCount: nat,
    newsCount: nat,
    communityCount: nat,
    newsStats: CapStats,
    communityStats: CapStats,
    newsScopes: ScopeCounts,
    communityScopes: ScopeCounts)

  datatype Rejection = MissingTimestamp | InvalidTimestamp | PitViolation

  datatype Outcome = Built(report: Report) | Rejected(index: nat, why: Rejection)

  // ----- reading one event

  predicate Mentions(s: string, word: string) {
    exists i :: 0 <= i <= |s| && word <= s[i..]
  }

  /** `source` is already lower-cased. */
  function ChannelOf(e: Event): Channel {
    if Mentions(e.source, "comm") || e.source in {"community", "forum", "social"} then Community else News
  }

  predicate Accepted(raw: RawEvent) {
    raw.Object? && raw.event.ticker != NO_TICKER && raw.event.text != ""
  }

  /** Why an accepted event aborts the whole payload. */
  function Complaint(raw: RawEvent, snapshot: Instant): Option<Rejection> {
    if !Accepted(raw) then None
    else
      match EventStamp(raw.event)
      case Absent => Some(MissingTimestamp)
      case Malformed => Some(InvalidTimestamp)
      case At(t) => if t > snapshot then Some(PitViolation) else None
  }

  ghost predicate Clean(events: seq<RawEvent>, snapshot: Instant) {
    forall i :: 0 <= i < |events| ==> Complaint(events[i], snapshot) == None
  }

  type SectorMap = map<string, string>

  function SectorOf(sectors: SectorMap, ticker: string): Option<string> {
    if ticker in sectors && sectors[ticker] != "" then Some(sectors[ticker]) else None
  }

  predicate InScope(ticker: string, scope: Scope, sectors: SectorMap) {
    match scope
    case Ticker(t) => ticker == t
    case Sector(s) => SectorOf(sectors, ticker) == Some(s)
    case Market => true
  }

  /** Which entries are used, which of those abort the payload, and what their source field makes them. */
  lemma OneEventIsRead(e: Event, snapshot: Instant)
    ensures !Accepted(NotAnObject)
    ensures Accepted(Object(e)) <==> e.text != "" && e.ticker != "000000"
    ensures Complaint(NotAnObject, snapshot) == None
    ensures Complaint(Object(e), snapshot).Some? <==>
      && e.text != "" && e.ticker != "000000"
      && (EventStamp(e) in {Absent, Malformed} || (EventStamp(e).At? && EventStamp(e).t > snapshot))
    ensures Complaint(Object(e), snapshot) == Some(PitViolation) ==> EventStamp(e).At?
    ensures Complaint(Object(e), snapshot) == Some(MissingTimestamp) ==> EventStamp(e) == Absent
    ensures Complaint(Object(e), snapshot) == Some(InvalidTimestamp) ==> EventStamp(e) == Malformed
    ensures ChannelOf(e) == Community <==>
      || (exists before, after :: e.source == before + "comm" + after)
      || e.source in {"community", "forum", "social"}
  {
    if i :| 0 <= i <= |e.source| && "comm" <= e.source[i..] {
      assert e.source == e.source[..i] + "comm" + e.source[i + 4..];
    }
    if before, after :| e.source == before + "comm" + after {
      assert e.source[|before|..] == "comm" + after;
    }
  }

  /** Scopes nest: a ticker's own events, those of its sector, all of them. */
  lemma ScopesAre(ticker: string, other: string, sector: string, sectors: SectorMap)
    ensures InScope(other, Ticker(ticker), sectors) <==> other == ticker
    ensures InScope(other, Sector(sector), sectors) <==> sector != "" && other in sectors && sectors[other] == sector
    ensures InScope(other, Market, sectors)
    ensures SectorOf(sectors, ticker) == Some(sector) <==>
      sector != "" && ticker in sectors && sectors[ticker] == sector
  {
  }

  // ----- the reference: plain filters over the event list

  predicate Contributes(raw: RawEvent, scope: Scope, ch: Channel, sectors: SectorMap) {
    Accepted(raw) && InScope(raw.event.ticker, scope, sectors) && ChannelOf(raw.event) == ch
  }

  /** Texts of the accepted events of one scope and channel, in event order. */
  function Texts(events: seq<RawEvent>, scope: Scope, ch: Channel, sectors: SectorMap): seq<string> {
    if |events| == 0 then []
    else
      var last := events[|events| - 1];
      Texts(events[..|events| - 1], scope, ch, sectors)
      + (if Contributes(last, scope, ch, sectors) then [last.event.text] else [])
  }

  function Chooses(scope: Scope, ch: Channel, sectors: SectorMap): RawEvent -> bool {
    (raw: RawEvent) => Contributes(raw, scope, ch, sectors)
  }

  function TextOf(raw: RawEvent): string { if raw.Object? then raw.event.text else "" }

  lemma {:induction false} TextsPick(events: seq<RawEvent>, scope: Scope, ch: Channel, sectors: SectorMap)
    ensures Picks(events, Chooses(scope, ch, sectors), TextOf, Texts(events, scope, ch, sectors))
  {
    hide Picks, Contributes;
    if |events| == 0 {
      PicksNone(Chooses(scope, ch, sectors), TextOf);
    } else {
      var init, last := events[..|events| - 1], events[|events| - 1];
      TextsPick(init, scope, ch, sectors);
      PicksStep(init, last, Chooses(scope, ch, sectors), TextOf, Texts(init, scope, ch, sectors));
      ContributorIsObject(last, scope, ch, sectors);
      assert events == init + [last] && Texts(init, scope, ch, sectors) + [] == Texts(init, scope, ch, sectors);
    }
  }

  lemma ContributorIsObject(raw: RawEvent, scope: Scope, ch: Channel, sectors: SectorMap)
    ensures Contributes(raw, scope, ch, sectors) ==> raw.Object?
  {
  }

  function Later(o: Option<Instant>, t: Instant): Instant {
    match o
    case None => t
    case Some(u) => Max(u, t)
  }

  /** Newest timestamp of the accepted events of one scope, both channels. */
  function Latest(events: seq<RawEvent>, scope: Scope, sectors: SectorMap): Option<Instant> {
    if |events| == 0 then None
    else
      var init, last := Latest(events[..|events| - 1], scope, sectors), events[|events| - 1];
      if Accepted(last) && InScope(last.event.ticker, scope, sectors) && EventStamp(last.event).At?
      then Some(Later(init, EventStamp(last.event).t)) else init
  }

  lemma TextsStep(events: seq<RawEvent>, raw: RawEvent, scope: Scope, ch: Channel, sectors: SectorMap)
    ensures Texts(events + [raw], scope, ch, sectors)
         == Texts(events, scope, ch, sectors) + (if Contributes(raw, scope, ch, sectors) then [raw.event.text] else [])
  {
    assert (events + [raw])[..|events|] == events;
  }

  lemma LatestStep(events: seq<RawEvent>, raw: RawEvent, scope: Scope, sectors: SectorMap)
    ensures Latest(events + [raw], scope, sectors)
         == (if Accepted(raw) && InScope(raw.event.ticker, scope, sectors) && EventStamp(raw.event).At?
             then Some(Later(Latest(events, scope, sectors), EventStamp(raw.event).t))
             else Latest(events, scope, sectors))
  {
    assert (events + [raw])[..|events|] == events;
  }

  // ----- the dictionaries of the first pass

  datatype Bucket = Bucket(news: seq<string>, community: seq<string>, volume: nat)

  datatype Tally = Tally(
    grouped: map<string, Bucket>,
    latestByTicker: map<string, Instant>,
    sectorNews: map<string, seq<string>>,
    sectorCommunity: map<string, seq<string>>,
    sectorLatest: map<string, Instant>,
    marketNews: seq<string>,
    marketCommunity: seq<string>,
    marketLatest: Option<Instant>,
    eventCount: nat,
    newsCount: nat,
    communityCount: nat)

  const EMPTY_TALLY := Tally(map[], map[], map[], map[], map[], [], [], None, 0, 0, 0)

  function BucketAt(m: map<string, Bucket>, k: string): Bucket {
    if k in m then m[k] else Bucket([], [], 0)
  }

  function TextsAt(m: map<string, seq<string>>, k: string): seq<string> {
    if k in m then m[k] else []
  }

  function InstantAt(m: map<string, Instant>, k: string): Option<Instant> {
    if k in m then Some(m[k]) else None
  }

  ghost predicate GroupedAgrees(m: map<string, Bucket>, done: seq<RawEvent>, sectors: SectorMap) {
    forall k :: BucketAt(m, k) == Bucket(
      Texts(done, Ticker(k), News, sectors),
      Texts(done, Ticker(k), Community, sectors),
      |Texts(done, Ticker(k), Community, sectors)|)
  }

  ghost predicate SectorTextsAgree(m: map<string, seq<string>>, done: seq<RawEvent>, ch: Channel, sectors: SectorMap) {
    forall k :: TextsAt(m, k) == Texts(done, Sector(k), ch, sectors)
  }

  ghost predicate TickerLatestAgrees(m: map<string, Instant>, done: seq<RawEvent>, sectors: SectorMap) {
    forall k :: InstantAt(m, k) == Latest(done, Ticker(k), sectors)
  }

  ghost predicate SectorLatestAgrees(m: map<string, Instant>, done: seq<RawEvent>, sectors: SectorMap) {
    forall k :: InstantAt(m, k) == Latest(done, Sector(k), sectors)
  }

  ghost predicate MarketAgrees(tally: Tally, done: seq<RawEvent>, sectors: SectorMap) {
    && tally.marketNews == Texts(done, Market, News, sectors)
    && tally.marketCommunity == Texts(done, Market, Community, sectors)
    && tally.marketLatest == Latest(done, Market, sectors)
    && tally.newsCount == |tally.marketNews|
    && tally.communityCount == |tally.marketCommunity|
    && tally.eventCount == tally.newsCount + tally.communityCount
  }

  /** Every dictionary holds exactly what filtering the events seen so far would give. */
  ghost predicate Agrees(tally: Tally, done: seq<RawEvent>, sectors: SectorMap) {
    && GroupedAgrees(tally.grouped, done, sectors)
    && TickerLatestAgrees(tally.latestByTicker, done, sectors)
    && SectorTextsAgree(tally.sectorNews, done, News, sectors)
    && SectorTextsAgree(tally.sectorCommunity, done, Community, sectors)
    && SectorLatestAgrees(tally.sectorLatest, done, sectors)
    && MarketAgrees(tally, done, sectors)
  }

  /** The loop body for an accepted event with timestamp t. */
  method AddEvent(tally0: Tally, e: Event, t: Instant, sectors: SectorMap, ghost done: seq<RawEvent>)
    returns (tally: Tally)
    requires Accepted(Object(e)) && EventStamp(e) == At(t)
    requires Agrees(tally0, done, sectors)
    ensures Agrees(tally, done + [Object(e)], sectors)
  {
    hide GroupedAgrees, TickerLatestAgrees, SectorTextsAgree, SectorLatestAgrees, MarketAgrees;
    hide Accepted, EventStamp, ChannelOf, SectorOf, Later, TextsAt, InstantAt, BucketAt;
    var bucket := BucketAt(tally0.grouped, e.ticker);
    var sector := SectorOf(sectors, e.ticker);
    var sectorNews, sectorCommunity, sectorLatest := tally0.sectorNews, tally0.sectorCommunity, tally0.sectorLatest;
    var marketNews, marketCommunity := tally0.marketNews, tally0.marketCommunity;
    var newsCount, communityCount := tally0.newsCount, tally0.communityCount;
    if ChannelOf(e) == Community {
      bucket := Bucket(bucket.news, bucket.community + [e.text], bucket.volume + 1);
      marketCommunity := marketCommunity + [e.text];
      if sector.Some? {
        sectorCommunity := sectorCommunity[sector.value := TextsAt(sectorCommunity, sector.value) + [e.text]];
      }
      communityCount := communityCount + 1;
    } else {
      bucket := Bucket(bucket.news + [e.text], bucket.community, bucket.volume);
      marketNews := marketNews + [e.text];
      if sector.Some? {
        sectorNews := sectorNews[sector.value := TextsAt(sectorNews, sector.value) + [e.text]];
      }
      newsCount := newsCount + 1;
    }
    var latestByTicker := tally0.latestByTicker[e.ticker := Later(InstantAt(tally0.latestByTicker, e.ticker), t)];
    if sector.Some? {
      sectorLatest := sectorLatest[sector.value := Later(InstantAt(sectorLatest, sector.value), t)];
    }
    tally := Tally(
      tally0.grouped[e.ticker := bucket], latestByTicker, sectorNews, sectorCommunity, sectorLatest,
      marketNews, marketCommunity, Some(Later(tally0.marketLatest, t)),
      tally0.eventCount + 1, newsCount, communityCount);
    GroupedStep(tally0.grouped, tally.grouped, done, e, sectors);
    TickerLatestStep(tally0.latestByTicker, latestByTicker, done, e, t, sectors);
    SectorTextsStep(tally0.sectorNews, sectorNews, done, e, News, sectors);
    SectorTextsStep(tally0.sectorCommunity, sectorCommunity, done, e, Community, sectors);
    SectorLatestStep(tally0.sectorLatest, sectorLatest, done, e, t, sectors);
    MarketStep(tally0, tally, done, e, t, sectors);
  }

  lemma GroupedStep(m: map<string, Bucket>, m': map<string, Bucket>, done: seq<RawEvent>, e: Event, sectors: SectorMap)
    requires GroupedAgrees(m, done, sectors) && Accepted(Object(e))
    requires var b := BucketAt(m, e.ticker);
      m' == m[e.ticker := if ChannelOf(e) == Community then Bucket(b.news, b.community + [e.text], b.volume + 1)
                          else Bucket(b.news + [e.text], b.community, b.volume)]
    ensures GroupedAgrees(m', done + [Object(e)], sectors)
  {
    hide Texts, Accepted, ChannelOf;
    forall k ensures BucketAt(m', k) == Bucket(
      Texts(done + [Object(e)], Ticker(k), News, sectors),
      Texts(done + [Object(e)], Ticker(k), Community, sectors),
      |Texts(done + [Object(e)], Ticker(k), Community, sectors)|)
    {
      TextsStep(done, Object(e), Ticker(k), News, sectors);
      TextsStep(done, Object(e), Ticker(k), Community, sectors);
      assert BucketAt(m, k).news + [] == BucketAt(m, k).news;
      assert BucketAt(m, k).community + [] == BucketAt(m, k).community;
    }
  }

  lemma SectorTextsStep(m: map<string, seq<string>>, m': map<string, seq<string>>, done: seq<RawEvent>, e: Event,
                        ch: Channel, sectors: SectorMap)
    requires SectorTextsAgree(m, done, ch, sectors) && Accepted(Object(e))
    requires var s := SectorOf(sectors, e.ticker);
      m' == if s.Some? && ChannelOf(e) == ch then m[s.value := TextsAt(m, s.value) + [e.text]] else m
    ensures SectorTextsAgree(m', done + [Object(e)], ch, sectors)
  {
    hide Texts, Accepted, ChannelOf, SectorOf;
    forall k ensures TextsAt(m', k) == Texts(done + [Object(e)], Sector(k), ch, sectors) {
      TextsStep(done, Object(e), Sector(k), ch, sectors);
      assert TextsAt(m, k) + [] == TextsAt(m, k);
    }
  }

  lemma TickerLatestStep(m: map<string, Instant>, m': map<string, Instant>, done: seq<RawEvent>, e: Event,
                         t: Instant, sectors: SectorMap)
    requires TickerLatestAgrees(m, done, sectors) && Accepted(Object(e)) && EventStamp(e) == At(t)
    requires m' == m[e.ticker := Later(InstantAt(m, e.ticker), t)]
    ensures TickerLatestAgrees(m', done + [Object(e)], sectors)
  {
    hide Latest, Accepted, EventStamp;
    forall k ensures InstantAt(m', k) == Latest(done + [Object(e)], Ticker(k), sectors) {
      LatestStep(done, Object(e), Ticker(k), sectors);
    }
  }

  lemma SectorLatestStep(m: map<string, Instant>, m': map<string, Instant>, done: seq<RawEvent>, e: Event,
                         t: Instant, sectors: SectorMap)
    requires SectorLatestAgrees(m, done, sectors) && Accepted(Object(e)) && EventStamp(e) == At(t)
    requires var s := SectorOf(sectors, e.ticker);
      m' == if s.Some? then m[s.value := Later(InstantAt(m, s.value), t)] else m
    ensures SectorLatestAgrees(m', done + [Object(e)], sectors)
  {
    hide Latest, Accepted, EventStamp, SectorOf;
    forall k ensures InstantAt(m', k) == Latest(done + [Object(e)], Sector(k), sectors) {
      LatestStep(done, Object(e), Sector(k), sectors);
    }
  }

  lemma MarketStep(tally: Tally, tally': Tally, done: seq<RawEvent>, e: Event, t: Instant, sectors: SectorMap)
    requires MarketAgrees(tally, done, sectors) && Accepted(Object(e)) && EventStamp(e) == At(t)
    requires tally'.marketLatest == Some(Later(tally.marketLatest, t)) && tally'.eventCount == tally.eventCount + 1
    requires ChannelOf(e) == Community ==>
      && tally'.marketCommunity == tally.marketCommunity + [e.text] && tally'.marketNews == tally.marketNews
      && tally'.communityCount == tally.communityCount + 1 && tally'.newsCount == tally.newsCount
    requires ChannelOf(e) == News ==>
      && tally'.marketNews == tally.marketNews + [e.text] && tally'.marketCommunity == tally.marketCommunity
      && tally'.newsCount == tally.newsCount + 1 && tally'.communityCount == tally.communityCount
    ensures MarketAgrees(tally', done + [Object(e)], sectors)
  {
    hide Texts, Latest, Accepted, EventStamp, ChannelOf;
    TextsStep(done, Object(e), Market, News, sectors);
    TextsStep(done, Object(e), Market, Community, sectors);
    LatestStep(done, Object(e), Market, sectors);
    assert tally.marketNews + [] == tally.marketNews;
    assert tally.marketCommunity + [] == tally.marketCommunity;
  }

  lemma SkippedEvent(tally: Tally, done: seq<RawEvent>, raw: RawEvent, sectors: SectorMap)
    requires Agrees(tally, done, sectors) && !Accepted(raw)
    ensures Agrees(tally, done + [raw], sectors)
  {
    forall scope, ch: Channel ensures Texts(done + [raw], scope, ch, sectors) == Texts(done, scope, ch, sectors) {
      TextsStep(done, raw, scope, ch, sectors);
      assert Texts(done, scope, ch, sectors) + [] == Texts(done, scope, ch, sectors);
    }
    forall scope ensures Latest(done + [raw], scope, sectors) == Latest(done, scope, sectors) {
      LatestStep(done, raw, scope, sectors);
    }
  }

  lemma NothingSeen(sectors: SectorMap)
    ensures Agrees(EMPTY_TALLY, [], sectors)
  {
  }

  /** The first pass: dictionaries that agree with the filters, or the first complaint. */
  method TallyEvents(events: seq<RawEvent>, sectors: SectorMap, snapshot: Instant)
    returns (tally: Tally, failure: Option<(nat, Rejection)>)
    ensures failure.None? <==> Clean(events, snapshot)
    ensures failure.None? ==> Agrees(tally, events, sectors)
    ensures failure.Some? ==>
      && failure.value.0 < |events| && Clean(events[..failure.value.0], snapshot)
      && Complaint(events[failure.value.0], snapshot) == Some(failure.value.1)
  {
    tally, failure := EMPTY_TALLY, None;
    NothingSeen(sectors);
    hide Agrees;
    for i := 0 to |events|
      invariant failure.None? && Clean(events[..i], snapshot) && Agrees(tally, events[..i], sectors)
    {
      var raw := events[i];
      assert events[..i + 1] == events[..i] + [raw];
      if !Accepted(raw) {
        SkippedEvent(tally, events[..i], raw, sectors);
        continue;
      }
      match EventStamp(raw.event)
      case Absent => return tally, Some((i, MissingTimestamp));
      case Malformed => return tally, Some((i, InvalidTimestamp));
      case At(t) =>
        if t > snapshot { return tally, Some((i, PitViolation)); }
        tally := AddEvent(tally, raw.event, t, sectors, events[..i]);
    }
    assert events[..|events|] == events;
  }

  // ----- the second pass: one row per universe ticker

  /** The most specific scope with a text of this channel. */
  function OriginOf(events: seq<RawEvent>, ticker: string, ch: Channel, sectors: SectorMap): Origin {
    var sector := SectorOf(sectors, ticker);
    if Texts(events, Ticker(ticker), ch, sectors) != [] then OwnTicker
    else if sector.Some? && Texts(events, Sector(sector.value), ch, sectors) != [] then SectorFallback
    else if Texts(events, Market, ch, sectors) != [] then MarketFallback
    else NoScope
  }

  function ScopeUsed(origin: Origin, ticker: string, sectors: SectorMap): Option<Scope> {
    match origin
    case OwnTicker => Some(Ticker(ticker))
    case SectorFallback =>
      var sector := SectorOf(sectors, ticker);
      if sector.Some? then Some(Sector(sector.value)) else None
    case MarketFallback => Some(Market)
    case _ => None
  }

  function CapFor(limits: Limits, ch: Channel, origin: Origin): nat {
    match ch
    case News => if origin == OwnTicker then limits.newsPerTicker else limits.newsPerFallback
    case Community => if limits.communityPerTicker > 0 then limits.communityPerTicker else limits.communityFallback
  }

  function Limited(texts: seq<string>, cap: nat): seq<string> {
    if cap > 0 && |texts| > cap then texts[..cap] else texts
  }

  /** All texts of the scope an origin denotes, before the cap. */
  function ScopeTexts(events: seq<RawEvent>, origin: Origin, ticker: string, ch: Channel, sectors: SectorMap)
    : seq<string>
  {
    match ScopeUsed(origin, ticker, sectors)
    case Some(scope) => Texts(events, scope, ch, sectors)
    case None => []
  }

  function LaterOf(a: Option<Instant>, b: Option<Instant>): Option<Instant> {
    if a.None? then b else if b.None? then a else Some(Max(a.value, b.value))
  }

  /** Fallback scopes add their newest timestamp to the ticker's own. */
  function FallbackTs(events: seq<RawEvent>, origin: Origin, ticker: string, sectors: SectorMap): Option<Instant> {
    if origin == OwnTicker then None
    else
      match ScopeUsed(origin, ticker, sectors)
      case Some(scope) => Latest(events, scope, sectors)
      case None => None
  }

  function DataTs(events: seq<RawEvent>, ticker: string, news: Origin, community: Origin,
                  sectors: SectorMap, snapshot: Instant): Instant {
    var newest := LaterOf(LaterOf(Latest(events, Ticker(ticker), sectors), FallbackTs(events, news, ticker, sectors)),
                          FallbackTs(events, community, ticker, sectors));
    if newest.Some? then newest.value else snapshot
  }

  /** The row the filters prescribe for one ticker. */
  function RowFor(events: seq<RawEvent>, ticker: string, sectors: SectorMap, limits: Limits, snapshot: Instant): Row {
    var news := OriginOf(events, ticker, News, sectors);
    var community := OriginOf(events, ticker, Community, sectors);
    var latestMarket := Latest(events, Market, sectors);
    Row(
      ticker,
      Limited(ScopeTexts(events, news, ticker, News, sectors), CapFor(limits, News, news)),
      Limited(ScopeTexts(events, community, ticker, Community, sectors), CapFor(limits, Community, community)),
      |Texts(events, Ticker(ticker), Community, sectors)|,
      DataTs(events, ticker, news, community, sectors, snapshot),
      news,
      community,
      Limited(Texts(events, Market, News, sectors), limits.marketBackstop),
      if latestMarket.Some? then latestMarket.value else snapshot)
  }

  /** The fallback chain of one channel, over the dictionaries. */
  method PickScope(own: seq<string>, sectorTexts: map<string, seq<string>>, market: seq<string>,
                   sector: Option<string>, sectorLatest: map<string, Instant>, marketLatest: Option<Instant>,
                   ghost events: seq<RawEvent>, ghost ticker: string, ghost ch: Channel, ghost sectors: SectorMap)
    returns (texts: seq<string>, origin: Origin, candidate: Option<Instant>)
    requires own == Texts(events, Ticker(ticker), ch, sectors) && market == Texts(events, Market, ch, sectors)
    requires SectorTextsAgree(sectorTexts, events, ch, sectors) && sector == SectorOf(sectors, ticker)
    requires SectorLatestAgrees(sectorLatest, events, sectors) && marketLatest == Latest(events, Market, sectors)
    ensures origin == OriginOf(events, ticker, ch, sectors)
    ensures texts == ScopeTexts(events, origin, ticker, ch, sectors)
    ensures candidate == FallbackTs(events, origin, ticker, sectors)
  {
    hide Texts, Latest, SectorOf;
    texts, origin, candidate := own, if own != [] then OwnTicker else NoScope, None;
    assert sector.Some? ==> TextsAt(sectorTexts, sector.value) == Texts(events, Sector(sector.value), ch, sectors);
    if own == [] && sector.Some? && TextsAt(sectorTexts, sector.value) != [] {
      texts, origin := TextsAt(sectorTexts, sector.value), SectorFallback;
      candidate := InstantAt(sectorLatest, sector.value);
    } else if own == [] && market != [] {
      texts, origin, candidate := market, MarketFallback, marketLatest;
    }
  }

  // ----- cap statistics and scope counts

  function StatAt(stats: CapStats, origin: Origin): CapStat {
    if origin in stats then stats[origin] else CapStat(0, 0, 0)
  }

  function RecordCap(stats: CapStats, origin: Origin, original: nat, kept: nat): CapStats {
    var s := StatAt(stats, origin);
    stats[origin := CapStat(s.original + original, s.kept + kept, s.dropped + Max(original - kept, 0))]
  }

  function CountAt(counts: ScopeCounts, origin: Origin): nat {
    if origin in counts then counts[origin] else 0
  }

  function BumpScope(counts: ScopeCounts, origin: Origin): ScopeCounts {
    counts[origin := CountAt(counts, origin) + 1]
  }

  function RowOrigin(row: Row, ch: Channel): Origin {
    if ch == News then row.newsScope else row.communityScope
  }

  function RowTexts(row: Row, ch: Channel): seq<string> {
    if ch == News then row.newsTexts else row.communityTexts
  }

  /** Rows resolved to one scope. */
  function RowsAt(rows: seq<Row>, ch: Channel, origin: Origin): nat {
    if |rows| == 0 then 0
    else RowsAt(rows[..|rows| - 1], ch, origin) + (if RowOrigin(rows[|rows| - 1], ch) == origin then 1 else 0)
  }

  /** Texts placed in the rows resolved to one scope. */
  function PlacedAt(rows: seq<Row>, ch: Channel, origin: Origin): nat {
    if |rows| == 0 then 0
    else
      var last := rows[|rows| - 1];
      PlacedAt(rows[..|rows| - 1], ch, origin) + (if RowOrigin(last, ch) == origin then |RowTexts(last, ch)| else 0)
  }

  ghost predicate CountsAgree(counts: ScopeCounts, rows: seq<Row>, ch: Channel) {
    forall origin :: CountAt(counts, origin) == RowsAt(rows, ch, origin)
  }

  /** How many texts the scope chosen for each ticker holds. */
  function Offered(events: seq<RawEvent>, ch: Channel, sectors: SectorMap): string -> nat {
    ticker => |ScopeTexts(events, OriginOf(events, ticker, ch, sectors), ticker, ch, sectors)|
  }

  /** That is the size of the most specific non-empty scope. */
  lemma OfferedIs(events: seq<RawEvent>, ticker: string, ch: Channel, sectors: SectorMap)
    ensures var own, sector := |Texts(events, Ticker(ticker), ch, sectors)|, SectorOf(sectors, ticker);
      var peers := if sector.Some? then |Texts(events, Sector(sector.value), ch, sectors)| else 0;
      Offered(events, ch, sectors)(ticker)
      == if own > 0 then own else if peers > 0 then peers else |Texts(events, Market, ch, sectors)|
  {
    hide Texts, SectorOf;
  }

  /** Texts offered to the rows resolved to one scope. */
  function OfferedAt(rows: seq<Row>, ch: Channel, origin: Origin, offered: string -> nat): nat {
    if |rows| == 0 then 0
    else
      var last := rows[|rows| - 1];
      OfferedAt(rows[..|rows| - 1], ch, origin, offered)
      + (if RowOrigin(last, ch) == origin then offered(last.ticker) else 0)
  }

  /** Counted texts are those offered, kept ones those placed; the backstop is counted once beforehand. */
  ghost predicate StatAgrees(stats: CapStats, rows: seq<Row>, ch: Channel, offered: string -> nat, backstop: CapStat,
                             origin: Origin)
  {
    var stat, base := StatAt(stats, origin), if origin == MarketBackstop then backstop else CapStat(0, 0, 0);
    && stat.original == base.original + OfferedAt(rows, ch, origin, offered)
    && stat.kept == base.kept + PlacedAt(rows, ch, origin)
    && stat.dropped == base.dropped + OfferedAt(rows, ch, origin, offered) - PlacedAt(rows, ch, origin)
  }

  ghost predicate StatsAgree(stats: CapStats, rows: seq<Row>, ch: Channel, offered: string -> nat, backstop: CapStat) {
    forall origin :: StatAgrees(stats, rows, ch, offered, backstop, origin)
  }

  /** What capping `original` texts down to `kept` records. */
  function Recorded(original: nat, kept: nat): CapStat
    requires kept <= original
  {
    CapStat(original, kept, original - kept)
  }

  lemma CountsStep(counts: ScopeCounts, rows: seq<Row>, row: Row, ch: Channel)
    requires CountsAgree(counts, rows, ch)
    ensures CountsAgree(BumpScope(counts, RowOrigin(row, ch)), rows + [row], ch)
  {
    assert (rows + [row])[..|rows|] == rows;
  }

  lemma RecordCapAt(stats: CapStats, at: Origin, original: nat, kept: nat, origin: Origin)
    requires kept <= original
    ensures var stat := StatAt(stats, origin);
      StatAt(RecordCap(stats, at, original, kept), origin)
      == if origin == at
         then CapStat(stat.original + original, stat.kept + kept, stat.dropped + (original - kept)) else stat
  {
  }

  lemma SumsStep(rows: seq<Row>, row: Row, ch: Channel, offered: string -> nat, origin: Origin)
    ensures OfferedAt(rows + [row], ch, origin, offered)
         == OfferedAt(rows, ch, origin, offered) + (if RowOrigin(row, ch) == origin then offered(row.ticker) else 0)
    ensures PlacedAt(rows + [row], ch, origin)
         == PlacedAt(rows, ch, origin) + (if RowOrigin(row, ch) == origin then |RowTexts(row, ch)| else 0)
  {
    assert (rows + [row])[..|rows|] == rows;
  }

  /** The counters after one more row. */
  function WithCap(stats: CapStats, row: Row, ch: Channel, offered: string -> nat): CapStats {
    RecordCap(stats, RowOrigin(row, ch), offered(row.ticker), |RowTexts(row, ch)|)
  }

  lemma StatStep(stats: CapStats, rows: seq<Row>, row: Row, ch: Channel, offered: string -> nat, backstop: CapStat,
                 origin: Origin)
    requires StatAgrees(stats, rows, ch, offered, backstop, origin) && offered(row.ticker) >= |RowTexts(row, ch)|
    ensures StatAgrees(WithCap(stats, row, ch, offered), rows + [row], ch, offered, backstop, origin)
  {
    hide RecordCap, StatAt, OfferedAt, PlacedAt, RowOrigin, RowTexts;
    RecordCapAt(stats, RowOrigin(row, ch), offered(row.ticker), |RowTexts(row, ch)|, origin);
    SumsStep(rows, row, ch, offered, origin);
  }

  lemma StatsStep(stats: CapStats, rows: seq<Row>, row: Row, ch: Channel, offered: string -> nat, backstop: CapStat)
    requires StatsAgree(stats, rows, ch, offered, backstop) && offered(row.ticker) >= |RowTexts(row, ch)|
    ensures StatsAgree(WithCap(stats, row, ch, offered), rows + [row], ch, offered, backstop)
  {
    hide StatAgrees, WithCap;
    forall origin ensures StatAgrees(WithCap(stats, row, ch, offered), rows + [row], ch, offered, backstop, origin) {
      StatStep(stats, rows, row, ch, offered, backstop, origin);
    }
  }

  lemma NoRows(original: nat, kept: nat, news: string -> nat, community: string -> nat)
    requires kept <= original
    ensures StatsAgree(RecordCap(map[], MarketBackstop, original, kept), [], News, news, Recorded(original, kept))
    ensures StatsAgree(map[], [], Community, community, CapStat(0, 0, 0))
    ensures CountsAgree(map[], [], News) && CountsAgree(map[], [], Community)
  {
  }

  /** What capping the market backstop records. */
  function BackstopStat(events: seq<RawEvent>, sectors: SectorMap, limits: Limits): CapStat {
    var market := Texts(events, Market, News, sectors);
    Recorded(|market|, |Limited(market, limits.marketBackstop)|)
  }

  ghost predicate CountersAgree(report: Report, events: seq<RawEvent>, sectors: SectorMap, limits: Limits) {
    && CountsAgree(report.newsScopes, report.rows, News)
    && CountsAgree(report.communityScopes, report.rows, Community)
    && StatsAgree(report.newsStats, report.rows, News,
                  Offered(events, News, sectors), BackstopStat(events, sectors, limits))
    && StatsAgree(report.communityStats, report.rows, Community,
                  Offered(events, Community, sectors), CapStat(0, 0, 0))
  }

  lemma CountersStep(report: Report, row: Row, events: seq<RawEvent>, sectors: SectorMap, limits: Limits)
    requires CountersAgree(report, events, sectors, limits)
    requires Offered(events, News, sectors)(row.ticker) >= |row.newsTexts|
    requires Offered(events, Community, sectors)(row.ticker) >= |row.communityTexts|
    ensures var news := Offered(events, News, sectors)(row.ticker);
      var community := Offered(events, Community, sectors)(row.ticker);
      var next := WithRow(report, row, news, community);
      && CountersAgree(next, events, sectors, limits)
      && next.rows == report.rows + [row] && SameCounts(next, report)
  {
    hide StatsAgree, CountsAgree, RecordCap, BumpScope, Offered, BackstopStat;
    CountsStep(report.newsScopes, report.rows, row, News);
    CountsStep(report.communityScopes, report.rows, row, Community);
    StatsStep(report.newsStats, report.rows, row, News,
              Offered(events, News, sectors), BackstopStat(events, sectors, limits));
    StatsStep(report.communityStats, report.rows, row, Community,
              Offered(events, Community, sectors), CapStat(0, 0, 0));
  }

  predicate SameCounts(a: Report, b: Report) {
    a.eventCount == b.eventCount && a.newsCount == b.newsCount && a.communityCount == b.communityCount
  }

  /** The report with one more row, its caps recorded and its scopes counted. */
  function WithRow(report: Report, row: Row, newsOriginal: nat, communityOriginal: nat): Report {
    report.(
      rows := report.rows + [row],
      newsStats := RecordCap(report.newsStats, row.newsScope, newsOriginal, |row.newsTexts|),
      communityStats := RecordCap(report.communityStats, row.communityScope, communityOriginal, |row.communityTexts|),
      newsScopes := BumpScope(report.newsScopes, row.newsScope),
      communityScopes := BumpScope(report.communityScopes, row.communityScope))
  }

  /** Before the second loop only the market backstop has been capped. */
  function NoRowsYet(tally: Tally, backstop: seq<string>): Report {
    Report([], tally.eventCount, tally.newsCount, tally.communityCount,
           RecordCap(map[], MarketBackstop, |tally.marketNews|, |backstop|), map[], map[], map[])
  }

  lemma NothingPlaced(tally: Tally, events: seq<RawEvent>, sectors: SectorMap, limits: Limits)
    requires tally.marketNews == Texts(events, Market, News, sectors)
    ensures CountersAgree(NoRowsYet(tally, Limited(tally.marketNews, limits.marketBackstop)), events, sectors, limits)
  {
    hide Texts, Offered, StatsAgree, CountsAgree;
    NoRows(|tally.marketNews|, |Limited(tally.marketNews, limits.marketBackstop)|,
           Offered(events, News, sectors), Offered(events, Community, sectors));
  }

  /** The body of the second loop. */
  method BuildRow(tally: Tally, ticker: string, backstop: seq<string>, sectors: SectorMap, limits: Limits,
                  snapshot: Instant, ghost events: seq<RawEvent>)
    returns (row: Row, newsOriginal: nat, communityOriginal: nat)
    requires Agrees(tally, events, sectors)
    requires backstop == Limited(tally.marketNews, limits.marketBackstop)
    ensures row == RowFor(events, ticker, sectors, limits, snapshot) && row.ticker == ticker
    ensures newsOriginal == Offered(events, News, sectors)(ticker) >= |row.newsTexts|
    ensures communityOriginal == Offered(events, Community, sectors)(ticker) >= |row.communityTexts|
  {
    hide Texts, Latest, SectorOf, SectorTextsAgree, SectorLatestAgrees, OriginOf, ScopeTexts, FallbackTs;
    var bucket, sector := BucketAt(tally.grouped, ticker), SectorOf(sectors, ticker);
    var own := InstantAt(tally.latestByTicker, ticker);
    var news, newsScope, newsTs := PickScope(bucket.news, tally.sectorNews, tally.marketNews, sector,
      tally.sectorLatest, tally.marketLatest, events, ticker, News, sectors);
    var community, communityScope, communityTs := PickScope(bucket.community, tally.sectorCommunity,
      tally.marketCommunity, sector, tally.sectorLatest, tally.marketLatest, events, ticker, Community, sectors);
    var newest := LaterOf(LaterOf(own, newsTs), communityTs);
    newsOriginal, communityOriginal := |news|, |community|;
    row := Row(
      ticker,
      Limited(news, CapFor(limits, News, newsScope)),
      Limited(community, CapFor(limits, Community, communityScope)),
      bucket.volume,
      if newest.Some? then newest.value else snapshot,
      newsScope,
      communityScope,
      backstop,
      if tally.marketLatest.Some? then tally.marketLatest.value else snapshot);
  }

  /** The second loop after i tickers: their rows, with counters to match. */
  ghost predicate RowsBuilt(report: Report, i: nat, tally: Tally, universe: seq<string>, sectors: SectorMap,
                            limits: Limits, snapshot: Instant, events: seq<RawEvent>)
  {
    && |report.rows| == i <= |universe| && SameCounts(report, NoRowsYet(tally, []))
    && (forall k :: 0 <= k < i ==> report.rows[k] == RowFor(events, universe[k], sectors, limits, snapshot))
    && CountersAgree(report, events, sectors, limits)
  }

  lemma RowsBuiltStep(report: Report, i: nat, row: Row, tally: Tally, universe: seq<string>, sectors: SectorMap,
                      limits: Limits, snapshot: Instant, events: seq<RawEvent>)
    requires RowsBuilt(report, i, tally, universe, sectors, limits, snapshot, events) && i < |universe|
    requires row == RowFor(events, universe[i], sectors, limits, snapshot) && row.ticker == universe[i]
    requires Offered(events, News, sectors)(row.ticker) >= |row.newsTexts|
    requires Offered(events, Community, sectors)(row.ticker) >= |row.communityTexts|
    ensures var news := Offered(events, News, sectors)(row.ticker);
      var community := Offered(events, Community, sectors)(row.ticker);
      RowsBuilt(WithRow(report, row, news, community), i + 1, tally, universe, sectors, limits, snapshot, events)
  {
    hide CountersAgree, RowFor, WithRow, NoRowsYet, Offered;
    CountersStep(report, row, events, sectors, limits);
  }

  /** The second loop, after the market backstop has been capped. */
  method BuildRows(tally: Tally, universe: seq<string>, sectors: SectorMap, limits: Limits, snapshot: Instant,
                   ghost events: seq<RawEvent>)
    returns (report: Report)
    requires Agrees(tally, events, sectors)
    ensures RowsBuilt(report, |universe|, tally, universe, sectors, limits, snapshot, events)
  {
    var backstop := Limited(tally.marketNews, limits.marketBackstop);
    NothingPlaced(tally, events, sectors, limits);
    report := NoRowsYet(tally, backstop);
    assert RowsBuilt(report, 0, tally, universe, sectors, limits, snapshot, events) by { hide CountersAgree; }
    hide *;
    for i := 0 to |universe|
      invariant RowsBuilt(report, i, tally, universe, sectors, limits, snapshot, events)
    {
      var row, newsOriginal, communityOriginal :=
        BuildRow(tally, universe[i], backstop, sectors, limits, snapshot, events);
      RowsBuiltStep(report, i, row, tally, universe, sectors, limits, snapshot, events);
      report := WithRow(report, row, newsOriginal, communityOriginal);
    }
  }

  /** `_payload_rows_from_events`: the rows the filters prescribe, or the first complaint. */
  method PayloadRowsFromEvents(events: seq<RawEvent>, universe: seq<string>, sectors: SectorMap,
                               limits: Limits, snapshot: Instant)
    returns (out: Outcome)
    ensures out.Built? <==> Clean(events, snapshot)
    ensures out.Rejected? ==>
      && out.index < |events| && Clean(events[..out.index], snapshot)
      && Complaint(events[out.index], snapshot) == Some(out.why)
    ensures out.Built? ==>
      && |out.report.rows| == |universe|
      && forall i :: 0 <= i < |universe| ==>
           out.report.rows[i] == RowFor(events, universe[i], sectors, limits, snapshot)
    ensures out.Built? ==>
      && out.report.newsCount == |Texts(events, Market, News, sectors)|
      && out.report.communityCount == |Texts(events, Market, Community, sectors)|
      && out.report.eventCount == out.report.newsCount + out.report.communityCount
    ensures out.Built? ==> CountersAgree(out.report, events, sectors, limits)
  {
    var tally, failure := TallyEvents(events, sectors, snapshot);
    if failure.Some? { return Rejected(failure.value.0, failure.value.1); }
    var report := BuildRows(tally, universe, sectors, limits, snapshot, events);
    out := Built(report);
  }

  // ----- what the rows promise

  /** A row is left without a scope iff the whole payload has no text of the channel. */
  lemma NoScopeIffNoText(events: seq<RawEvent>, ticker: string, ch: Channel, sectors: SectorMap)
    ensures OriginOf(events, ticker, ch, sectors) == NoScope <==> Texts(events, Market, ch, sectors) == []
  {
    MarketHoldsAll(events, Ticker(ticker), ch, sectors);
    if SectorOf(sectors, ticker).Some? {
      MarketHoldsAll(events, Sector(SectorOf(sectors, ticker).value), ch, sectors);
    }
  }

  lemma {:induction false} MarketHoldsAll(events: seq<RawEvent>, scope: Scope, ch: Channel, sectors: SectorMap)
    ensures |Texts(events, scope, ch, sectors)| <= |Texts(events, Market, ch, sectors)|
  {
    if |events| > 0 {
      hide Accepted, ChannelOf, InScope;
      MarketHoldsAll(events[..|events| - 1], scope, ch, sectors);
      MarketContributes(events[|events| - 1], scope, ch, sectors);
    }
  }

  lemma MarketContributes(raw: RawEvent, scope: Scope, ch: Channel, sectors: SectorMap)
    ensures Contributes(raw, scope, ch, sectors) ==> Contributes(raw, Market, ch, sectors)
  {
  }

  /** Whenever a scope is used it is non-empty, and every more specific scope is empty. */
  lemma MostSpecificScope(events: seq<RawEvent>, ticker: string, ch: Channel, sectors: SectorMap, scope: Scope)
    requires ScopeUsed(OriginOf(events, ticker, ch, sectors), ticker, sectors) == Some(scope)
    ensures InScope(ticker, scope, sectors) && Texts(events, scope, ch, sectors) != []
    ensures !scope.Ticker? ==> Texts(events, Ticker(ticker), ch, sectors) == []
    ensures scope.Market? && SectorOf(sectors, ticker).Some? ==>
      Texts(events, Sector(SectorOf(sectors, ticker).value), ch, sectors) == []
  {
  }

  /** kept are the first texts of all, up to the cap; a cap of zero keeps everything. */
  ghost predicate KeepsFirst(kept: seq<string>, all: seq<string>, cap: nat) {
    kept <= all && |kept| == if cap == 0 then |all| else Min(cap, |all|)
  }

  /** Which scope each channel of a row uses and which of its texts are kept. */
  lemma RowTextsAre(events: seq<RawEvent>, ticker: string, sectors: SectorMap, limits: Limits, snapshot: Instant)
    ensures var row, sector := RowFor(events, ticker, sectors, limits, snapshot), SectorOf(sectors, ticker);
      var own := Texts(events, Ticker(ticker), News, sectors);
      var peers := if sector.Some? then Texts(events, Sector(sector.value), News, sectors) else [];
      var market := Texts(events, Market, News, sectors);
      && row.ticker == ticker
      && (own != [] ==> row.newsScope == OwnTicker && KeepsFirst(row.newsTexts, own, limits.newsPerTicker))
      && (own == [] && peers != [] ==>
            row.newsScope == SectorFallback && KeepsFirst(row.newsTexts, peers, limits.newsPerFallback))
      && (own == [] && peers == [] && market != [] ==>
            row.newsScope == MarketFallback && KeepsFirst(row.newsTexts, market, limits.newsPerFallback))
      && (own == [] && peers == [] && market == [] ==> row.newsScope == NoScope && row.newsTexts == [])
      && KeepsFirst(row.marketNewsTexts, market, limits.marketBackstop)
    ensures var row, sector := RowFor(events, ticker, sectors, limits, snapshot), SectorOf(sectors, ticker);
      var own := Texts(events, Ticker(ticker), Community, sectors);
      var peers := if sector.Some? then Texts(events, Sector(sector.value), Community, sectors) else [];
      var market := Texts(events, Market, Community, sectors);
      var cap := if limits.communityPerTicker == 0 then limits.communityFallback else limits.communityPerTicker;
      && (own != [] ==> row.communityScope == OwnTicker && KeepsFirst(row.communityTexts, own, cap))
      && (own == [] && peers != [] ==>
            row.communityScope == SectorFallback && KeepsFirst(row.communityTexts, peers, cap))
      && (own == [] && peers == [] && market != [] ==>
            row.communityScope == MarketFallback && KeepsFirst(row.communityTexts, market, cap))
      && (own == [] && peers == [] && market == [] ==> row.communityScope == NoScope && row.communityTexts == [])
      && row.volume == |own|
  {
    hide Texts, Latest, DataTs, SectorOf;
  }

  /** An accepted, dated event of the ticker itself or of a fallback scope one of its channels uses. */
  predicate DatesRow(raw: RawEvent, row: Row, sectors: SectorMap) {
    && Accepted(raw) && EventStamp(raw.event).At?
    && (|| raw.event.ticker == row.ticker
        || (SectorFallback in {row.newsScope, row.communityScope} && SamePeers(sectors, raw.event.ticker, row.ticker))
        || MarketFallback in {row.newsScope, row.communityScope})
  }

  predicate SamePeers(sectors: SectorMap, a: string, b: string) {
    a in sectors && b in sectors && sectors[a] == sectors[b] != ""
  }

  predicate DatedAt(raw: RawEvent, t: Instant) { raw.Object? && EventStamp(raw.event) == At(t) }

  ghost predicate IsNewest(events: seq<RawEvent>, concerns: RawEvent -> bool, t: Instant) {
    && (exists i :: 0 <= i < |events| && concerns(events[i]) && DatedAt(events[i], t))
    && (forall i, u :: 0 <= i < |events| && concerns(events[i]) && DatedAt(events[i], u) ==> u <= t)
  }

  function RowDater(row: Row, sectors: SectorMap): RawEvent -> bool { (raw: RawEvent) => DatesRow(raw, row, sectors) }

  function ScopeDater(scope: Scope, sectors: SectorMap): RawEvent -> bool {
    (raw: RawEvent) => Accepted(raw) && EventStamp(raw.event).At? && InScope(raw.event.ticker, scope, sectors)
  }

  /** A scope's newest timestamp is that of one of its events, and there is none iff the scope has no dated event. */
  lemma {:induction false} LatestIsNewest(events: seq<RawEvent>, scope: Scope, sectors: SectorMap)
    ensures match Latest(events, scope, sectors)
      case Some(t) => IsNewest(events, ScopeDater(scope, sectors), t)
      case None => forall i :: 0 <= i < |events| ==> !ScopeDater(scope, sectors)(events[i])
  {
    if |events| > 0 {
      var n := |events| - 1;
      var init := events[..n];
      LatestIsNewest(init, scope, sectors);
      hide Accepted, InScope, EventStamp;
      assert forall i :: 0 <= i < n ==> events[i] == init[i];
      if Latest(init, scope, sectors).Some? {
        var t := Latest(init, scope, sectors).value;
        var i :| 0 <= i < n && ScopeDater(scope, sectors)(init[i]) && DatedAt(init[i], t);
        assert events[i] == init[i];
      }
    }
  }

  /** A row's timestamp is the newest of the events that date it, and the snapshot when there is none. */
  lemma RowTimestampIsNewest(events: seq<RawEvent>, ticker: string, sectors: SectorMap, limits: Limits,
                             snapshot: Instant)
    ensures var row := RowFor(events, ticker, sectors, limits, snapshot);
      if exists i :: 0 <= i < |events| && DatesRow(events[i], row, sectors)
      then IsNewest(events, RowDater(row, sectors), row.dataTs) else row.dataTs == snapshot
  {
    hide Texts, Latest, Accepted, EventStamp;
    LatestIsNewest(events, Ticker(ticker), sectors);
    LatestIsNewest(events, Market, sectors);
    if SectorOf(sectors, ticker).Some? { LatestIsNewest(events, Sector(SectorOf(sectors, ticker).value), sectors); }
  }

  lemma MarketTimestampIsNewest(events: seq<RawEvent>, ticker: string, sectors: SectorMap, limits: Limits,
                                snapshot: Instant)
    ensures var row := RowFor(events, ticker, sectors, limits, snapshot);
      if exists i :: 0 <= i < |events| && ScopeDater(Market, sectors)(events[i])
      then IsNewest(events, ScopeDater(Market, sectors), row.marketNewsDataTs) else row.marketNewsDataTs == snapshot
  {
    hide Texts, Latest, OriginOf, DataTs, IsNewest, Accepted, EventStamp;
    LatestIsNewest(events, Market, sectors);
    if Latest(events, Market, sectors).Some? {
      NewestExists(events, ScopeDater(Market, sectors), Latest(events, Market, sectors).value);
    }
  }

  lemma NewestExists(events: seq<RawEvent>, concerns: RawEvent -> bool, t: Instant)
    requires IsNewest(events, concerns, t)
    ensures exists i :: 0 <= i < |events| && concerns(events[i])
  {
  }

  /** The timestamp of an accepted event is at most the newest of any scope it is in. */
  lemma {:induction false} LatestBounds(events: seq<RawEvent>, scope: Scope, sectors: SectorMap, i: nat)
    requires i < |events| && Accepted(events[i]) && InScope(events[i].event.ticker, scope, sectors)
    requires EventStamp(events[i].event).At?
    ensures Latest(events, scope, sectors).Some?
    ensures EventStamp(events[i].event).t <= Latest(events, scope, sectors).value
  {
    if i < |events| - 1 { LatestBounds(events[..|events| - 1], scope, sectors, i); }
  }

  lemma {:induction false} LatestNotAfterSnapshot(events: seq<RawEvent>, scope: Scope, sectors: SectorMap,
                                                  snapshot: Instant)
    requires Clean(events, snapshot)
    ensures Latest(events, scope, sectors).Some? ==> Latest(events, scope, sectors).value <= snapshot
  {
    if |events| > 0 {
      var init, last := events[..|events| - 1], events[|events| - 1];
      assert Clean(init, snapshot) && Complaint(last, snapshot) == None;
      LatestNotAfterSnapshot(init, scope, sectors, snapshot);
    }
  }

  /** Every event whose text may appear in a row is no newer than the row's data timestamp. */
  lemma RowCoversItsTexts(events: seq<RawEvent>, ticker: string, sectors: SectorMap, limits: Limits, snapshot: Instant,
                          ch: Channel, i: nat)
    requires Clean(events, snapshot) && i < |events|
    requires var used := ScopeUsed(OriginOf(events, ticker, ch, sectors), ticker, sectors);
      used.Some? && Contributes(events[i], used.value, ch, sectors)
    ensures EventStamp(events[i].event).At?
    ensures EventStamp(events[i].event).t <= RowFor(events, ticker, sectors, limits, snapshot).dataTs
  {
    hide Texts, Latest;
    var used := ScopeUsed(OriginOf(events, ticker, ch, sectors), ticker, sectors).value;
    assert Complaint(events[i], snapshot) == None;
    LatestBounds(events, used, sectors, i);
  }

  /** No row is dated after the snapshot. */
  lemma RowNotAfterSnapshot(events: seq<RawEvent>, ticker: string, sectors: SectorMap, limits: Limits,
                            snapshot: Instant)
    requires Clean(events, snapshot)
    ensures RowFor(events, ticker, sectors, limits, snapshot).dataTs <= snapshot
    ensures RowFor(events, ticker, sectors, limits, snapshot).marketNewsDataTs <= snapshot
  {
    hide Texts, Latest;
    LatestNotAfterSnapshot(events, Ticker(ticker), sectors, snapshot);
    LatestNotAfterSnapshot(events, Market, sectors, snapshot);
    if SectorOf(sectors, ticker).Some? {
      LatestNotAfterSnapshot(events, Sector(SectorOf(sectors, ticker).value), sectors, snapshot);
    }
  }

  function TotalPlaced(rows: seq<Row>, ch: Channel): nat {
    if |rows| == 0 then 0 else TotalPlaced(rows[..|rows| - 1], ch) + |RowTexts(rows[|rows| - 1], ch)|
  }

  /** The four row scopes account for the whole universe, and for every text placed. */
  lemma {:induction false} ScopesPartitionRows(rows: seq<Row>, ch: Channel)
    requires forall i :: 0 <= i < |rows| ==> RowOrigin(rows[i], ch) != MarketBackstop
    ensures RowsAt(rows, ch, OwnTicker) + RowsAt(rows, ch, SectorFallback) + RowsAt(rows, ch, MarketFallback)
          + RowsAt(rows, ch, NoScope) == |rows|
    ensures PlacedAt(rows, ch, OwnTicker) + PlacedAt(rows, ch, SectorFallback) + PlacedAt(rows, ch, MarketFallback)
          + PlacedAt(rows, ch, NoScope) == TotalPlaced(rows, ch)
  {
    if |rows| > 0 { ScopesPartitionRows(rows[..|rows| - 1], ch); }
  }

  /** What one channel's counters add up to: the universe, and the texts placed in its rows. */
  lemma CountersAddUp(counts: ScopeCounts, stats: CapStats, rows: seq<Row>, ch: Channel, offered: string -> nat,
                      backstop: CapStat)
    requires CountsAgree(counts, rows, ch) && StatsAgree(stats, rows, ch, offered, backstop)
    requires forall i :: 0 <= i < |rows| ==> RowOrigin(rows[i], ch) != MarketBackstop
    ensures CountAt(counts, OwnTicker) + CountAt(counts, SectorFallback) + CountAt(counts, MarketFallback)
          + CountAt(counts, NoScope) == |rows|
    ensures StatAt(stats, OwnTicker).kept + StatAt(stats, SectorFallback).kept + StatAt(stats, MarketFallback).kept
          + StatAt(stats, NoScope).kept == TotalPlaced(rows, ch)
  {
    ScopesPartitionRows(rows, ch);
    hide RowsAt, PlacedAt, OfferedAt, TotalPlaced, CountAt, StatAt;
    assert StatAgrees(stats, rows, ch, offered, backstop, OwnTicker);
    assert StatAgrees(stats, rows, ch, offered, backstop, SectorFallback);
    assert StatAgrees(stats, rows, ch, offered, backstop, MarketFallback);
    assert StatAgrees(stats, rows, ch, offered, backstop, NoScope);
  }

  /** Hence every report's scope counts sum to the universe and its kept texts are the texts placed. */
  lemma ReportAddsUp(report: Report, events: seq<RawEvent>, universe: seq<string>, sectors: SectorMap, limits: Limits,
                     snapshot: Instant)
    requires CountersAgree(report, events, sectors, limits) && |report.rows| == |universe|
    requires forall i :: 0 <= i < |universe| ==>
      report.rows[i] == RowFor(events, universe[i], sectors, limits, snapshot)
    ensures CountAt(report.newsScopes, OwnTicker) + CountAt(report.newsScopes, SectorFallback)
          + CountAt(report.newsScopes, MarketFallback) + CountAt(report.newsScopes, NoScope) == |universe|
    ensures CountAt(report.communityScopes, OwnTicker) + CountAt(report.communityScopes, SectorFallback)
          + CountAt(report.communityScopes, MarketFallback) + CountAt(report.communityScopes, NoScope) == |universe|
    ensures StatAt(report.newsStats, OwnTicker).kept + StatAt(report.newsStats, SectorFallback).kept
          + StatAt(report.newsStats, MarketFallback).kept + StatAt(report.newsStats, NoScope).kept
          == TotalPlaced(report.rows, News)
    ensures StatAt(report.communityStats, OwnTicker).kept + StatAt(report.communityStats, SectorFallback).kept
          + StatAt(report.communityStats, MarketFallback).kept + StatAt(report.communityStats, NoScope).kept
          == TotalPlaced(report.rows, Community)
  {
    hide Texts, Latest, CountsAgree, StatsAgree, CountAt, StatAt, TotalPlaced, DataTs;
    CountersAddUp(report.newsScopes, report.newsStats, report.rows, News,
                  Offered(events, News, sectors), BackstopStat(events, sectors, limits));
    CountersAddUp(report.communityScopes, report.communityStats, report.rows, Community,
                  Offered(events, Community, sectors), CapStat(0, 0, 0));
  }
}
