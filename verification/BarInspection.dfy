/**
 Timestamp integrity of one saved bar file (live_data_readiness.py, _inspect_bar_file):
 classification of the gaps between sorted timestamps, and what passing the checks implies.
 Times are in seconds; minutes and clock times of the source are multiples of 60.
 */
module BarInspection {
  import opened Common
  import opened TradingCalendar

  type Seconds = int

  const MARKET_CLOSE := 15 * 3600 + 30 * 60
  const AUCTION_START := 15 * 3600 + 20 * 60
  const AUCTION_FLOOR := AUCTION_START - 5 * 60

  /** A known market halt of the file's date, in clock seconds. */
  datatype Halt = Halt(start: int, end: int)

  /** Thresholds in seconds. */
  datatype Config = Config(allowClosingGap: bool, maxClosingGap: int, halts: seq<Halt>, minSpan: int, maxGap: int)

  datatype GapClass = ClosingAuction | MarketHalt | Unexpected | Quiet

  predicate IsClosingGap(cfg: Config, left: Seconds, right: Seconds) {
    && cfg.allowClosingGap
    && DateOf(left) == DateOf(right)
    && AUCTION_FLOOR <= TimeOf(left) < AUCTION_START
    && TimeOf(right) == MARKET_CLOSE
    && right - left <= cfg.maxClosingGap
  }

  /** The missing minutes between two bars lie inside one known halt. */
  predicate IsHaltGap(halts: seq<Halt>, left: Seconds, right: Seconds) {
    var missingStart, missingEnd := left + 60, right - 60;
    && missingStart <= missingEnd
    && exists i :: 0 <= i < |halts| && halts[i].start <= TimeOf(missingStart) && TimeOf(missingEnd) <= halts[i].end
  }

  function Classify(cfg: Config, left: Seconds, right: Seconds): GapClass {
    if IsClosingGap(cfg, left, right) then ClosingAuction
    else if IsHaltGap(cfg.halts, left, right) then MarketHalt
    else if right - left > 60 then Unexpected
    else Quiet
  }

  /** Inside one date: a halt gap misses at least a minute, and all it misses lies in one known halt. */
  lemma HaltGapMeans(halts: seq<Halt>, left: Seconds, right: Seconds)
    requires DateOf(left) == DateOf(right)
    ensures IsHaltGap(halts, left, right) <==>
      && right - left >= 120
      && exists i :: 0 <= i < |halts| && Covers(halts[i], left + 60, right - 60)
  {
    if right - left >= 120 {
      SameDayOrder(left, right);
      if i :| 0 <= i < |halts| && Covers(halts[i], left + 60, right - 60) {
        assert halts[i].start <= (left + 60) % 86400 && (right - 60) % 86400 <= halts[i].end;
      }
    }
  }

  /** Every second from a to b has a clock time inside the halt. */
  ghost predicate Covers(halt: Halt, a: Seconds, b: Seconds) {
    forall t :: a <= t <= b ==> halt.start <= t % 86400 <= halt.end
  }

  lemma SameDayOrder(left: Seconds, right: Seconds)
    requires DateOf(left) == DateOf(right)
    ensures forall t :: left <= t <= right ==> t % 86400 == left % 86400 + (t - left)
  {
  }

  /** A closing-auction gap ends at 15:30 and starts in the five minutes before 15:20. */
  lemma ClosingGapMeans(cfg: Config, left: Seconds, right: Seconds)
    ensures IsClosingGap(cfg, left, right) <==>
      && cfg.allowClosingGap && right - left <= cfg.maxClosingGap
      && exists d :: d * 86400 + (15 * 60 + 15) * 60 <= left < d * 86400 + (15 * 60 + 20) * 60
           && right == d * 86400 + (15 * 60 + 30) * 60
  {
    var d := DateOf(left);
    if IsClosingGap(cfg, left, right) {
      assert d * 86400 + (15 * 60 + 15) * 60 <= left < d * 86400 + (15 * 60 + 20) * 60;
    }
  }

  /** A known pattern excuses a gap first; what is left is unexpected when longer than a minute. */
  lemma ClassIs(cfg: Config, left: Seconds, right: Seconds)
    ensures var c := Classify(cfg, left, right);
      && (c == ClosingAuction <==> IsClosingGap(cfg, left, right))
      && (c == MarketHalt <==> IsHaltGap(cfg.halts, left, right) && !IsClosingGap(cfg, left, right))
      && (c in {Unexpected, Quiet} ==> (c == Unexpected <==> right - left > 60))
  {
  }

  ghost predicate Sorted(ts: seq<Seconds>) {
    forall i, j :: 0 <= i < j < |ts| ==> ts[i] <= ts[j]
  }

  // ----- the loop over adjacent pairs

  function CountClass(cfg: Config, ts: seq<Seconds>, c: GapClass): nat {
    if |ts| <= 1 then 0
    else CountClass(cfg, ts[..|ts| - 1], c) + (if Classify(cfg, ts[|ts| - 2], ts[|ts| - 1]) == c then 1 else 0)
  }

  function SumClass(cfg: Config, ts: seq<Seconds>, c: GapClass): int {
    if |ts| <= 1 then 0
    else
      SumClass(cfg, ts[..|ts| - 1], c)
      + (if Classify(cfg, ts[|ts| - 2], ts[|ts| - 1]) == c then ts[|ts| - 1] - ts[|ts| - 2] else 0)
  }

  /** The gaps that no rule explains, in order. */
  function UnexpectedGaps(cfg: Config, ts: seq<Seconds>): seq<int> {
    if |ts| <= 1 then []
    else
      UnexpectedGaps(cfg, ts[..|ts| - 1])
      + (if Classify(cfg, ts[|ts| - 2], ts[|ts| - 1]) == Unexpected then [ts[|ts| - 1] - ts[|ts| - 2]] else [])
  }

  datatype Gaps = Gaps(all: seq<int>, unexpected: seq<int>, closing: nat, halt: nat)

  method ClassifyGaps(cfg: Config, ts: seq<Seconds>) returns (g: Gaps)
    ensures |g.all| == Max(0, |ts| - 1) && forall i :: 0 <= i < |g.all| ==> g.all[i] == ts[i + 1] - ts[i]
    ensures g.closing == CountClass(cfg, ts, ClosingAuction) && g.halt == CountClass(cfg, ts, MarketHalt)
    ensures g.unexpected == UnexpectedGaps(cfg, ts)
  {
    var all: seq<int>, unexpected: seq<int>, closing: nat, halt: nat := [], [], 0, 0;
    if |ts| == 0 { return Gaps(all, unexpected, closing, halt); }
    for i := 0 to |ts| - 1
      invariant |all| == i && forall k :: 0 <= k < i ==> all[k] == ts[k + 1] - ts[k]
      invariant closing == CountClass(cfg, ts[..i + 1], ClosingAuction)
      invariant halt == CountClass(cfg, ts[..i + 1], MarketHalt)
      invariant unexpected == UnexpectedGaps(cfg, ts[..i + 1])
    {
      var left, right := ts[i], ts[i + 1];
      ClassStep(cfg, ts, i, ClosingAuction);
      ClassStep(cfg, ts, i, MarketHalt);
      hide Classify, CountClass, UnexpectedGaps;
      all := all + [right - left];
      match Classify(cfg, left, right) {
        case ClosingAuction => closing := closing + 1;
        case MarketHalt => halt := halt + 1;
        case Unexpected => unexpected := unexpected + [right - left];
        case Quiet =>
      }
    }
    assert ts[..|ts|] == ts;
    g := Gaps(all, unexpected, closing, halt);
  }

  lemma ClassStep(cfg: Config, ts: seq<Seconds>, i: nat, c: GapClass)
    requires i < |ts| - 1
    ensures CountClass(cfg, ts[..i + 2], c)
         == CountClass(cfg, ts[..i + 1], c) + (if Classify(cfg, ts[i], ts[i + 1]) == c then 1 else 0)
    ensures UnexpectedGaps(cfg, ts[..i + 2]) == UnexpectedGaps(cfg, ts[..i + 1])
         + (if Classify(cfg, ts[i], ts[i + 1]) == Unexpected then [ts[i + 1] - ts[i]] else [])
  {
    assert ts[..i + 2][..i + 1] == ts[..i + 1];
    hide Classify;
  }

  function GapAt(ts: seq<Seconds>): nat -> int { (i: nat) => if i + 1 < |ts| then ts[i + 1] - ts[i] else 0 }

  function GapIs(cfg: Config, ts: seq<Seconds>, c: GapClass): nat -> bool {
    (i: nat) => i + 1 < |ts| && Classify(cfg, ts[i], ts[i + 1]) == c
  }

  function PairNumbers(ts: seq<Seconds>): seq<nat> {
    seq(Max(0, |ts| - 1), i requires 0 <= i < |ts| - 1 => i)
  }

  /** Counts are numbers of adjacent pairs of a class, and the unexpected gaps are those of that class, in order. */
  lemma ClassesAre(cfg: Config, ts: seq<Seconds>, c: GapClass)
    ensures CountClass(cfg, ts, c) == |Indices(PairNumbers(ts), GapIs(cfg, ts, c))|
    ensures Picks(PairNumbers(ts), GapIs(cfg, ts, Unexpected), GapAt(ts), UnexpectedGaps(cfg, ts))
  {
    if |ts| > 0 {
      ClassesUpTo(cfg, ts, c, |ts| - 1);
      assert ts[..|ts|] == ts && PairNumbers(ts)[..|ts| - 1] == PairNumbers(ts);
    } else {
      PicksNone(GapIs(cfg, ts, Unexpected), GapAt(ts));
      assert PairNumbers(ts) == [] && Indices(PairNumbers(ts), GapIs(cfg, ts, c)) == {};
    }
  }

  lemma {:induction false} ClassesUpTo(cfg: Config, ts: seq<Seconds>, c: GapClass, n: nat)
    requires n < |ts|
    ensures CountClass(cfg, ts[..n + 1], c) == |Indices(PairNumbers(ts)[..n], GapIs(cfg, ts, c))|
    ensures Picks(PairNumbers(ts)[..n], GapIs(cfg, ts, Unexpected), GapAt(ts), UnexpectedGaps(cfg, ts[..n + 1]))
  {
    hide Classify, Picks;
    var pairs := PairNumbers(ts);
    if n == 0 {
      PicksNone(GapIs(cfg, ts, Unexpected), GapAt(ts));
      assert pairs[..0] == [] && Indices(pairs[..0], GapIs(cfg, ts, c)) == {};
    } else {
      ClassesUpTo(cfg, ts, c, n - 1);
      ClassStep(cfg, ts, n - 1, c);
      hide CountClass, UnexpectedGaps, Indices;
      assert pairs[..n] == pairs[..n - 1] + [n - 1];
      IndicesStep<nat>(pairs[..n - 1], n - 1, GapIs(cfg, ts, c));
      PicksStep<nat, int>(pairs[..n - 1], n - 1, GapIs(cfg, ts, Unexpected), GapAt(ts), UnexpectedGaps(cfg, ts[..n]));
      assert UnexpectedGaps(cfg, ts[..n]) + [] == UnexpectedGaps(cfg, ts[..n]);
    }
  }

  function MaxOf(xs: seq<int>): int
    requires |xs| > 0
  {
    if |xs| == 1 then xs[0] else Max(MaxOf(xs[..|xs| - 1]), xs[|xs| - 1])
  }

  /** The longest unexpected gap, zero when there is none. */
  function UnexpectedMax(cfg: Config, ts: seq<Seconds>): int {
    var gaps := UnexpectedGaps(cfg, ts);
    if |gaps| == 0 then 0 else MaxOf(gaps)
  }

  /** Its bound is a bound on every adjacent pair that is classified unexpected. */
  lemma {:induction false} UnexpectedMaxBounds(cfg: Config, ts: seq<Seconds>)
    ensures UnexpectedMax(cfg, ts) <= cfg.maxGap <==> cfg.maxGap >= 0 && GapsOk(cfg, ts)
    ensures UnexpectedMax(cfg, ts) >= 0
  {
    if |ts| > 1 {
      var init, gap := ts[..|ts| - 1], ts[|ts| - 1] - ts[|ts| - 2];
      UnexpectedMaxBounds(cfg, init);
      GapsOkStep(cfg, ts);
      var rest := UnexpectedGaps(cfg, init);
      assert Classify(cfg, ts[|ts| - 2], ts[|ts| - 1]) == Unexpected ==> gap > 60;
      hide Classify, GapsOk;
      if Classify(cfg, ts[|ts| - 2], ts[|ts| - 1]) == Unexpected {
        assert UnexpectedGaps(cfg, ts) == rest + [gap] && (rest + [gap])[..|rest|] == rest;
      } else {
        assert UnexpectedGaps(cfg, ts) == rest;
      }
    }
  }

  lemma GapsOkStep(cfg: Config, ts: seq<Seconds>)
    requires |ts| > 1
    ensures GapsOk(cfg, ts) <==>
      && GapsOk(cfg, ts[..|ts| - 1])
      && (Classify(cfg, ts[|ts| - 2], ts[|ts| - 1]) == Unexpected ==> ts[|ts| - 1] - ts[|ts| - 2] <= cfg.maxGap)
  {
    var init := ts[..|ts| - 1];
    hide Classify;
    if GapsOk(cfg, ts) {
      forall i | 0 <= i < |init| - 1 && Classify(cfg, init[i], init[i + 1]) == Unexpected
        ensures init[i + 1] - init[i] <= cfg.maxGap
      {
        assert ts[i] == init[i] && ts[i + 1] == init[i + 1];
      }
    }
    if GapsOk(cfg, init) {
      forall i | 0 <= i < |ts| - 2 && Classify(cfg, ts[i], ts[i + 1]) == Unexpected
        ensures ts[i + 1] - ts[i] <= cfg.maxGap
      {
        assert ts[i] == init[i] && ts[i + 1] == init[i + 1];
      }
    }
  }

  /** A class's sum grows by the gaps of that class. */
  lemma SumClassGrows(cfg: Config, ts: seq<Seconds>, t: Seconds, c: GapClass)
    ensures SumClass(cfg, [], c) == 0
    ensures SumClass(cfg, ts + [t], c) == SumClass(cfg, ts, c)
         + (if |ts| > 0 && Classify(cfg, ts[|ts| - 1], t) == c then t - ts[|ts| - 1] else 0)
  {
    hide Classify;
    assert (ts + [t])[..|ts|] == ts;
  }

  /** Every gap is in exactly one class, and the gaps add up to the session span. */
  lemma {:induction false} GapsPartition(cfg: Config, ts: seq<Seconds>)
    requires |ts| > 0
    ensures CountClass(cfg, ts, ClosingAuction) + CountClass(cfg, ts, MarketHalt)
          + CountClass(cfg, ts, Unexpected) + CountClass(cfg, ts, Quiet) == |ts| - 1
    ensures SumClass(cfg, ts, ClosingAuction) + SumClass(cfg, ts, MarketHalt)
          + SumClass(cfg, ts, Unexpected) + SumClass(cfg, ts, Quiet) == ts[|ts| - 1] - ts[0]
  {
    if |ts| > 1 {
      hide Classify;
      GapsPartition(cfg, ts[..|ts| - 1]);
    }
  }

  ghost predicate OneDate(ts: seq<Seconds>, d: int) {
    forall i :: 0 <= i < |ts| ==> DateOf(ts[i]) == d
  }

  /** A file of one date has at most one closing-auction gap. */
  lemma {:induction false} AtMostOneClosingGap(cfg: Config, ts: seq<Seconds>, d: int)
    requires Sorted(ts) && OneDate(ts, d)
    ensures CountClass(cfg, ts, ClosingAuction) <= 1
    ensures CountClass(cfg, ts, ClosingAuction) == 1 ==> |ts| > 0 && TimeOf(ts[|ts| - 1]) >= MARKET_CLOSE
  {
    if |ts| > 1 {
      var init := ts[..|ts| - 1];
      AtMostOneClosingGap(cfg, init, d);
      var left, right := ts[|ts| - 2], ts[|ts| - 1];
      assert left == init[|init| - 1] && left <= right && DateOf(left) == DateOf(right);
      assert TimeOf(left) <= TimeOf(right);
      hide IsHaltGap;
    }
  }

  // ----- passing the span and gap checks

  /** No unexpected gap exceeds the threshold. */
  ghost predicate GapsOk(cfg: Config, ts: seq<Seconds>) {
    forall i :: 0 <= i < |ts| - 1 && Classify(cfg, ts[i], ts[i + 1]) == Unexpected ==> ts[i + 1] - ts[i] <= cfg.maxGap
  }

  /** Time that the bars themselves must account for is at most one allowed gap per bar. */
  lemma {:induction false} OrdinaryGapsBounded(cfg: Config, ts: seq<Seconds>)
    requires GapsOk(cfg, ts) && Sorted(ts)
    ensures SumClass(cfg, ts, Unexpected) + SumClass(cfg, ts, Quiet)
         <= (CountClass(cfg, ts, Unexpected) + CountClass(cfg, ts, Quiet)) * Max(60, cfg.maxGap)
  {
    if |ts| > 1 {
      var init, g := ts[..|ts| - 1], Max(60, cfg.maxGap);
      var left, right := ts[|ts| - 2], ts[|ts| - 1];
      GapsOkStep(cfg, ts);
      OrdinaryGapsBounded(cfg, init);
      assert Classify(cfg, left, right) == Quiet ==> right - left <= 60;
      hide Classify, GapsOk;
      var n := CountClass(cfg, init, Unexpected) + CountClass(cfg, init, Quiet);
      assert (n + 1) * g == n * g + g;
    }
  }

  /** A file that passes the span and gap checks has enough bars for its session. */
  lemma PassingFileIsDense(cfg: Config, ts: seq<Seconds>, d: int)
    requires |ts| > 0 && Sorted(ts) && OneDate(ts, d)
    requires ts[|ts| - 1] - ts[0] >= cfg.minSpan && GapsOk(cfg, ts)
    ensures (|ts| - 1 - CountClass(cfg, ts, ClosingAuction) - CountClass(cfg, ts, MarketHalt)) * Max(60, cfg.maxGap)
         + Max(0, cfg.maxClosingGap) + SumClass(cfg, ts, MarketHalt) >= cfg.minSpan
  {
    GapsPartition(cfg, ts);
    OrdinaryGapsBounded(cfg, ts);
    ClosingSumBounded(cfg, ts);
    AtMostOneClosingGap(cfg, ts, d);
    hide CountClass, SumClass, GapsOk, Sorted, OneDate;
  }

  lemma {:induction false} ClosingSumBounded(cfg: Config, ts: seq<Seconds>)
    ensures CountClass(cfg, ts, ClosingAuction) == 0 ==> SumClass(cfg, ts, ClosingAuction) == 0
    ensures CountClass(cfg, ts, ClosingAuction) == 1 ==> SumClass(cfg, ts, ClosingAuction) <= cfg.maxClosingGap
  {
    if |ts| > 1 {
      hide IsHaltGap;
      ClosingSumBounded(cfg, ts[..|ts| - 1]);
    }
  }

  // ----- the whole inspection

  /** Python's sorted(), as an insertion sort. */
  function SortTimes(ts: seq<Seconds>): seq<Seconds> {
    if |ts| == 0 then [] else Insert(SortTimes(ts[..|ts| - 1]), ts[|ts| - 1])
  }

  function Insert(ts: seq<Seconds>, t: Seconds): seq<Seconds> {
    if |ts| > 0 && ts[|ts| - 1] > t then Insert(ts[..|ts| - 1], t) + [ts[|ts| - 1]] else ts + [t]
  }

  lemma {:induction false} InsertKeeps(ts: seq<Seconds>, t: Seconds)
    ensures multiset(Insert(ts, t)) == multiset(ts) + multiset{t}
  {
    if |ts| > 0 && ts[|ts| - 1] > t {
      InsertKeeps(ts[..|ts| - 1], t);
      assert ts == ts[..|ts| - 1] + [ts[|ts| - 1]];
    }
  }

  lemma {:induction false} InsertSorts(ts: seq<Seconds>, t: Seconds)
    requires Sorted(ts)
    ensures Sorted(Insert(ts, t))
  {
    if |ts| > 0 && ts[|ts| - 1] > t {
      var init, last := ts[..|ts| - 1], ts[|ts| - 1];
      InsertSorts(init, t);
      InsertKeeps(init, t);
      var rest := Insert(init, t);
      assert Insert(ts, t) == rest + [last];
      hide Insert;
      forall i | 0 <= i < |rest| ensures rest[i] <= last {
        assert rest[i] in multiset(rest);
        assert rest[i] == t || rest[i] in init;
      }
    }
  }

  lemma {:induction false} SortTimesSorts(ts: seq<Seconds>)
    ensures Sorted(SortTimes(ts)) && multiset(SortTimes(ts)) == multiset(ts) && |SortTimes(ts)| == |ts|
  {
    hide Insert, Sorted;
    if |ts| > 0 {
      var init, last := ts[..|ts| - 1], ts[|ts| - 1];
      SortTimesSorts(init);
      InsertSorts(SortTimes(init), last);
      InsertKeeps(SortTimes(init), last);
      assert SortTimes(ts) == Insert(SortTimes(init), last);
      hide SortTimes;
      assert ts == init + [last];
      assert |multiset(SortTimes(ts))| == |multiset(ts)|;
    } else {
      assert Sorted([]) by { NothingToSort(); }
    }
  }

  lemma NothingToSort()
    ensures Sorted([])
  {
  }

  function IsDated(row: Option<Seconds>): bool { row.Some? }

  function TimeIn(row: Option<Seconds>): Seconds { if row.Some? then row.value else 0 }

  lemma {:induction false} PresentPicks(rows: seq<Option<Seconds>>)
    ensures Picks(rows, IsDated, TimeIn, Present(rows))
  {
    hide Picks;
    if |rows| == 0 {
      PicksNone(IsDated, TimeIn);
    } else {
      var init, last := rows[..|rows| - 1], rows[|rows| - 1];
      PresentPicks(init);
      PicksStep(init, last, IsDated, TimeIn, Present(init));
      assert rows == init + [last] && Present(init) + [] == Present(init);
    }
  }

  function Present(rows: seq<Option<Seconds>>): seq<Seconds> {
    if |rows| == 0 then []
    else Present(rows[..|rows| - 1]) + (if rows[|rows| - 1].Some? then [rows[|rows| - 1].value] else [])
  }

  datatype Inspection = Inspection(datesMatch: bool, spanOk: bool, gapOk: bool, closingGaps: nat, haltGaps: nat)

  /** Every row is dated, on the expected day. */
  predicate DatesMatch(rows: seq<Option<Seconds>>, expectedDate: int) {
    |rows| > 0 && forall i :: 0 <= i < |rows| ==> rows[i].Some? && DateOf(rows[i].value) == expectedDate
  }

  lemma {:induction false} PresentWhenAllDated(rows: seq<Option<Seconds>>)
    requires forall i :: 0 <= i < |rows| ==> rows[i].Some?
    ensures |Present(rows)| == |rows| && forall i :: 0 <= i < |rows| ==> Present(rows)[i] == rows[i].value
  {
    if |rows| > 0 { PresentWhenAllDated(rows[..|rows| - 1]); }
  }

  method InspectTimestamps(cfg: Config, expectedDate: int, rows: seq<Option<Seconds>>) returns (r: Inspection)
    ensures var ts := SortTimes(Present(rows));
      && r.datesMatch == DatesMatch(rows, expectedDate)
      && (r.spanOk <==> r.datesMatch && ts[|ts| - 1] - ts[0] >= cfg.minSpan)
      && (r.gapOk <==> r.datesMatch && cfg.maxGap >= 0 && GapsOk(cfg, ts))
      && r.closingGaps == CountClass(cfg, ts, ClosingAuction) && r.haltGaps == CountClass(cfg, ts, MarketHalt)
  {
    var ts := SortTimes(Present(rows));
    SortTimesSorts(Present(rows));
    var g := ClassifyGaps(cfg, ts);
    var datesMatch := DatesMatch(rows, expectedDate);
    if datesMatch { PresentWhenAllDated(rows); }
    UnexpectedMaxBounds(cfg, ts);
    var unexpectedMax := if |g.unexpected| == 0 then 0 else MaxOf(g.unexpected);
    assert unexpectedMax == UnexpectedMax(cfg, ts);
    hide GapsOk, SortTimes, Present, UnexpectedGaps, UnexpectedMax, MaxOf, CountClass, Sorted, DatesMatch;
    r := Inspection(
      datesMatch,
      datesMatch && ts[|ts| - 1] - ts[0] >= cfg.minSpan,
      datesMatch && unexpectedMax <= cfg.maxGap,
      g.closing,
      g.halt);
  }

  /** The sorted timestamps of a file whose dates match: one per row, all on the day. */
  lemma SortedRows(rows: seq<Option<Seconds>>, expectedDate: int)
    requires DatesMatch(rows, expectedDate)
    ensures var ts := SortTimes(Present(rows));
      |ts| == |rows| > 0 && Sorted(ts) && OneDate(ts, expectedDate)
  {
    SortTimesSorts(Present(rows));
    PresentWhenAllDated(rows);
    SameDates(rows, SortTimes(Present(rows)), expectedDate);
    hide SortTimes, Present, Sorted, OneDate;
  }

  /** A file that passes both checks has at most one closing gap and enough rows for its session. */
  lemma PassingRowsAreDense(cfg: Config, expectedDate: int, rows: seq<Option<Seconds>>)
    requires DatesMatch(rows, expectedDate) && GapsOk(cfg, SortTimes(Present(rows)))
    requires var ts := SortTimes(Present(rows)); |ts| > 0 ==> ts[|ts| - 1] - ts[0] >= cfg.minSpan
    ensures var ts := SortTimes(Present(rows));
      && CountClass(cfg, ts, ClosingAuction) <= 1
      && |ts| == |rows|
      && (|ts| - 1 - CountClass(cfg, ts, ClosingAuction) - CountClass(cfg, ts, MarketHalt)) * Max(60, cfg.maxGap)
         + Max(0, cfg.maxClosingGap) + SumClass(cfg, ts, MarketHalt) >= cfg.minSpan
  {
    hide *;
    var ts := SortTimes(Present(rows));
    SortedRows(rows, expectedDate);
    PassingFileIsDense(cfg, ts, expectedDate);
    AtMostOneClosingGap(cfg, ts, expectedDate);
  }

  lemma SameDates(rows: seq<Option<Seconds>>, ts: seq<Seconds>, expectedDate: int)
    requires DatesMatch(rows, expectedDate) && multiset(ts) == multiset(Present(rows))
    ensures OneDate(ts, expectedDate)
  {
    PresentWhenAllDated(rows);
    hide Present;
    forall i | 0 <= i < |ts| ensures DateOf(ts[i]) == expectedDate {
      assert ts[i] in multiset(ts);
      assert ts[i] in Present(rows);
    }
  }
}
