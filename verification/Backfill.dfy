/**
 run_backfill of live_data_readiness.py: day-by-day fetching with skipping of complete days
 and a circuit breaker after consecutive failed days. Fetches are an input: row counts per
 day and (padded) ticker. Ratios are exact.
 */
module Backfill {
  import opened Common
  import opened TradingCalendar

  type Ticker = string

  /** Rows fetched or found for each ticker on one day. */
  type Counts = map<Ticker, int>

  /** What the saved-file summary says of one ticker and day; no file is None and not clean. */
  datatype SavedFile = SavedFile(rows: Option<int>, clean: bool)

  type Summary = (Ticker, Day) -> SavedFile

  datatype Config = Config(minRows: int, requireAll: bool, maxFailedDates: nat, threshold: real, skipExisting: bool)

  type Fetcher = Day -> Counts

  /** One call of run_backfill: `saved` is the summary before fetching. */
  datatype Job = Job(cfg: Config, tickers: seq<Ticker>, saved: Summary, fetch: Fetcher)

  function CountAt(counts: Counts, t: Ticker): int {
    if t in counts then counts[t] else 0
  }

  function SavedRows(file: SavedFile): int {
    if file.rows.Some? then file.rows.value else 0
  }

  /** The integrity verdict includes the row minimum. */
  predicate SavedValid(file: SavedFile, minRows: int) {
    file.clean && file.rows.Some? && file.rows.value >= minRows
  }

  predicate AllSaved(job: Job, d: Day) {
    forall i :: 0 <= i < |job.tickers| ==> SavedValid(job.saved(job.tickers[i], d), job.cfg.minRows)
  }

  predicate Skips(job: Job, d: Day) { job.cfg.skipExisting && AllSaved(job, d) }

  /** What is recorded for a day that is handled. */
  function DayCounts(job: Job, d: Day): Counts {
    if Skips(job, d) then map t | t in job.tickers :: SavedRows(job.saved(t, d)) else job.fetch(d)
  }

  function ShortCount(tickers: seq<Ticker>, counts: Counts, minRows: int): nat {
    if |tickers| == 0 then 0
    else
      ShortCount(tickers[..|tickers| - 1], counts, minRows)
      + (if CountAt(counts, tickers[|tickers| - 1]) < minRows then 1 else 0)
  }

  /** Whether a fetched day counts as failed. */
  predicate FailedDay(job: Job, counts: Counts) {
    if job.cfg.requireAll
    then
      (ShortCount(job.tickers, counts, job.cfg.minRows) as real) / (Max(|job.tickers|, 1) as real) >= job.cfg.threshold
    else forall i :: 0 <= i < |job.tickers| ==> CountAt(counts, job.tickers[i]) <= 0
  }

  /** A day is skipped iff that is asked for and every ticker's saved file is clean and long enough. */
  lemma SkipsIff(job: Job, d: Day)
    ensures Skips(job, d) <==> job.cfg.skipExisting && forall t :: t in job.tickers ==>
      job.saved(t, d).clean && job.saved(t, d).rows.Some? && job.saved(t, d).rows.value >= job.cfg.minRows
  {
    if Skips(job, d) {
      forall t | t in job.tickers ensures SavedValid(job.saved(t, d), job.cfg.minRows) {
        var i :| 0 <= i < |job.tickers| && job.tickers[i] == t;
        assert SavedValid(job.saved(job.tickers[i], d), job.cfg.minRows);
      }
    }
  }

  function IsShort(counts: Counts, minRows: int): Ticker -> bool {
    (t: Ticker) => (if t in counts then counts[t] else 0) < minRows
  }

  lemma {:induction false} ShortCountIs(tickers: seq<Ticker>, counts: Counts, minRows: int)
    ensures ShortCount(tickers, counts, minRows) == |Indices(tickers, IsShort(counts, minRows))|
  {
    if |tickers| > 0 {
      var init, last := tickers[..|tickers| - 1], tickers[|tickers| - 1];
      ShortCountIs(init, counts, minRows);
      IndicesStep(init, last, IsShort(counts, minRows));
      assert tickers == init + [last];
      hide Indices;
    }
  }

  /** All tickers required: enough of them fell short, as a share of all. Otherwise: none brought a row. */
  lemma FailedDayIff(job: Job, counts: Counts)
    ensures job.cfg.requireAll ==> (FailedDay(job, counts) <==>
      |Indices(job.tickers, IsShort(counts, job.cfg.minRows))| as real
      >= job.cfg.threshold * (Max(|job.tickers|, 1) as real))
    ensures !job.cfg.requireAll ==> (FailedDay(job, counts) <==>
      forall t :: t in job.tickers && t in counts ==> counts[t] <= 0)
  {
    ShortCountIs(job.tickers, counts, job.cfg.minRows);
    var k := |Indices(job.tickers, IsShort(counts, job.cfg.minRows))|;
    hide Indices, ShortCount;
    if job.cfg.requireAll {
      ShareAtLeast(k as real, Max(|job.tickers|, 1) as real, job.cfg.threshold);
    } else if i :| 0 <= i < |job.tickers| && CountAt(counts, job.tickers[i]) > 0 {
      assert job.tickers[i] in job.tickers && job.tickers[i] in counts;
    } else {
      forall t | t in job.tickers && t in counts ensures counts[t] <= 0 {
        var i :| 0 <= i < |job.tickers| && job.tickers[i] == t;
      }
    }
  }

  /** What one day adds: the saved rows when it is skipped, the fetched ones otherwise. */
  lemma OneDayAdds(job: Job, days: seq<Day>, d: Day, t: Ticker)
    requires t in job.tickers
    ensures TotalFor(job, [], t) == 0
    ensures TotalFor(job, days + [d], t) == TotalFor(job, days, t)
         + (if Skips(job, d) then (if job.saved(t, d).rows.Some? then job.saved(t, d).rows.value else 0)
            else if t in job.fetch(d) then job.fetch(d)[t] else 0)
  {
    hide Skips;
    assert (days + [d])[..|days|] == days;
  }

  /** The streak counts the fetched days after the last good one, all of which failed. */
  lemma {:induction false} StreakIs(job: Job, days: seq<Day>)
    ensures exists good :: StreakSince(job, days, good)
  {
    hide Skips, FailedDay;
    if |days| == 0 {
      assert StreakSince(job, days, -1);
    } else {
      var n := |days| - 1;
      StreakIs(job, days[..n]);
      var good :| StreakSince(job, days[..n], good);
      assert forall i :: 0 <= i < n ==> days[..n][i] == days[i];
      if !Skips(job, days[n]) && !FailedDay(job, job.fetch(days[n])) {
        assert FetchedSince(job, days, n) == {};
        assert StreakSince(job, days, n);
      } else {
        assert FetchedSince(job, days, good)
            == FetchedSince(job, days[..n], good) + (if Skips(job, days[n]) then {} else {n});
        assert StreakSince(job, days, good);
      }
    }
  }

  /** No good fetch after position `good`, which is itself one unless it is -1; the streak is the fetches since. */
  ghost predicate StreakSince(job: Job, days: seq<Day>, good: int) {
    && -1 <= good < |days|
    && (good >= 0 ==> !Skips(job, days[good]) && !FailedDay(job, job.fetch(days[good])))
    && (forall i :: good < i < |days| ==> Skips(job, days[i]) || FailedDay(job, job.fetch(days[i])))
    && Streak(job, days) == |FetchedSince(job, days, good)|
  }

  function FetchedSince(job: Job, days: seq<Day>, good: int): set<int> {
    set i: int | good < i < |days| && i >= 0 && !Skips(job, days[i])
  }

  /** Failed fetched days since the last good fetch; skipped days leave the streak alone. */
  function Streak(job: Job, days: seq<Day>): nat {
    if |days| == 0 then 0
    else
      var earlier, d := Streak(job, days[..|days| - 1]), days[|days| - 1];
      if Skips(job, d) then earlier else if FailedDay(job, job.fetch(d)) then earlier + 1 else 0
  }

  /** Sum over the handled days of what was recorded for one ticker. */
  function TotalFor(job: Job, days: seq<Day>, t: Ticker): int {
    if |days| == 0 then 0
    else TotalFor(job, days[..|days| - 1], t) + CountAt(DayCounts(job, days[|days| - 1]), t)
  }

  lemma StreakStep(job: Job, days: seq<Day>, i: nat)
    requires i < |days|
    ensures Streak(job, days[..i + 1])
         == if Skips(job, days[i]) then Streak(job, days[..i])
            else if FailedDay(job, job.fetch(days[i])) then Streak(job, days[..i]) + 1 else 0
  {
    assert days[..i + 1][..i] == days[..i];
  }

  ghost predicate TotalsAgree(job: Job, totals: Counts, days: seq<Day>) {
    forall t :: t in job.tickers ==> t in totals && totals[t] == TotalFor(job, days, t)
  }

  lemma TotalsStep(job: Job, totals: Counts, days: seq<Day>, i: nat)
    requires i < |days| && TotalsAgree(job, totals, days[..i])
    ensures TotalsAgree(job, AddCounts(totals, DayCounts(job, days[i])), days[..i + 1])
  {
    assert days[..i + 1][..i] == days[..i];
    hide DayCounts;
  }

  /** The per-ticker running totals after one more day. */
  function AddCounts(totals: Counts, day: Counts): Counts {
    map t | t in totals.Keys + day.Keys :: CountAt(totals, t) + CountAt(day, t)
  }

  ghost predicate Recorded(job: Job, byDate: map<Day, Counts>, days: seq<Day>) {
    && (forall d :: d in byDate <==> d in days)
    && (forall d :: d in days ==> byDate[d] == DayCounts(job, d))
  }

  lemma RecordedStep(job: Job, byDate: map<Day, Counts>, days: seq<Day>, i: nat)
    requires i < |days| && Recorded(job, byDate, days[..i])
    ensures Recorded(job, byDate[days[i] := DayCounts(job, days[i])], days[..i + 1])
  {
    hide DayCounts;
    assert days[..i + 1] == days[..i] + [days[i]];
  }

  /** The breaker has not tripped on any of the first n days. */
  ghost predicate Calm(job: Job, days: seq<Day>, n: nat) {
    forall k :: 0 <= k <= n && k <= |days| ==> Streak(job, days[..k]) < job.cfg.maxFailedDates
  }

  lemma CalmStep(job: Job, days: seq<Day>, n: nat)
    requires n < |days| && Calm(job, days, n)
    ensures Calm(job, days, n + 1) <==> Streak(job, days[..n + 1]) < job.cfg.maxFailedDates
  {
    hide Streak;
  }

  datatype Fetched = Fetched(totals: Counts, byDate: map<Day, Counts>, skipped: seq<Day>, tripped: Option<Day>)

  /** The day loop. `n` days were handled: a prefix, cut short only by the breaker. */
  method FetchDays(job: Job, days: seq<Day>) returns (f: Fetched, ghost n: nat)
    requires job.cfg.maxFailedDates >= 1
    ensures n <= |days| && Recorded(job, f.byDate, days[..n]) && TotalsAgree(job, f.totals, days[..n])
    ensures forall d :: d in f.skipped <==> d in days[..n] && Skips(job, d)
    ensures f.tripped.None? <==> Calm(job, days, |days|)
    ensures f.tripped.None? ==> n == |days|
    ensures f.tripped.Some? ==>
      && n > 0 && f.tripped.value == days[n - 1] && Calm(job, days, n - 1)
      && !Skips(job, days[n - 1]) && FailedDay(job, job.fetch(days[n - 1]))
      && Streak(job, days[..n]) == job.cfg.maxFailedDates
  {
    var totals: Counts := map t | t in job.tickers :: 0;
    var byDate: map<Day, Counts> := map[];
    var skipped: seq<Day>, streak := [], 0;
    n := 0;
    hide Skips, FailedDay, TotalsAgree, Recorded, Calm, DayCounts, Streak, AddCounts;
    Start(job, totals, days);
    for i := 0 to |days|
      invariant i == n && streak == Streak(job, days[..i]) < job.cfg.maxFailedDates
      invariant Calm(job, days, i) && Recorded(job, byDate, days[..i]) && TotalsAgree(job, totals, days[..i])
      invariant forall d :: d in skipped <==> d in days[..i] && Skips(job, d)
    {
      var d := days[i];
      assert days[..i + 1] == days[..i] + [d];
      TotalsStep(job, totals, days, i);
      RecordedStep(job, byDate, days, i);
      StreakStep(job, days, i);
      CalmStep(job, days, i);
      n := n + 1;
      var dayCounts := DayCounts(job, d);
      byDate := byDate[d := dayCounts];
      totals := AddCounts(totals, dayCounts);
      if Skips(job, d) {
        skipped := skipped + [d];
        continue;
      }
      FetchedCounts(job, d);
      streak := if FailedDay(job, dayCounts) then streak + 1 else 0;
      if streak >= job.cfg.maxFailedDates {
        NotCalm(job, days, n);
        return Fetched(totals, byDate, skipped, Some(d)), n;
      }
    }
    assert days[..|days|] == days;
    f := Fetched(totals, byDate, skipped, None);
  }

  lemma FetchedCounts(job: Job, d: Day)
    requires !Skips(job, d)
    ensures DayCounts(job, d) == job.fetch(d)
  {
  }

  lemma Start(job: Job, totals: Counts, days: seq<Day>)
    requires job.cfg.maxFailedDates >= 1 && totals == map t | t in job.tickers :: 0
    ensures Streak(job, days[..0]) == 0 && Calm(job, days, 0)
    ensures Recorded(job, map[], days[..0]) && TotalsAgree(job, totals, days[..0])
  {
  }

  lemma NotCalm(job: Job, days: seq<Day>, n: nat)
    requires n <= |days| && Streak(job, days[..n]) >= job.cfg.maxFailedDates
    ensures !Calm(job, days, |days|)
  {
    hide Streak;
  }

  // ----- the verdict

  datatype ShortFetch = ShortFetch(ticker: Ticker, date: Day)

  datatype Verdict = Verdict(pass: bool, artifactMissing: seq<Ticker>, fetchedShort: seq<ShortFetch>, retryable: bool)

  /** The recorded rows of a ticker and day fall short; a day never handled records nothing. */
  predicate ShortOn(job: Job, f: Fetched, t: Ticker, d: Day) {
    CountAt(if d in f.byDate then f.byDate[d] else map[], t) < job.cfg.minRows
  }

  ghost predicate ArtifactsComplete(job: Job, days: seq<Day>, after: Summary, n: nat) {
    forall k, d :: 0 <= k < n && k < |job.tickers| && d in days ==>
      SavedValid(after(job.tickers[k], d), job.cfg.minRows)
  }

  ghost predicate NoneShort(job: Job, f: Fetched, days: seq<Day>) {
    forall t, d :: t in job.tickers && d in days ==> !ShortOn(job, f, t, d)
  }

  /** Some business date of the ticker has no valid saved file. */
  predicate Incomplete(job: Job, days: seq<Day>, after: Summary, t: Ticker) {
    exists d :: d in days && !SavedValid(after(t, d), job.cfg.minRows)
  }

  /** `after` is the saved-file summary taken once fetching has ended. */
  method Judge(job: Job, days: seq<Day>, f: Fetched, after: Summary) returns (v: Verdict)
    ensures v.pass <==>
      (job.cfg.requireAll ==> ArtifactsComplete(job, days, after, |job.tickers|) && NoneShort(job, f, days))
    ensures forall x :: x in v.fetchedShort <==>
      job.cfg.requireAll && x.ticker in job.tickers && x.date in days && ShortOn(job, f, x.ticker, x.date)
    ensures forall t :: t in v.artifactMissing <==>
      job.cfg.requireAll && t in job.tickers && Incomplete(job, days, after, t)
    ensures v.retryable <==> !v.pass && v.fetchedShort != [] && f.tripped.Some?
  {
    var missing: seq<Ticker>, short: seq<ShortFetch> := [], [];
    for i := 0 to |job.tickers|
      invariant forall t :: t in missing <==>
        job.cfg.requireAll && t in job.tickers[..i] && Incomplete(job, days, after, t)
      invariant missing == [] <==> (job.cfg.requireAll ==> ArtifactsComplete(job, days, after, i))
      invariant forall x :: x in short <==>
        job.cfg.requireAll && x.ticker in job.tickers[..i] && x.date in days && ShortOn(job, f, x.ticker, x.date)
    {
      var t := job.tickers[i];
      assert job.tickers[..i + 1] == job.tickers[..i] + [t];
      if job.cfg.requireAll && Incomplete(job, days, after, t) { missing := missing + [t]; }
      hide ShortOn, SavedValid, Incomplete;
      for j := 0 to |days|
        invariant forall x :: x in short <==>
          && job.cfg.requireAll && ShortOn(job, f, x.ticker, x.date)
          && ((x.ticker in job.tickers[..i] && x.date in days) || (x.ticker == t && x.date in days[..j]))
      {
        if job.cfg.requireAll && ShortOn(job, f, t, days[j]) {
          short := short + [ShortFetch(t, days[j])];
        }
      }
    }
    assert job.tickers[..|job.tickers|] == job.tickers;
    hide ShortOn, SavedValid, Incomplete, ArtifactsComplete;
    if short != [] {
      assert short[0] in short;
    } else if job.cfg.requireAll {
      forall t, d | t in job.tickers && d in days ensures !ShortOn(job, f, t, d) {
        assert ShortFetch(t, d) !in short;
      }
    }
    var ok := missing == [] && short == [];
    v := Verdict(ok, missing, short, !ok && short != [] && f.tripped.Some?);
  }

  /** A day skipped because it was complete is never reported short. */
  lemma SkippedNeverShort(job: Job, f: Fetched, days: seq<Day>, d: Day, t: Ticker)
    requires Recorded(job, f.byDate, days) && d in days && Skips(job, d) && t in job.tickers
    ensures !ShortOn(job, f, t, d)
  {
    var i :| 0 <= i < |job.tickers| && job.tickers[i] == t;
    assert SavedValid(job.saved(job.tickers[i], d), job.cfg.minRows);
  }

  lemma {:induction false} SomeShort(tickers: seq<Ticker>, counts: Counts, minRows: int)
    requires ShortCount(tickers, counts, minRows) > 0
    ensures exists t :: t in tickers && CountAt(counts, t) < minRows
  {
    var last := tickers[|tickers| - 1];
    if CountAt(counts, last) >= minRows { SomeShort(tickers[..|tickers| - 1], counts, minRows); }
  }

  /** With a positive threshold a failed day has a ticker that came up short. */
  lemma FailedDayHasShort(job: Job, counts: Counts)
    requires job.cfg.requireAll && job.cfg.threshold > 0.0 && FailedDay(job, counts)
    ensures exists t :: t in job.tickers && CountAt(counts, t) < job.cfg.minRows
  {
    var n := ShortCount(job.tickers, counts, job.cfg.minRows);
    if n > 0 { SomeShort(job.tickers, counts, job.cfg.minRows); }
  }

  /** With a zero threshold every fetched day fails, however many rows it brought. */
  lemma ZeroThresholdFailsEveryDay(job: Job, counts: Counts)
    requires job.cfg.requireAll && job.cfg.threshold <= 0.0
    ensures FailedDay(job, counts)
  {
    var m := Max(|job.tickers|, 1) as real;
    var q := (ShortCount(job.tickers, counts, job.cfg.minRows) as real) / m;
    assert q * m >= 0.0 && m > 0.0;
    if q < 0.0 { NegativeProduct(q, m); }
  }

  /** The whole run: a tripped breaker means FAIL, except that a zero threshold trips on days nothing is wrong with. */
  method RunBackfill(job: Job, days: seq<Day>, after: Summary) returns (f: Fetched, v: Verdict)
    requires job.cfg.maxFailedDates >= 1
    ensures job.cfg.requireAll && job.cfg.threshold > 0.0 && f.tripped.Some? ==> !v.pass && v.retryable
    ensures f.tripped.Some? && job.cfg.requireAll ==>
      (v.pass <==>
        && job.cfg.threshold <= 0.0
        && ArtifactsComplete(job, days, after, |job.tickers|) && NoneShort(job, f, days))
    ensures v.pass && job.cfg.requireAll ==>
      ArtifactsComplete(job, days, after, |job.tickers|) && NoneShort(job, f, days)
    ensures !job.cfg.requireAll ==> v.pass
    ensures f.tripped.None? <==> Calm(job, days, |days|)
    ensures f.tripped.None? ==> TotalsAgree(job, f.totals, days)
  {
    ghost var n;
    f, n := FetchDays(job, days);
    v := Judge(job, days, f, after);
    assert days[..|days|] == days;
    if f.tripped.Some? && job.cfg.requireAll && job.cfg.threshold > 0.0 {
      TrippedMeansShort(job, days, f, n);
      ghost var t :| t in job.tickers && ShortOn(job, f, t, days[n - 1]);
      assert ShortFetch(t, days[n - 1]) in v.fetchedShort;
    }
  }

  lemma TrippedMeansShort(job: Job, days: seq<Day>, f: Fetched, n: nat)
    requires 0 < n <= |days| && Recorded(job, f.byDate, days[..n])
    requires !Skips(job, days[n - 1]) && FailedDay(job, job.fetch(days[n - 1]))
    requires job.cfg.requireAll && job.cfg.threshold > 0.0
    ensures exists t :: t in job.tickers && days[n - 1] in days && ShortOn(job, f, t, days[n - 1])
  {
    var d := days[n - 1];
    assert days[..n][n - 1] == d;
    FetchedCounts(job, d);
    FailedDayHasShort(job, job.fetch(d));
    hide Skips, FailedDay, DayCounts;
    var t :| t in job.tickers && CountAt(job.fetch(d), t) < job.cfg.minRows;
    assert f.byDate[d] == job.fetch(d);
    assert ShortOn(job, f, t, d);
  }

  // ----- a tripped breaker that passes

  const ONE_GOOD_DAY := Job(
    Config(1, true, 1, 0.0, false), ["005930"], (t, d) => SavedFile(Some(1), true), d => map["005930" := 1])

  /** Threshold zero: one fully fetched day trips the breaker, and the run still passes. */
  method TrippedButPassing() returns (f: Fetched, v: Verdict)
    ensures f.tripped == Some(1) && v.pass
  {
    ghost var n;
    ZeroThresholdFailsEveryDay(ONE_GOOD_DAY, ONE_GOOD_DAY.fetch(1));
    assert [1][..0] == [] && [1][..1] == [1];
    assert Streak(ONE_GOOD_DAY, [1][..1]) == 1;
    f, n := FetchDays(ONE_GOOD_DAY, [1]);
    v := Judge(ONE_GOOD_DAY, [1], f, ONE_GOOD_DAY.saved);
  }
}
