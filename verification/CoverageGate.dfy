/**
 The count-per-date index of valid bar artifacts (phase2_feature_backfill.py) and its agreement
 with the direct nested-loop gate of prelive_gate.py.
 */
module CoverageGate {
  import opened Common
  import opened TradingCalendar

  type Ticker = string

  /** One bar file: the date in its name, if any, and the inspector's verdict for that date. */
  datatype Artifact = Artifact(date: Option<Day>, valid: bool)

  /** A ticker without a directory has no entry. */
  type Store = map<Ticker, seq<Artifact>>

  // ----- one and only one valid artifact

  /** The files of one date, in directory order. */
  function FilesOn(files: seq<Artifact>, d: Day): seq<Artifact> {
    if |files| == 0 then []
    else FilesOn(files[..|files| - 1], d) + (if files[|files| - 1].date == Some(d) then [files[|files| - 1]] else [])
  }

  function IsOn(d: Day): Artifact -> bool { (file: Artifact) => file.date == Some(d) }

  lemma {:induction false} FilesOnPick(files: seq<Artifact>, d: Day)
    ensures Picks(files, IsOn(d), Same, FilesOn(files, d))
  {
    hide Picks;
    if |files| == 0 {
      PicksNone(IsOn(d), Same<Artifact>);
    } else {
      var init, last := files[..|files| - 1], files[|files| - 1];
      FilesOnPick(init, d);
      PicksStep(init, last, IsOn(d), Same<Artifact>, FilesOn(init, d));
      assert files == init + [last] && FilesOn(init, d) + [] == FilesOn(init, d);
    }
  }

  function FilesOf(store: Store, t: Ticker): seq<Artifact> {
    if t in store then store[t] else []
  }

  predicate SoleValid(store: Store, t: Ticker, d: Day) {
    var on := FilesOn(FilesOf(store, t), d);
    |on| == 1 && on[0].valid
  }

  /** One and only one file of the directory carries the date, and it is valid. */
  lemma SoleValidIff(store: Store, t: Ticker, d: Day)
    ensures SoleValid(store, t, d) <==>
      t in store && exists i :: 0 <= i < |store[t]| && store[t][i] == Artifact(Some(d), true) && OnlyOne(store[t], d, i)
  {
    if t in store {
      var files, on := store[t], FilesOn(store[t], d);
      FilesOnPick(files, d);
      hide FilesOn, OnlyOne;
      var at: seq<nat> :| PickedAt(files, IsOn(d), Same, on, at);
      if |on| == 1 {
        OnePicked(files, on, at, d);
      }
      if i :| 0 <= i < |files| && files[i] == Artifact(Some(d), true) && OnlyOne(files, d, i) {
        OnlyOnePicked(files, on, at, d, i);
      }
    }
  }

  lemma OnePicked(files: seq<Artifact>, on: seq<Artifact>, at: seq<nat>, d: Day)
    requires PickedAt(files, IsOn(d), Same, on, at) && |on| == 1
    ensures at[0] < |files| && files[at[0]] == on[0] && on[0].date == Some(d) && OnlyOne(files, d, at[0])
  {
    forall j | 0 <= j < |files| && files[j].date == Some(d) ensures j == at[0] { assert IsOn(d)(files[j]); }
  }

  lemma OnlyOnePicked(files: seq<Artifact>, on: seq<Artifact>, at: seq<nat>, d: Day, i: nat)
    requires PickedAt(files, IsOn(d), Same, on, at)
    requires i < |files| && files[i].date == Some(d) && OnlyOne(files, d, i)
    ensures |on| == 1 && on[0] == files[i]
  {
    FirstTwo(at);
    assert IsOn(d)(files[i]);
    forall k | 0 <= k < |at| ensures at[k] == i { assert IsOn(d)(files[at[k]]); }
    var k :| 0 <= k < |at| && at[k] == i;
  }

  lemma FirstTwo(at: seq<nat>)
    requires forall k, l :: 0 <= k < l < |at| ==> at[k] < at[l]
    ensures |at| > 1 ==> at[0] < at[1]
  {
  }

  predicate OnlyOne(files: seq<Artifact>, d: Day, i: nat) {
    forall j :: 0 <= j < |files| && files[j].date == Some(d) ==> j == i
  }

  // ----- the index: how many tickers have each date

  function TickersWith(store: Store, tickers: seq<Ticker>, d: Day): nat {
    if |tickers| == 0 then 0
    else
      TickersWith(store, tickers[..|tickers| - 1], d) + (if SoleValid(store, tickers[|tickers| - 1], d) then 1 else 0)
  }

  function HasSoleValid(store: Store, d: Day): Ticker -> bool { (t: Ticker) => SoleValid(store, t, d) }

  lemma {:induction false} TickersWithIs(store: Store, tickers: seq<Ticker>, d: Day)
    ensures TickersWith(store, tickers, d) == |Indices(tickers, HasSoleValid(store, d))|
  {
    hide SoleValid;
    if |tickers| > 0 {
      var init, last := tickers[..|tickers| - 1], tickers[|tickers| - 1];
      TickersWithIs(store, init, d);
      IndicesStep(init, last, HasSoleValid(store, d));
      assert tickers == init + [last];
      hide Indices;
    }
  }

  /** Every ticker has one and only one valid file on the date. */
  ghost predicate EveryTicker(store: Store, tickers: seq<Ticker>, d: Day) {
    forall i :: 0 <= i < |tickers| ==> SoleValid(store, tickers[i], d)
  }

  /** A sum of 0/1 contributions reaches its length iff every one of them is 1. */
  lemma {:induction false} CountIsFullIff(store: Store, tickers: seq<Ticker>, d: Day)
    ensures TickersWith(store, tickers, d) <= |tickers|
    ensures TickersWith(store, tickers, d) == |tickers| <==> EveryTicker(store, tickers, d)
  {
    if |tickers| > 0 {
      hide SoleValid;
      CountIsFullIff(store, tickers[..|tickers| - 1], d);
    }
  }

  ghost predicate Grouped(paths: map<Day, seq<Artifact>>, files: seq<Artifact>) {
    && (forall d :: d in paths <==> FilesOn(files, d) != [])
    && (forall d :: d in paths ==> paths[d] == FilesOn(files, d))
  }

  /** Group one directory by the date in the file name. */
  method GroupByDate(files: seq<Artifact>) returns (paths: map<Day, seq<Artifact>>)
    ensures Grouped(paths, files)
  {
    paths := map[];
    for i := 0 to |files|
      invariant Grouped(paths, files[..i])
    {
      assert files[..i + 1][..i] == files[..i];
      ghost var before := paths;
      if files[i].date.Some? {
        var d := files[i].date.value;
        paths := paths[d := (if d in paths then paths[d] else []) + [files[i]]];
      }
      GroupedStep(before, paths, files, i);
      hide Grouped, FilesOn;
    }
    assert files[..|files|] == files;
  }

  lemma GroupedStep(before: map<Day, seq<Artifact>>, after: map<Day, seq<Artifact>>, files: seq<Artifact>, i: nat)
    requires i < |files| && Grouped(before, files[..i])
    requires after == match files[i].date
                      case None => before
                      case Some(d) => before[d := (if d in before then before[d] else []) + [files[i]]]
    ensures Grouped(after, files[..i + 1])
  {
    forall d
      ensures FilesOn(files[..i + 1], d)
           == FilesOn(files[..i], d) + (if files[i].date == Some(d) then [files[i]] else [])
    {
      assert files[..i + 1][..i] == files[..i];
    }
    hide FilesOn;
  }

  ghost predicate IndexAgrees(counts: map<Day, nat>, store: Store, tickers: seq<Ticker>) {
    forall d :: (if d in counts then counts[d] else 0) == TickersWith(store, tickers, d)
  }

  /** The dates the index may report: those of every ticker, and none when there is no ticker. */
  ghost predicate AreCommon(common: set<Day>, store: Store, tickers: seq<Ticker>) {
    if tickers == [] then common == {} else forall d :: d in common <==> EveryTicker(store, tickers, d)
  }

  function DateSet(dates: seq<Day>): set<Day> { set d | d in dates }

  /** `_common_artifact_dates`. */
  method CommonDates(store: Store, tickers: seq<Ticker>) returns (common: seq<Day>)
    ensures Ascending(common) && AreCommon(DateSet(common), store, tickers)
  {
    var counts: map<Day, nat> := map[];
    for i := 0 to |tickers|
      invariant IndexAgrees(counts, store, tickers[..i])
      invariant i == 0 ==> counts == map[]
    {
      assert tickers[..i + 1][..i] == tickers[..i];
      var t := tickers[i];
      var seen := SeenDates(store, t);
      counts := map d: Day | d in counts.Keys + seen ::
        (if d in counts then counts[d] else 0) + (if d in seen then 1 else 0);
      hide SoleValid;
    }
    assert tickers[..|tickers|] == tickers;
    var full := set d: Day | d in counts && counts[d] >= |tickers|;
    FullCounts(counts, store, tickers, full);
    hide IndexAgrees, AreCommon;
    common := SortDates(full);
    assert forall d :: d in DateSet(common) <==> d in full;
    assert DateSet(common) == full;
  }

  lemma FullCounts(counts: map<Day, nat>, store: Store, tickers: seq<Ticker>, full: set<Day>)
    requires IndexAgrees(counts, store, tickers) && full == set d: Day | d in counts && counts[d] >= |tickers|
    requires tickers == [] ==> counts == map[]
    ensures AreCommon(full, store, tickers)
  {
    hide SoleValid, EveryTicker;
    if tickers != [] {
      forall d ensures d in full <==> EveryTicker(store, tickers, d) { CountIsFullIff(store, tickers, d); }
    }
  }

  /** Python's sorted() on distinct dates: the least one that is left comes next. */
  method SortDates(days: set<Day>) returns (sorted: seq<Day>)
    ensures Ascending(sorted) && forall d :: d in sorted <==> d in days
  {
    sorted := [];
    var left := days;
    while |left| > 0
      invariant Ascending(sorted) && forall d :: d in days <==> d in sorted || d in left
      invariant forall d, i :: d in left && 0 <= i < |sorted| ==> sorted[i] < d
      decreases |left|
    {
      Least(left);
      var d :| IsLeast(left, d);
      sorted, left := sorted + [d], left - {d};
    }
  }

  predicate IsLeast(days: set<Day>, d: Day) {
    d in days && forall x :: x in days ==> d <= x
  }

  lemma NoMembers(days: set<Day>)
    requires forall a :: a !in days
    ensures |days| == 0
  {
    var none: set<Day> := {};
    assert forall a :: a in days <==> a in none;
    assert days == none;
  }

  lemma {:induction false} Least(days: set<Day>)
    requires |days| > 0
    ensures exists d :: IsLeast(days, d)
    decreases |days|
  {
    if forall a :: a !in days { NoMembers(days); }
    var a :| a in days;
    var rest := days - {a};
    assert days == rest + {a};
    if |rest| == 0 {
      assert IsLeast(days, a);
    } else {
      Least(rest);
      var b :| IsLeast(rest, b);
      assert IsLeast(days, if a < b then a else b);
    }
  }

  /** The dates for which one ticker has exactly one file, and it is valid. */
  method SeenDates(store: Store, t: Ticker) returns (seen: set<Day>)
    ensures forall d :: d in seen <==> SoleValid(store, t, d)
  {
    if t !in store { return {}; }
    var paths: map<Day, seq<Artifact>> := GroupByDate(store[t]);
    hide FilesOn;
    seen := set d: Day | d in paths && |paths[d]| == 1 && paths[d][0].valid;
  }

  /** `_select_dates`: expected dates that are common, in expected order. */
  function Select(expected: seq<Day>, common: set<Day>): seq<Day> {
    if |expected| == 0 then []
    else
      var d := expected[|expected| - 1];
      Select(expected[..|expected| - 1], common) + (if d in common then [d] else [])
  }

  lemma {:induction false} SelectedDates(expected: seq<Day>, common: set<Day>)
    ensures |Select(expected, common)| <= |expected|
    ensures forall d :: d in Select(expected, common) <==> d in expected && d in common
    ensures Select(expected, common) == expected <==> forall d :: d in expected ==> d in common
  {
    if |expected| > 0 {
      var init, d := expected[..|expected| - 1], expected[|expected| - 1];
      SelectedDates(init, common);
      assert expected == init + [d];
    }
  }

  function IsIn(common: set<Day>): Day -> bool { (d: Day) => d in common }

  lemma {:induction false} SelectPicks(expected: seq<Day>, common: set<Day>)
    ensures Picks(expected, IsIn(common), Same, Select(expected, common))
  {
    hide Picks;
    if |expected| == 0 {
      PicksNone(IsIn(common), Same<Day>);
    } else {
      var init, d := expected[..|expected| - 1], expected[|expected| - 1];
      SelectPicks(init, common);
      PicksStep(init, d, IsIn(common), Same<Day>, Select(init, common));
      assert expected == init + [d] && Select(init, common) + [] == Select(init, common);
    }
  }

  /** `_select_dates`, which agrees with the direct gate below unless there are no tickers. */
  method SelectDates(store: Store, tickers: seq<Ticker>, expected: seq<Day>)
    returns (selected: seq<Day>, ghost common: set<Day>)
    ensures AreCommon(common, store, tickers) && selected == Select(expected, common)
    ensures tickers != [] ==> selected == DirectDates(store, tickers, expected)
    ensures tickers == [] ==> selected == []
  {
    var dates := CommonDates(store, tickers);
    common := DateSet(dates);
    selected := Select(expected, DateSet(dates));
    IndexAgreesWithDirectIff(store, tickers, expected, common);
    if tickers == [] { NoTickers(store, expected); }
    hide DirectDates, Select;
  }

  // ----- the direct gate

  /** `_check_80_day_artifacts`: dates for which no ticker is missing, duplicated or invalid. */
  method DirectValidDates(store: Store, tickers: seq<Ticker>, expected: seq<Day>) returns (valid: seq<Day>)
    ensures valid == DirectDates(store, tickers, expected)
  {
    valid := [];
    for i := 0 to |expected|
      invariant valid == DirectDates(store, tickers, expected[..i])
    {
      assert expected[..i + 1][..i] == expected[..i];
      var bad := CountBad(store, tickers, expected[i]);
      if bad == 0 { valid := valid + [expected[i]]; }
      hide SoleValid;
    }
    assert expected[..|expected|] == expected;
  }

  /** The inner loop: tickers without one and only one valid file on the day. */
  method CountBad(store: Store, tickers: seq<Ticker>, day: Day) returns (bad: nat)
    ensures bad == |tickers| - TickersWith(store, tickers, day)
    ensures bad == 0 <==> EveryTicker(store, tickers, day)
  {
    bad := 0;
    for j := 0 to |tickers|
      invariant bad == j - TickersWith(store, tickers[..j], day)
    {
      assert tickers[..j + 1][..j] == tickers[..j];
      var on := FilesOn(FilesOf(store, tickers[j]), day);
      assert SoleValid(store, tickers[j], day) <==> |on| == 1 && on[0].valid;
      hide SoleValid, FilesOn, FilesOf;
      if |on| > 1 {
        bad := bad + 1;
        continue;
      }
      if |on| == 0 || !on[0].valid { bad := bad + 1; }
    }
    assert tickers[..|tickers|] == tickers;
    CountIsFullIff(store, tickers, day);
  }

  function DirectDates(store: Store, tickers: seq<Ticker>, expected: seq<Day>): seq<Day> {
    if |expected| == 0 then []
    else
      var d := expected[|expected| - 1];
      DirectDates(store, tickers, expected[..|expected| - 1])
      + (if forall k :: 0 <= k < |tickers| ==> SoleValid(store, tickers[k], d) then [d] else [])
  }

  function IsComplete(store: Store, tickers: seq<Ticker>): Day -> bool {
    (d: Day) => forall k :: 0 <= k < |tickers| ==> SoleValid(store, tickers[k], d)
  }

  lemma {:induction false} DirectDatesPick(store: Store, tickers: seq<Ticker>, expected: seq<Day>)
    ensures Picks(expected, IsComplete(store, tickers), Same, DirectDates(store, tickers, expected))
  {
    hide Picks, SoleValid;
    if |expected| == 0 {
      PicksNone(IsComplete(store, tickers), Same<Day>);
    } else {
      var init, d := expected[..|expected| - 1], expected[|expected| - 1];
      DirectDatesPick(store, tickers, init);
      PicksStep(init, d, IsComplete(store, tickers), Same<Day>, DirectDates(store, tickers, init));
      assert expected == init + [d];
      assert DirectDates(store, tickers, init) + [] == DirectDates(store, tickers, init);
    }
  }

  /** The index selects what the direct gate accepts iff there is a ticker, or nothing is expected. */
  lemma IndexAgreesWithDirectIff(store: Store, tickers: seq<Ticker>, expected: seq<Day>, common: set<Day>)
    requires AreCommon(common, store, tickers)
    ensures Select(expected, common) == DirectDates(store, tickers, expected) <==> tickers != [] || expected == []
  {
    hide SoleValid;
    if tickers != [] {
      SameDates(store, tickers, expected, common);
    } else {
      NoTickers(store, expected);
    }
  }

  lemma {:induction false} SameDates(store: Store, tickers: seq<Ticker>, expected: seq<Day>, common: set<Day>)
    requires forall d :: d in common <==> EveryTicker(store, tickers, d)
    ensures Select(expected, common) == DirectDates(store, tickers, expected)
  {
    hide SoleValid;
    if |expected| > 0 { SameDates(store, tickers, expected[..|expected| - 1], common); }
  }

  lemma {:induction false} NoTickers(store: Store, expected: seq<Day>)
    ensures Select(expected, {}) == [] && DirectDates(store, [], expected) == expected
  {
    if |expected| > 0 { NoTickers(store, expected[..|expected| - 1]); }
  }
}
