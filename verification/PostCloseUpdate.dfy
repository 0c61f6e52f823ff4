/**
 run_update and the fail-closed promotion of the final dataset window in
 post_close_data_update.py. The risk_config file is the one mutable object.
 */
module PostCloseUpdate {
  import opened Common
  import opened TradingCalendar
  import opened ConfigRewrite
  import opened ConfigText
  import opened StageRetry

  // ----- which day, which window

  /** Seconds. */
  type Moment = int

  /** The newest trading day whose post-close snapshot has been taken. */
  function LatestPitSafeTradingDay(cal: Calendar, snapshotTime: int, now: Moment): (d: Day)
    ensures IsTradingDay(cal, d) && d <= DateOf(now)
    ensures d == DateOf(now) ==> TimeOf(now) >= snapshotTime
  {
    if IsTradingDay(cal, DateOf(now)) && TimeOf(now) >= snapshotTime then DateOf(now)
    else PreviousTradingDay(cal, DateOf(now))
  }

  /** It is the greatest such day, so it never moves back as the clock advances. */
  lemma PitSafeDayIsGreatest(cal: Calendar, snapshotTime: int, now: Moment, x: Day)
    requires IsTradingDay(cal, x)
    requires x < DateOf(now) || (x == DateOf(now) && TimeOf(now) >= snapshotTime)
    ensures x <= LatestPitSafeTradingDay(cal, snapshotTime, now)
  {
    if x < DateOf(now) { PreviousIsGreatest(cal, DateOf(now), x); }
  }

  lemma PitSafeDayIsMonotone(cal: Calendar, snapshotTime: int, earlier: Moment, later: Moment)
    requires earlier <= later
    ensures LatestPitSafeTradingDay(cal, snapshotTime, earlier) <= LatestPitSafeTradingDay(cal, snapshotTime, later)
  {
    var x := LatestPitSafeTradingDay(cal, snapshotTime, earlier);
    assert DateOf(earlier) <= DateOf(later);
    assert DateOf(earlier) == DateOf(later) ==> TimeOf(earlier) <= TimeOf(later);
    hide LatestPitSafeTradingDay;
    PitSafeDayIsGreatest(cal, snapshotTime, later, x);
  }

  /** Training length: the requested one, or all trading days since the anchor if that is longer. */
  function ResolveBusinessDays(cal: Calendar, expanding: bool, anchor: Option<Day>, target: Day, requested: int)
    : (n: nat)
    ensures n >= 1 && n >= requested
  {
    var floor := Max(1, requested);
    if !expanding || anchor.None? || anchor.value > target then floor
    else Max(floor, |TradingDates(cal, anchor.value, target)|)
  }

  /** The length is the larger of the request and, when expanding from an anchor, the trading days since it. */
  lemma BusinessDaysAre(cal: Calendar, anchor: Day, target: Day, requested: int, d: Day)
    ensures ResolveBusinessDays(cal, false, Some(anchor), target, requested) == Max(1, requested)
    ensures ResolveBusinessDays(cal, true, None, target, requested) == Max(1, requested)
    ensures anchor > target ==> ResolveBusinessDays(cal, true, Some(anchor), target, requested) == Max(1, requested)
    ensures anchor <= target ==>
      ResolveBusinessDays(cal, true, Some(anchor), target, requested)
      == Max(Max(1, requested), |set x | anchor <= x <= target && IsTradingDay(cal, x)|)
  {
    if anchor <= target { TradingDaysCounted(cal, anchor, target); }
    hide TradingDates, IsTradingDay;
  }

  lemma TradingDaysCounted(cal: Calendar, a: Day, b: Day)
    ensures |TradingDates(cal, a, b)| == |set x | a <= x <= b && IsTradingDay(cal, x)|
  {
    TradingDatesExactly(cal, a, b);
    hide TradingDates, IsTradingDay;
    DistinctCount(TradingDates(cal, a, b));
    assert (set d | d in TradingDates(cal, a, b)) == (set x | a <= x <= b && IsTradingDay(cal, x));
  }

  lemma {:induction false} DistinctCount(dates: seq<Day>)
    requires Ascending(dates)
    ensures |set d | d in dates| == |dates|
  {
    if |dates| > 0 {
      var init, last := dates[..|dates| - 1], dates[|dates| - 1];
      DistinctCount(init);
      assert (set d | d in dates) == (set d | d in init) + {last};
    }
  }

  /** When the window has outgrown the request it starts at the anchor, so earlier evidence is kept. */
  lemma AnchorIsKept(cal: Calendar, anchor: Day, target: Day, requested: int)
    requires anchor <= target && |TradingDates(cal, anchor, target)| >= Max(1, requested)
    ensures var n := ResolveBusinessDays(cal, true, Some(anchor), target, requested);
      BusinessDates(cal, target, n) == TradingDates(cal, anchor, target)
  {
    hide IsTradingDay, StartDate, Consecutive, Ascending, TradingDates;
    var n := |TradingDates(cal, anchor, target)|;
    var start := StartDate(cal, target, n);
    BusinessDatesAreTheLastN(cal, target, n);
    if anchor <= start {
      SameLengthRanges(cal, anchor, start, target);
    } else {
      SameLengthRanges(cal, start, anchor, target);
    }
  }

  /** Two ranges with the same end and the same number of trading days hold the same ones. */
  lemma SameLengthRanges(cal: Calendar, a: Day, b: Day, end: Day)
    requires a <= b <= end + 1 && |TradingDates(cal, a, end)| == |TradingDates(cal, b, end)|
    ensures TradingDates(cal, a, end) == TradingDates(cal, b, end)
  {
    hide TradingDates;
    SplitDates(cal, a, b - 1, end);
    Suffix(TradingDates(cal, a, b - 1), TradingDates(cal, b, end));
  }

  lemma Suffix(earlier: seq<Day>, later: seq<Day>)
    requires |earlier + later| == |later|
    ensures earlier + later == later
  {
  }

  lemma {:induction false} SplitDates(cal: Calendar, a: Day, m: Day, b: Day)
    requires a - 1 <= m <= b
    ensures TradingDates(cal, a, b) == TradingDates(cal, a, m) + TradingDates(cal, m + 1, b)
    decreases b - m
  {
    if m < b { SplitDates(cal, a, m, b - 1); }
  }

  // ----- the evidence the promotion asks for

  /** Dates as the report writes them; an absent date is the empty text. */
  datatype Range = Range(start: string, end: string)

  function Digits(s: string): string {
    if s == "" then ""
    else Digits(s[..|s| - 1]) + (if '0' <= s[|s| - 1] <= '9' then [s[|s| - 1]] else "")
  }

  /** The first eight digits, if there are as many. */
  function Normalized(s: string): (r: Option<string>)
    ensures r.Some? ==> |r.value| == 8
  {
    var digits := Digits(s);
    if |digits| >= 8 then Some(digits[..8]) else None
  }

  predicate IsDigitChar(c: char) { '0' <= c <= '9' }

  /** Normalising keeps the first eight digits, whatever stands between them. */
  lemma {:induction false} DigitsPick(s: string)
    ensures Picks(s, IsDigitChar, Same, Digits(s))
  {
    hide Picks;
    if s == "" {
      PicksNone(IsDigitChar, Same<char>);
    } else {
      var init, last := s[..|s| - 1], s[|s| - 1];
      DigitsPick(init);
      PicksStep(init, last, IsDigitChar, Same<char>, Digits(init));
      assert s == init + [last] && Digits(init) + [] == Digits(init);
    }
  }

  lemma NormalizedIs(s: string)
    ensures Normalized(s).Some? <==> |Digits(s)| >= 8
    ensures Normalized(s).Some? ==> Normalized(s).value <= Digits(s) && |Normalized(s).value| == 8
  {
  }

  function NormalizedRange(range: Option<Range>): Option<Range> {
    if range.None? then None
    else
      var start, end := Normalized(range.value.start), Normalized(range.value.end);
      if start.None? || end.None? then None else Some(Range(start.value, end.value))
  }

  datatype LgbmResult = LgbmResult(syntheticFallback: bool, bundleStaged: bool, endDate: string)

  datatype Backtest = Backtest(
    verdictPass: bool,
    regressionFlagged: bool,
    leakagePass: bool,
    servicePolicyPass: bool,
    modelTrainEnd: string,
    expectedRange: Option<Range>,
    embeddedRange: Option<Range>)

  /** The post-backfill report; an absent or empty sub-result is None. */
  datatype Evidence = Evidence(
    passed: bool,
    endDate: string,
    businessDays: int,
    bundleId: string,
    trainingTickers: int,
    passedStages: set<string>,
    lgbm: Option<LgbmResult>,
    backtest: Option<Backtest>,
    replayRange: Option<Range>,
    preliveEnd: string,
    preliveDays: Option<int>)

  const REQUIRED_STAGES := [
    "02_feature_coverage", "02_lgbm_bundle", "03_service_policy_replay",
    "04_backtest", "05_paper_balance_reconciliation", "07_prelive_gate_after"]

  function Blocker(bad: bool, name: string): seq<string> { if bad then [name] else [] }

  function MissingStages(passed: set<string>, names: seq<string>): seq<string> {
    if |names| == 0 then []
    else MissingStages(passed, names[..|names| - 1])
         + Blocker(names[|names| - 1] !in passed, names[|names| - 1] + "_not_pass")
  }

  function LgbmBlockers(lgbm: LgbmResult): seq<string> {
    Blocker(lgbm.syntheticFallback, "lgbm_synthetic_fallback")
    + Blocker(!lgbm.bundleStaged, "candidate_bundle_not_staged")
  }

  /** A range that is missing, or that differs from a known expectation. */
  function RangeBlocker(range: Option<Range>, expected: Option<Range>, missing: string, mismatch: string): seq<string> {
    if range.None? then [missing] else Blocker(expected.Some? && range != expected, mismatch)
  }

  function BacktestBlockers(b: Backtest, replay: Option<Range>, target: string): seq<string> {
    var expected := NormalizedRange(b.expectedRange);
    Blocker(!b.verdictPass, "backtest_verdict_not_pass")
    + Blocker(b.regressionFlagged, "backtest_regression_flagged")
    + Blocker(!b.leakagePass, "backtest_leakage_not_pass")
    + Blocker(!b.servicePolicyPass, "service_policy_not_pass")
    + Blocker(Normalized(b.modelTrainEnd) != Some(target), "backtest_model_train_end_mismatch")
    + Blocker(expected.None?, "backtest_service_policy_expected_date_range_missing")
    + RangeBlocker(NormalizedRange(replay), expected,
                   "service_policy_replay_date_range_missing", "service_policy_replay_date_range_mismatch")
    + RangeBlocker(NormalizedRange(b.embeddedRange), expected,
                   "backtest_embedded_service_policy_date_range_missing",
                   "backtest_embedded_service_policy_date_range_mismatch")
  }

  /** What a promotion expects the evidence to be about. */
  datatype Expectation = Expectation(target: string, businessDays: nat, bundleId: string, maxTickers: nat)

  function ReportBlockers(e: Evidence, x: Expectation): seq<string> {
    Blocker(!e.passed, "post_backfill_status_not_pass")
    + Blocker(e.endDate != x.target, "post_backfill_end_date_mismatch")
    + Blocker(e.businessDays != x.businessDays, "post_backfill_business_days_mismatch")
    + Blocker(x.bundleId != "" && e.bundleId != x.bundleId, "post_backfill_bundle_id_mismatch")
    + Blocker(e.trainingTickers < x.maxTickers, "training_ticker_count_below_expected")
    + MissingStages(e.passedStages, REQUIRED_STAGES)
  }

  function PreliveBlockers(e: Evidence, x: Expectation): seq<string> {
    var lgbmEnd := if e.lgbm.Some? then Normalized(e.lgbm.value.endDate) else None;
    Blocker(lgbmEnd.Some? && lgbmEnd != Some(x.target), "lgbm_training_end_mismatch")
    + Blocker(e.preliveEnd != x.target, "prelive_gate_after_end_date_mismatch")
    + Blocker(e.preliveDays.Some? && e.preliveDays.value != x.businessDays, "prelive_gate_after_business_days_mismatch")
  }

  function LgbmPart(e: Evidence): seq<string> {
    if e.lgbm.Some? then LgbmBlockers(e.lgbm.value) else []
  }

  function BacktestPart(e: Evidence, x: Expectation): seq<string> {
    if e.backtest.Some? then BacktestBlockers(e.backtest.value, e.replayRange, x.target) else []
  }

  function EvidenceBlockers(e: Evidence, x: Expectation): seq<string> {
    ReportBlockers(e, x) + LgbmPart(e) + BacktestPart(e, x) + PreliveBlockers(e, x)
  }

  /** The report is about this target, window and bundle, and every required stage passed. */
  predicate ReportHolds(e: Evidence, x: Expectation) {
    && e.passed && e.endDate == x.target && e.businessDays == x.businessDays
    && (x.bundleId != "" ==> e.bundleId == x.bundleId)
    && e.trainingTickers >= x.maxTickers
    && forall i :: 0 <= i < |REQUIRED_STAGES| ==> REQUIRED_STAGES[i] in e.passedStages
  }

  /** A model result, when there is one, is real, staged and trained to the target. */
  predicate LgbmHolds(e: Evidence, x: Expectation) {
    e.lgbm.Some? ==>
      && !e.lgbm.value.syntheticFallback && e.lgbm.value.bundleStaged
      && Normalized(e.lgbm.value.endDate) in {None, Some(x.target)}
  }

  /** A backtest, when there is one, passed, trains to the target and replays one and the same range. */
  predicate BacktestHolds(e: Evidence, x: Expectation) {
    e.backtest.Some? ==>
      var b := e.backtest.value;
      && b.verdictPass && !b.regressionFlagged && b.leakagePass && b.servicePolicyPass
      && Normalized(b.modelTrainEnd) == Some(x.target)
      && NormalizedRange(b.expectedRange).Some?
      && NormalizedRange(e.replayRange) == NormalizedRange(b.expectedRange) == NormalizedRange(b.embeddedRange)
  }

  predicate PreliveHolds(e: Evidence, x: Expectation) {
    e.preliveEnd == x.target && (e.preliveDays.Some? ==> e.preliveDays.value == x.businessDays)
  }

  predicate EvidenceHolds(e: Evidence, x: Expectation) {
    ReportHolds(e, x) && LgbmHolds(e, x) && BacktestHolds(e, x) && PreliveHolds(e, x)
  }

  lemma {:induction false} NoMissingStages(passed: set<string>, names: seq<string>)
    ensures MissingStages(passed, names) == [] <==> forall i :: 0 <= i < |names| ==> names[i] in passed
  {
    if |names| > 0 { NoMissingStages(passed, names[..|names| - 1]); }
  }

  /** No blocker iff the evidence holds in every respect. */
  lemma EvidencePassesIff(e: Evidence, x: Expectation)
    ensures EvidenceBlockers(e, x) == [] <==> EvidenceHolds(e, x)
  {
    ReportPassesIff(e, x);
    LgbmAndPrelivePassIff(e, x);
    BacktestPassesIff(e, x);
    AllEmpty(ReportBlockers(e, x), LgbmPart(e), BacktestPart(e, x), PreliveBlockers(e, x));
    hide ReportBlockers, LgbmPart, BacktestPart, PreliveBlockers, ReportHolds, LgbmHolds, BacktestHolds, PreliveHolds;
  }

  lemma AllEmpty(a: seq<string>, b: seq<string>, c: seq<string>, d: seq<string>)
    ensures a + b + c + d == [] <==> a == [] && b == [] && c == [] && d == []
  {
    assert |a + b + c + d| == |a| + |b| + |c| + |d|;
  }

  lemma ReportPassesIff(e: Evidence, x: Expectation)
    ensures ReportBlockers(e, x) == [] <==> ReportHolds(e, x)
  {
    NoMissingStages(e.passedStages, REQUIRED_STAGES);
    hide MissingStages;
  }

  lemma LgbmAndPrelivePassIff(e: Evidence, x: Expectation)
    ensures LgbmPart(e) == [] && PreliveBlockers(e, x) == [] <==> LgbmHolds(e, x) && PreliveHolds(e, x)
  {
  }

  lemma BacktestPassesIff(e: Evidence, x: Expectation)
    ensures BacktestPart(e, x) == [] <==> BacktestHolds(e, x)
  {
  }

  // ----- promotion

  datatype PromotionConfig = PromotionConfig(
    enabled: bool,
    updateRiskConfig: bool,
    requireModeB: bool,
    requirePrelive: bool)

  /** Gate fields of risk_config as loaded, and the lines of the file. */
  datatype Gate = Gate(finalEnd: Option<Day>, businessDays: int, lines: seq<string>)

  /** Eight digits of a day, as the file spells it. */
  type DayFormat = Day -> string

  datatype Call = Call(
    target: Day,
    businessDays: nat,
    maxTickers: nat,
    bundleId: string,
    dryRun: bool,
    runPrelive: bool,
    modeB: bool,
    windowOpen: bool,
    modeBAtPromotion: bool,
    writeSucceeds: bool,
    evidence: Option<Evidence>)

  datatype Status = PASS | BLOCKED | SKIP | DRY_RUN | FAIL

  predicate AtOrAfter(end: Option<Day>, target: Day) { end.Some? && end.value >= target }

  function Expected(call: Call, fmt: DayFormat): Expectation {
    Expectation(fmt(call.target), call.businessDays, call.bundleId, call.maxTickers)
  }

  const PRELIVE_STAGE := "post_backfill_prelive"

  /** Everything that must hold before the file is touched. */
  ghost predicate MayPromote(gate: Gate, call: Call, cfg: PromotionConfig, preliveRan: bool, fmt: DayFormat) {
    && cfg.enabled && cfg.updateRiskConfig
    && !AtOrAfter(gate.finalEnd, call.target)
    && (cfg.requireModeB ==> call.modeBAtPromotion)
    && (cfg.requirePrelive ==>
          && call.runPrelive && preliveRan
          && call.evidence.Some? && EvidenceBlockers(call.evidence.value, Expected(call, fmt)) == [])
  }

  ghost predicate WillWrite(gate: Gate, call: Call) {
    EndFound(gate.lines) && DaysFound(gate.lines) && call.writeSucceeds
  }

  function Promoted(gate: Gate, call: Call, fmt: DayFormat): Gate {
    Gate(Some(call.target), call.businessDays, Rewritten(gate.lines, fmt(call.target), call.businessDays))
  }

  /** Promotion that is switched off or not needed leaves the run's PASS alone. */
  predicate PromotionSkipped(gate: Gate, call: Call, cfg: PromotionConfig) {
    !cfg.enabled || !cfg.updateRiskConfig || AtOrAfter(gate.finalEnd, call.target)
  }

  datatype Settings = Settings(retry: RetryConfig, stopOnFailure: bool, promotion: PromotionConfig)

  /** Whether every enabled stage of this update passes. */
  ghost predicate StagesPass(plan: seq<Stage>, settings: Settings) {
    forall i :: 0 <= i < |plan| && plan[i].enabled ==> StagePasses(plan[i].script, settings.retry)
  }

  ghost predicate PreliveEnabled(plan: seq<Stage>) {
    exists i :: 0 <= i < |plan| && plan[i].enabled && plan[i].name == PRELIVE_STAGE
  }

  ghost predicate ReachesPromotion(gate: Gate, call: Call, plan: seq<Stage>, settings: Settings) {
    && !AtOrAfter(gate.finalEnd, call.target)
    && !call.dryRun && call.modeB && call.windowOpen
    && StagesPass(plan, settings)
  }

  ghost predicate Promotes(gate: Gate, call: Call, plan: seq<Stage>, settings: Settings, fmt: DayFormat) {
    && ReachesPromotion(gate, call, plan, settings)
    && MayPromote(gate, call, settings.promotion, PreliveEnabled(plan), fmt)
    && WillWrite(gate, call)
  }

  ghost function NextGate(gate: Gate, call: Call, plan: seq<Stage>, settings: Settings, fmt: DayFormat): Gate {
    if Promotes(gate, call, plan, settings, fmt) then Promoted(gate, call, fmt) else gate
  }

  ghost function UpdateStatus(gate: Gate, call: Call, plan: seq<Stage>, settings: Settings, fmt: DayFormat): Status {
    if AtOrAfter(gate.finalEnd, call.target) then SKIP
    else if call.dryRun then DRY_RUN
    else if ReachesPromotion(gate, call, plan, settings)
         && (PromotionSkipped(gate, call, settings.promotion) || Promotes(gate, call, plan, settings, fmt)) then PASS
    else BLOCKED
  }

  class RiskConfig {
    var gate: Gate

    constructor (gate: Gate)
      ensures this.gate == gate
    {
      this.gate := gate;
    }

    /** `_promote_final_dataset_gate`, run after every enabled stage passed. */
    method Promote(call: Call, cfg: PromotionConfig, preliveRan: bool, fmt: DayFormat) returns (blocked: bool)
      modifies this
      ensures gate == (if MayPromote(old(gate), call, cfg, preliveRan, fmt) && WillWrite(old(gate), call)
                       then Promoted(old(gate), call, fmt) else old(gate))
      ensures blocked <==>
        && !PromotionSkipped(old(gate), call, cfg)
        && !(MayPromote(old(gate), call, cfg, preliveRan, fmt) && WillWrite(old(gate), call))
    {
      hide EndFound, DaysFound, EvidenceBlockers;
      if !cfg.enabled { return false; }
      if !cfg.updateRiskConfig { return false; }
      if AtOrAfter(gate.finalEnd, call.target) { return false; }
      if cfg.requireModeB && !call.modeBAtPromotion { return true; }
      if cfg.requirePrelive {
        if !call.runPrelive { return true; }
        if !preliveRan { return true; }
        if call.evidence.None? { return true; }
        if EvidenceBlockers(call.evidence.value, Expected(call, fmt)) != [] { return true; }
      }
      var updated, endFound, daysFound := RewriteLines(gate.lines, fmt(call.target), call.businessDays);
      if !endFound || !daysFound { return true; }
      if !call.writeSucceeds { return true; }
      gate := Gate(Some(call.target), call.businessDays, updated);
      blocked := false;
    }

    /** `run_update` for one target. */
    method RunUpdate(call: Call, plan: seq<Stage>, settings: Settings, fmt: DayFormat) returns (status: Status)
      requires Loaded(settings.retry)
      modifies this
      ensures gate == NextGate(old(gate), call, plan, settings, fmt)
      ensures status == UpdateStatus(old(gate), call, plan, settings, fmt)
    {
      hide EndFound, DaysFound, EvidenceBlockers, EnabledStages, AllPass, MayPromote, WillWrite;
      if AtOrAfter(gate.finalEnd, call.target) { return SKIP; }
      if call.dryRun { return DRY_RUN; }
      if !call.modeB || !call.windowOpen { return BLOCKED; }
      var recorded, blockers := RunPlan(plan, settings.retry, settings.stopOnFailure);
      if blockers != [] { return BLOCKED; }
      var preliveRan := HasPreliveStage(EnabledStages(plan));
      EnabledNames(plan, PRELIVE_STAGE);
      var blocked := Promote(call, settings.promotion, preliveRan, fmt);
      status := if blocked then BLOCKED else PASS;
    }
  }

  /** The report has an entry for the pre-live stage; after a pass of all stages it is a PASS entry. */
  method HasPreliveStage(stages: seq<Stage>) returns (found: bool)
    ensures found <==> exists i :: 0 <= i < |stages| && stages[i].name == PRELIVE_STAGE
  {
    found := false;
    for i := 0 to |stages|
      invariant found <==> exists k :: 0 <= k < i && stages[k].name == PRELIVE_STAGE
    {
      if stages[i].name == PRELIVE_STAGE { found := true; }
    }
  }

  // ----- runs of updates

  datatype Update = Update(call: Call, plan: seq<Stage>, settings: Settings)

  /** The gate after each update of a run, starting with the initial one. */
  ghost function Gates(gate: Gate, updates: seq<Update>, fmt: DayFormat): (r: seq<Gate>)
    ensures |r| == |updates| + 1 && r[0] == gate
    decreases |updates|
  {
    if |updates| == 0 then [gate]
    else [gate] + Gates(NextGate(gate, updates[0].call, updates[0].plan, updates[0].settings, fmt), updates[1..], fmt)
  }

  ghost predicate NotBefore(a: Option<Day>, b: Option<Day>) {
    a.None? || (b.Some? && a.value <= b.value)
  }

  /** One update: the end date stays, or moves strictly forward to a target with full evidence. */
  lemma UpdateMovesForward(gate: Gate, u: Update, fmt: DayFormat)
    ensures var next := NextGate(gate, u.call, u.plan, u.settings, fmt);
      && NotBefore(gate.finalEnd, next.finalEnd)
      && (next != gate ==>
            && next.finalEnd == Some(u.call.target) && next.businessDays == u.call.businessDays
            && !AtOrAfter(gate.finalEnd, u.call.target)
            && !u.call.dryRun && u.call.modeB && u.call.windowOpen
            && (forall i :: 0 <= i < |u.plan| && u.plan[i].enabled ==> StagePasses(u.plan[i].script, u.settings.retry))
            && (u.settings.promotion.requirePrelive ==>
                  u.call.evidence.Some? && EvidenceHolds(u.call.evidence.value, Expected(u.call, fmt))))
      && |next.lines| == |gate.lines|
      && (forall i :: 0 <= i < |gate.lines| && !Replaced(gate.lines, i) ==> next.lines[i] == gate.lines[i])
  {
    hide EnabledStages, AllPass, EndFound, DaysFound, Replaced, EvidenceBlockers, EvidenceHolds;
    if u.call.evidence.Some? { EvidencePassesIff(u.call.evidence.value, Expected(u.call, fmt)); }
  }

  /** The gate moves exactly when everything asked for holds, and then to what the call says. */
  lemma UpdateMovesIff(gate: Gate, u: Update, fmt: DayFormat)
    ensures var next, cfg := NextGate(gate, u.call, u.plan, u.settings, fmt), u.settings.promotion;
      var moves :=
        && (gate.finalEnd.None? || gate.finalEnd.value < u.call.target)
        && !u.call.dryRun && u.call.modeB && u.call.windowOpen
        && (forall i :: 0 <= i < |u.plan| && u.plan[i].enabled ==> StagePasses(u.plan[i].script, u.settings.retry))
        && cfg.enabled && cfg.updateRiskConfig && (cfg.requireModeB ==> u.call.modeBAtPromotion)
        && (cfg.requirePrelive ==>
              && u.call.runPrelive && u.call.evidence.Some?
              && EvidenceHolds(u.call.evidence.value, Expected(u.call, fmt))
              && exists i :: 0 <= i < |u.plan| && u.plan[i].enabled && u.plan[i].name == "post_backfill_prelive")
        && EndFound(gate.lines) && DaysFound(gate.lines) && u.call.writeSucceeds;
      && (next != gate <==> moves)
      && (moves ==> next == Gate(Some(u.call.target), u.call.businessDays,
                                 Rewritten(gate.lines, fmt(u.call.target), u.call.businessDays)))
  {
    hide EndFound, DaysFound, EvidenceBlockers, EvidenceHolds, Rewritten, StagePasses;
    if u.call.evidence.Some? { EvidencePassesIff(u.call.evidence.value, Expected(u.call, fmt)); }
  }

  /** What each status of an update says. */
  lemma StatusMeans(gate: Gate, u: Update, fmt: DayFormat)
    ensures var status := UpdateStatus(gate, u.call, u.plan, u.settings, fmt);
      var next, cfg := NextGate(gate, u.call, u.plan, u.settings, fmt), u.settings.promotion;
      && (status == SKIP <==> gate.finalEnd.Some? && gate.finalEnd.value >= u.call.target)
      && (status == DRY_RUN ==> u.call.dryRun) && status != FAIL
      && (u.call.dryRun ==> status in {SKIP, DRY_RUN})
      && (status == PASS ==>
            && (forall i :: 0 <= i < |u.plan| && u.plan[i].enabled ==> StagePasses(u.plan[i].script, u.settings.retry))
            && u.call.modeB && u.call.windowOpen
            && (cfg.enabled && cfg.updateRiskConfig ==> next.finalEnd == Some(u.call.target)))
      && (next != gate ==> status == PASS)
      && (status == BLOCKED ==>
            || !u.call.modeB || !u.call.windowOpen
            || (exists i :: 0 <= i < |u.plan| && u.plan[i].enabled && !StagePasses(u.plan[i].script, u.settings.retry))
            || (cfg.enabled && cfg.updateRiskConfig && next == gate))
  {
    hide EndFound, DaysFound, EvidenceBlockers, MayPromote, WillWrite, Rewritten, StagePasses;
    UpdateMovesForward(gate, u, fmt);
  }

  /** Over any run the final dataset end never moves back, and moves only by promotion. */
  lemma {:induction false} EndDateNeverMovesBack(gate: Gate, updates: seq<Update>, fmt: DayFormat, i: nat, j: nat)
    requires i <= j <= |updates|
    ensures var gates := Gates(gate, updates, fmt);
      && NotBefore(gates[i].finalEnd, gates[j].finalEnd)
      && (gates[j].finalEnd != gates[i].finalEnd ==>
            exists k :: i <= k < j && gates[j].finalEnd == Some(updates[k].call.target)
              && Promotes(gates[k], updates[k].call, updates[k].plan, updates[k].settings, fmt))
    decreases j
  {
    var gates := Gates(gate, updates, fmt);
    if i < j {
      GatesStep(gate, updates, fmt, j - 1);
      EndDateNeverMovesBack(gate, updates, fmt, i, j - 1);
      hide Promotes, Gates;
      UpdateMovesForward(gates[j - 1], updates[j - 1], fmt);
      if gates[j].finalEnd != gates[i].finalEnd && gates[j] != gates[j - 1] {
        assert Promotes(gates[j - 1], updates[j - 1].call, updates[j - 1].plan, updates[j - 1].settings, fmt);
      }
    }
  }

  lemma {:induction false} GatesStep(gate: Gate, updates: seq<Update>, fmt: DayFormat, k: nat)
    requires k < |updates|
    ensures Gates(gate, updates, fmt)[k + 1]
         == NextGate(Gates(gate, updates, fmt)[k], updates[k].call, updates[k].plan, updates[k].settings, fmt)
    decreases |updates|
  {
    hide NextGate;
    if k > 0 {
      var u := updates[0];
      GatesStep(NextGate(gate, u.call, u.plan, u.settings, fmt), updates[1..], fmt, k - 1);
    }
  }

  // ----- the file during a run

  /** Every field line of the block reads as the gate's own end date and window. */
  ghost predicate FileSpellsGate(gate: Gate, fmt: DayFormat) {
    && gate.finalEnd.Some?
    && forall i :: 0 <= i < |gate.lines| && InsideAt(gate.lines, i) ==>
         && (IsEndLine(gate.lines[i]) ==> SpellsEnd(gate.lines[i], fmt(gate.finalEnd.value)))
         && (IsDaysLine(gate.lines[i]) ==> SpellsDays(gate.lines[i], gate.businessDays))
  }

  predicate SpellsEnd(line: string, text: string) {
    ReadQuoted(line).Some? && ReadQuoted(line).value.text == text
  }

  predicate SpellsDays(line: string, days: int) {
    ReadNumber(line).Some? && ReadNumber(line).value.value == days
  }

  /** Dates are spelled without line boundaries and quotes. */
  ghost predicate PlainDates(fmt: DayFormat) {
    forall d :: BreakFree(fmt(d)) && '"' !in fmt(d)
  }

  lemma PromotedSpells(gate: Gate, call: Call, fmt: DayFormat)
    requires '"' !in fmt(call.target)
    ensures FileSpellsGate(Promoted(gate, call, fmt), fmt)
  {
    hide InsideAt, IsEndLine, IsDaysLine, ReadQuoted, ReadNumber, Rewritten;
    var lines := Promoted(gate, call, fmt).lines;
    forall i | 0 <= i < |lines| && InsideAt(lines, i)
      ensures IsEndLine(lines[i]) ==> SpellsEnd(lines[i], fmt(call.target))
      ensures IsDaysLine(lines[i]) ==> SpellsDays(lines[i], call.businessDays)
    {
      FieldsReadBack(gate.lines, fmt(call.target), call.businessDays, i);
    }
  }

  /**
   From the first promotion of a run on, the file always spells the gate; and if the lines
   were ones a file can hold, they still are, so every update reads what the last one wrote.
   */
  lemma {:induction false} FileFollowsGate(gate: Gate, updates: seq<Update>, fmt: DayFormat, i: nat, j: nat)
    requires i <= j <= |updates| && PlainDates(fmt)
    ensures var gates := Gates(gate, updates, fmt);
      && (gates[j] == gates[i] || FileSpellsGate(gates[j], fmt))
      && (FileSpellsGate(gates[i], fmt) ==> FileSpellsGate(gates[j], fmt))
      && (Rereadable(gates[i].lines) ==> Rereadable(gates[j].lines))
    decreases j
  {
    var gates := Gates(gate, updates, fmt);
    if i < j {
      hide Gates, NextGate, FileSpellsGate, Rereadable, PlainDates;
      GatesStep(gate, updates, fmt, j - 1);
      FileFollowsGate(gate, updates, fmt, i, j - 1);
      UpdateKeepsFile(gates[j - 1], updates[j - 1], fmt);
    }
  }

  lemma UpdateKeepsFile(gate: Gate, u: Update, fmt: DayFormat)
    requires PlainDates(fmt)
    ensures var next := NextGate(gate, u.call, u.plan, u.settings, fmt);
      && (next == gate || FileSpellsGate(next, fmt))
      && (Rereadable(gate.lines) ==> Rereadable(next.lines))
  {
    hide Promotes, FileSpellsGate, Rereadable, BreakFree, Rewritten;
    PromotedSpells(gate, u.call, fmt);
    if Rereadable(gate.lines) { RewriteRereads(gate.lines, fmt(u.call.target), u.call.businessDays); }
  }
}
