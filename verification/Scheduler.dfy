/**
 The local scheduler of post_close_data_update_scheduler.py with an explicit state file:
 the tick decision, one run, and what holds over every sequence of unforced ticks.
 */
module Scheduler {
  import opened Common
  import opened TradingCalendar
  import opened StageRetry
  import opened ConfigText
  import opened PostCloseUpdate

  /** run_time is None when the configured value does not parse. */
  datatype Config = Config(
    cal: Calendar,
    enabled: bool,
    runTime: Option<int>,
    retryAfter: nat,
    snapshotTime: int,
    dryRun: bool)

  /** The persisted JSON document. */
  datatype State = State(target: Option<Day>, status: Option<Status>, attemptedAt: Option<Moment>)

  const EMPTY_STATE := State(None, None, None)

  datatype Reason =
    | RunTimeInvalid
    | Disabled
    | BeforeRunTime
    | NotTradingDay
    | AlreadyFinal
    | AlreadyPassed
    | WaitRetry
    | Due

  function TargetAt(cfg: Config, now: Moment): Day {
    LatestPitSafeTradingDay(cfg.cal, cfg.snapshotTime, now)
  }

  /** The last recorded attempt was on this target, failed, and is less than the retry delay ago. */
  predicate RecentlyFailed(cfg: Config, now: Moment, state: State, target: Day) {
    && state.target == Some(target) && state.status in {Some(BLOCKED), Some(FAIL)}
    && state.attemptedAt.Some? && now - state.attemptedAt.value < cfg.retryAfter
  }

  function EvaluateTick(cfg: Config, now: Moment, state: State, finalEnd: Option<Day>): Reason {
    var target := TargetAt(cfg, now);
    if cfg.runTime.None? then RunTimeInvalid
    else if !cfg.enabled then Disabled
    else if TimeOf(now) < cfg.runTime.value then BeforeRunTime
    else if !IsTradingDay(cfg.cal, DateOf(now)) then NotTradingDay
    else if AtOrAfter(finalEnd, target) then AlreadyFinal
    else if state.target == Some(target) && state.status == Some(PASS) then AlreadyPassed
    else if RecentlyFailed(cfg, now, state, target) then WaitRetry
    else Due
  }

  /** Where an exception interrupted the update, if anywhere. */
  datatype Fault = NoFault | BeforeUpdate | AfterUpdate

  /** One wake-up: when it evaluates, when its update ends, and what the update meets. */
  datatype Tick = Tick(now: Moment, finished: Moment, update: Update, fault: Fault)

  datatype Attempt = Attempt(target: Day, now: Moment, finished: Moment, status: Status)

  datatype World = World(state: State, gate: Gate)

  function CallFor(cfg: Config, tick: Tick): Call {
    tick.update.call.(target := TargetAt(cfg, tick.now), dryRun := cfg.dryRun)
  }

  predicate IsDue(cfg: Config, w: World, tick: Tick) {
    EvaluateTick(cfg, tick.now, w.state, w.gate.finalEnd) == Due
  }

  ghost function AttemptAt(cfg: Config, w: World, tick: Tick, fmt: DayFormat): Attempt {
    Attempt(TargetAt(cfg, tick.now), tick.now, tick.finished,
            if tick.fault != NoFault then FAIL
            else UpdateStatus(w.gate, CallFor(cfg, tick), tick.update.plan, tick.update.settings, fmt))
  }

  ghost function Step(cfg: Config, w: World, tick: Tick, fmt: DayFormat): World {
    if !IsDue(cfg, w, tick) then w
    else
      var a := AttemptAt(cfg, w, tick, fmt);
      World(
        State(Some(a.target), Some(a.status), Some(a.finished)),
        if tick.fault == BeforeUpdate then w.gate
        else NextGate(w.gate, CallFor(cfg, tick), tick.update.plan, tick.update.settings, fmt))
  }

  /** Which decision each state of affairs leads to, the first that applies. */
  lemma DecisionIs(cfg: Config, now: Moment, state: State, finalEnd: Option<Day>)
    ensures var reason := EvaluateTick(cfg, now, state, finalEnd);
      && (reason == RunTimeInvalid <==> cfg.runTime.None?)
      && (reason == Disabled ==> !cfg.enabled)
      && (reason == BeforeRunTime ==> cfg.enabled && now % 86400 < cfg.runTime.value)
      && (reason == NotTradingDay ==> !IsTradingDay(cfg.cal, now / 86400) && now % 86400 >= cfg.runTime.value)
      && (reason == AlreadyFinal ==> finalEnd.Some? && finalEnd.value >= TargetAt(cfg, now))
      && (reason == AlreadyPassed ==> state.status == Some(PASS) && state.target == Some(TargetAt(cfg, now)))
      && (reason == WaitRetry ==>
            && state.status in {Some(BLOCKED), Some(FAIL)} && state.target == Some(TargetAt(cfg, now))
            && state.attemptedAt.Some? && now - state.attemptedAt.value < cfg.retryAfter)
  {
    hide LatestPitSafeTradingDay, IsTradingDay;
  }

  /** What one tick leaves behind: nothing when it is not due, else the attempt, as it ended. */
  lemma TickLeaves(cfg: Config, w: World, tick: Tick, fmt: DayFormat)
    ensures var after := Step(cfg, w, tick, fmt);
      var u := Update(CallFor(cfg, tick), tick.update.plan, tick.update.settings);
      && u.call.target == LatestPitSafeTradingDay(cfg.cal, cfg.snapshotTime, tick.now) && u.call.dryRun == cfg.dryRun
      && u.call == tick.update.call.(target := u.call.target, dryRun := u.call.dryRun)
      && (!IsDue(cfg, w, tick) ==> after == w)
      && (IsDue(cfg, w, tick) ==>
            && after.state.target == Some(u.call.target) && after.state.attemptedAt == Some(tick.finished)
            && (tick.fault in {BeforeUpdate, AfterUpdate} ==> after.state.status == Some(FAIL))
            && (tick.fault == NoFault ==>
                  after.state.status == Some(UpdateStatus(w.gate, u.call, u.plan, u.settings, fmt)))
            && (tick.fault == BeforeUpdate ==> after.gate == w.gate)
            && (tick.fault in {NoFault, AfterUpdate} ==>
                  after.gate == NextGate(w.gate, u.call, u.plan, u.settings, fmt)))
  {
    hide LatestPitSafeTradingDay, NextGate, UpdateStatus, EvaluateTick;
  }

  class LocalScheduler {
    var state: State
    const config: RiskConfig

    constructor (config: RiskConfig)
      ensures this.config == config && state == EMPTY_STATE
    {
      this.config := config;
      state := EMPTY_STATE;
    }

    /** `run_once` without force. */
    method RunOnce(cfg: Config, tick: Tick, fmt: DayFormat) returns (ran: bool)
      requires Loaded(tick.update.settings.retry)
      modifies this, config
      ensures World(state, config.gate) == Step(cfg, World(old(state), old(config.gate)), tick, fmt)
      ensures ran <==> IsDue(cfg, World(old(state), old(config.gate)), tick)
    {
      hide NextGate, UpdateStatus;
      var reason := EvaluateTick(cfg, tick.now, state, config.gate.finalEnd);
      if reason != Due { return false; }
      var call := CallFor(cfg, tick);
      var status := FAIL;
      if tick.fault != BeforeUpdate {
        status := config.RunUpdate(call, tick.update.plan, tick.update.settings, fmt);
        if tick.fault == AfterUpdate { status := FAIL; }
      }
      state := State(Some(call.target), Some(status), Some(tick.finished));
      ran := true;
    }
  }

  // ----- whole runs

  ghost function After(cfg: Config, w: World, ticks: seq<Tick>, fmt: DayFormat): World {
    if |ticks| == 0 then w
    else Step(cfg, After(cfg, w, ticks[..|ticks| - 1], fmt), ticks[|ticks| - 1], fmt)
  }

  /** The attempts of a run, in order. */
  ghost function Log(cfg: Config, w: World, ticks: seq<Tick>, fmt: DayFormat): seq<Attempt> {
    if |ticks| == 0 then []
    else
      var init, last := ticks[..|ticks| - 1], ticks[|ticks| - 1];
      var before := After(cfg, w, init, fmt);
      Log(cfg, w, init, fmt) + (if IsDue(cfg, before, last) then [AttemptAt(cfg, before, last, fmt)] else [])
  }

  /** The clock does not run backwards, during an update or between ticks. */
  ghost predicate ClockRunsForward(ticks: seq<Tick>) {
    && (forall i :: 0 <= i < |ticks| ==> ticks[i].now <= ticks[i].finished)
    && (forall i, j :: 0 <= i < j < |ticks| ==> ticks[i].finished <= ticks[j].now)
  }

  /** The state file records exactly the last attempt. */
  ghost predicate Records(state: State, log: seq<Attempt>) {
    if |log| == 0 then state == EMPTY_STATE
    else
      var a := log[|log| - 1];
      state == State(Some(a.target), Some(a.status), Some(a.finished))
  }

  /** What one attempt allows the next one to be. */
  predicate MayFollow(cfg: Config, a: Attempt, b: Attempt) {
    && a.target <= b.target
    && a.finished <= b.now
    && (a.target == b.target ==>
          && a.status != PASS
          && (a.status in {BLOCKED, FAIL} ==> b.now - a.finished >= cfg.retryAfter))
  }

  ghost predicate Sound(cfg: Config, log: seq<Attempt>, clock: Moment) {
    && (forall i :: 0 <= i < |log| ==>
          log[i].target == TargetAt(cfg, log[i].now) && log[i].now <= log[i].finished <= clock)
    && (forall i {:trigger log[i]} :: 0 < i < |log| ==> MayFollow(cfg, log[i - 1], log[i]))
  }

  lemma SoundLater(cfg: Config, log: seq<Attempt>, clock: Moment, later: Moment)
    requires Sound(cfg, log, clock) && clock <= later
    ensures Sound(cfg, log, later)
  {
    hide TargetAt, MayFollow;
  }

  /** The scheduler is switched on and the day, the time and the final dataset leave it something to do. */
  predicate Ready(cfg: Config, w: World, now: Moment) {
    && cfg.enabled && cfg.runTime.Some? && TimeOf(now) >= cfg.runTime.value
    && IsTradingDay(cfg.cal, DateOf(now)) && !AtOrAfter(w.gate.finalEnd, TargetAt(cfg, now))
  }

  /** For any state document: due iff ready and neither a pass nor a fresh failure of this target is recorded. */
  lemma DueIff(cfg: Config, w: World, tick: Tick)
    ensures IsDue(cfg, w, tick) <==>
      && cfg.enabled && cfg.runTime.Some? && tick.now % 86400 >= cfg.runTime.value
      && IsTradingDay(cfg.cal, tick.now / 86400)
      && (w.gate.finalEnd.None? || w.gate.finalEnd.value < TargetAt(cfg, tick.now))
      && !(w.state.target == Some(TargetAt(cfg, tick.now)) && w.state.status == Some(PASS))
      && !(&& w.state.target == Some(TargetAt(cfg, tick.now)) && w.state.status in {Some(BLOCKED), Some(FAIL)}
           && w.state.attemptedAt.Some? && tick.now - w.state.attemptedAt.value < cfg.retryAfter)
  {
    hide LatestPitSafeTradingDay, IsTradingDay;
  }

  /** Without a complete record of an attempt on this target nothing holds a ready scheduler back. */
  lemma UnrecordedIsDue(cfg: Config, w: World, tick: Tick)
    requires Ready(cfg, w, tick.now)
    requires || w.state.target != Some(TargetAt(cfg, tick.now)) || w.state.status.None?
             || (w.state.status != Some(PASS) && w.state.attemptedAt.None?)
    ensures IsDue(cfg, w, tick)
  {
    DueIff(cfg, w, tick);
    hide LatestPitSafeTradingDay, IsTradingDay, EvaluateTick, IsDue;
  }

  /** A tick is due iff the scheduler is ready and the attempt may follow the one the state file records. */
  lemma DueIffMayFollow(cfg: Config, w: World, a: Attempt, tick: Tick, fmt: DayFormat)
    requires w.state == State(Some(a.target), Some(a.status), Some(a.finished))
    requires a.target == TargetAt(cfg, a.now) && a.now <= a.finished <= tick.now
    ensures IsDue(cfg, w, tick) <==> Ready(cfg, w, tick.now) && MayFollow(cfg, a, AttemptAt(cfg, w, tick, fmt))
  {
    PitSafeDayIsMonotone(cfg.cal, cfg.snapshotTime, a.now, tick.now);
    hide LatestPitSafeTradingDay, UpdateStatus, IsTradingDay, AtOrAfter, TimeOf, DateOf;
  }

  lemma StepIsSound(cfg: Config, before: World, log: seq<Attempt>, tick: Tick, fmt: DayFormat)
    requires Records(before.state, log) && Sound(cfg, log, tick.now) && tick.now <= tick.finished
    ensures var more := log + (if IsDue(cfg, before, tick) then [AttemptAt(cfg, before, tick, fmt)] else []);
      Records(Step(cfg, before, tick, fmt).state, more) && Sound(cfg, more, tick.finished)
  {
    hide NextGate, UpdateStatus, MayFollow, LatestPitSafeTradingDay, EvaluateTick;
    SoundLater(cfg, log, tick.now, tick.finished);
    if IsDue(cfg, before, tick) {
      if |log| > 0 { DueIffMayFollow(cfg, before, log[|log| - 1], tick, fmt); }
      AppendSound(cfg, log, AttemptAt(cfg, before, tick, fmt), tick.finished);
    } else {
      assert log + [] == log;
    }
  }

  lemma AppendSound(cfg: Config, log: seq<Attempt>, a: Attempt, clock: Moment)
    requires Sound(cfg, log, clock)
    requires a.target == TargetAt(cfg, a.now) && a.now <= a.finished <= clock
    requires |log| > 0 ==> MayFollow(cfg, log[|log| - 1], a)
    ensures Sound(cfg, log + [a], clock)
  {
    hide TargetAt, MayFollow;
    var more := log + [a];
    forall i {:trigger more[i]} | 0 < i < |more| ensures MayFollow(cfg, more[i - 1], more[i]) {
      if i < |log| { assert MayFollow(cfg, log[i - 1], log[i]); }
    }
  }

  lemma {:induction false} RunIsSound(cfg: Config, gate: Gate, ticks: seq<Tick>, fmt: DayFormat)
    requires ClockRunsForward(ticks)
    ensures var w := World(EMPTY_STATE, gate);
      && Records(After(cfg, w, ticks, fmt).state, Log(cfg, w, ticks, fmt))
      && (|ticks| == 0 || Sound(cfg, Log(cfg, w, ticks, fmt), ticks[|ticks| - 1].finished))
  {
    if |ticks| > 0 {
      var w := World(EMPTY_STATE, gate);
      var init, last := ticks[..|ticks| - 1], ticks[|ticks| - 1];
      RunIsSound(cfg, gate, init, fmt);
      var before, log := After(cfg, w, init, fmt), Log(cfg, w, init, fmt);
      assert Sound(cfg, log, last.now) by {
        if |init| > 0 { SoundLater(cfg, log, init[|init| - 1].finished, last.now); }
      }
      hide Records, Sound, Step, IsDue, AttemptAt;
      StepIsSound(cfg, before, log, last, fmt);
    }
  }

  /** Any two attempts of a sound log: targets never go back, and nothing follows a pass of its target. */
  lemma {:induction false} LaterAttempts(cfg: Config, log: seq<Attempt>, clock: Moment, i: nat, j: nat)
    requires Sound(cfg, log, clock) && i < j < |log|
    ensures log[i].target <= log[j].target && log[i].finished <= log[j].now
    ensures log[i].status == PASS ==> log[i].target < log[j].target
    ensures log[i].target == log[j].target && log[j - 1].status in {BLOCKED, FAIL} ==>
      log[j].now - log[j - 1].finished >= cfg.retryAfter
    decreases j
  {
    hide TargetAt;
    assert MayFollow(cfg, log[j - 1], log[j]);
    if i < j - 1 { LaterAttempts(cfg, log, clock, i, j - 1); }
  }

  /** From an empty state file the first tick that finds the scheduler ready is attempted, and none before it. */
  lemma {:induction false} FirstReadyTickIsAttempted(cfg: Config, gate: Gate, ticks: seq<Tick>, fmt: DayFormat)
    requires |ticks| > 0
    requires forall i :: 0 <= i < |ticks| - 1 ==> !Ready(cfg, World(EMPTY_STATE, gate), ticks[i].now)
    requires Ready(cfg, World(EMPTY_STATE, gate), ticks[|ticks| - 1].now)
    ensures var w, last := World(EMPTY_STATE, gate), ticks[|ticks| - 1];
      && After(cfg, w, ticks[..|ticks| - 1], fmt) == w
      && Log(cfg, w, ticks, fmt) == [AttemptAt(cfg, w, last, fmt)]
  {
    var w := World(EMPTY_STATE, gate);
    NothingReady(cfg, gate, ticks[..|ticks| - 1], fmt);
    UnrecordedIsDue(cfg, w, ticks[|ticks| - 1]);
    hide Ready, IsDue, AttemptAt;
  }

  lemma {:induction false} NothingReady(cfg: Config, gate: Gate, ticks: seq<Tick>, fmt: DayFormat)
    requires forall i :: 0 <= i < |ticks| ==> !Ready(cfg, World(EMPTY_STATE, gate), ticks[i].now)
    ensures After(cfg, World(EMPTY_STATE, gate), ticks, fmt) == World(EMPTY_STATE, gate)
    ensures Log(cfg, World(EMPTY_STATE, gate), ticks, fmt) == []
  {
    if |ticks| > 0 {
      NothingReady(cfg, gate, ticks[..|ticks| - 1], fmt);
      DueIff(cfg, World(EMPTY_STATE, gate), ticks[|ticks| - 1]);
      hide IsDue, AttemptAt, NextGate, LatestPitSafeTradingDay, IsTradingDay;
    }
  }

  /**
   Over every run of unforced ticks from an empty state file, with a clock that never runs
   backwards: targets never go back, a target that passed is never attempted again, and a
   retry after a BLOCKED or FAIL on the same target waits for the configured delay.
   */
  lemma EveryRunIsOrderly(cfg: Config, gate: Gate, ticks: seq<Tick>, fmt: DayFormat, i: nat, j: nat)
    requires ClockRunsForward(ticks)
    requires i < j < |Log(cfg, World(EMPTY_STATE, gate), ticks, fmt)|
    ensures var log := Log(cfg, World(EMPTY_STATE, gate), ticks, fmt);
      && log[i].target <= log[j].target
      && (log[i].status == PASS ==> log[i].target < log[j].target)
      && (log[i].target == log[j].target && log[j - 1].status in {BLOCKED, FAIL} ==>
            log[j].now - log[j - 1].finished >= cfg.retryAfter)
  {
    RunIsSound(cfg, gate, ticks, fmt);
    assert |ticks| > 0;
    hide After, Log, TargetAt, Sound, ClockRunsForward;
    LaterAttempts(cfg, Log(cfg, World(EMPTY_STATE, gate), ticks, fmt), ticks[|ticks| - 1].finished, i, j);
  }

  /** Scheduled updates never take the final dataset past the newest PIT-safe day. */
  lemma {:induction false} FinalEndNeverAhead(cfg: Config, w: World, ticks: seq<Tick>, fmt: DayFormat, start: Moment)
    requires ClockRunsForward(ticks)
    requires |ticks| > 0 ==> start <= ticks[0].now
    requires w.gate.finalEnd.Some? ==> w.gate.finalEnd.value <= TargetAt(cfg, start)
    ensures var end := After(cfg, w, ticks, fmt).gate.finalEnd;
      end.Some? ==> end.value <= TargetAt(cfg, if |ticks| == 0 then start else ticks[|ticks| - 1].finished)
  {
    if |ticks| > 0 {
      var init, last := ticks[..|ticks| - 1], ticks[|ticks| - 1];
      FinalEndNeverAhead(cfg, w, init, fmt, start);
      var before := After(cfg, w, init, fmt);
      var seen := if |init| == 0 then start else init[|init| - 1].finished;
      assert seen <= last.now <= last.finished;
      PitSafeDayIsMonotone(cfg.cal, cfg.snapshotTime, seen, last.finished);
      PitSafeDayIsMonotone(cfg.cal, cfg.snapshotTime, last.now, last.finished);
      hide LatestPitSafeTradingDay, Promotes, UpdateStatus, EvaluateTick;
      assert NextGate(before.gate, CallFor(cfg, last), last.update.plan, last.update.settings, fmt).finalEnd
          in {before.gate.finalEnd, Some(TargetAt(cfg, last.now))};
    }
  }

  /**
   Over every run of ticks the dataset end never moves back, the file spells the gate from the
   first promotion on, and lines a file can hold stay such lines.
   */
  lemma {:induction false} RunKeepsGate(cfg: Config, w: World, ticks: seq<Tick>, fmt: DayFormat, i: nat)
    requires i <= |ticks| && PlainDates(fmt)
    ensures var earlier, later := After(cfg, w, ticks[..i], fmt).gate, After(cfg, w, ticks, fmt).gate;
      && NotBefore(earlier.finalEnd, later.finalEnd)
      && (later == earlier || FileSpellsGate(later, fmt))
      && (FileSpellsGate(earlier, fmt) ==> FileSpellsGate(later, fmt))
      && (Rereadable(earlier.lines) ==> Rereadable(later.lines))
    decreases |ticks|
  {
    hide FileSpellsGate, Rereadable, PlainDates, NextGate, AttemptAt, IsDue;
    if i < |ticks| {
      var init, last := ticks[..|ticks| - 1], ticks[|ticks| - 1];
      assert init[..i] == ticks[..i];
      RunKeepsGate(cfg, w, init, fmt, i);
      var before := After(cfg, w, init, fmt);
      var u := Update(CallFor(cfg, last), last.update.plan, last.update.settings);
      UpdateKeepsFile(before.gate, u, fmt);
      EndMovesForward(before.gate, u, fmt);
    } else {
      assert ticks[..i] == ticks;
    }
  }

  lemma EndMovesForward(gate: Gate, u: Update, fmt: DayFormat)
    ensures NotBefore(gate.finalEnd, NextGate(gate, u.call, u.plan, u.settings, fmt).finalEnd)
  {
    UpdateMovesForward(gate, u, fmt);
    hide NextGate;
  }

  /** A dry run records DRY_RUN, which no delay applies to: any later tick is due as soon as the scheduler is ready. */
  lemma DryRunIsDueAgain(cfg: Config, w: World, tick: Tick, next: Tick, fmt: DayFormat)
    requires cfg.dryRun && IsDue(cfg, w, tick) && tick.fault == NoFault
    requires tick.now <= tick.finished <= next.now
    ensures var after := Step(cfg, w, tick, fmt);
      && after.state.status == Some(DRY_RUN) && after.gate == w.gate
      && (IsDue(cfg, after, next) <==> Ready(cfg, after, next.now))
  {
    var a := AttemptAt(cfg, w, tick, fmt);
    PitSafeDayIsMonotone(cfg.cal, cfg.snapshotTime, tick.now, next.now);
    DueIffMayFollow(cfg, Step(cfg, w, tick, fmt), a, next, fmt);
    hide LatestPitSafeTradingDay, IsTradingDay;
  }
}
