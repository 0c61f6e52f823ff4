/**
 The staged pipeline of run_update in post_close_data_update.py: every enabled stage is run
 with bounded retries inside the Mode B window, and a failed stage may stop the plan.
 Stage commands and window checks are inputs: one `Turn` per stage attempt.
 */
module StageRetry {
  import opened Common

  datatype StageResult = StageResult(
    passed: bool,
    retryable: bool,
    failureClass: string,
    failureClasses: seq<string>,
    retryAfterSec: Option<int>)

  /** Attempt outcome, and the window checks after it failed and before it was made. */
  datatype Turn = Turn(result: StageResult, openAfter: bool, openBefore: bool)

  /** Turns by attempt number, counted from 1. */
  type Script = nat -> Turn

  datatype Entry = Ran(result: StageResult) | WindowClosed

  datatype RetryConfig = RetryConfig(enabled: bool, maxAttempts: nat, backoff: nat, maxRetryAfter: nat)

  /** What the configuration loader guarantees after clamping. */
  predicate Loaded(cfg: RetryConfig) {
    cfg.maxAttempts >= 1 && cfg.backoff <= cfg.maxRetryAfter
  }

  const TRANSIENT := "transient_"

  predicate Retryable(r: StageResult) {
    || r.retryable
    || TRANSIENT <= r.failureClass
    || (r.failureClasses != [] && forall i :: 0 <= i < |r.failureClasses| ==> TRANSIENT <= r.failureClasses[i])
  }

  ghost predicate IsTransient(name: string) {
    exists rest :: name == "transient_" + rest
  }

  lemma TransientIff(name: string)
    ensures IsTransient(name) <==> TRANSIENT <= name
  {
    if TRANSIENT <= name { assert name == "transient_" + name[|TRANSIENT|..]; }
  }

  /** Retried are results marked so, or whose one class, or every one of several classes, is transient. */
  lemma RetryableIff(r: StageResult)
    ensures Retryable(r) <==>
      || r.retryable || IsTransient(r.failureClass)
      || (|r.failureClasses| > 0 && forall i :: 0 <= i < |r.failureClasses| ==> IsTransient(r.failureClasses[i]))
  {
    TransientIff(r.failureClass);
    forall i | 0 <= i < |r.failureClasses|
      ensures IsTransient(r.failureClasses[i]) <==> TRANSIENT <= r.failureClasses[i]
    {
      TransientIff(r.failureClasses[i]);
    }
    hide IsTransient;
  }

  /** A malformed or missing value falls back to the back-off; a readable one is clamped. */
  function RetryAfter(r: StageResult, cfg: RetryConfig): (s: nat)
    requires Loaded(cfg)
    ensures s <= cfg.maxRetryAfter
    ensures r.retryAfterSec.None? ==> s == cfg.backoff
    ensures r.retryAfterSec.Some? ==>
      var v := r.retryAfterSec.value;
      && (v <= 0 ==> s == 0) && (v >= cfg.maxRetryAfter ==> s == cfg.maxRetryAfter)
      && (0 <= v <= cfg.maxRetryAfter ==> s == v)
  {
    match r.retryAfterSec
    case None => cfg.backoff
    case Some(v) => Min(Max(0, v), cfg.maxRetryAfter)
  }

  predicate EntryPassed(e: Entry) { e.Ran? && e.result.passed }

  /** Attempt k failed in a way that is retried, with the window still open. */
  predicate Continues(script: Script, cfg: RetryConfig, k: nat) {
    && !script(k).result.passed && cfg.enabled && k < cfg.maxAttempts
    && Retryable(script(k).result) && script(k).openAfter
  }

  /** The entry a stage ends with when attempt k is reached. */
  function FinalEntry(script: Script, cfg: RetryConfig, k: nat): Entry
    decreases cfg.maxAttempts - k
  {
    if k > 1 && !script(k).openBefore then WindowClosed
    else if Continues(script, cfg, k) then FinalEntry(script, cfg, k + 1)
    else Ran(script(k).result)
  }

  predicate StagePasses(script: Script, cfg: RetryConfig) {
    EntryPassed(FinalEntry(script, cfg, 1))
  }

  /** Attempt j is reached when attempt k is, and then passes or is retried with the window open before it. */
  ghost predicate Reaches(script: Script, cfg: RetryConfig, k: nat, n: nat) {
    && k <= n
    && (forall j :: k <= j < n ==> Continues(script, cfg, j))
    && (forall j :: k <= j <= n && j > 1 ==> script(j).openBefore)
  }

  /** A stage passes iff some reachable attempt passes. */
  lemma {:induction false} StagePassesIff(script: Script, cfg: RetryConfig, k: nat)
    ensures EntryPassed(FinalEntry(script, cfg, k)) <==>
      exists n :: Reaches(script, cfg, k, n) && script(n).result.passed
    decreases cfg.maxAttempts - k
  {
    if !(k > 1 && !script(k).openBefore) {
      if Continues(script, cfg, k) {
        StagePassesIff(script, cfg, k + 1);
        if n :| Reaches(script, cfg, k, n) && script(n).result.passed {
          assert n != k;
          assert Reaches(script, cfg, k + 1, n);
        }
        if n :| Reaches(script, cfg, k + 1, n) && script(n).result.passed {
          assert Reaches(script, cfg, k, n);
        }
      } else if script(k).result.passed {
        assert Reaches(script, cfg, k, k);
      }
    }
  }

  /** Attempt n ends the stage: the window closed before it, or it was made and is not retried. */
  ghost predicate EndsAt(script: Script, cfg: RetryConfig, n: nat, e: Entry) {
    if n > 1 && !script(n).openBefore then e == WindowClosed
    else e == Ran(script(n).result) && !Continues(script, cfg, n)
  }

  /** Attempts k to n - 1 are all made and retried. */
  ghost predicate RetriedUntil(script: Script, cfg: RetryConfig, k: nat, n: nat) {
    k <= n && forall j :: k <= j < n ==> Continues(script, cfg, j) && (j > 1 ==> script(j).openBefore)
  }

  /** The final entry is that of the first attempt that is not followed by another. */
  lemma {:induction false} FinalEntryIs(script: Script, cfg: RetryConfig, k: nat)
    ensures exists n: nat :: RetriedUntil(script, cfg, k, n) && EndsAt(script, cfg, n, FinalEntry(script, cfg, k))
    decreases cfg.maxAttempts - k
  {
    if !(k > 1 && !script(k).openBefore) && Continues(script, cfg, k) {
      FinalEntryIs(script, cfg, k + 1);
      var n: nat :| RetriedUntil(script, cfg, k + 1, n) && EndsAt(script, cfg, n, FinalEntry(script, cfg, k + 1));
      assert RetriedUntil(script, cfg, k, n);
    } else {
      assert RetriedUntil(script, cfg, k, k) && EndsAt(script, cfg, k, FinalEntry(script, cfg, k));
    }
  }

  /** The first n attempts failed, were retryable and were followed by the prescribed wait. */
  ghost predicate Retried(script: Script, cfg: RetryConfig, attempts: seq<Entry>, slept: seq<nat>, n: nat)
    requires Loaded(cfg) && n <= |attempts| && n <= |slept|
  {
    forall i :: 0 <= i < n ==>
      && attempts[i] == Ran(script(i + 1).result) && Continues(script, cfg, i + 1)
      && slept[i] == RetryAfter(script(i + 1).result, cfg)
  }

  lemma RetriedMore(script: Script, cfg: RetryConfig, attempts: seq<Entry>, slept: seq<nat>, e: Entry)
    requires Loaded(cfg) && |attempts| == |slept| && Retried(script, cfg, attempts, slept, |slept|)
    ensures Retried(script, cfg, attempts + [e], slept, |slept|)
  {
    hide Continues, RetryAfter;
  }

  lemma RetriedStep(script: Script, cfg: RetryConfig, attempts: seq<Entry>, slept: seq<nat>, n: nat)
    requires Loaded(cfg) && |attempts| == |slept| == n && Retried(script, cfg, attempts, slept, n)
    requires Continues(script, cfg, n + 1)
    ensures var result := script(n + 1).result;
      Retried(script, cfg, attempts + [Ran(result)], slept + [RetryAfter(result, cfg)], n + 1)
  {
    hide Continues, RetryAfter;
  }

  method RunStage(script: Script, cfg: RetryConfig) returns (attempts: seq<Entry>, slept: seq<nat>)
    requires Loaded(cfg)
    ensures 1 <= |attempts| <= cfg.maxAttempts && |slept| == |attempts| - 1
    ensures attempts[|attempts| - 1] == FinalEntry(script, cfg, 1)
    ensures Retried(script, cfg, attempts, slept, |slept|)
    ensures TotalSleep(slept) <= (cfg.maxAttempts - 1) * cfg.maxRetryAfter
  {
    attempts, slept := [], [];
    var k := 1;
    while true
      invariant 1 <= k <= cfg.maxAttempts
      invariant |attempts| == |slept| == k - 1
      invariant Retried(script, cfg, attempts, slept, k - 1)
      invariant FinalEntry(script, cfg, k) == FinalEntry(script, cfg, 1)
      decreases cfg.maxAttempts - k
    {
      ghost var made := attempts;
      if k > 1 && !script(k).openBefore {
        RetriedMore(script, cfg, made, slept, WindowClosed);
        attempts := attempts + [WindowClosed];
        break;
      }
      var result := script(k).result;
      RetriedMore(script, cfg, made, slept, Ran(result));
      attempts := attempts + [Ran(result)];
      if result.passed { break; }
      if !cfg.enabled || k >= cfg.maxAttempts { break; }
      if !Retryable(result) { break; }
      if !script(k).openAfter { break; }
      RetriedStep(script, cfg, made, slept, k - 1);
      hide Retried, RetryAfter;
      slept := slept + [RetryAfter(result, cfg)];
      k := k + 1;
    }
    TotalSleepBounded(slept, cfg);
    MulMono(|slept|, cfg.maxAttempts - 1, cfg.maxRetryAfter);
  }

  /** Total waiting time of one stage is bounded by the configuration alone. */
  lemma {:induction false} TotalSleepBounded(slept: seq<nat>, cfg: RetryConfig)
    requires forall i :: 0 <= i < |slept| ==> slept[i] <= cfg.maxRetryAfter
    ensures TotalSleep(slept) <= |slept| * cfg.maxRetryAfter
  {
    if |slept| > 0 {
      TotalSleepBounded(slept[..|slept| - 1], cfg);
      assert |slept| * cfg.maxRetryAfter == (|slept| - 1) * cfg.maxRetryAfter + cfg.maxRetryAfter;
    }
  }

  function TotalSleep(slept: seq<nat>): nat {
    if |slept| == 0 then 0 else TotalSleep(slept[..|slept| - 1]) + slept[|slept| - 1]
  }

  /** It is a plain sum. */
  lemma {:induction false} TotalSleepIsSum(a: seq<nat>, b: seq<nat>)
    ensures TotalSleep([]) == 0 && TotalSleep(a + b) == TotalSleep(a) + TotalSleep(b)
    ensures forall s: nat :: TotalSleep([s]) == s
    decreases |b|
  {
    forall s: nat ensures TotalSleep([s]) == s { assert [s][..0] == []; }
    if |b| == 0 {
      assert a + b == a;
    } else {
      TotalSleepIsSum(a, b[..|b| - 1]);
      assert (a + b)[..|a + b| - 1] == a + b[..|b| - 1];
    }
  }

  // ----- the plan

  datatype Stage = Stage(name: string, enabled: bool, script: Script)

  function EnabledStages(plan: seq<Stage>): seq<Stage> {
    if |plan| == 0 then []
    else EnabledStages(plan[..|plan| - 1]) + (if plan[|plan| - 1].enabled then [plan[|plan| - 1]] else [])
  }

  function IsEnabled(stage: Stage): bool { stage.enabled }

  /** The enabled stages of the plan, all of them and in plan order. */
  lemma {:induction false} EnabledStagesPick(plan: seq<Stage>)
    ensures Picks(plan, IsEnabled, Same, EnabledStages(plan))
  {
    hide Picks;
    if |plan| == 0 {
      PicksNone(IsEnabled, Same<Stage>);
    } else {
      var init, last := plan[..|plan| - 1], plan[|plan| - 1];
      EnabledStagesPick(init);
      PicksStep(init, last, IsEnabled, Same<Stage>, EnabledStages(init));
      assert plan == init + [last] && EnabledStages(init) + [] == EnabledStages(init);
    }
  }

  /** Every enabled stage passes iff every stage of the plan that is enabled does. */
  lemma {:induction false} AllEnabledPass(plan: seq<Stage>, cfg: RetryConfig)
    ensures AllPass(EnabledStages(plan), cfg) <==>
      forall i :: 0 <= i < |plan| && plan[i].enabled ==> StagePasses(plan[i].script, cfg)
  {
    hide StagePasses;
    if |plan| > 0 {
      var n := |plan| - 1;
      var init, stages := plan[..n], EnabledStages(plan[..n]);
      AllEnabledPass(init, cfg);
      assert EnabledStages(plan) == if plan[n].enabled then stages + [plan[n]] else stages;
      hide EnabledStages, AllPass;
      assert forall i :: 0 <= i < n ==> plan[i] == init[i];
      if plan[n].enabled { AllPassStep(stages, plan[n], cfg); }
    }
  }

  lemma AllPassStep(stages: seq<Stage>, last: Stage, cfg: RetryConfig)
    ensures AllPass(stages + [last], cfg) <==> AllPass(stages, cfg) && StagePasses(last.script, cfg)
  {
    hide StagePasses;
    var more := stages + [last];
    assert more[|stages|] == last && forall i :: 0 <= i < |stages| ==> more[i] == stages[i];
  }

  lemma {:induction false} EnabledNames(plan: seq<Stage>, name: string)
    ensures (exists k :: 0 <= k < |EnabledStages(plan)| && EnabledStages(plan)[k].name == name) <==>
      exists i :: 0 <= i < |plan| && plan[i].enabled && plan[i].name == name
  {
    if |plan| > 0 {
      var n, stages := |plan| - 1, EnabledStages(plan);
      var init, earlier := plan[..n], EnabledStages(plan[..n]);
      EnabledNames(init, name);
      assert stages == if plan[n].enabled then earlier + [plan[n]] else earlier;
      hide EnabledStages;
      assert forall k :: 0 <= k < |earlier| ==> stages[k] == earlier[k];
      assert forall i :: 0 <= i < n ==> plan[i] == init[i];
      if i :| 0 <= i < |plan| && plan[i].enabled && plan[i].name == name {
        if i < n {
          assert init[i].enabled && init[i].name == name;
          var k :| 0 <= k < |earlier| && earlier[k].name == name;
          assert stages[k].name == name;
        } else {
          assert stages[|earlier|].name == name;
        }
      }
      if k :| 0 <= k < |stages| && stages[k].name == name {
        if k < |earlier| {
          assert earlier[k].name == name;
          var i :| 0 <= i < n && init[i].enabled && init[i].name == name;
          assert plan[i].enabled && plan[i].name == name;
        } else {
          assert plan[n].enabled && plan[n].name == name;
        }
      }
    }
  }

  /** How many enabled stages are run: all, or up to the first failure when failures stop the plan. */
  function RunCount(stages: seq<Stage>, cfg: RetryConfig, stopOnFailure: bool): (n: nat)
    ensures n <= |stages|
  {
    if |stages| == 0 then 0
    else if stopOnFailure && !StagePasses(stages[0].script, cfg) then 1
    else 1 + RunCount(stages[1..], cfg, stopOnFailure)
  }

  /** Stages are left out only after a failure that stops the plan, and it is the last one run. */
  lemma {:induction false} RunCountIs(stages: seq<Stage>, cfg: RetryConfig, stopOnFailure: bool)
    ensures var n := RunCount(stages, cfg, stopOnFailure);
      && (n < |stages| ==> n > 0 && stopOnFailure && !StagePasses(stages[n - 1].script, cfg))
      && (stopOnFailure ==> forall i :: 0 <= i < n - 1 ==> StagePasses(stages[i].script, cfg))
  {
    if |stages| > 0 && !(stopOnFailure && !StagePasses(stages[0].script, cfg)) {
      var rest := stages[1..];
      RunCountIs(rest, cfg, stopOnFailure);
      hide StagePasses;
      forall i | 0 <= i < RunCount(stages, cfg, stopOnFailure) - 1 && stopOnFailure
        ensures StagePasses(stages[i].script, cfg)
      {
        if i > 0 { assert rest[i - 1] == stages[i]; }
      }
    }
  }

  ghost predicate AllPass(stages: seq<Stage>, cfg: RetryConfig) {
    forall i :: 0 <= i < |stages| ==> StagePasses(stages[i].script, cfg)
  }

  lemma RunCountStep(stages: seq<Stage>, i: nat, cfg: RetryConfig, stopOnFailure: bool)
    requires i < |stages|
    ensures RunCount(stages[i..], cfg, stopOnFailure)
         == if stopOnFailure && !StagePasses(stages[i].script, cfg) then 1
            else 1 + RunCount(stages[i + 1..], cfg, stopOnFailure)
  {
    hide StagePasses;
    assert stages[i..][0] == stages[i] && stages[i..][1..] == stages[i + 1..];
  }

  /** The names reported are those of the stages that were run and did not pass. */
  ghost predicate NamesFailures(blockers: seq<string>, stages: seq<Stage>, recorded: seq<Entry>) {
    && |recorded| <= |stages|
    && forall name :: name in blockers <==> FailedUnder(name, stages, recorded)
  }

  predicate FailedUnder(name: string, stages: seq<Stage>, recorded: seq<Entry>)
    requires |recorded| <= |stages|
  {
    exists i :: 0 <= i < |recorded| && stages[i].name == name && !EntryPassed(recorded[i])
  }

  lemma NamesFailuresStep(blockers: seq<string>, stages: seq<Stage>, recorded: seq<Entry>, e: Entry)
    requires |recorded| < |stages| && NamesFailures(blockers, stages, recorded)
    ensures NamesFailures(blockers + (if EntryPassed(e) then [] else [stages[|recorded|].name]), stages, recorded + [e])
  {
    hide EntryPassed;
    var n, more := |recorded|, recorded + [e];
    assert more[n] == e && forall i :: 0 <= i < n ==> more[i] == recorded[i];
    forall name
      ensures FailedUnder(name, stages, more) <==>
        FailedUnder(name, stages, recorded) || (!EntryPassed(e) && stages[n].name == name)
    {
      if i :| 0 <= i < n && stages[i].name == name && !EntryPassed(recorded[i]) {
        assert !EntryPassed(more[i]);
      }
    }
    hide FailedUnder;
  }

  /** Stage results in the order recorded, the names of the failed ones, and PASS iff none failed. */
  method RunPlan(plan: seq<Stage>, cfg: RetryConfig, stopOnFailure: bool)
    returns (recorded: seq<Entry>, blockers: seq<string>)
    requires Loaded(cfg)
    ensures var stages := EnabledStages(plan);
      && |recorded| == RunCount(stages, cfg, stopOnFailure)
      && (forall i :: 0 <= i < |recorded| ==> recorded[i] == FinalEntry(stages[i].script, cfg, 1))
      && (blockers == [] <==> AllPass(stages, cfg))
      && (!stopOnFailure ==> |recorded| == |stages|)
      && (stopOnFailure ==> forall i :: 0 <= i < |recorded| - 1 ==> EntryPassed(recorded[i]))
      && NamesFailures(blockers, stages, recorded)
    ensures blockers == [] <==> forall i :: 0 <= i < |plan| && plan[i].enabled ==> StagePasses(plan[i].script, cfg)
  {
    var stages := EnabledStages(plan);
    AllEnabledPass(plan, cfg);
    hide EnabledStages, FinalEntry;
    recorded, blockers := [], [];
    var i := 0;
    while i < |stages|
      invariant 0 <= i <= |stages| && |recorded| == i
      invariant RunCount(stages, cfg, stopOnFailure) == i + RunCount(stages[i..], cfg, stopOnFailure)
      invariant forall k :: 0 <= k < i ==> recorded[k] == FinalEntry(stages[k].script, cfg, 1)
      invariant blockers == [] <==> forall k :: 0 <= k < i ==> EntryPassed(recorded[k])
      invariant stopOnFailure ==> blockers == []
      invariant NamesFailures(blockers, stages, recorded)
    {
      var attempts, slept := RunStage(stages[i].script, cfg);
      var result := attempts[|attempts| - 1];
      NamesFailuresStep(blockers, stages, recorded, result);
      hide NamesFailures;
      recorded := recorded + [result];
      RunCountStep(stages, i, cfg, stopOnFailure);
      hide RunCount;
      if !EntryPassed(result) {
        blockers := blockers + [stages[i].name];
        if stopOnFailure {
          assert !StagePasses(stages[i].script, cfg);
          return;
        }
      }
      i := i + 1;
    }
  }
}
