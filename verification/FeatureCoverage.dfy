/**
 The coverage audit of run_phase2_feature_backfill: per-date counts of tickers present in the
 two feature families, and what a PASS over their sums implies. Ratios are exact.
 */
module FeatureCoverage {
  import opened Common
  import opened TradingCalendar
  import opened CoverageGate

  /** One feature family on one date, as loaded: which tickers it has, which carry a signal, what disqualifies it. */
  datatype Family = Family(found: bool, tickers: set<Ticker>, nonNeutral: set<Ticker>, blockers: seq<string>)

  /** The dual-source and exogenous artifacts of a date, and the exogenous ones reloaded after a placeholder write. */
  datatype DateInput = DateInput(dual: Family, exo: Family, exoPlaceholder: Family)

  datatype Audit = Audit(
    expected: set<Ticker>,
    writePlaceholders: bool,
    minDual: real,
    minExo: real,
    input: Day -> DateInput)

  const NEUTRAL_REHEARSAL := "dual_source_neutral_rehearsal_artifact"

  /** A disqualified artifact contributes no signal. */
  function Disqualified(f: Family): Family {
    if f.blockers != [] then f.(nonNeutral := {}) else f
  }

  /** The dual-source family the loop counts, after writing a placeholder where one is asked for. */
  function DualOn(a: Audit, d: Day): Family {
    var f := a.input(d).dual;
    Disqualified(if !f.found && a.writePlaceholders then Family(true, a.expected, {}, [NEUTRAL_REHEARSAL]) else f)
  }

  function ExoOn(a: Audit, d: Day): Family {
    var f := a.input(d).exo;
    Disqualified(
      if !f.found && a.writePlaceholders then a.input(d).exoPlaceholder.(found := true, nonNeutral := {}) else f)
  }

  function Covered(a: Audit, f: Family): nat { |f.tickers * a.expected| }

  function Signal(a: Audit, f: Family): nat { |f.nonNeutral * a.expected| }

  /** A per-date quantity summed over dates. */
  function SumOver(dates: seq<Day>, q: Day -> nat): nat {
    if |dates| == 0 then 0 else SumOver(dates[..|dates| - 1], q) + q(dates[|dates| - 1])
  }

  function DualCovered(a: Audit): Day -> nat { d => Covered(a, DualOn(a, d)) }
  function ExoCovered(a: Audit): Day -> nat { d => Covered(a, ExoOn(a, d)) }
  function DualSignal(a: Audit): Day -> nat { d => Signal(a, DualOn(a, d)) }
  function ExoSignal(a: Audit): Day -> nat { d => Signal(a, ExoOn(a, d)) }

  function Coverage(count: nat, total: nat): real { (count as real) / (Max(total, 1) as real) }

  function ExpectedRows(a: Audit, dates: seq<Day>): nat { |dates| * Max(|a.expected|, 1) }

  /** What the audit counts for a date: the artifacts found, or the placeholders it writes where asked to. */
  lemma FamiliesAre(a: Audit, d: Day)
    ensures var given, dual := a.input(d).dual, DualOn(a, d);
      if !given.found && a.writePlaceholders
      then dual.found && dual.tickers == a.expected && dual.nonNeutral == {} && dual.blockers == [NEUTRAL_REHEARSAL]
      else dual.found == given.found && dual.tickers == given.tickers && dual.blockers == given.blockers
           && dual.nonNeutral == if given.blockers == [] then given.nonNeutral else {}
    ensures var given, exo := a.input(d).exo, ExoOn(a, d);
      if !given.found && a.writePlaceholders
      then exo.found && exo.tickers == a.input(d).exoPlaceholder.tickers && exo.nonNeutral == {}
           && exo.blockers == a.input(d).exoPlaceholder.blockers
      else exo.found == given.found && exo.tickers == given.tickers && exo.blockers == given.blockers
           && exo.nonNeutral == if given.blockers == [] then given.nonNeutral else {}
  {
  }

  /** Pairs of a date's position and an expected ticker that the date's set holds. */
  ghost function Pairs(a: Audit, dates: seq<Day>, holds: Day -> set<Ticker>): set<(nat, Ticker)> {
    set i: nat, t: Ticker | i < |dates| && t in a.expected && t in holds(dates[i]) :: (i, t)
  }

  /** Summed over dates, counts of expected tickers are numbers of such pairs. */
  lemma {:induction false} SumCountsPairs(a: Audit, dates: seq<Day>, holds: Day -> set<Ticker>, q: Day -> nat)
    requires forall d :: q(d) == |holds(d) * a.expected|
    ensures SumOver(dates, q) == |Pairs(a, dates, holds)|
  {
    if |dates| > 0 {
      var n := |dates| - 1;
      var last := holds(dates[n]) * a.expected;
      SumCountsPairs(a, dates[..n], holds, q);
      PairsOf(last, n);
      assert forall i :: 0 <= i < n ==> dates[..n][i] == dates[i];
      assert Pairs(a, dates, holds) == Pairs(a, dates[..n], holds) + (set t | t in last :: (n, t));
    }
  }

  lemma {:induction false} PairsOf(tickers: set<Ticker>, n: nat)
    ensures |set t | t in tickers :: (n, t)| == |tickers|
    decreases |tickers|
  {
    if |tickers| == 0 {
      assert tickers == {} && (set t | t in tickers :: (n, t)) == {};
    } else {
      var x :| x in tickers;
      PairsOf(tickers - {x}, n);
      assert (set t | t in tickers :: (n, t)) == (set t | t in tickers - {x} :: (n, t)) + {(n, x)};
    }
  }

  function DualSignals(a: Audit): Day -> set<Ticker> { (d: Day) => DualOn(a, d).nonNeutral }
  function ExoSignals(a: Audit): Day -> set<Ticker> { (d: Day) => ExoOn(a, d).nonNeutral }

  /** A signal threshold is met iff enough (date, ticker) pairs carry a signal, as a share of all pairs. */
  lemma SignalThresholds(a: Audit, dates: seq<Day>)
    ensures Coverage(SumOver(dates, DualSignal(a)), ExpectedRows(a, dates)) >= a.minDual <==>
      |Pairs(a, dates, DualSignals(a))| as real >= a.minDual * (Max(|dates| * Max(|a.expected|, 1), 1) as real)
    ensures Coverage(SumOver(dates, ExoSignal(a)), ExpectedRows(a, dates)) >= a.minExo <==>
      |Pairs(a, dates, ExoSignals(a))| as real >= a.minExo * (Max(|dates| * Max(|a.expected|, 1), 1) as real)
  {
    SignalsCounted(a);
    hide *;
    ShareOfPairs(a, dates, DualSignals(a), DualSignal(a), a.minDual);
    ShareOfPairs(a, dates, ExoSignals(a), ExoSignal(a), a.minExo);
  }

  lemma SignalsCounted(a: Audit)
    ensures forall d :: DualSignal(a)(d) == |DualSignals(a)(d) * a.expected|
    ensures forall d :: ExoSignal(a)(d) == |ExoSignals(a)(d) * a.expected|
  {
  }

  lemma ShareOfPairs(a: Audit, dates: seq<Day>, holds: Day -> set<Ticker>, q: Day -> nat, x: real)
    requires forall d :: q(d) == |holds(d) * a.expected|
    ensures Coverage(SumOver(dates, q), ExpectedRows(a, dates)) >= x <==>
      |Pairs(a, dates, holds)| as real >= x * (Max(|dates| * Max(|a.expected|, 1), 1) as real)
  {
    hide *;
    SumCountsPairs(a, dates, holds, q);
    RowsAre(a, dates);
    CoverageIs(SumOver(dates, q), ExpectedRows(a, dates), x);
  }

  lemma RowsAre(a: Audit, dates: seq<Day>)
    ensures ExpectedRows(a, dates) == |dates| * Max(|a.expected|, 1)
  {
  }

  lemma CoverageIs(count: nat, total: nat, x: real)
    ensures Coverage(count, total) >= x <==> count as real >= x * (Max(total, 1) as real)
  {
    ShareAtLeast(count as real, Max(total, 1) as real, x);
  }

  /** Some artifact of a date is disqualified for this reason. */
  ghost predicate DisqualifiedFor(a: Audit, dates: seq<Day>, reason: string) {
    exists i :: 0 <= i < |dates| && (reason in DualOn(a, dates[i]).blockers || reason in ExoOn(a, dates[i]).blockers)
  }

  ghost predicate NoneDisqualified(a: Audit, dates: seq<Day>) {
    forall i :: 0 <= i < |dates| ==> DualOn(a, dates[i]).blockers == [] && ExoOn(a, dates[i]).blockers == []
  }

  function Missing(expectedDates: seq<Day>, selected: seq<Day>): seq<Day> {
    if |expectedDates| == 0 then []
    else
      var d := expectedDates[|expectedDates| - 1];
      Missing(expectedDates[..|expectedDates| - 1], selected) + (if d in selected then [] else [d])
  }

  datatype Blocker =
    | ArtifactDisqualified(reason: string)
    | DatesMissing
    | DualTickersMissing
    | ExoTickersMissing
    | DualSignalLow
    | ExoSignalLow

  /** What each blocker says of the selected dates. */
  ghost predicate Raised(a: Audit, dates: seq<Day>, expectedDates: seq<Day>, b: Blocker) {
    match b
    case ArtifactDisqualified(reason) => DisqualifiedFor(a, dates, reason)
    case DatesMissing => exists d :: d in expectedDates && d !in dates
    case DualTickersMissing => !FullyCovered(a, dates, d => DualOn(a, d))
    case ExoTickersMissing => !FullyCovered(a, dates, d => ExoOn(a, d))
    case DualSignalLow => Coverage(SumOver(dates, DualSignal(a)), ExpectedRows(a, dates)) < a.minDual
    case ExoSignalLow => Coverage(SumOver(dates, ExoSignal(a)), ExpectedRows(a, dates)) < a.minExo
  }

  /** There are dates and tickers, and every ticker is present on every date. */
  ghost predicate FullyCovered(a: Audit, dates: seq<Day>, on: Day -> Family) {
    dates != [] && a.expected != {} && forall i :: 0 <= i < |dates| ==> a.expected <= on(dates[i]).tickers
  }

  datatype Totals = Totals(dualCovered: nat, dualSignal: nat, exoCovered: nat, exoSignal: nat)

  ghost predicate TotalsAgree(a: Audit, t: Totals, dates: seq<Day>) {
    && t.dualCovered == SumOver(dates, DualCovered(a)) && t.dualSignal == SumOver(dates, DualSignal(a))
    && t.exoCovered == SumOver(dates, ExoCovered(a)) && t.exoSignal == SumOver(dates, ExoSignal(a))
  }

  /** The reasons collected so far are those of the dates counted so far. */
  ghost predicate ReasonsAgree(a: Audit, reasons: seq<string>, dates: seq<Day>) {
    forall reason :: reason in reasons <==> DisqualifiedFor(a, dates, reason)
  }

  /** The per-date loop. */
  method CountCoverage(a: Audit, dates: seq<Day>) returns (t: Totals, reasons: seq<string>)
    ensures TotalsAgree(a, t, dates) && ReasonsAgree(a, reasons, dates)
  {
    t, reasons := Totals(0, 0, 0, 0), [];
    NothingCounted(a);
    hide *;
    for i := 0 to |dates|
      invariant TotalsAgree(a, t, dates[..i]) && ReasonsAgree(a, reasons, dates[..i])
    {
      var dual, exo := DualOn(a, dates[i]), ExoOn(a, dates[i]);
      TotalsStep(a, t, dates, i);
      ReasonsStep(a, reasons, dates, i);
      t := Totals(t.dualCovered + Covered(a, dual), t.dualSignal + Signal(a, dual),
                  t.exoCovered + Covered(a, exo), t.exoSignal + Signal(a, exo));
      reasons := reasons + dual.blockers + exo.blockers;
    }
    assert dates[..|dates|] == dates;
  }

  lemma NothingCounted(a: Audit)
    ensures TotalsAgree(a, Totals(0, 0, 0, 0), []) && ReasonsAgree(a, [], [])
  {
  }

  lemma TotalsStep(a: Audit, t: Totals, dates: seq<Day>, i: nat)
    requires i < |dates| && TotalsAgree(a, t, dates[..i])
    ensures var dual, exo := DualOn(a, dates[i]), ExoOn(a, dates[i]);
      TotalsAgree(a, Totals(t.dualCovered + Covered(a, dual), t.dualSignal + Signal(a, dual),
                            t.exoCovered + Covered(a, exo), t.exoSignal + Signal(a, exo)), dates[..i + 1])
  {
    SumStep(dates, i, DualCovered(a));
    SumStep(dates, i, DualSignal(a));
    SumStep(dates, i, ExoCovered(a));
    SumStep(dates, i, ExoSignal(a));
    hide SumOver, DualOn, ExoOn, Covered, Signal;
  }

  /** The gate over already selected dates: a blocker is reported iff what it says is so. */
  method AuditCoverage(a: Audit, dates: seq<Day>, expectedDates: seq<Day>) returns (blockers: seq<Blocker>)
    ensures forall b :: b in blockers <==> Raised(a, dates, expectedDates, b)
  {
    var t, reasons := CountCoverage(a, dates);
    var rows := ExpectedRows(a, dates);
    GateRaises(a, t, dates, expectedDates);
    hide *;
    var missing := Missing(expectedDates, dates) != [];
    var dualMissing, exoMissing := Coverage(t.dualCovered, rows) < 1.0, Coverage(t.exoCovered, rows) < 1.0;
    var dualLow, exoLow := Coverage(t.dualSignal, rows) < a.minDual, Coverage(t.exoSignal, rows) < a.minExo;
    blockers := Reasons(reasons) + Named(missing, DatesMissing) + Named(dualMissing, DualTickersMissing)
      + Named(exoMissing, ExoTickersMissing) + Named(dualLow, DualSignalLow) + Named(exoLow, ExoSignalLow);
    forall b ensures b in blockers <==> Raised(a, dates, expectedDates, b) {
      ReasonsMember(a, reasons, dates, expectedDates, b);
      NamedMember(missing, DatesMissing, b);
      NamedMember(dualMissing, DualTickersMissing, b);
      NamedMember(exoMissing, ExoTickersMissing, b);
      NamedMember(dualLow, DualSignalLow, b);
      NamedMember(exoLow, ExoSignalLow, b);
    }
  }

  function Named(raised: bool, b: Blocker): seq<Blocker> { if raised then [b] else [] }

  lemma NamedMember(raised: bool, b: Blocker, x: Blocker)
    ensures x in Named(raised, b) <==> raised && x == b
  {
  }

  function Reasons(reasons: seq<string>): seq<Blocker> {
    seq(|reasons|, i requires 0 <= i < |reasons| => ArtifactDisqualified(reasons[i]))
  }

  lemma ReasonsMember(a: Audit, reasons: seq<string>, dates: seq<Day>, expectedDates: seq<Day>, b: Blocker)
    requires ReasonsAgree(a, reasons, dates)
    ensures b in Reasons(reasons) <==> b.ArtifactDisqualified? && Raised(a, dates, expectedDates, b)
  {
    hide DisqualifiedFor;
    if b.ArtifactDisqualified? && b.reason in reasons {
      var i :| 0 <= i < |reasons| && reasons[i] == b.reason;
      assert Reasons(reasons)[i] == b;
    }
  }

  /** The loop's counters decide the five named blockers. */
  lemma GateRaises(a: Audit, t: Totals, dates: seq<Day>, expectedDates: seq<Day>)
    requires TotalsAgree(a, t, dates)
    ensures var rows := ExpectedRows(a, dates);
      && (Missing(expectedDates, dates) != [] <==> Raised(a, dates, expectedDates, DatesMissing))
      && (Coverage(t.dualCovered, rows) < 1.0 <==> Raised(a, dates, expectedDates, DualTickersMissing))
      && (Coverage(t.exoCovered, rows) < 1.0 <==> Raised(a, dates, expectedDates, ExoTickersMissing))
      && (Coverage(t.dualSignal, rows) < a.minDual <==> Raised(a, dates, expectedDates, DualSignalLow))
      && (Coverage(t.exoSignal, rows) < a.minExo <==> Raised(a, dates, expectedDates, ExoSignalLow))
  {
    hide SumOver, DualSignal, ExoSignal, FullyCovered, Coverage, ExpectedRows, Missing, Covered, DualOn, ExoOn;
    MissingIff(expectedDates, dates);
    FullCoverageIff(a, dates, DualCovered(a), d => DualOn(a, d));
    FullCoverageIff(a, dates, ExoCovered(a), d => ExoOn(a, d));
  }

  /** Index, selection and audit together, as run for the active tickers. */
  method RunFeatureBackfill(store: Store, tickers: seq<Ticker>, a: Audit, expectedDates: seq<Day>)
    returns (blockers: seq<Blocker>)
    requires a.expected == set t | t in tickers
    ensures blockers == [] <==> DataComplete(store, tickers, a, expectedDates)
  {
    var dates;
    ghost var common;
    dates, common := SelectDates(store, tickers, expectedDates);
    blockers := AuditCoverage(a, dates, expectedDates);
    NoBlockerIff(a, dates, expectedDates, blockers);
    CompleteIff(store, tickers, a, expectedDates, common);
    hide *;
  }

  /**
   What a PASS means: there are dates and tickers, every expected date has one and only one
   valid bar file for every ticker, both families hold every ticker on every date, no artifact
   is disqualified, and the signal thresholds are met.
   */
  ghost predicate DataComplete(store: Store, tickers: seq<Ticker>, a: Audit, dates: seq<Day>) {
    && tickers != [] && dates != []
    && (forall d :: d in dates ==> EveryTicker(store, tickers, d))
    && FullyCovered(a, dates, d => DualOn(a, d)) && FullyCovered(a, dates, d => ExoOn(a, d))
    && NoneDisqualified(a, dates)
    && Coverage(SumOver(dates, DualSignal(a)), ExpectedRows(a, dates)) >= a.minDual
    && Coverage(SumOver(dates, ExoSignal(a)), ExpectedRows(a, dates)) >= a.minExo
  }

  lemma SumStep(dates: seq<Day>, i: nat, q: Day -> nat)
    requires i < |dates|
    ensures SumOver(dates[..i + 1], q) == SumOver(dates[..i], q) + q(dates[i])
  {
    assert dates[..i + 1][..i] == dates[..i];
  }

  lemma ReasonsStep(a: Audit, reasons: seq<string>, dates: seq<Day>, i: nat)
    requires i < |dates| && ReasonsAgree(a, reasons, dates[..i])
    ensures ReasonsAgree(a, reasons + DualOn(a, dates[i]).blockers + ExoOn(a, dates[i]).blockers, dates[..i + 1])
  {
    hide DualOn, ExoOn;
    forall reason
      ensures DisqualifiedFor(a, dates[..i + 1], reason) <==>
        || DisqualifiedFor(a, dates[..i], reason)
        || reason in DualOn(a, dates[i]).blockers || reason in ExoOn(a, dates[i]).blockers
    {
      DisqualifiedStep(a, dates, i, reason);
    }
    hide DisqualifiedFor;
  }

  lemma DisqualifiedStep(a: Audit, dates: seq<Day>, i: nat, reason: string)
    requires i < |dates|
    ensures DisqualifiedFor(a, dates[..i + 1], reason) <==>
      || DisqualifiedFor(a, dates[..i], reason)
      || reason in DualOn(a, dates[i]).blockers || reason in ExoOn(a, dates[i]).blockers
  {
    hide DualOn, ExoOn;
    var more := dates[..i + 1];
    assert more[i] == dates[i] && forall k :: 0 <= k < i ==> more[k] == dates[..i][k];
    if DisqualifiedFor(a, dates[..i], reason) {
      var k :| 0 <= k < i
        && (reason in DualOn(a, dates[..i][k]).blockers || reason in ExoOn(a, dates[..i][k]).blockers);
      assert reason in DualOn(a, more[k]).blockers || reason in ExoOn(a, more[k]).blockers;
    }
  }

  // ----- what a PASS implies

  /** A sum of per-date counts bounded by m reaches the maximum iff every date does. */
  lemma {:induction false} FullSumIff(dates: seq<Day>, q: Day -> nat, m: nat)
    requires forall d :: q(d) <= m
    ensures SumOver(dates, q) <= |dates| * m
    ensures SumOver(dates, q) == |dates| * m <==> forall i :: 0 <= i < |dates| ==> q(dates[i]) == m
  {
    if |dates| > 0 {
      FullSumIff(dates[..|dates| - 1], q, m);
      assert |dates| * m == (|dates| - 1) * m + m;
    }
  }

  lemma SubsetSize(a: set<Ticker>, b: set<Ticker>)
    requires a <= b
    ensures |a| <= |b| && (|a| == |b| <==> a == b)
  {
    assert b == a + (b - a);
    assert |b| == |a| + |b - a|;
    if a != b {
      var t :| t in b - a;
    }
  }

  lemma CoveredIsFullIff(a: Audit, f: Family)
    ensures Covered(a, f) <= |a.expected|
    ensures Covered(a, f) == |a.expected| <==> a.expected <= f.tickers
  {
    SubsetSize(f.tickers * a.expected, a.expected);
  }

  lemma CoverageAtLeastOne(count: nat, total: nat)
    ensures Coverage(count, total) >= 1.0 <==> count >= Max(total, 1)
  {
    var m := Max(total, 1) as real;
    var q := (count as real) / m;
    assert q * m == count as real;
    if q >= 1.0 { assert (q - 1.0) * m >= 0.0; }
    if q < 1.0 { NegativeProduct(q - 1.0, m); }
  }

  /** Full ticker coverage: there are dates and tickers, and every ticker is present on every date. */
  lemma FullCoverageIff(a: Audit, dates: seq<Day>, q: Day -> nat, on: Day -> Family)
    requires forall d :: q(d) == Covered(a, on(d))
    ensures Coverage(SumOver(dates, q), ExpectedRows(a, dates)) >= 1.0 <==>
      FullyCovered(a, dates, on)
  {
    var n, m := |dates|, |a.expected|;
    forall d ensures q(d) <= m { CoveredIsFullIff(a, on(d)); }
    FullSumIff(dates, q, m);
    CoverageAtLeastOne(SumOver(dates, q), ExpectedRows(a, dates));
    forall i | 0 <= i < n ensures q(dates[i]) == m <==> a.expected <= on(dates[i]).tickers {
      var d := dates[i];
      CoveredIsFullIff(a, on(d));
      assert q(d) == Covered(a, on(d));
    }
    hide SumOver, Coverage, Covered;
    if m > 0 && n > 0 {
      assert n * m >= 1 by { AtLeastOne(n, m); }
    } else if m == 0 {
      assert a.expected == {};
      assert n * m == 0;
    }
  }

  lemma AtLeastOne(n: nat, m: nat)
    requires n > 0 && m > 0
    ensures n * m >= 1
  {
  }

  function IsAbsent(dates: seq<Day>): Day -> bool { (d: Day) => d !in dates }

  lemma {:induction false} MissingPicks(expectedDates: seq<Day>, dates: seq<Day>)
    ensures Picks(expectedDates, IsAbsent(dates), Same, Missing(expectedDates, dates))
  {
    hide Picks;
    if |expectedDates| == 0 {
      PicksNone(IsAbsent(dates), Same<Day>);
    } else {
      var init, d := expectedDates[..|expectedDates| - 1], expectedDates[|expectedDates| - 1];
      MissingPicks(init, dates);
      PicksStep(init, d, IsAbsent(dates), Same<Day>, Missing(init, dates));
      assert expectedDates == init + [d] && Missing(init, dates) + [] == Missing(init, dates);
    }
  }

  lemma {:induction false} MissingIff(expectedDates: seq<Day>, dates: seq<Day>)
    ensures Missing(expectedDates, dates) != [] <==> exists d :: d in expectedDates && d !in dates
  {
    if |expectedDates| > 0 {
      var init, d := expectedDates[..|expectedDates| - 1], expectedDates[|expectedDates| - 1];
      MissingIff(init, dates);
      assert expectedDates == init + [d];
    }
  }

  /** Nothing is reported iff no blocker is raised. */
  lemma NoBlockerIff(a: Audit, dates: seq<Day>, expectedDates: seq<Day>, blockers: seq<Blocker>)
    requires forall b :: b in blockers <==> Raised(a, dates, expectedDates, b)
    ensures blockers == [] <==> forall b :: !Raised(a, dates, expectedDates, b)
  {
    hide Raised;
    if blockers != [] { assert blockers[0] in blockers; }
  }

  /** No disqualified artifact iff no reason is found in any. */
  lemma NoneDisqualifiedIff(a: Audit, dates: seq<Day>)
    ensures NoneDisqualified(a, dates) <==> forall reason :: !DisqualifiedFor(a, dates, reason)
  {
    hide DualOn, ExoOn;
    if forall reason :: !DisqualifiedFor(a, dates, reason) {
      forall i | 0 <= i < |dates| ensures DualOn(a, dates[i]).blockers == [] && ExoOn(a, dates[i]).blockers == [] {
        var dual, exo := DualOn(a, dates[i]).blockers, ExoOn(a, dates[i]).blockers;
        if dual != [] { assert DisqualifiedFor(a, dates, dual[0]) by { assert dual[0] in dual; } }
        if exo != [] { assert DisqualifiedFor(a, dates, exo[0]) by { assert exo[0] in exo; } }
      }
    }
  }

  /** The gate is silent iff the dates cover the expected ones, fully, cleanly and with enough signal. */
  lemma PassIff(a: Audit, dates: seq<Day>, expectedDates: seq<Day>)
    ensures (forall b :: !Raised(a, dates, expectedDates, b)) <==>
      && (forall d :: d in expectedDates ==> d in dates)
      && FullyCovered(a, dates, d => DualOn(a, d)) && FullyCovered(a, dates, d => ExoOn(a, d))
      && NoneDisqualified(a, dates)
      && Coverage(SumOver(dates, DualSignal(a)), ExpectedRows(a, dates)) >= a.minDual
      && Coverage(SumOver(dates, ExoSignal(a)), ExpectedRows(a, dates)) >= a.minExo
  {
    NoneDisqualifiedIff(a, dates);
    hide SumOver, Coverage, ExpectedRows, FullyCovered, NoneDisqualified, DisqualifiedFor, DualSignal, ExoSignal;
    if forall b :: !Raised(a, dates, expectedDates, b) {
      assert !Raised(a, dates, expectedDates, DatesMissing);
      assert !Raised(a, dates, expectedDates, DualTickersMissing);
      assert !Raised(a, dates, expectedDates, ExoTickersMissing);
      assert !Raised(a, dates, expectedDates, DualSignalLow);
      assert !Raised(a, dates, expectedDates, ExoSignalLow);
      forall reason ensures !DisqualifiedFor(a, dates, reason) {
        assert !Raised(a, dates, expectedDates, ArtifactDisqualified(reason));
      }
    }
  }

  /** On the dates the index selects, that is completeness of the data itself. */
  lemma CompleteIff(store: Store, tickers: seq<Ticker>, a: Audit, expectedDates: seq<Day>, common: set<Day>)
    requires AreCommon(common, store, tickers) && a.expected == set t | t in tickers
    ensures (forall b :: !Raised(a, Select(expectedDates, common), expectedDates, b))
       <==> DataComplete(store, tickers, a, expectedDates)
  {
    hide *;
    var dates := Select(expectedDates, common);
    PassIff(a, dates, expectedDates);
    SelectedDates(expectedDates, common);
    if dates == expectedDates {
      CoveredNeedsDates(a, dates, d => DualOn(a, d));
      DatesAreComplete(store, tickers, a, expectedDates, common);
    } else {
      assert exists d :: d in expectedDates && d !in common;
      NotComplete(store, tickers, a, expectedDates, common);
    }
  }

  lemma DatesAreComplete(store: Store, tickers: seq<Ticker>, a: Audit, dates: seq<Day>, common: set<Day>)
    requires AreCommon(common, store, tickers) && a.expected == set t | t in tickers
    requires forall d :: d in dates ==> d in common
    ensures DataComplete(store, tickers, a, dates) <==>
      && FullyCovered(a, dates, d => DualOn(a, d)) && FullyCovered(a, dates, d => ExoOn(a, d))
      && NoneDisqualified(a, dates)
      && Coverage(SumOver(dates, DualSignal(a)), ExpectedRows(a, dates)) >= a.minDual
      && Coverage(SumOver(dates, ExoSignal(a)), ExpectedRows(a, dates)) >= a.minExo
  {
    CoveredNeedsDates(a, dates, d => DualOn(a, d));
    hide FullyCovered, NoneDisqualified, Coverage, SumOver, ExpectedRows, DualSignal, ExoSignal, EveryTicker;
  }

  lemma NotComplete(store: Store, tickers: seq<Ticker>, a: Audit, dates: seq<Day>, common: set<Day>)
    requires AreCommon(common, store, tickers) && exists d :: d in dates && d !in common
    ensures !DataComplete(store, tickers, a, dates)
  {
    hide FullyCovered, NoneDisqualified, Coverage, SumOver, ExpectedRows, EveryTicker;
  }

  lemma CoveredNeedsDates(a: Audit, dates: seq<Day>, on: Day -> Family)
    ensures FullyCovered(a, dates, on) ==> dates != [] && a.expected != {}
  {
  }

  /** A rehearsal that had to write a dual-source placeholder can never pass. */
  lemma PlaceholderNeverPasses(a: Audit, dates: seq<Day>, expectedDates: seq<Day>, i: nat)
    requires i < |dates| && a.writePlaceholders && !a.input(dates[i]).dual.found
    ensures Raised(a, dates, expectedDates, ArtifactDisqualified(NEUTRAL_REHEARSAL))
  {
    assert DualOn(a, dates[i]).blockers == [NEUTRAL_REHEARSAL];
  }
}
