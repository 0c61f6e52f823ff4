/**
 Walk-forward folds of rolling_window_ic_experiment.py. Folds are built from an ascending
 list of panel dates and applied by comparing date keys.
 */
module WalkForward {
  import opened Common
  import opened TradingCalendar

  /** Inclusive date ranges of one fold. */
  datatype FoldWindow = FoldWindow(trainStart: Day, trainEnd: Day, valStart: Day, valEnd: Day)

  datatype Layout = Layout(days: nat, window: int, folds: int, minValidation: int, embargo: int) {
    predicate Valid() { window >= 1 && embargo >= 0 }

    function Remaining(): int { days - window - embargo }

    /** Length of every validation span but possibly the last. */
    function Validation(): int { Max(minValidation, Remaining() / Max(folds, 1)) }

    /** Position of fold i's first validation day, counted from the first possible one. */
    function Shift(i: nat): int { i * Validation() }

    function ValStart(i: nat): int { window + embargo + Shift(i) }

    function ValEnd(i: nat): int { Min(ValStart(i) + Validation(), days) }

    function TrainEnd(i: nat): int { ValStart(i) - embargo }

    /** How many folds fit: one per started validation span of the remaining days. */
    function Count(): nat
    {
      if Remaining() < minValidation || Validation() <= 0 || folds <= 0 then 0
      else Min(folds, CeilDiv(Remaining(), Validation()))
    }
  }

  /** The validation length is the minimum or the floor of an equal share, whichever is larger. */
  lemma ValidationIs(lay: Layout)
    ensures var n, v := Max(lay.folds, 1), lay.Validation();
      && v >= lay.minValidation
      && lay.days - lay.window - lay.embargo < n * (v + 1)
      && (v > lay.minValidation ==> n * v <= lay.days - lay.window - lay.embargo)
  {
    var n, r := Max(lay.folds, 1), lay.Remaining();
    var q := r / n;
    assert n * q <= r < n * q + n;
    MulMonoRight(n, q + 1, lay.Validation() + 1);
    assert n * (q + 1) == n * q + n;
  }

  function CeilDiv(a: int, b: int): int
    requires b > 0
  {
    (a + b - 1) / b
  }

  /** i spans of length b start inside a days iff i is below the rounded-up quotient. */
  lemma StartsInside(a: int, b: int, i: nat)
    requires b > 0
    ensures i * b < a <==> i < CeilDiv(a, b)
  {
    var c := CeilDiv(a, b);
    assert c * b <= a + b - 1 < c * b + b;
    if i < c { MulMono(i + 1, c, b); } else { MulMono(c, i, b); }
  }

  lemma ShiftStep(lay: Layout, i: nat)
    ensures lay.Shift(i + 1) == lay.Shift(i) + lay.Validation()
  {
  }

  /** Fold i is usable exactly when it is one of the counted ones. */
  lemma FoldUsable(lay: Layout, i: nat)
    requires lay.Valid() && i < lay.folds && lay.Remaining() >= lay.minValidation
    ensures lay.ValEnd(i) > lay.ValStart(i) <==> i < lay.Count()
    ensures lay.Validation() > 0 ==> lay.Shift(i) >= 0
  {
    if lay.Validation() > 0 {
      StartsInside(lay.Remaining(), lay.Validation(), i);
      MulMono(0, i, lay.Validation());
    }
  }

  /** Positions used by the counted folds lie inside the list. */
  lemma FoldInside(lay: Layout, i: nat)
    requires lay.Valid() && i < lay.Count()
    ensures 0 <= lay.Shift(i) && lay.TrainEnd(i) == lay.Shift(i) + lay.window
    ensures lay.ValStart(i) < lay.ValEnd(i) <= lay.days
  {
    FoldUsable(lay, i);
  }

  // ----- building

  datatype Mode = Rolling | Expanding

  /** Where fold i starts to train. */
  function TrainStart(lay: Layout, mode: Mode, i: nat): int {
    if mode.Rolling? then lay.TrainEnd(i) - lay.window else 0
  }

  /** The four dates of a counted fold. */
  function Fold(dates: seq<Day>, lay: Layout, mode: Mode, i: nat): FoldWindow
    requires lay.days == |dates| && lay.Valid() && i < lay.Count()
  {
    FoldInside(lay, i);
    FoldWindow(
      dates[TrainStart(lay, mode, i)], dates[lay.TrainEnd(i) - 1],
      dates[lay.ValStart(i)], dates[lay.ValEnd(i) - 1])
  }

  /** Python's subscript: a negative position counts from the end, one too far out raises. */
  function Subscript(dates: seq<Day>, k: int): Option<Day> {
    if 0 <= k < |dates| then Some(dates[k])
    else if -|dates| <= k < 0 then Some(dates[|dates| + k])
    else None
  }

  /** The dates found at any four positions, or None for an IndexError. */
  function FoldAt(dates: seq<Day>, trainStart: int, trainEnd: int, valStart: int, valEnd: int): Option<FoldWindow> {
    var a, b := Subscript(dates, trainStart), Subscript(dates, trainEnd - 1);
    var c, d := Subscript(dates, valStart), Subscript(dates, valEnd - 1);
    if a.Some? && b.Some? && c.Some? && d.Some? then Some(FoldWindow(a.value, b.value, c.value, d.value)) else None
  }

  /** The four dates of fold i under any parameters. */
  function FoldOf(dates: seq<Day>, lay: Layout, mode: Mode, i: nat): Option<FoldWindow> {
    FoldAt(dates, TrainStart(lay, mode, i), lay.TrainEnd(i), lay.ValStart(i), lay.ValEnd(i))
  }

  /** Whether the loop keeps fold i. */
  predicate Used(lay: Layout, mode: Mode, i: nat) {
    && (if mode.Rolling? then TrainStart(lay, mode, i) >= 0 else lay.TrainEnd(i) > 0)
    && lay.ValEnd(i) > lay.ValStart(i)
  }

  /** What any parameters give: the kept folds in order, or None once a position raises. */
  function FoldsUpTo(dates: seq<Day>, lay: Layout, mode: Mode, n: nat): Option<seq<FoldWindow>> {
    if n == 0 then Some([])
    else
      match FoldsUpTo(dates, lay, mode, n - 1)
      case None => None
      case Some(folds) =>
        if !Used(lay, mode, n - 1) then Some(folds)
        else
          match FoldOf(dates, lay, mode, n - 1)
          case None => None
          case Some(f) => Some(folds + [f])
  }

  /** Under any parameters: the call raises iff some kept fold does, and else returns one window per kept fold. */
  lemma {:induction false} FoldsUpToAre(dates: seq<Day>, lay: Layout, mode: Mode, n: nat)
    ensures FoldsUpTo(dates, lay, mode, n).None? <==>
      exists i :: 0 <= i < n && Used(lay, mode, i) && FoldOf(dates, lay, mode, i).None?
    ensures var folds := FoldsUpTo(dates, lay, mode, n);
      folds.Some? ==> Picks(FoldNumbers(n), UsedAs(lay, mode), FoldOrNone(dates, lay, mode), Wrapped(folds.value))
  {
    hide Picks, Used, FoldOf;
    if n == 0 {
      assert FoldNumbers(0) == [] && Wrapped([]) == [];
      PicksNone(UsedAs(lay, mode), FoldOrNone(dates, lay, mode));
    } else {
      FoldsUpToAre(dates, lay, mode, n - 1);
      assert FoldNumbers(n) == FoldNumbers(n - 1) + [n - 1];
      if FoldsUpTo(dates, lay, mode, n).Some? {
        var earlier := FoldsUpTo(dates, lay, mode, n - 1).value;
        PicksStep<nat, Option<FoldWindow>>(
          FoldNumbers(n - 1), n - 1, UsedAs(lay, mode), FoldOrNone(dates, lay, mode), Wrapped(earlier));
        if Used(lay, mode, n - 1) {
          var f := FoldOf(dates, lay, mode, n - 1).value;
          assert Wrapped(earlier + [f]) == Wrapped(earlier) + [Some(f)];
        }
      }
    }
  }

  function FoldNumbers(n: nat): seq<nat> { seq(n, i requires 0 <= i < n => i) }

  function UsedAs(lay: Layout, mode: Mode): nat -> bool { (i: nat) => Used(lay, mode, i) }

  function FoldOrNone(dates: seq<Day>, lay: Layout, mode: Mode): nat -> Option<FoldWindow> {
    (i: nat) => FoldOf(dates, lay, mode, i)
  }

  function Wrapped(folds: seq<FoldWindow>): seq<Option<FoldWindow>> {
    seq(|folds|, i requires 0 <= i < |folds| => Some(folds[i]))
  }

  function BuiltFolds(dates: seq<Day>, lay: Layout, mode: Mode): Option<seq<FoldWindow>> {
    if lay.Remaining() < lay.minValidation then Some([]) else FoldsUpTo(dates, lay, mode, Max(0, lay.folds))
  }

  /** With a window of at least a day and no negative embargo nothing raises, and the folds are the counted ones. */
  lemma BuiltFoldsAreCounted(dates: seq<Day>, lay: Layout, mode: Mode)
    requires lay.days == |dates| && lay.window >= 1 && lay.embargo >= 0
    ensures var folds := BuiltFolds(dates, lay, mode);
      && folds.Some? && |folds.value| == lay.Count()
      && forall i :: 0 <= i < lay.Count() ==> folds.value[i] == Fold(dates, lay, mode, i)
  {
    if lay.Remaining() >= lay.minValidation { FoldsUpToAreCounted(dates, lay, mode, Max(0, lay.folds)); }
    hide FoldsUpTo, Fold;
  }

  lemma {:induction false} FoldsUpToAreCounted(dates: seq<Day>, lay: Layout, mode: Mode, n: nat)
    requires lay.days == |dates| && lay.Valid() && n <= Max(0, lay.folds) && lay.Remaining() >= lay.minValidation
    ensures var folds := FoldsUpTo(dates, lay, mode, n);
      && folds.Some? && |folds.value| == Min(n, lay.Count())
      && forall i :: 0 <= i < |folds.value| ==> folds.value[i] == Fold(dates, lay, mode, i)
  {
    if n > 0 {
      FoldsUpToAreCounted(dates, lay, mode, n - 1);
      UsedIff(dates, lay, mode, n - 1);
      hide Used, Fold, FoldOf;
    }
  }

  /** A fold is kept iff it is counted, and its positions are then the intended ones. */
  lemma UsedIff(dates: seq<Day>, lay: Layout, mode: Mode, i: nat)
    requires lay.days == |dates| && lay.Valid() && i < lay.folds && lay.Remaining() >= lay.minValidation
    ensures Used(lay, mode, i) <==> i < lay.Count()
    ensures i < lay.Count() ==> FoldOf(dates, lay, mode, i) == Some(Fold(dates, lay, mode, i))
  {
    FoldUsable(lay, i);
    if i < lay.Count() { FoldInside(lay, i); }
  }

  /** None stands for the IndexError of a position outside the list. */
  method BuildFolds(dates: seq<Day>, windowDays: int, nFolds: int, minValidationDays: int, embargoDays: int)
    returns (result: Option<seq<FoldWindow>>)
    ensures result == BuiltFolds(dates, Layout(|dates|, windowDays, nFolds, minValidationDays, embargoDays), Rolling)
  {
    ghost var lay := Layout(|dates|, windowDays, nFolds, minValidationDays, embargoDays);
    var remaining := |dates| - windowDays - embargoDays;
    if remaining < minValidationDays { return Some([]); }
    var validationDays := Max(minValidationDays, remaining / Max(nFolds, 1));
    var folds := [];
    for i := 0 to Max(0, nFolds)
      invariant FoldsUpTo(dates, lay, Rolling, i) == Some(folds)
    {
      var valStart := windowDays + embargoDays + i * validationDays;
      var valEnd := Min(valStart + validationDays, |dates|);
      var trainEnd := valStart - embargoDays;
      var trainStart := trainEnd - windowDays;
      FoldsFail(dates, lay, Rolling, i, Max(0, nFolds));
      assert valStart == lay.ValStart(i) && valEnd == lay.ValEnd(i) && trainEnd == lay.TrainEnd(i);
      assert trainStart == TrainStart(lay, Rolling, i);
      hide FoldAt, Subscript;
      if trainStart < 0 || valEnd <= valStart { continue; }
      var fold := FoldAt(dates, trainStart, trainEnd, valStart, valEnd);
      if fold.None? { return None; }
      folds := folds + [fold.value];
    }
    result := Some(folds);
  }

  method BuildExpandingFolds(dates: seq<Day>, initialWindowDays: int, nFolds: int, minValidationDays: int,
                             embargoDays: int)
    returns (result: Option<seq<FoldWindow>>)
    ensures result
         == BuiltFolds(dates, Layout(|dates|, initialWindowDays, nFolds, minValidationDays, embargoDays), Expanding)
  {
    ghost var lay := Layout(|dates|, initialWindowDays, nFolds, minValidationDays, embargoDays);
    var remaining := |dates| - initialWindowDays - embargoDays;
    if remaining < minValidationDays { return Some([]); }
    var validationDays := Max(minValidationDays, remaining / Max(nFolds, 1));
    var folds := [];
    for i := 0 to Max(0, nFolds)
      invariant FoldsUpTo(dates, lay, Expanding, i) == Some(folds)
    {
      var valStart := initialWindowDays + embargoDays + i * validationDays;
      var valEnd := Min(valStart + validationDays, |dates|);
      var trainEnd := valStart - embargoDays;
      FoldsFail(dates, lay, Expanding, i, Max(0, nFolds));
      assert valStart == lay.ValStart(i) && valEnd == lay.ValEnd(i) && trainEnd == lay.TrainEnd(i);
      hide FoldAt, Subscript;
      if trainEnd <= 0 || valEnd <= valStart { continue; }
      var fold := FoldAt(dates, 0, trainEnd, valStart, valEnd);
      if fold.None? { return None; }
      folds := folds + [fold.value];
    }
    result := Some(folds);
  }

  /** Once a position raises the whole call does. */
  lemma {:induction false} FoldsFail(dates: seq<Day>, lay: Layout, mode: Mode, i: nat, n: nat)
    requires i < n
    ensures FoldsUpTo(dates, lay, mode, i + 1).None? ==> FoldsUpTo(dates, lay, mode, n).None?
    decreases n
  {
    if i + 1 < n { FoldsFail(dates, lay, mode, i, n - 1); }
  }

  // ----- geometry of the folds

  /** Validation spans follow one another without gap or overlap, from window + embargo on. */
  lemma ValidationContiguous(lay: Layout, i: nat)
    requires lay.Valid() && i + 1 < lay.Count()
    ensures lay.ValEnd(i) == lay.ValStart(i + 1)
    ensures lay.ValStart(0) == lay.window + lay.embargo
  {
    ShiftStep(lay, i);
    FoldInside(lay, i + 1);
  }

  /** Together they cover all remaining days, or leave fewer than the number of folds. */
  lemma ValidationCoverage(lay: Layout)
    requires lay.Valid() && lay.Count() >= 1
    ensures var tail := lay.days - lay.ValEnd(lay.Count() - 1);
      && (lay.Validation() > lay.Remaining() / lay.folds ==> tail == 0)
      && (lay.Validation() == lay.Remaining() / lay.folds ==> tail == lay.Remaining() % lay.folds)
      && 0 <= tail < lay.folds
  {
    var c, v, r, n := lay.Count(), lay.Validation(), lay.Remaining(), lay.folds;
    ShiftStep(lay, c - 1);
    assert lay.ValEnd(c - 1) == lay.window + lay.embargo + Min(c * v, r);
    Tail(r, n, v, c);
  }

  lemma Tail(r: int, n: int, v: int, c: nat)
    requires n >= 1 && v >= 1 && v >= r / n && c == Min(n, CeilDiv(r, v))
    ensures v > r / n ==> c * v >= r
    ensures v == r / n ==> c * v <= r && r - c * v == r % n
  {
    var q := r / n;
    assert n * q <= r < n * q + n && r % n == r - n * q;
    StartsInside(r, v, c);
    if v > q {
      if c == n { Covers(r, n, q, v); }
    } else if c < n {
      MulMonoStrict(c, n, v);
    }
  }

  lemma Covers(r: int, n: int, q: int, v: int)
    requires n >= 1 && q + 1 <= v && r < n * q + n
    ensures n * v >= r
  {
    MulMonoRight(n, q + 1, v);
    assert n * (q + 1) == n * q + n;
  }

  lemma MulMonoRight(n: int, x: int, y: int)
    requires x <= y && n >= 0
    ensures n * x <= n * y
  {
  }

  lemma MulMonoStrict(x: int, y: int, b: int)
    requires x < y && b > 0
    ensures x * b < y * b
  {
  }

  // ----- what the date filter selects

  /** `_filter_dates`: whether a panel row of this date is kept. */
  predicate Kept(d: Day, start: Day, end: Day) { start <= d <= end }

  /** Comparing date keys selects exactly the positions between the two ends. */
  lemma KeptIsSpan(dates: seq<Day>, k: nat, lo: nat, hi: nat)
    requires Ascending(dates) && k < |dates| && lo < hi <= |dates|
    ensures Kept(dates[k], dates[lo], dates[hi - 1]) <==> lo <= k < hi
  {
  }

  /**
   A rolling fold trains on exactly `window` days and validates on later ones, with exactly
   `embargo` days between the last training day and the first validation day.
   */
  lemma RollingFoldDoesNotLeak(dates: seq<Day>, lay: Layout, i: nat, k: nat)
    requires lay.days == |dates| && lay.Valid() && i < lay.Count() && Ascending(dates) && k < |dates|
    ensures var f, t := Fold(dates, lay, Rolling, i), lay.Shift(i);
      && (Kept(dates[k], f.trainStart, f.trainEnd) <==> t <= k < t + lay.window)
      && (Kept(dates[k], f.valStart, f.valEnd) <==> t + lay.window + lay.embargo <= k < lay.ValEnd(i))
  {
    FoldInside(lay, i);
    KeptIsSpan(dates, k, lay.TrainEnd(i) - lay.window, lay.TrainEnd(i));
    KeptIsSpan(dates, k, lay.ValStart(i), lay.ValEnd(i));
    hide *;
  }

  /** The date filter keeps some panel date for both training and validation. */
  ghost predicate SharesDay(dates: seq<Day>, f: FoldWindow) {
    exists k :: 0 <= k < |dates| && Kept(dates[k], f.trainStart, f.trainEnd) && Kept(dates[k], f.valStart, f.valEnd)
  }

  /** The list position a subscript means. */
  function Place(dates: seq<Day>, k: int): int { if k >= 0 then k else |dates| + k }

  /** Any fold the builder writes down shares a day iff its two ranges of positions meet. */
  lemma SharesDayIff(dates: seq<Day>, lay: Layout, mode: Mode, i: nat)
    requires Ascending(dates) && FoldOf(dates, lay, mode, i).Some?
    ensures SharesDay(dates, FoldOf(dates, lay, mode, i).value) <==>
      Max(Place(dates, TrainStart(lay, mode, i)), Place(dates, lay.ValStart(i)))
      <= Min(Place(dates, lay.TrainEnd(i) - 1), Place(dates, lay.ValEnd(i) - 1))
  {
    hide TrainStart;
    var f := FoldOf(dates, lay, mode, i).value;
    var a, b := Place(dates, TrainStart(lay, mode, i)), Place(dates, lay.TrainEnd(i) - 1);
    var c, d := Place(dates, lay.ValStart(i)), Place(dates, lay.ValEnd(i) - 1);
    assert f == FoldWindow(dates[a], dates[b], dates[c], dates[d]);
    forall k | 0 <= k < |dates|
      ensures Kept(dates[k], f.trainStart, f.trainEnd) <==> a <= k <= b
      ensures Kept(dates[k], f.valStart, f.valEnd) <==> c <= k <= d
    {
      KeptIsRange(dates, k, a, b);
      KeptIsRange(dates, k, c, d);
    }
    hide Kept, Place, FoldOf;
    if Max(a, c) <= Min(b, d) {
      var k := Max(a, c);
      assert Kept(dates[k], f.trainStart, f.trainEnd) && Kept(dates[k], f.valStart, f.valEnd);
    }
  }

  lemma KeptIsRange(dates: seq<Day>, k: nat, lo: nat, hi: nat)
    requires Ascending(dates) && k < |dates| && lo < |dates| && hi < |dates|
    ensures Kept(dates[k], dates[lo], dates[hi]) <==> lo <= k <= hi
  {
  }

  /**
   A kept fold whose validation starts inside the list trains on a day it validates on iff the
   embargo is negative and training starts before validation ends. The second part can only
   fail for a rolling window shorter than the overlap.
   */
  lemma LeaksIff(dates: seq<Day>, lay: Layout, mode: Mode, i: nat)
    requires Ascending(dates) && lay.window >= 1
    requires Used(lay, mode, i) && lay.ValStart(i) >= 0 && FoldOf(dates, lay, mode, i).Some?
    ensures SharesDay(dates, FoldOf(dates, lay, mode, i).value)
       <==> lay.embargo < 0 && TrainStart(lay, mode, i) < lay.ValEnd(i)
    ensures mode.Expanding? || lay.window + lay.embargo >= 0 ==> TrainStart(lay, mode, i) < lay.ValEnd(i)
  {
    SharesDayIff(dates, lay, mode, i);
    hide SharesDay, FoldOf;
    assert lay.TrainEnd(i) == lay.ValStart(i) - lay.embargo;
  }

  /** Two negative embargoes: one raises, the other leaves a short window clear of an early validation. */
  lemma NegativeEmbargoNeedNotLeak(dates: seq<Day>)
    requires Ascending(dates)
    ensures |dates| == 10 ==> BuiltFolds(dates, Layout(10, 3, 10, 1, -3), Rolling).None?
    ensures |dates| == 20 ==>
      var lay := Layout(20, 1, 8, 3, -5);
      && Used(lay, Rolling, 2) && FoldOf(dates, lay, Rolling, 2).Some?
      && !SharesDay(dates, FoldOf(dates, lay, Rolling, 2).value)
  {
    if |dates| == 10 {
      var lay := Layout(10, 3, 10, 1, -3);
      assert FoldOf(dates, lay, Rolling, 9).None? && Used(lay, Rolling, 9);
      assert FoldsUpTo(dates, lay, Rolling, 10).None?;
    } else if |dates| == 20 {
      LeaksIff(dates, Layout(20, 1, 8, 3, -5), Rolling, 2);
    }
  }

  /** The expanding mode validates on the same days and trains on all the rolling days and every earlier one. */
  lemma ExpandingContainsRolling(dates: seq<Day>, lay: Layout, i: nat, k: nat)
    requires lay.days == |dates| && lay.Valid() && i < lay.Count() && Ascending(dates) && k < |dates|
    ensures var f, e := Fold(dates, lay, Rolling, i), Fold(dates, lay, Expanding, i);
      && e.valStart == f.valStart && e.valEnd == f.valEnd
      && (Kept(dates[k], e.trainStart, e.trainEnd) <==> k < lay.Shift(i) + lay.window)
      && (Kept(dates[k], f.trainStart, f.trainEnd) ==> Kept(dates[k], e.trainStart, e.trainEnd))
  {
    FoldInside(lay, i);
    KeptIsSpan(dates, k, 0, lay.TrainEnd(i));
    RollingFoldDoesNotLeak(dates, lay, i, k);
  }

  /** No panel row is validated by two folds. */
  lemma ValidationDisjoint(dates: seq<Day>, lay: Layout, i: nat, j: nat, k: nat)
    requires lay.days == |dates| && lay.Valid() && i < j < lay.Count() && Ascending(dates) && k < |dates|
    ensures !(Kept(dates[k], Fold(dates, lay, Rolling, i).valStart, Fold(dates, lay, Rolling, i).valEnd)
              && Kept(dates[k], Fold(dates, lay, Rolling, j).valStart, Fold(dates, lay, Rolling, j).valEnd))
  {
    RollingFoldDoesNotLeak(dates, lay, i, k);
    RollingFoldDoesNotLeak(dates, lay, j, k);
    FoldUsable(lay, i);
    ShiftStep(lay, i);
    MulMono(i + 1, j, lay.Validation());
  }
}
