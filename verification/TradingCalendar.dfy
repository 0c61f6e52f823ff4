/**
 The KRX trading calendar (new/src/utils/trading_calendar.py). Days are proleptic
 ordinals, so day 1 is a Monday; the configured holidays are one finite set.
 */
module TradingCalendar {
  type Day = int

  /** The day and the second of day of a time counted in seconds. */
  function DateOf(t: int): Day { t / 86400 }

  function TimeOf(t: int): int { t % 86400 }

  datatype Calendar = Calendar(holidays: set<Day>)

  function Weekday(d: Day): int { (d + 6) % 7 }

  predicate IsTradingDay(cal: Calendar, d: Day) {
    Weekday(d) < 5 && d !in cal.holidays
  }

  /** The newest trading day not after d: the day-by-day walk back of every helper. */
  function TradingDayOnOrBefore(cal: Calendar, d: Day): (r: Day)
    ensures r <= d && IsTradingDay(cal, r)
    decreases |HolidaysUpTo(cal, d)|, WeekendRank(d)
  {
    if IsTradingDay(cal, d) then d
    else
      assert HolidaysUpTo(cal, d - 1) == HolidaysUpTo(cal, d) - {d};
      TradingDayOnOrBefore(cal, d - 1)
  }

  function HolidaysUpTo(cal: Calendar, d: Day): set<Day> {
    set h | h in cal.holidays && h <= d
  }

  function WeekendRank(d: Day): nat {
    if Weekday(d) >= 5 then Weekday(d) - 4 else 0
  }

  function PreviousTradingDay(cal: Calendar, d: Day): (r: Day)
    ensures r < d && IsTradingDay(cal, r)
  {
    TradingDayOnOrBefore(cal, d - 1)
  }

  /** The walk back stops at the first trading day it meets. */
  lemma {:induction false} NoneSkipped(cal: Calendar, d: Day, x: Day)
    requires TradingDayOnOrBefore(cal, d) < x <= d
    ensures !IsTradingDay(cal, x)
    decreases d - x
  {
    if x < d { NoneSkipped(cal, d - 1, x); }
  }

  /** So the previous trading day is the greatest one before d. */
  lemma PreviousIsGreatest(cal: Calendar, d: Day, x: Day)
    requires x < d && IsTradingDay(cal, x)
    ensures x <= PreviousTradingDay(cal, d)
  {
    if x > PreviousTradingDay(cal, d) { NoneSkipped(cal, d - 1, x); }
  }

  /** First day of the last n trading days ending at `end`. */
  function StartDate(cal: Calendar, end: Day, n: nat): (r: Day)
    requires n >= 1
    ensures r <= end && IsTradingDay(cal, r)
  {
    if n == 1 then TradingDayOnOrBefore(cal, end)
    else PreviousTradingDay(cal, StartDate(cal, end, n - 1))
  }

  /** All trading days of the closed range, ascending. */
  function TradingDates(cal: Calendar, start: Day, end: Day): (r: seq<Day>)
    ensures forall i :: 0 <= i < |r| ==> start <= r[i] <= end && IsTradingDay(cal, r[i])
    decreases end - start + 1
  {
    if start > end then []
    else TradingDates(cal, start, end - 1) + (if IsTradingDay(cal, end) then [end] else [])
  }

  /** The range holds every trading day between its ends and nothing else, in order. */
  lemma {:induction false} TradingDatesExactly(cal: Calendar, start: Day, end: Day)
    ensures Ascending(TradingDates(cal, start, end))
    ensures forall d :: d in TradingDates(cal, start, end) <==> start <= d <= end && IsTradingDay(cal, d)
    decreases end - start + 1
  {
    if start <= end {
      hide IsTradingDay;
      TradingDatesExactly(cal, start, end - 1);
    }
  }

  /** Monday to Friday, anchored at a known Monday; holidays are closed. */
  lemma OpenDays(cal: Calendar, d: Day)
    ensures Weekday(1) == 0 && 0 <= Weekday(d) <= 6
    ensures Weekday(d + 1) == if Weekday(d) == 6 then 0 else Weekday(d) + 1
    ensures IsTradingDay(cal, d) <==> Weekday(d) in {0, 1, 2, 3, 4} && d !in cal.holidays
  {
  }

  lemma DayAndTime(t: int)
    ensures DateOf(t) * 86400 + TimeOf(t) == t && 0 <= TimeOf(t) < 86400
  {
  }

  /** The last n trading days ending at `end`: every driver's list of business dates. */
  function BusinessDates(cal: Calendar, end: Day, n: nat): seq<Day>
    requires n >= 1
  {
    TradingDates(cal, StartDate(cal, end, n), end)
  }

  /** A run of trading days with no trading day skipped. */
  ghost predicate Consecutive(cal: Calendar, dates: seq<Day>) {
    && (forall i :: 0 <= i < |dates| ==> IsTradingDay(cal, dates[i]))
    && (forall i {:trigger dates[i]} :: 0 < i < |dates| ==> dates[i - 1] == PreviousTradingDay(cal, dates[i]))
  }

  ghost predicate Ascending(dates: seq<Day>) {
    forall i, j :: 0 <= i < j < |dates| ==> dates[i] < dates[j]
  }

  lemma {:induction false} ConsecutivePair(cal: Calendar, dates: seq<Day>, i: nat, j: nat)
    requires Consecutive(cal, dates) && i < j < |dates|
    ensures dates[i] < dates[j]
    decreases j
  {
    hide IsTradingDay, PreviousTradingDay;
    assert dates[j - 1] == PreviousTradingDay(cal, dates[j]);
    if i < j - 1 { ConsecutivePair(cal, dates, i, j - 1); }
  }

  lemma ConsecutiveAscends(cal: Calendar, dates: seq<Day>)
    requires Consecutive(cal, dates)
    ensures Ascending(dates)
  {
    forall i, j | 0 <= i < j < |dates| ensures dates[i] < dates[j] {
      ConsecutivePair(cal, dates, i, j);
    }
  }

  lemma {:induction false} ExtendBack(cal: Calendar, start: Day, end: Day)
    requires start <= end && IsTradingDay(cal, start)
    ensures TradingDates(cal, PreviousTradingDay(cal, start), end)
         == [PreviousTradingDay(cal, start)] + TradingDates(cal, start, end)
    decreases end - start
  {
    var prev := PreviousTradingDay(cal, start);
    forall x | prev < x < start ensures !IsTradingDay(cal, x) { NoneSkipped(cal, start - 1, x); }
    hide IsTradingDay, PreviousTradingDay;
    if start == end {
      Prefix(cal, prev, start - 1);
      assert TradingDates(cal, start, start - 1) == [];
    } else {
      ExtendBack(cal, start, end - 1);
    }
  }

  lemma {:induction false} Prefix(cal: Calendar, start: Day, end: Day)
    requires start <= end && IsTradingDay(cal, start)
    requires forall x :: start < x <= end ==> !IsTradingDay(cal, x)
    ensures TradingDates(cal, start, end) == [start]
    decreases end - start
  {
    if start == end {
      assert TradingDates(cal, start, start - 1) == [];
    } else {
      Prefix(cal, start, end - 1);
    }
  }

  /** The start-date walk makes the range hold exactly n trading days, none skipped. */
  lemma {:induction false} BusinessDatesAreTheLastN(cal: Calendar, end: Day, n: nat)
    requires n >= 1
    ensures var dates := BusinessDates(cal, end, n);
      && |dates| == n
      && Consecutive(cal, dates) && Ascending(dates)
      && dates[0] == StartDate(cal, end, n)
      && dates[n - 1] == TradingDayOnOrBefore(cal, end)
  {
    var dates := BusinessDates(cal, end, n);
    var start := StartDate(cal, end, n);
    if n == 1 {
      forall x | start < x <= end ensures !IsTradingDay(cal, x) { NoneSkipped(cal, end, x); }
      Prefix(cal, start, end);
    } else {
      BusinessDatesAreTheLastN(cal, end, n - 1);
      ExtendBack(cal, StartDate(cal, end, n - 1), end);
      ConsecutiveCons(cal, start, BusinessDates(cal, end, n - 1));
    }
    ConsecutiveAscends(cal, dates);
  }

  lemma ConsecutiveCons(cal: Calendar, d: Day, rest: seq<Day>)
    requires Consecutive(cal, rest) && IsTradingDay(cal, d)
    requires rest != [] ==> d == PreviousTradingDay(cal, rest[0])
    ensures Consecutive(cal, [d] + rest)
  {
    hide IsTradingDay, PreviousTradingDay;
    var dates := [d] + rest;
    forall i {:trigger dates[i]} | 0 < i < |dates|
      ensures dates[i - 1] == PreviousTradingDay(cal, dates[i])
    {
      if i > 1 { assert rest[i - 2] == PreviousTradingDay(cal, rest[i - 1]); }
    }
  }
}
