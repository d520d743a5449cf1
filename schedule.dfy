/** The reset-time computation of `_schedule_reset`: the next local-midnight
    boundary of the configured period after the wall-clock time `now`. */
module Schedule {
  import opened Optional
  import opened Calendar

  /** The four periods `_schedule_reset` has a branch for. */
  datatype Period = Daily | Weekly | Monthly | Yearly

  /** The configuration strings of the periods (`PERIOD_DAILY` … `PERIOD_YEARLY`). */
  function PeriodName(p: Period): string {
    match p
    case Daily => "daily"
    case Weekly => "weekly"
    case Monthly => "monthly"
    case Yearly => "yearly"
  }

  /** Which branch of `_schedule_reset` a configured period string selects;
      `None` when it selects none of them. */
  function ParsePeriod(s: string): (r: Option<Period>)
    ensures r.Some? ==> PeriodName(r.value) == s
    ensures r.None? ==> forall p: Period :: PeriodName(p) != s
  {
    if s == "daily" then Some(Daily)
    else if s == "weekly" then Some(Weekly)
    else if s == "monthly" then Some(Monthly)
    else if s == "yearly" then Some(Yearly)
    else None
  }

  /** Days from a date of weekday `w` to the next Monday: `(7 - w) % 7`,
      replaced by 7 when that is 0, so that a Monday waits a full week. */
  function DaysAhead(w: int): (n: int)
    requires 0 <= w < 7
    ensures 1 <= n <= 7 && (w + n) % 7 == 0
    ensures w + n == 7
  {
    var n := (7 - w) % 7;
    if n == 0 then 7 else n
  }

  /** The calendar date of the next boundary after a moment on date `d`. */
  function BoundaryDate(d: Date, p: Period): (b: Date)
    requires ValidDate(d)
    ensures ValidDate(b) && DateBefore(d, b)
  {
    match p
    case Daily =>
      AddDaysOrdinal(d, 1);
      AddDays(d, 1)
    case Weekly =>
      AddDaysOrdinal(d, DaysAhead(Weekday(d)));
      AddDays(d, DaysAhead(Weekday(d)))
    case Monthly => FirstOfNextMonth(d)
    case Yearly => Date(d.year + 1, 1, 1)
  }

  /** The reset time `_schedule_reset` computes: midnight of the boundary date.
      `None` when that date lies beyond the last year a Python `datetime` can
      hold, where `+ timedelta` or `replace` raises instead. */
  function NextReset(now: DateTime, p: Period): (r: Option<DateTime>)
    requires ValidDateTime(now)
    ensures r.Some? ==> ValidDateTime(r.value) && Before(now, r.value)
    ensures r.Some? ==> r.value.hour == 0 && r.value.minute == 0 &&
                        r.value.second == 0 && r.value.microsecond == 0
  {
    var b := BoundaryDate(now.date, p);
    if b.year <= MaxYear then Some(Midnight(b)) else None
  }

  // ---------------------------------------------------------------------
  // What each boundary is, stated against the ordinal day count.
  // ---------------------------------------------------------------------

  /** The daily boundary is the very next calendar day. */
  lemma DailyBoundary(d: Date)
    requires ValidDate(d)
    ensures Ordinal(BoundaryDate(d, Daily)) == Ordinal(d) + 1
  {
    AddDaysOrdinal(d, 1);
  }

  /** The weekly boundary is the first Monday strictly after `d`: one to seven
      days ahead, a full week when `d` itself is a Monday. */
  lemma WeeklyBoundary(d: Date)
    requires ValidDate(d)
    ensures var b := BoundaryDate(d, Weekly);
      Weekday(b) == 0 &&
      1 <= Ordinal(b) - Ordinal(d) <= 7 &&
      (Weekday(d) == 0 ==> Ordinal(b) - Ordinal(d) == 7) &&
      (forall k: nat :: 1 <= k < Ordinal(b) - Ordinal(d) ==> Weekday(AddDays(d, k)) != 0)
  {
    var n := DaysAhead(Weekday(d));
    assert BoundaryDate(d, Weekly) == AddDays(d, n);
    NextMondayIsMonday(d);
    AddDaysOrdinal(d, n);
    NoMondayWithin(d, n);
  }

  /** Stepping `DaysAhead` days from `d` reaches a Monday. */
  lemma NextMondayIsMonday(d: Date)
    requires ValidDate(d)
    ensures Weekday(AddDays(d, DaysAhead(Weekday(d)))) == 0
  {
    var w := Weekday(d);
    var n := DaysAhead(w);
    WeekdayAddDays(d, n);
    assert w + n == 7;
  }

  /** Every day from `d` up to, not including, its next Monday is another weekday. */
  lemma NoMondayWithin(d: Date, n: int)
    requires ValidDate(d) && n == DaysAhead(Weekday(d))
    ensures forall k: nat :: 1 <= k < n ==> Weekday(AddDays(d, k)) != 0
  {
    forall k: nat | 1 <= k < n
      ensures Weekday(AddDays(d, k)) != 0
    {
      WeekdayAddDays(d, k);
      NoMondayBefore(Weekday(d), k);
    }
  }

  /** No day strictly before the next Monday is itself a Monday. */
  lemma NoMondayBefore(w: int, k: int)
    requires 0 <= w < 7 && 1 <= k < DaysAhead(w)
    ensures (w + k) % 7 != 0
  {
  }

  /** The monthly boundary is the first date after `d` outside `d`'s month:
      every date up to the month's last day stays in the month, and one more
      day reaches the boundary (December rolling over to January). */
  lemma MonthlyBoundary(d: Date)
    requires ValidDate(d)
    ensures var n := DaysInMonth(d.year, d.month) - d.day + 1;
      BoundaryDate(d, Monthly) == AddDays(d, n) &&
      Ordinal(BoundaryDate(d, Monthly)) == Ordinal(d) + n &&
      (forall k: nat :: k < n ==> AddDays(d, k).year == d.year && AddDays(d, k).month == d.month)
  {
    var n := DaysInMonth(d.year, d.month) - d.day + 1;
    assert BoundaryDate(d, Monthly) == AddDays(d, n) by { PastMonthEnd(d); }
    assert Ordinal(AddDays(d, n)) == Ordinal(d) + n by { AddDaysOrdinal(d, n); }
    StaysInMonth(d);
  }

  /** Every date from `d` to the end of its month is in `d`'s month. */
  lemma StaysInMonth(d: Date)
    requires ValidDate(d)
    ensures forall k: nat :: k <= DaysInMonth(d.year, d.month) - d.day ==>
      AddDays(d, k).year == d.year && AddDays(d, k).month == d.month
  {
    forall k: nat | k <= DaysInMonth(d.year, d.month) - d.day
      ensures AddDays(d, k).year == d.year && AddDays(d, k).month == d.month
    {
      AddDaysWithinMonth(d, k);
    }
  }

  /** The yearly boundary is 1 January of the following year, as many days
      ahead as remain in `d`'s year counting `d` itself. */
  lemma YearlyBoundary(d: Date)
    requires ValidDate(d)
    ensures var b := BoundaryDate(d, Yearly);
      b.year == d.year + 1 && b.month == 1 && b.day == 1 &&
      Ordinal(b) - Ordinal(d) == DaysInYear(d.year) - (DaysBeforeMonth(d.year, d.month) + d.day) + 1
  {
    DaysBeforeYearStep(d.year);
  }

  /** The weekly boundary stays in `d`'s month when there is room, and
      otherwise lands early in the following month. */
  lemma WeeklyBoundaryMonth(d: Date)
    requires ValidDate(d)
    ensures var n := DaysAhead(Weekday(d));
      var b := BoundaryDate(d, Weekly);
      if d.day + n <= DaysInMonth(d.year, d.month) then b == Date(d.year, d.month, d.day + n)
      else b.year == FirstOfNextMonth(d).year && b.month == FirstOfNextMonth(d).month
  {
    var n := DaysAhead(Weekday(d));
    var dim := DaysInMonth(d.year, d.month);
    if d.day + n <= dim {
      AddDaysWithinMonth(d, n);
    } else {
      var a: nat := dim - d.day + 1;
      var rest: nat := n - a;
      assert AddDays(d, n) == AddDays(AddDays(d, a), rest) by {
        assert a + rest == n;
        AddDaysSplit(d, a, rest);
      }
      assert AddDays(d, a) == FirstOfNextMonth(d) by { PastMonthEnd(d); }
      AddDaysWithinMonth(FirstOfNextMonth(d), rest);
    }
  }

  /** The computation fails only in the last representable year, and exactly
      when the boundary would fall in the year after it. */
  lemma NextResetDefined(now: DateTime, p: Period)
    requires ValidDateTime(now)
    ensures NextReset(now, p).None? ==> now.date.year == MaxYear
    ensures p == Daily ==>
      (NextReset(now, p).None? <==> now.date == Date(MaxYear, 12, 31))
    ensures p == Weekly ==>
      (NextReset(now, p).None? <==>
        now.date.year == MaxYear && now.date.month == 12 && now.date.day + DaysAhead(Weekday(now.date)) > 31)
    ensures p == Monthly ==>
      (NextReset(now, p).None? <==> now.date.year == MaxYear && now.date.month == 12)
    ensures p == Yearly ==> (NextReset(now, p).None? <==> now.date.year == MaxYear)
  {
    var d := now.date;
    match p
    case Daily =>
      assert AddDays(d, 1) == AddDays(NextDay(d), 0);
    case Weekly =>
      WeeklyBoundaryMonth(d);
    case Monthly =>
    case Yearly =>
  }

  // ---------------------------------------------------------------------
  // Scenarios that the coordinator's own tests pin down.
  // ---------------------------------------------------------------------

  /** 2023-01-01 12:00 resets daily at 2023-01-02 00:00. */
  lemma DailyExample()
    ensures NextReset(DateTime(Date(2023, 1, 1), 12, 0, 0, 0), Daily) == Some(Midnight(Date(2023, 1, 2)))
  {
  }

  /** From Monday 2023-01-02 the weekly reset waits a full week, to 2023-01-09. */
  lemma WeeklyFromMondayExample()
    ensures NextReset(DateTime(Date(2023, 1, 2), 12, 0, 0, 0), Weekly) == Some(Midnight(Date(2023, 1, 9)))
  {
    assert Weekday(Date(2023, 1, 2)) == 0;
    AddDaysWithinMonth(Date(2023, 1, 2), 7);
  }

  /** From Sunday 2023-01-08 the weekly reset is the next day, Monday 2023-01-09. */
  lemma WeeklyFromSundayExample()
    ensures NextReset(DateTime(Date(2023, 1, 8), 12, 0, 0, 0), Weekly) == Some(Midnight(Date(2023, 1, 9)))
  {
    assert Weekday(Date(2023, 1, 8)) == 6;
    AddDaysWithinMonth(Date(2023, 1, 8), 1);
  }

  /** December rolls over to January of the next year; 29 February to 1 March. */
  lemma MonthlyExamples()
    ensures NextReset(DateTime(Date(2023, 12, 31), 12, 0, 0, 0), Monthly) == Some(Midnight(Date(2024, 1, 1)))
    ensures NextReset(DateTime(Date(2024, 2, 29), 12, 0, 0, 0), Monthly) == Some(Midnight(Date(2024, 3, 1)))
  {
  }

  /** 2023-06-15 resets yearly on 2024-01-01. */
  lemma YearlyExample()
    ensures NextReset(DateTime(Date(2023, 6, 15), 12, 0, 0, 0), Yearly) == Some(Midnight(Date(2024, 1, 1)))
  {
  }
}
