/** Wall-clock civil dates and times in the proleptic Gregorian calendar, as
    Python's `datetime` represents them: ordinals count from 0001-01-01 = 1,
    weekdays count from Monday = 0. Time zones and instants are not modelled;
    the coordinator only ever does wall-clock arithmetic on them. */
module Calendar {

  /** The largest year a Python `datetime` can hold (`datetime.MAXYEAR`). */
  const MaxYear: int := 9999

  datatype Date = Date(year: int, month: int, day: int)

  datatype DateTime = DateTime(date: Date, hour: int, minute: int, second: int, microsecond: int)

  predicate IsLeapYear(y: int) {
    y % 4 == 0 && (y % 100 != 0 || y % 400 == 0)
  }

  function DaysInYear(y: int): (n: int)
    ensures n == 365 || n == 366
  {
    if IsLeapYear(y) then 366 else 365
  }

  function DaysInMonth(y: int, m: int): (n: int)
    requires 1 <= m <= 12
    ensures 28 <= n <= 31
    ensures m == 2 ==> (n == 29 <==> IsLeapYear(y))
  {
    if m == 2 then (if IsLeapYear(y) then 29 else 28)
    else if m == 4 || m == 6 || m == 9 || m == 11 then 30
    else 31
  }

  /** A calendar date (no upper year bound here: `InRange` adds Python's). */
  predicate ValidDate(d: Date) {
    1 <= d.year && 1 <= d.month <= 12 && 1 <= d.day <= DaysInMonth(d.year, d.month)
  }

  /** A date Python's `date` type can represent. */
  predicate InRange(d: Date) {
    ValidDate(d) && d.year <= MaxYear
  }

  predicate ValidDateTime(t: DateTime) {
    InRange(t.date) && 0 <= t.hour < 24 && 0 <= t.minute < 60 &&
    0 <= t.second < 60 && 0 <= t.microsecond < 1000000
  }

  /** Days in the years before `y`, as Python's `_days_before_year`. */
  function DaysBeforeYear(y: int): int
    requires 1 <= y
  {
    var p := y - 1;
    p * 365 + p / 4 - p / 100 + p / 400
  }

  /** Days in year `y` before the first of month `m`, as Python's `_days_before_month`. */
  function DaysBeforeMonth(y: int, m: int): int
    requires 1 <= m <= 12
  {
    var common := [0, 31, 59, 90, 120, 151, 181, 212, 243, 273, 304, 334][m - 1];
    if m > 2 && IsLeapYear(y) then common + 1 else common
  }

  /** Python's `date.toordinal()`: 0001-01-01 is day 1. */
  function Ordinal(d: Date): int
    requires ValidDate(d)
  {
    DaysBeforeYear(d.year) + DaysBeforeMonth(d.year, d.month) + d.day
  }

  /** Python's `date.weekday()`: Monday is 0 and Sunday is 6. */
  function Weekday(d: Date): (w: int)
    requires ValidDate(d)
    ensures 0 <= w < 7
  {
    (Ordinal(d) + 6) % 7
  }

  /** The calendar day after `d`, rolling over month and year ends. */
  function NextDay(d: Date): (r: Date)
    requires ValidDate(d)
    ensures ValidDate(r)
  {
    if d.day < DaysInMonth(d.year, d.month) then Date(d.year, d.month, d.day + 1)
    else if d.month < 12 then Date(d.year, d.month + 1, 1)
    else Date(d.year + 1, 1, 1)
  }

  /** The date `n` days after `d` (`d + timedelta(days=n)`), one day at a time. */
  function AddDays(d: Date, n: nat): (r: Date)
    requires ValidDate(d)
    ensures ValidDate(r)
    decreases n
  {
    if n == 0 then d else AddDays(NextDay(d), n - 1)
  }

  /** Strict chronological order on dates (lexicographic on year, month, day). */
  predicate DateBefore(a: Date, b: Date) {
    a.year < b.year ||
    (a.year == b.year && (a.month < b.month || (a.month == b.month && a.day < b.day)))
  }

  /** Strict chronological order on wall-clock date-times. */
  predicate Before(a: DateTime, b: DateTime) {
    DateBefore(a.date, b.date) ||
    (a.date == b.date &&
     (a.hour, a.minute, a.second, a.microsecond) != (b.hour, b.minute, b.second, b.microsecond) &&
     (a.hour < b.hour || (a.hour == b.hour &&
      (a.minute < b.minute || (a.minute == b.minute &&
       (a.second < b.second || (a.second == b.second && a.microsecond < b.microsecond)))))))
  }

  /** `t.replace(hour=0, minute=0, second=0, microsecond=0)` on a date. */
  function Midnight(d: Date): DateTime {
    DateTime(d, 0, 0, 0, 0)
  }

  // ---------------------------------------------------------------------
  // Ordinal arithmetic: the day-by-day successor agrees with Python's
  // closed-form ordinal, so weekdays advance by one per day.
  // ---------------------------------------------------------------------

  lemma DaysBeforeYearStep(y: int)
    requires 1 <= y
    ensures DaysBeforeYear(y + 1) == DaysBeforeYear(y) + DaysInYear(y)
  {
    var p := y - 1;
    var c4, c100, c400 := y / 4 - p / 4, y / 100 - p / 100, y / 400 - p / 400;
    assert DaysBeforeYear(y + 1) - DaysBeforeYear(y) == 365 + c4 - c100 + c400;
    DivStep4(y);
    DivStep100(y);
    DivStep400(y);
    if y % 400 == 0 {
      QuadCenturyIsCentury(y);
      CenturyIsLeapMultiple(y);
      assert c4 == 1 && c100 == 1 && c400 == 1 && IsLeapYear(y);
    } else if y % 100 == 0 {
      CenturyIsLeapMultiple(y);
      assert c4 == 1 && c100 == 1 && c400 == 0 && !IsLeapYear(y);
    } else if y % 4 == 0 {
      assert c4 == 1 && c100 == 0 && c400 == 0 && IsLeapYear(y);
    } else {
      NotLeapMultiple(y);
      assert c4 == 0 && c100 == 0 && c400 == 0 && !IsLeapYear(y);
    }
  }

  /** A multiple of 100 is a multiple of 4. */
  lemma CenturyIsLeapMultiple(y: int)
    requires y % 100 == 0
    ensures y % 4 == 0
  {
    var k := y / 100;
    assert y == 4 * (25 * k);
  }

  /** A multiple of 400 is a multiple of 100. */
  lemma QuadCenturyIsCentury(y: int)
    requires y % 400 == 0
    ensures y % 100 == 0
  {
    var k := y / 400;
    assert y == 100 * (4 * k);
  }

  /** A year not divisible by 4 is not divisible by 100 or 400 either. */
  lemma NotLeapMultiple(y: int)
    requires y % 4 != 0
    ensures y % 100 != 0 && y % 400 != 0
  {
    if y % 100 == 0 {
      CenturyIsLeapMultiple(y);
    } else if y % 400 == 0 {
      QuadCenturyIsCentury(y);
    }
  }

  /** Going from `y - 1` to `y` adds one multiple of 4 exactly when 4 divides `y`; likewise 100 and 400. */
  lemma DivStep4(y: int)
    ensures y / 4 - (y - 1) / 4 == (if y % 4 == 0 then 1 else 0)
  {
  }

  lemma DivStep100(y: int)
    ensures y / 100 - (y - 1) / 100 == (if y % 100 == 0 then 1 else 0)
  {
  }

  lemma DivStep400(y: int)
    ensures y / 400 - (y - 1) / 400 == (if y % 400 == 0 then 1 else 0)
  {
  }

  lemma DaysBeforeMonthStep(y: int, m: int)
    requires 1 <= m < 12
    ensures DaysBeforeMonth(y, m + 1) == DaysBeforeMonth(y, m) + DaysInMonth(y, m)
  {
  }

  /** The whole year is the twelve months: the day of year of 31 December is the year length. */
  lemma DaysBeforeDecember(y: int)
    ensures DaysBeforeMonth(y, 12) + DaysInMonth(y, 12) == DaysInYear(y)
  {
  }

  /** The successor day is exactly one ordinal later. */
  lemma NextDayOrdinal(d: Date)
    requires ValidDate(d)
    ensures Ordinal(NextDay(d)) == Ordinal(d) + 1
    ensures DateBefore(d, NextDay(d))
  {
    if d.day < DaysInMonth(d.year, d.month) {
    } else if d.month < 12 {
      DaysBeforeMonthStep(d.year, d.month);
    } else {
      DaysBeforeYearStep(d.year);
      DaysBeforeDecember(d.year);
    }
  }

  /** Stepping `n` days forward moves the ordinal by exactly `n`. */
  lemma {:induction false} AddDaysOrdinal(d: Date, n: nat)
    requires ValidDate(d)
    ensures Ordinal(AddDays(d, n)) == Ordinal(d) + n
    ensures n > 0 ==> DateBefore(d, AddDays(d, n))
    decreases n
  {
    if n > 0 {
      NextDayOrdinal(d);
      AddDaysOrdinal(NextDay(d), n - 1);
      if n > 1 {
        DateBeforeTransitive(d, NextDay(d), AddDays(d, n));
      }
    }
  }

  lemma DateBeforeTransitive(a: Date, b: Date, c: Date)
    requires DateBefore(a, b) && DateBefore(b, c)
    ensures DateBefore(a, c)
  {
  }

  /** The weekday advances by one per day, modulo 7. */
  lemma WeekdayAddDays(d: Date, n: nat)
    requires ValidDate(d)
    ensures Weekday(AddDays(d, n)) == (Weekday(d) + n) % 7
  {
    var o, o2 := Ordinal(d), Ordinal(AddDays(d, n));
    AddDaysOrdinal(d, n);
    ShiftWeekday(o, o2, n);
  }

  /** Weekdays of ordinals `n` apart differ by `n`, modulo 7. */
  lemma ShiftWeekday(o: int, o2: int, n: int)
    requires o2 == o + n
    ensures (o2 + 6) % 7 == ((o + 6) % 7 + n) % 7
  {
  }

  /** Inside one month, stepping forward only moves the day number. */
  lemma {:induction false} AddDaysWithinMonth(d: Date, n: nat)
    requires ValidDate(d)
    requires d.day + n <= DaysInMonth(d.year, d.month)
    ensures AddDays(d, n) == Date(d.year, d.month, d.day + n)
    decreases n
  {
    if n > 0 {
      AddDaysWithinMonth(NextDay(d), n - 1);
    }
  }

  /** Stepping `a + b` days is stepping `a` days and then `b` more. */
  lemma {:induction false} AddDaysSplit(d: Date, a: nat, b: nat)
    requires ValidDate(d)
    ensures AddDays(d, a + b) == AddDays(AddDays(d, a), b)
    decreases a
  {
    if a > 0 {
      AddDaysSplit(NextDay(d), a - 1, b);
    }
  }

  /** The first day of the month after the one `d` lies in. */
  function FirstOfNextMonth(d: Date): Date {
    if d.month == 12 then Date(d.year + 1, 1, 1) else Date(d.year, d.month + 1, 1)
  }

  /** Stepping past the last day of a month lands on the first of the following month. */
  lemma {:induction false} PastMonthEnd(d: Date)
    requires ValidDate(d)
    ensures AddDays(d, DaysInMonth(d.year, d.month) - d.day + 1) == FirstOfNextMonth(d)
    decreases DaysInMonth(d.year, d.month) - d.day
  {
    assert AddDays(d, DaysInMonth(d.year, d.month) - d.day + 1) ==
      AddDays(NextDay(d), DaysInMonth(d.year, d.month) - d.day);
    if d.day < DaysInMonth(d.year, d.month) {
      PastMonthEnd(NextDay(d));
    }
  }
}
