/** Calendar dates of the proleptic Gregorian calendar, the calendar
    JavaScript's Date uses, numbered as days since 1 January 1970 (the
    day value of `Date.UTC(y, m - 1, d) / 86400000`). */
module Calendar {

  /** A date as year, month 1-12 and day of the month. */
  datatype Date = Date(year: int, month: int, day: int)

  predicate IsLeapYear(y: int)
  {
    y % 4 == 0 && (y % 100 != 0 || y % 400 == 0)
  }

  function DaysInMonth(y: int, m: int): (n: int)
    ensures 28 <= n <= 31
  {
    if m == 2 then (if IsLeapYear(y) then 29 else 28)
    else if m == 4 || m == 6 || m == 9 || m == 11 then 30
    else 31
  }

  function DaysInYear(y: int): int
  {
    if IsLeapYear(y) then 366 else 365
  }

  /** The month exists and the day exists in it. */
  predicate IsValidDate(d: Date)
  {
    1 <= d.month <= 12 && 1 <= d.day <= DaysInMonth(d.year, d.month)
  }

  /** The dates that exist; `new Date(y, m, d)` normalises every other
      triple to one of these, and the model only passes existing dates. */
  type CalendarDate = d: Date | IsValidDate(d) witness Date(1970, 1, 1)

  /** Days of year `y` before the first of month `m`. */
  function DaysBeforeMonth(y: int, m: int): (n: int)
    requires 1 <= m <= 12
    ensures 0 <= n && n + DaysInMonth(y, m) <= DaysInYear(y)
  {
    var common :=
      if m == 1 then 0 else if m == 2 then 31 else if m == 3 then 59
      else if m == 4 then 90 else if m == 5 then 120 else if m == 6 then 151
      else if m == 7 then 181 else if m == 8 then 212 else if m == 9 then 243
      else if m == 10 then 273 else if m == 11 then 304 else 334;
    common + (if m > 2 && IsLeapYear(y) then 1 else 0)
  }

  /** Leap years from year 1 up to but excluding `y` (floored, so the
      count also works for years before 1). */
  function LeapYearsBefore(y: int): int
  {
    (y - 1) / 4 - (y - 1) / 100 + (y - 1) / 400
  }

  /** Day number of 1 January of year `y`. */
  function YearStart(y: int): int
  {
    365 * (y - 1970) + LeapYearsBefore(y) - LeapYearsBefore(1970)
  }

  /** Day number of a date: `Date.UTC(y, m - 1, d)` divided by the
      milliseconds of a day. */
  function EpochDay(d: CalendarDate): int
  {
    YearStart(d.year) + DaysBeforeMonth(d.year, d.month) + d.day - 1
  }

  /** `(+d - +yearStart) / 86400000 + 1`: the difference of day numbers
      from 1 January, plus one. */
  function DayOfYear(d: CalendarDate): (n: int)
    ensures 1 <= n <= DaysInYear(d.year)
  {
    EpochDay(d) - EpochDay(Date(d.year, 1, 1)) + 1
  }

  /** `getUTCDay()`: 0 for Sunday to 6 for Saturday; day 0 was a Thursday. */
  function UtcDay(d: CalendarDate): (w: int)
    ensures 0 <= w < 7
  {
    (EpochDay(d) + 4) % 7
  }

  /** `getUTCDay() || 7`: 1 for Monday to 7 for Sunday. */
  function IsoWeekday(d: CalendarDate): (w: int)
    ensures 1 <= w <= 7
  {
    var u := UtcDay(d);
    if u == 0 then 7 else u
  }

  lemma IsoWeekdayArithmetic(d: CalendarDate)
    ensures IsoWeekday(d) == (EpochDay(d) + 3) % 7 + 1
  {
    WeekdayShift(EpochDay(d));
  }

  /** Counting Monday as 1 and Sunday as 7 instead of Sunday as 0 shifts
      the weekday of day `n` by one. */
  lemma WeekdayShift(n: int)
    ensures (if (n + 4) % 7 == 0 then 7 else (n + 4) % 7) == (n + 3) % 7 + 1
  {
    var q, r := (n + 3) / 7, (n + 3) % 7;
    assert n + 4 == 7 * q + (r + 1);
    if r == 6 {
      assert n + 4 == 7 * (q + 1);
    }
  }

  /** A year has as many days as the day numbers of consecutive New
      Year days say. */
  lemma YearLength(y: int)
    ensures YearStart(y + 1) == YearStart(y) + DaysInYear(y)
  {
    StepCount(y);
    LeapCount(y);
  }

  /** Going from `y - 1` to `y` adds one to the quotient by 4, 100 or
      400 exactly when that number divides `y`. */
  lemma StepCount(y: int)
    ensures y / 4 == (y - 1) / 4 + (if y % 4 == 0 then 1 else 0)
    ensures y / 100 == (y - 1) / 100 + (if y % 100 == 0 then 1 else 0)
    ensures y / 400 == (y - 1) / 400 + (if y % 400 == 0 then 1 else 0)
  {
  }

  /** The leap-year rule counted by divisibility: one for each of 4 and
      400 that divides `y`, minus one when 100 divides it. */
  lemma LeapCount(y: int)
    ensures (if IsLeapYear(y) then 1 else 0) ==
      (if y % 4 == 0 then 1 else 0) - (if y % 100 == 0 then 1 else 0) + (if y % 400 == 0 then 1 else 0)
  {
    if y % 400 == 0 {
      assert y == 100 * (4 * (y / 400));
    }
    if y % 100 == 0 {
      assert y == 4 * (25 * (y / 100));
    }
  }

  /** The first of the next month follows the last day of this one. */
  lemma NextMonthStart(y: int, m: int)
    requires 1 <= m <= 12
    ensures var next := if m == 12 then Date(y + 1, 1, 1) else Date(y, m + 1, 1);
      EpochDay(next) == EpochDay(Date(y, m, 1)) + DaysInMonth(y, m)
  {
    if m == 12 {
      YearLength(y);
    }
  }

  /** `setUTCDate(getUTCDate() + k)`: the date `k` days later, rolling
      over into the previous or next month (and year) as JavaScript does. */
  function ShiftDays(d: CalendarDate, k: int): (r: CalendarDate)
    requires -28 <= k <= 28
    ensures EpochDay(r) == EpochDay(d) + k
    ensures 1 <= d.day + k <= DaysInMonth(d.year, d.month) ==> r == Date(d.year, d.month, d.day + k)
  {
    var day := d.day + k;
    if day < 1 then IntoPreviousMonth(d.year, d.month, day)
    else if day > DaysInMonth(d.year, d.month) then IntoNextMonth(d.year, d.month, day)
    else Date(d.year, d.month, day)
  }

  /** Day `day` (zero or negative) of month `m` of year `y`, counted back
      into the month before. */
  function IntoPreviousMonth(y: int, m: int, day: int): (r: CalendarDate)
    requires 1 <= m <= 12 && -27 <= day < 1
    ensures EpochDay(r) == EpochDay(Date(y, m, 1)) + day - 1
  {
    var prev := if m == 1 then Date(y - 1, 12, 1) else Date(y, m - 1, 1);
    NextMonthStart(prev.year, prev.month);
    Date(prev.year, prev.month, DaysInMonth(prev.year, prev.month) + day)
  }

  /** Day `day` (past the month's end) of month `m` of year `y`, counted on
      into the month after. */
  function IntoNextMonth(y: int, m: int, day: int): (r: CalendarDate)
    requires 1 <= m <= 12 && DaysInMonth(y, m) < day <= DaysInMonth(y, m) + 28
    ensures EpochDay(r) == EpochDay(Date(y, m, 1)) + day - 1
  {
    NextMonthStart(y, m);
    var rest := day - DaysInMonth(y, m);
    if m == 12 then Date(y + 1, 1, rest) else Date(y, m + 1, rest)
  }

  /** Later years start later. */
  lemma {:induction false} YearStartGrows(y1: int, y2: int)
    requires y1 <= y2
    ensures YearStart(y1) <= YearStart(y2)
    decreases y2 - y1
  {
    if y1 < y2 {
      YearLength(y1);
      YearStartGrows(y1 + 1, y2);
    }
  }

  /** A date's day number lies between its year's New Year day and the
      next one. */
  lemma EpochDayInYear(d: CalendarDate)
    ensures YearStart(d.year) <= EpochDay(d) < YearStart(d.year + 1)
  {
    YearLength(d.year);
  }

  /** Different dates have different day numbers. */
  lemma EpochDayInjective(a: CalendarDate, b: CalendarDate)
    requires EpochDay(a) == EpochDay(b)
    ensures a == b
  {
    EpochDayInYear(a);
    EpochDayInYear(b);
    YearOfDay(a.year, b.year, EpochDay(a));
    DayOfYearInjective(a.year, a.month, a.day, b.month, b.day);
  }

  /** A day number lies in exactly one year. */
  lemma YearOfDay(ya: int, yb: int, n: int)
    requires YearStart(ya) <= n < YearStart(ya + 1)
    requires YearStart(yb) <= n < YearStart(yb + 1)
    ensures ya == yb
  {
    if ya < yb {
      YearStartGrows(ya + 1, yb);
    } else if yb < ya {
      YearStartGrows(yb + 1, ya);
    }
  }

  /** Within one year, a day of the year lies in exactly one month. */
  lemma DayOfYearInjective(y: int, ma: int, da: int, mb: int, db: int)
    requires 1 <= ma <= 12 && 1 <= da <= DaysInMonth(y, ma)
    requires 1 <= mb <= 12 && 1 <= db <= DaysInMonth(y, mb)
    requires DaysBeforeMonth(y, ma) + da == DaysBeforeMonth(y, mb) + db
    ensures ma == mb && da == db
  {
    if ma < mb {
      MonthsGrow(y, ma, mb);
    } else if mb < ma {
      MonthsGrow(y, mb, ma);
    }
  }

  /** Later months of a year start after earlier ones end. */
  lemma {:induction false} MonthsGrow(y: int, m1: int, m2: int)
    requires 1 <= m1 < m2 <= 12
    ensures DaysBeforeMonth(y, m1) + DaysInMonth(y, m1) <= DaysBeforeMonth(y, m2)
    decreases m2 - m1
  {
    if m1 + 1 < m2 {
      MonthsGrow(y, m1 + 1, m2);
    }
  }
}
