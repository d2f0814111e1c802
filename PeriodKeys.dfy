/** The period keys of the recurring-goal tracker: a calendar date and a
    frequency become a string naming the day, the ISO 8601 week or the
    month the date falls in.  A goal's completions are sets of these keys. */
module PeriodKeys {
  import opened Calendar
  import opened Decimal

  datatype Frequency = Daily | Weekly | Monthly

  /** `isoDate(d)`: the year, then the month and the day each padded to two
      digits, joined by "-".  The year is not padded, so only years 1000 to
      9999 give the 10-character extended calendar-date form of ISO 8601. */
  function IsoDate(d: CalendarDate): string
  {
    IntToString(d.year) + "-" + PadStart2(d.month) + "-" + PadStart2(d.day)
  }

  /** `monthKey(d)`: the year and the padded month, joined by "-". */
  function MonthKey(d: CalendarDate): string
  {
    IntToString(d.year) + "-" + PadStart2(d.month)
  }

  /** The Thursday of the Monday-to-Sunday week of `d`: `d` moved by
      4 - weekday days, with Sunday counted as weekday 7.  Day 0 was a
      Thursday, so Thursdays are the multiples of 7. */
  function IsoThursday(d: CalendarDate): (t: CalendarDate)
    ensures EpochDay(t) == 7 * ((EpochDay(d) + 3) / 7)
  {
    IsoWeekdayArithmetic(d);
    ThursdayArithmetic(EpochDay(d));
    ShiftDays(d, 4 - IsoWeekday(d))
  }

  /** Moving day `n` back by its weekday offset lands on a multiple of 7. */
  lemma ThursdayArithmetic(n: int)
    ensures n + 3 - (n + 3) % 7 == 7 * ((n + 3) / 7)
  {
  }

  /** The Thursday of a week is a Thursday, three days after its Monday. */
  lemma ThursdayOfWeek(d: CalendarDate)
    ensures IsoWeekday(IsoThursday(d)) == 4
    ensures EpochDay(IsoThursday(d)) == MondayOf(d) + 3
  {
    var t := IsoThursday(d);
    IsoWeekdayArithmetic(d);
    IsoWeekdayArithmetic(t);
    SeventhDay(EpochDay(d));
  }

  /** Three days after a multiple of 7 is weekday 4 in the Monday-is-1
      count. */
  lemma SeventhDay(n: int)
    ensures (7 * ((n + 3) / 7) + 3) % 7 + 1 == 4
  {
  }

  /** Day number of the Monday that starts the ISO week of `d`. */
  function MondayOf(d: CalendarDate): int
  {
    EpochDay(d) - IsoWeekday(d) + 1
  }

  /** The ISO week-numbering year: the year of the week's Thursday. */
  function IsoWeekYear(d: CalendarDate): int
  {
    IsoThursday(d).year
  }

  /** `Math.ceil(dayOfYear / 7)` (for integers, ceil(n / 7) is
      floor((n + 6) / 7)). */
  function WeekOfYear(t: CalendarDate): (w: int)
    ensures 1 <= w <= 53
  {
    (DayOfYear(t) + 6) / 7
  }

  /** The ISO week number: WeekOfYear of the week's Thursday. */
  function IsoWeekNumber(d: CalendarDate): (w: int)
    ensures 1 <= w <= 53
  {
    WeekOfYear(IsoThursday(d))
  }

  /** The text `getISOWeek` builds from the moved date: its year, "-W"
      and its week of the year padded to two digits. */
  function WeekKey(t: CalendarDate): string
  {
    IntToString(t.year) + "-W" + PadStart2(WeekOfYear(t))
  }

  /** `getISOWeek(d)`: the week-numbering year, "-W" and the week number
      padded to two digits. */
  function IsoWeekKey(d: CalendarDate): string
  {
    WeekKey(IsoThursday(d))
  }

  /** `periodKey(freq, d)`. */
  function PeriodKey(f: Frequency, d: CalendarDate): string
  {
    match f
    case Daily => IsoDate(d)
    case Weekly => IsoWeekKey(d)
    case Monthly => MonthKey(d)
  }

  /** The periods the keys stand for: the same day, the same Monday-to-Sunday
      week, the same month of the same year. */
  predicate SamePeriod(f: Frequency, a: CalendarDate, b: CalendarDate)
  {
    match f
    case Daily => a == b
    case Weekly => MondayOf(a) == MondayOf(b)
    case Monthly => a.year == b.year && a.month == b.month
  }

  // ---- Reading keys back ----

  /** Reads a daily key back into its date. */
  function ParseIsoDate(s: string): Date
  {
    if |s| < 3 then Date(0, 0, 0)
    else
      var (y, m) := ParseMonthKey(s[..|s| - 3]);
      Date(y, m, ParseNat(s[|s| - 2..]))
  }

  /** Reads a monthly key back into its year and month. */
  function ParseMonthKey(s: string): (int, int)
  {
    if |s| < 3 then (0, 0) else (ParseInt(s[..|s| - 3]), ParseNat(s[|s| - 2..]))
  }

  /** Reads a weekly key back into its week-numbering year and week number. */
  function ParseWeekKey(s: string): (int, int)
  {
    if |s| < 4 then (0, 0) else (ParseInt(s[..|s| - 4]), ParseNat(s[|s| - 2..]))
  }

  /** The daily key reads back as the date. */
  lemma IsoDateRoundTrip(d: CalendarDate)
    ensures ParseIsoDate(IsoDate(d)) == d
  {
    TailSlices(MonthKey(d), "-", PadStart2(d.day));
    MonthKeyRoundTrip(d);
  }

  /** The monthly key reads back as its year and month. */
  lemma MonthKeyRoundTrip(d: CalendarDate)
    ensures ParseMonthKey(MonthKey(d)) == (d.year, d.month)
  {
    TailSlices(IntToString(d.year), "-", PadStart2(d.month));
    IntToStringRoundTrip(d.year);
  }

  /** The weekly key reads back as its week-numbering year and week number. */
  lemma IsoWeekKeyRoundTrip(d: CalendarDate)
    ensures ParseWeekKey(IsoWeekKey(d)) == (IsoWeekYear(d), IsoWeekNumber(d))
  {
    TailSlices(IntToString(IsoWeekYear(d)), "-W", PadStart2(IsoWeekNumber(d)));
    IntToStringRoundTrip(IsoWeekYear(d));
  }

  /** Slicing a text of three parts from its end recovers the parts. */
  lemma TailSlices(x: string, y: string, z: string)
    ensures var s := x + y + z;
      s[..|s| - |y| - |z|] == x && s[|s| - |y| - |z|..|s| - |z|] == y && s[|s| - |z|..] == z
  {
  }

  // ---- Keys identify periods ----

  /** Two dates of one Monday-to-Sunday week share their Thursday. */
  lemma SameWeekSameThursday(a: CalendarDate, b: CalendarDate)
    requires MondayOf(a) == MondayOf(b)
    ensures IsoThursday(a) == IsoThursday(b)
  {
    ThursdayOfWeek(a);
    ThursdayOfWeek(b);
    EpochDayInjective(IsoThursday(a), IsoThursday(b));
  }

  /** Two Thursdays of one year with the same week number are the same
      day: Thursdays lie a multiple of seven days apart. */
  lemma SameWeekNumberSameThursday(ta: CalendarDate, tb: CalendarDate, qa: int, qb: int, w: int)
    requires ta.year == tb.year
    requires EpochDay(ta) == 7 * qa && EpochDay(tb) == 7 * qb
    requires WeekOfYear(ta) == w && WeekOfYear(tb) == w
    ensures qa == qb
  {
    SeventhsApart(DayOfYear(ta), DayOfYear(tb), qa - qb);
  }

  /** Day numbers a multiple of 7 apart with the same ceiling of a seventh
      are equal. */
  lemma SeventhsApart(da: int, db: int, k: int)
    requires da - db == 7 * k && (da + 6) / 7 == (db + 6) / 7
    ensures k == 0
  {
    var w := (da + 6) / 7;
    assert 7 * w <= da + 6 < 7 * w + 7;
    assert 7 * w <= db + 6 < 7 * w + 7;
  }

  /** Week-numbering year and week number together fix the week. */
  lemma SameWeekNumberSameWeek(a: CalendarDate, b: CalendarDate)
    requires IsoWeekYear(a) == IsoWeekYear(b) && IsoWeekNumber(a) == IsoWeekNumber(b)
    ensures MondayOf(a) == MondayOf(b)
  {
    ThursdayOfWeek(a);
    ThursdayOfWeek(b);
    SameWeekNumberSameThursday(IsoThursday(a), IsoThursday(b), (EpochDay(a) + 3) / 7, (EpochDay(b) + 3) / 7, IsoWeekNumber(a));
  }

  /** Dates of one week get one weekly key. */
  lemma SameWeekSameKey(a: CalendarDate, b: CalendarDate)
    requires MondayOf(a) == MondayOf(b)
    ensures IsoWeekKey(a) == IsoWeekKey(b)
  {
    SameWeekSameThursday(a, b);
  }

  /** Dates with one weekly key lie in one week. */
  lemma SameKeySameWeek(a: CalendarDate, b: CalendarDate)
    requires IsoWeekKey(a) == IsoWeekKey(b)
    ensures MondayOf(a) == MondayOf(b)
  {
    IsoWeekKeyRoundTrip(a);
    IsoWeekKeyRoundTrip(b);
    SameWeekNumberSameWeek(a, b);
  }

  /** Weekly keys are equal exactly for dates of the same ISO week. */
  lemma WeeklyKeyIdentifiesWeek(a: CalendarDate, b: CalendarDate)
    ensures IsoWeekKey(a) == IsoWeekKey(b) <==> MondayOf(a) == MondayOf(b)
  {
    if MondayOf(a) == MondayOf(b) {
      SameWeekSameKey(a, b);
    }
    if IsoWeekKey(a) == IsoWeekKey(b) {
      SameKeySameWeek(a, b);
    }
  }

  /** Daily keys are equal exactly for equal dates. */
  lemma DailyKeyIdentifiesDay(a: CalendarDate, b: CalendarDate)
    ensures IsoDate(a) == IsoDate(b) <==> a == b
  {
    IsoDateRoundTrip(a);
    IsoDateRoundTrip(b);
  }

  /** Monthly keys are equal exactly for dates of the same month. */
  lemma MonthlyKeyIdentifiesMonth(a: CalendarDate, b: CalendarDate)
    ensures MonthKey(a) == MonthKey(b) <==> a.year == b.year && a.month == b.month
  {
    MonthKeyRoundTrip(a);
    MonthKeyRoundTrip(b);
  }

  /** For every frequency, two dates get the same key exactly when they lie
      in the same period: a goal marked done stays done for the rest of the
      period and for no other period. */
  lemma PeriodKeyIdentifiesPeriod(f: Frequency, a: CalendarDate, b: CalendarDate)
    ensures PeriodKey(f, a) == PeriodKey(f, b) <==> SamePeriod(f, a, b)
  {
    match f
    case Daily => DailyKeyIdentifiesDay(a, b);
    case Weekly => WeeklyKeyIdentifiesWeek(a, b);
    case Monthly => MonthlyKeyIdentifiesMonth(a, b);
  }

  // ---- The year boundary ----

  /** 4 January always lies in week 1 of its own year (ISO 8601's definition
      of the first week: the week that holds the year's first Thursday). */
  lemma FourthOfJanuaryInWeekOne(y: int)
    ensures IsoWeekYear(Date(y, 1, 4)) == y && IsoWeekNumber(Date(y, 1, 4)) == 1
  {
    var d := Date(y, 1, 4);
    var t := IsoThursday(d);
    assert t == Date(y, 1, 4 + 4 - IsoWeekday(d));
  }

  /** The Thursday of the week of 28 December is the last Thursday of the
      year: it falls between 25 and 31 December. */
  lemma LastThursday(y: int)
    ensures var t := IsoThursday(Date(y, 12, 28));
      t.year == y && t.month == 12 && 25 <= t.day
  {
  }

  /** Of two multiples of seven, one at most `e` and one at least `e - 6`,
      the first is not the larger. */
  lemma SeventhsOrdered(qa: int, qb: int, e: int)
    requires 7 * qa <= e && e - 6 <= 7 * qb
    ensures qa <= qb
  {
  }

  /** Every Thursday of year `y` is at most the last one. */
  lemma ThursdaysBeforeLast(td: CalendarDate, qd: int, tl: CalendarDate, ql: int)
    requires td.year == tl.year && tl.month == 12 && 25 <= tl.day
    requires EpochDay(td) == 7 * qd && EpochDay(tl) == 7 * ql
    ensures DayOfYear(td) <= DayOfYear(tl)
  {
    var last := Date(tl.year, 12, 31);
    EpochDayInYear(td);
    YearLength(td.year);
    assert EpochDay(td) <= EpochDay(last);
    SeventhsOrdered(qd, ql, EpochDay(last));
  }

  /** 28 December always lies in the last week of its own year: no date of
      that week-numbering year has a larger week number. */
  lemma TwentyEighthOfDecemberInLastWeek(y: int, d: CalendarDate)
    requires IsoWeekYear(d) == y
    ensures IsoWeekYear(Date(y, 12, 28)) == y
    ensures IsoWeekNumber(d) <= IsoWeekNumber(Date(y, 12, 28))
  {
    var last := Date(y, 12, 28);
    LastThursday(y);
    ThursdaysBeforeLast(IsoThursday(d), (EpochDay(d) + 3) / 7, IsoThursday(last), (EpochDay(last) + 3) / 7);
  }

  // ---- Two-digit years ----

  /** The year `Date.UTC` uses: a year from 0 to 99 is read as 1900 plus
      that year. */
  function UtcYear(y: int): (r: int)
    ensures r != y <==> 0 <= y <= 99
    ensures 1900 <= r <= 1999 || r == y
  {
    if 0 <= y <= 99 then 1900 + y else y
  }

  /** The date `new Date(Date.UTC(y, m - 1, d))` stands for: the year
      through UtcYear, the month and day kept, except that 29 February of
      a year moved onto a common year rolls over into 1 March. */
  function UtcDate(d: CalendarDate): (r: CalendarDate)
    ensures !(0 <= d.year <= 99) ==> r == d
    ensures 0 <= d.year <= 99 ==>
      r == Date(1900 + d.year, d.month, d.day) || (d.month == 2 && d.day == 29 && r == Date(1900 + d.year, 3, 1))
  {
    var y := UtcYear(d.year);
    if d.day <= DaysInMonth(y, d.month) then Date(y, d.month, d.day) else Date(y, 3, 1)
  }

  /** The week number `getISOWeek` computes as written from the moved date
      `t`: the days from `Date.UTC(t.year, 0, 1)`, which again reads a year
      from 0 to 99 as 1900 plus that year, plus one, divided by 7 and rounded
      up (for integers, ceil(n / 7) is floor((n + 6) / 7), negative n
      included). */
  function WeekNumberAsWritten(t: CalendarDate): int
  {
    (EpochDay(t) - YearStart(UtcYear(t.year)) + 1 + 6) / 7
  }

  /** `String(w).padStart(2, "0")` for any integer: a negative number has
      at least two characters already and is left alone. */
  function PadStart2Int(w: int): string
  {
    if w < 0 then IntToString(w) else PadStart2(w)
  }

  /** `getISOWeek` as written: the date Date.UTC makes of the local date is
      moved to its Thursday, and the week is counted from the 1 January
      Date.UTC makes of the Thursday's year. */
  function IsoWeekKeyAsWritten(d: CalendarDate): string
  {
    var t := IsoThursday(UtcDate(d));
    IntToString(t.year) + "-W" + PadStart2Int(WeekNumberAsWritten(t))
  }

  /** When neither the date nor its week's Thursday lies in years 0 to 99,
      the week key as written is the ISO week key. */
  lemma AsWrittenAgreesOutsideTwoDigitYears(d: CalendarDate)
    requires !(0 <= d.year <= 99) && !(0 <= IsoThursday(d).year <= 99)
    ensures IsoWeekKeyAsWritten(d) == IsoWeekKey(d)
  {
    var t := IsoThursday(d);
    assert UtcDate(d) == d;
    assert YearStart(t.year) == EpochDay(Date(t.year, 1, 1));
    assert WeekNumberAsWritten(t) == WeekOfYear(t);
  }

  /** 15 June of year 50 gets a key of week-numbering year 1950 as written,
      and a key of year 50 from IsoWeekKey. */
  lemma TwoDigitYearCounterexample()
    ensures ParseWeekKey(IsoWeekKeyAsWritten(Date(50, 6, 15))).0 == 1950
    ensures ParseWeekKey(IsoWeekKey(Date(50, 6, 15))).0 == 50
    ensures IsoWeekKeyAsWritten(Date(50, 6, 15)) != IsoWeekKey(Date(50, 6, 15))
  {
    var d, u := Date(50, 6, 15), Date(1950, 6, 15);
    assert UtcDate(d) == UtcDate(u);
    MidMonthWeekYear(u);
    AsWrittenAgreesOutsideTwoDigitYears(u);
    IsoWeekKeyRoundTrip(u);
    IsoWeekKeyRoundTrip(d);
    MidMonthWeekYear(d);
  }

  /** 1 January of year 100 is a Friday whose week's Thursday is 31 December
      of year 99.  As written, that Thursday's week is counted from
      1 January 1999: the week number is -99085 instead of 53. */
  lemma YearHundredCounterexample()
    ensures IsoThursday(Date(100, 1, 1)) == Date(99, 12, 31)
    ensures WeekNumberAsWritten(Date(99, 12, 31)) == -99085
    ensures IsoWeekKey(Date(100, 1, 1)) == "99-W53"
    ensures IsoWeekKeyAsWritten(Date(100, 1, 1)) == "99-W-99085"
  {
    var d := Date(100, 1, 1);
    YearHundredThursday();
    YearHundredWeekNumbers();
    assert UtcDate(d) == d;
    YearHundredTexts();
  }

  /** The Thursday of the week of 1 January of year 100. */
  lemma YearHundredThursday()
    ensures IsoThursday(Date(100, 1, 1)) == Date(99, 12, 31)
  {
    assert EpochDay(Date(100, 1, 1)) == -683003;
    assert EpochDay(Date(99, 12, 31)) == -683004;
    ThursdayIs(Date(100, 1, 1), -683003, Date(99, 12, 31));
  }

  /** The week numbers of 31 December of year 99, as written and ISO. */
  lemma YearHundredWeekNumbers()
    ensures WeekNumberAsWritten(Date(99, 12, 31)) == -99085
    ensures WeekOfYear(Date(99, 12, 31)) == 53
  {
    assert EpochDay(Date(99, 12, 31)) == -683004;
    assert YearStart(1999) == 10592;
  }

  /** The digits used by YearHundredCounterexample. */
  lemma YearHundredTexts()
    ensures IntToString(99) == "99" && PadStart2(53) == "53"
    ensures PadStart2Int(-99085) == "-99085"
  {
    assert NatToString(9) == "9";
    assert NatToString(5) == "5";
    assert NatToString(990) == "990";
    assert NatToString(9908) == "9908";
  }

  /** A date between the 4th and the 24th keeps its Thursday in its own
      month, so its week-numbering year is its year. */
  lemma MidMonthWeekYear(d: CalendarDate)
    requires 4 <= d.day <= 24
    ensures IsoWeekYear(d) == d.year
  {
  }

  // ---- Worked examples ----

  /** The Thursday of the week of a date, found from day numbers. */
  lemma ThursdayIs(d: CalendarDate, n: int, t: CalendarDate)
    requires EpochDay(d) == n && EpochDay(t) == 7 * ((n + 3) / 7)
    ensures IsoThursday(d) == t
  {
    EpochDayInjective(IsoThursday(d), t);
  }

  /** The digits of the years and week numbers used below. */
  lemma ExampleTexts()
    ensures IntToString(2020) == "2020" && IntToString(2021) == "2021" && IntToString(2024) == "2024"
    ensures PadStart2(53) == "53" && PadStart2(1) == "01" && PadStart2(3) == "03" && PadStart2(15) == "15"
  {
    assert NatToString(20) == "20";
    assert NatToString(202) == "202";
    assert NatToString(5) == "5";
    assert NatToString(1) == "1";
  }

  /** The weekly keys of the three Thursdays used below. */
  lemma ExampleWeekKeys()
    ensures WeekKey(Date(2020, 12, 31)) == "2020-W53"
    ensures WeekKey(Date(2021, 1, 7)) == "2021-W01"
    ensures WeekKey(Date(2024, 1, 4)) == "2024-W01"
  {
    ExampleTexts();
    assert WeekOfYear(Date(2020, 12, 31)) == 53;
    assert WeekOfYear(Date(2021, 1, 7)) == 1;
    assert WeekOfYear(Date(2024, 1, 4)) == 1;
  }

  /** 1 January 2021, a Friday, belongs to the last week of 2020; the
      following Monday starts week 1 of 2021. */
  lemma NewYear2021Example()
    ensures IsoWeekKey(Date(2021, 1, 1)) == "2020-W53"
    ensures IsoWeekKey(Date(2021, 1, 4)) == "2021-W01"
  {
    assert YearStart(2020) == 18262 && YearStart(2021) == 18628;
    ThursdayIs(Date(2021, 1, 1), 18628, Date(2020, 12, 31));
    ThursdayIs(Date(2021, 1, 4), 18631, Date(2021, 1, 7));
    ExampleWeekKeys();
  }

  /** Monday 1 January 2024 to Sunday 7 January 2024 share one weekly key. */
  lemma FirstWeekOf2024Example(day: int)
    requires 1 <= day <= 7
    ensures IsoWeekKey(Date(2024, 1, day)) == "2024-W01"
  {
    FirstWeekOf2024Thursday(day);
    ExampleWeekKeys();
  }

  /** The Thursday of the first week of 2024 is 4 January. */
  lemma FirstWeekOf2024Thursday(day: int)
    requires 1 <= day <= 7
    ensures IsoThursday(Date(2024, 1, day)) == Date(2024, 1, 4)
  {
    assert YearStart(2024) == 19723;
    assert (19722 + day + 3) / 7 == 2818;
    ThursdayIs(Date(2024, 1, day), 19722 + day, Date(2024, 1, 4));
  }

  /** The daily and monthly keys of 15 March 2024. */
  lemma DailyAndMonthlyExample()
    ensures PeriodKey(Daily, Date(2024, 3, 15)) == "2024-03-15"
    ensures PeriodKey(Monthly, Date(2024, 3, 15)) == "2024-03"
  {
    ExampleTexts();
  }
}
