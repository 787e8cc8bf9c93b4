/** The proleptic Gregorian calendar behind Python's `date` and `datetime`:
    day numbers ("ordinals", where 1 is January 1 of year 1), their inverse, weekdays,
    and the 400-year period on which everything repeats. */
module Calendar {
  const DAYS_PER_400_YEARS := 146097

  datatype Date = Date(year: int, month: int, day: int)

  predicate IsLeap(y: int) {
    y % 4 == 0 && (y % 100 != 0 || y % 400 == 0)
  }

  function DaysInMonth(y: int, m: int): int
    requires 1 <= m <= 12
  {
    if m == 2 then (if IsLeap(y) then 29 else 28)
    else if m == 4 || m == 6 || m == 9 || m == 11 then 30
    else 31
  }

  predicate ValidDate(d: Date) {
    1 <= d.month <= 12 && 1 <= d.day <= DaysInMonth(d.year, d.month)
  }

  function DaysInYear(y: int): int {
    if IsLeap(y) then 366 else 365
  }

  /** The number of days before January 1 of year `y`. */
  function DaysBeforeYear(y: int): int {
    var p := y - 1;
    365 * p + p / 4 - p / 100 + p / 400
  }

  function DaysBeforeMonth(y: int, m: int): int
    requires 1 <= m <= 13
  {
    if m == 1 then 0 else DaysBeforeMonth(y, m - 1) + DaysInMonth(y, m - 1)
  }

  function Ordinal(d: Date): int
    requires ValidDate(d)
  {
    DaysBeforeYear(d.year) + DaysBeforeMonth(d.year, d.month) + d.day
  }

  /** Monday is 0, as in Python's date.weekday(). */
  function Weekday(d: Date): int
    requires ValidDate(d)
  {
    (Ordinal(d) + 6) % 7
  }

  /** The calendar's own rule for "tomorrow", against which the day numbers are judged. */
  function NextDay(d: Date): Date
    requires ValidDate(d)
  {
    if d.day < DaysInMonth(d.year, d.month) then d.(day := d.day + 1)
    else if d.month < 12 then Date(d.year, d.month + 1, 1)
    else Date(d.year + 1, 1, 1)
  }

  lemma DivisionStep(p: int)
    ensures (p + 1) / 4 == p / 4 + (if (p + 1) % 4 == 0 then 1 else 0)
    ensures (p + 1) / 100 == p / 100 + (if (p + 1) % 100 == 0 then 1 else 0)
    ensures (p + 1) / 400 == p / 400 + (if (p + 1) % 400 == 0 then 1 else 0)
    ensures (p + 1) % 400 == 0 ==> (p + 1) % 100 == 0
    ensures (p + 1) % 100 == 0 ==> (p + 1) % 4 == 0
  {
  }

  lemma YearLength(y: int)
    ensures DaysBeforeYear(y + 1) == DaysBeforeYear(y) + DaysInYear(y)
  {
    DivisionStep(y - 1);
  }

  lemma MonthTable(y: int)
    ensures DaysBeforeMonth(y, 2) == 31
    ensures var leap := DaysInYear(y) - 365;
            && DaysBeforeMonth(y, 3) == 59 + leap && DaysBeforeMonth(y, 4) == 90 + leap
            && DaysBeforeMonth(y, 5) == 120 + leap && DaysBeforeMonth(y, 6) == 151 + leap
            && DaysBeforeMonth(y, 7) == 181 + leap && DaysBeforeMonth(y, 8) == 212 + leap
            && DaysBeforeMonth(y, 9) == 243 + leap && DaysBeforeMonth(y, 10) == 273 + leap
            && DaysBeforeMonth(y, 11) == 304 + leap && DaysBeforeMonth(y, 12) == 334 + leap
            && DaysBeforeMonth(y, 13) == 365 + leap
  {
    assert DaysBeforeMonth(y, 3) == DaysBeforeMonth(y, 2) + DaysInMonth(y, 2);
    assert DaysBeforeMonth(y, 5) == DaysBeforeMonth(y, 4) + DaysInMonth(y, 4);
    assert DaysBeforeMonth(y, 7) == DaysBeforeMonth(y, 6) + DaysInMonth(y, 6);
    assert DaysBeforeMonth(y, 9) == DaysBeforeMonth(y, 8) + DaysInMonth(y, 8);
    assert DaysBeforeMonth(y, 11) == DaysBeforeMonth(y, 10) + DaysInMonth(y, 10);
    assert DaysBeforeMonth(y, 13) == DaysBeforeMonth(y, 12) + DaysInMonth(y, 12);
  }

  /** Day numbers count the days: each next day is one more. */
  lemma OrdinalCountsDays(d: Date)
    requires ValidDate(d)
    ensures ValidDate(NextDay(d)) && Ordinal(NextDay(d)) == Ordinal(d) + 1
  {
    var y, m := d.year, d.month;
    if d.day == DaysInMonth(y, m) {
      assert DaysBeforeMonth(y, m + 1) == DaysBeforeMonth(y, m) + DaysInMonth(y, m);
      if m == 12 {
        YearLength(y);
        MonthTable(y);
        var e := Date(y + 1, 1, 1);
        assert NextDay(d) == e && ValidDate(e);
        assert DaysBeforeMonth(y + 1, 1) == 0;
        assert Ordinal(e) == DaysBeforeYear(y) + DaysInYear(y) + 1;
      }
    }
  }

  /** Weekdays follow each other in turn. */
  lemma WeekdayOfNextDay(d: Date)
    requires ValidDate(d)
    ensures ValidDate(NextDay(d)) && Weekday(NextDay(d)) == (if Weekday(d) == 6 then 0 else Weekday(d) + 1)
  {
    hide Ordinal, NextDay;
    OrdinalCountsDays(d);
  }

  /** The lengths of months by name. */
  lemma MonthLengths(y: int)
    ensures var february := if y % 400 == 0 || (y % 4 == 0 && y % 100 != 0) then 29 else 28;
            forall m :: 1 <= m <= 12 ==>
              DaysInMonth(y, m) == [31, february, 31, 30, 31, 30, 31, 31, 30, 31, 30, 31][m - 1]
  {
    DivisionStep(y - 1);
  }

  lemma DayOne(d: Date)
    requires d.year == d.month == d.day == 1
    ensures ValidDate(d) && Ordinal(d) == 1
  {
  }

  /** The date `n` days after January 1 of year 1. */
  function DayAfter(n: nat): (d: Date)
    ensures ValidDate(d)
  {
    if n == 0 then Date(1, 1, 1)
    else
      var d := DayAfter(n - 1);
      OrdinalCountsDays(d);
      NextDay(d)
  }

  /** The number of a date is that of Python: it counts from January 1 of year 1, which is 1. */
  lemma {:induction false} OrdinalIsDayNumber(n: nat)
    ensures Ordinal(DayAfter(n)) == n + 1
  {
    hide Ordinal, NextDay;
    if n == 0 {
      DayOne(DayAfter(0));
    } else {
      OrdinalIsDayNumber(n - 1);
      OrdinalCountsDays(DayAfter(n - 1));
    }
  }

  /** The year that contains day number `n`, by splitting off 400-, 100-, 4- and 1-year cycles. */
  function YearOf(n: int): (y: int)
    ensures DaysBeforeYear(y) < n <= DaysBeforeYear(y + 1)
  {
    var a, r := (n - 1) / DAYS_PER_400_YEARS, (n - 1) % DAYS_PER_400_YEARS;
    var b := if r / 36524 == 4 then 3 else r / 36524;
    var r2 := r - 36524 * b;
    var c, r3 := r2 / 1461, r2 % 1461;
    var d := if r3 / 365 == 4 then 3 else r3 / 365;
    var y := 400 * a + 100 * b + 4 * c + d + 1;
    CycleStart(a, b, c, d);
    YearLength(y);
    y
  }

  lemma CycleStart(a: int, b: int, c: int, d: int)
    requires 0 <= b <= 3 && 0 <= c <= 24 && 0 <= d <= 3
    ensures var y := 400 * a + 100 * b + 4 * c + d + 1;
            && DaysBeforeYear(y) == DAYS_PER_400_YEARS * a + 36524 * b + 1461 * c + 365 * d
            && (IsLeap(y) <==> d == 3 && (c != 24 || b == 3))
  {
    var p := 400 * a + 100 * b + 4 * c + d;
    assert p / 4 == 100 * a + 25 * b + c;
    assert p / 100 == 4 * a + b;
    assert p / 400 == a;
    DivisionStep(p);
    assert (p + 1) / 4 == 100 * a + 25 * b + c + (if d == 3 then 1 else 0);
    assert (p + 1) / 100 == 4 * a + b + (if c == 24 && d == 3 then 1 else 0);
    assert (p + 1) / 400 == a + (if b == 3 && c == 24 && d == 3 then 1 else 0);
  }

  lemma {:induction false} YearsAreOrdered(x: int, y: int)
    requires x <= y
    ensures DaysBeforeYear(x) + 365 * (y - x) <= DaysBeforeYear(y)
    decreases y - x
  {
    if x < y {
      YearsAreOrdered(x, y - 1);
      YearLength(y - 1);
    }
  }

  /** A day number lies in exactly one year. */
  lemma YearOfIsUnique(n: int, y: int)
    requires DaysBeforeYear(y) < n <= DaysBeforeYear(y + 1)
    ensures YearOf(n) == y
  {
    var z := YearOf(n);
    if z < y {
      YearsAreOrdered(z + 1, y);
    } else if y < z {
      YearsAreOrdered(y + 1, z);
    }
  }

  function MonthOf(y: int, dayOfYear: int, m: int): (r: int)
    requires 1 <= m <= 12
    requires DaysBeforeMonth(y, m) < dayOfYear <= DaysBeforeMonth(y, 13)
    ensures 1 <= r <= 12
    ensures DaysBeforeMonth(y, r) < dayOfYear <= DaysBeforeMonth(y, r) + DaysInMonth(y, r)
    decreases 12 - m
  {
    if dayOfYear <= DaysBeforeMonth(y, m + 1) then m else MonthOf(y, dayOfYear, m + 1)
  }

  /** The date with a given day number, as date + timedelta computes it. */
  function FromOrdinal(n: int): (d: Date)
    ensures ValidDate(d) && Ordinal(d) == n
  {
    var y := YearOf(n);
    YearLength(y);
    MonthTable(y);
    var m := MonthOf(y, n - DaysBeforeYear(y), 1);
    Date(y, m, n - DaysBeforeYear(y) - DaysBeforeMonth(y, m))
  }

  lemma {:induction false} MonthsAreOrdered(y: int, m: int, n: int)
    requires 1 <= m <= n <= 13
    ensures DaysBeforeMonth(y, m) + 28 * (n - m) <= DaysBeforeMonth(y, n)
    decreases n - m
  {
    if m < n {
      MonthsAreOrdered(y, m, n - 1);
    }
  }

  lemma DateInYear(d: Date)
    requires ValidDate(d)
    ensures DaysBeforeYear(d.year) < Ordinal(d) <= DaysBeforeYear(d.year + 1)
    ensures YearOf(Ordinal(d)) == d.year
  {
    MonthsAreOrdered(d.year, 1, d.month);
    MonthsAreOrdered(d.year, d.month + 1, 13);
    YearLength(d.year);
    MonthTable(d.year);
    YearOfIsUnique(Ordinal(d), d.year);
  }

  /** Dates and day numbers correspond one to one. */
  lemma FromOrdinalInverts(d: Date)
    requires ValidDate(d)
    ensures FromOrdinal(Ordinal(d)) == d
  {
    DateInYear(d);
    var e := FromOrdinal(Ordinal(d));
    DateInYear(e);
    NextMonth(d.year, d.month);
    NextMonth(d.year, e.month);
    hide FromOrdinal, YearOf, DaysBeforeYear, DaysBeforeMonth, DaysInMonth;
    if e.month < d.month {
      MonthsAreOrdered(d.year, e.month + 1, d.month);
    } else if d.month < e.month {
      MonthsAreOrdered(d.year, d.month + 1, e.month);
    }
  }

  lemma NextMonth(y: int, m: int)
    requires 1 <= m <= 12
    ensures DaysBeforeMonth(y, m + 1) == DaysBeforeMonth(y, m) + DaysInMonth(y, m)
  {
    hide DaysInMonth;
  }

  /** The Gregorian cycle: 400 years are 146097 days, which is a whole number of weeks. */
  lemma CycleOf400Years(d: Date)
    requires ValidDate(d)
    ensures var e := d.(year := d.year + 400);
            ValidDate(e) && Ordinal(e) == Ordinal(d) + DAYS_PER_400_YEARS && Weekday(e) == Weekday(d)
  {
    hide DaysBeforeYear, DaysBeforeMonth, DaysInMonth;
    CycleOfMonths(d.year, d.month);
    CycleOfYearStarts(d.year);
    CycleOfWeeks(Ordinal(d));
  }

  lemma CycleOfWeeks(n: int)
    ensures (n + DAYS_PER_400_YEARS + 6) % 7 == (n + 6) % 7
  {
  }

  lemma {:induction false} CycleOfMonths(y: int, m: int)
    requires 1 <= m <= 13
    ensures DaysBeforeMonth(y + 400, m) == DaysBeforeMonth(y, m)
    ensures m <= 12 ==> DaysInMonth(y + 400, m) == DaysInMonth(y, m)
    decreases m
  {
    CycleOfYearStarts(y);
    if m > 1 {
      CycleOfMonths(y, m - 1);
    }
  }

  lemma CycleOfYearStarts(y: int)
    ensures DaysBeforeYear(y + 400) == DaysBeforeYear(y) + DAYS_PER_400_YEARS
    ensures IsLeap(y + 400) <==> IsLeap(y)
  {
    var p := y - 1;
    assert (p + 400) / 4 == p / 4 + 100;
    assert (p + 400) / 100 == p / 100 + 4;
    assert (p + 400) / 400 == p / 400 + 1;
    assert (y + 400) % 4 == y % 4;
    assert (y + 400) % 100 == y % 100;
    assert (y + 400) % 400 == y % 400;
  }

  lemma CycleOfYearOf(n: int)
    ensures YearOf(n + DAYS_PER_400_YEARS) == YearOf(n) + 400
  {
    CycleOfYearStarts(YearOf(n));
    CycleOfYearStarts(YearOf(n) + 1);
    YearOfIsUnique(n + DAYS_PER_400_YEARS, YearOf(n) + 400);
  }
}
