/** Daylight saving rules of POSIX TZ strings: the three date formats, and the UTC offset
    they put in effect (tools/GenerateTimeZones.py).  Points in time are microseconds since
    1970-01-01T00:00:00Z, the resolution of Python's `datetime`. */
module TimeZoneRules {
  import opened Calendar

  const SECOND := 1_000_000
  const DAY := 86400 * SECOND
  const EPOCH_ORDINAL := 719163

  datatype Rule =
    | MonthRule(month: int, week: int, dayOfWeek: int)
    | JulianRule(day: int)
    | DayRule(day: int)
  {
    /** What the TZ parser accepts. */
    predicate Valid() {
      match this
      case MonthRule(m, w, d) => 1 <= m <= 12 && 1 <= w <= 5 && 0 <= d <= 6
      case JulianRule(d) => 1 <= d <= 365
      case DayRule(d) => 0 <= d <= 365
    }
  }

  datatype Transition = Transition(rule: Rule, time: int)

  datatype Zone =
    | Fixed(standard: int)
    | Daylight(standard: int, daylight: int, start: Transition, end: Transition)
  {
    predicate Valid() {
      Daylight? ==> start.rule.Valid() && end.rule.Valid()
    }
  }

  /** Sunday is 0, as in POSIX. */
  function PosixWeekday(d: Date): int
    requires ValidDate(d)
  {
    (Weekday(d) + 1) % 7
  }

  /** The first day of the month on the given weekday. */
  function FirstOn(y: int, m: int, dayOfWeek: int): int
    requires 1 <= m <= 12
  {
    1 + (dayOfWeek - PosixWeekday(Date(y, m, 1))) % 7
  }

  /** The last day of the month on the given weekday. */
  function LastOn(y: int, m: int, dayOfWeek: int): int
    requires 1 <= m <= 12
  {
    var last := DaysInMonth(y, m);
    last - (PosixWeekday(Date(y, m, last)) - dayOfWeek) % 7
  }

  function RuleDate(r: Rule, y: int): (d: Date)
    requires r.Valid()
    ensures ValidDate(d)
  {
    match r
    case MonthRule(m, w, dow) =>
      Date(y, m, if w < 5 then FirstOn(y, m, dow) + 7 * (w - 1) else LastOn(y, m, dow))
    case JulianRule(day) =>
      FromOrdinal(DaysBeforeYear(y) + day + (if day >= 60 && IsLeap(y) then 1 else 0))
    case DayRule(day) =>
      FromOrdinal(DaysBeforeYear(y) + day + 1)
  }

  lemma WeekShift(n: int, k: int)
    ensures ((n + k + 6) % 7 + 1) % 7 == (((n + 6) % 7 + 1) % 7 + k) % 7
  {
  }

  lemma WeekdayInMonth(y: int, m: int, day: int)
    requires 1 <= m <= 12 && 1 <= day <= DaysInMonth(y, m)
    ensures PosixWeekday(Date(y, m, day)) == (PosixWeekday(Date(y, m, 1)) + day - 1) % 7
  {
    hide DaysBeforeYear, IsLeap, DaysBeforeMonth;
    WeekShift(Ordinal(Date(y, m, 1)), day - 1);
  }

  lemma WeekArithmetic(first: int, last: int, dayOfWeek: int, week: int)
    requires 0 <= first <= 6 && 0 <= dayOfWeek <= 6
    ensures (first + (dayOfWeek - first) % 7 + 7 * week) % 7 == dayOfWeek
    ensures (first + last - 1 - ((first + last - 1) % 7 - dayOfWeek) % 7) % 7 == dayOfWeek
  {
  }

  /** Stepping back by weeks from the fifth candidate ends on the last one of the month. */
  lemma LastWeekArithmetic(first: int, last: int, dayOfWeek: int, day: int)
    requires 0 <= first <= 6 && 0 <= dayOfWeek <= 6
    requires (day - 1 - (dayOfWeek - first) % 7) % 7 == 0 && last - 7 < day <= last
    ensures day == last - ((first + last - 1) % 7 - dayOfWeek) % 7
  {
  }

  /** Transition.get_date: the month rule steps back from a fifth week that does not exist. */
  method GetDate(r: Rule, year: int) returns (d: Date)
    requires r.Valid()
    ensures d == RuleDate(r, year)
  {
    hide YearOf, DaysBeforeYear, IsLeap, Weekday;
    match r
    case MonthRule(m, w, dow) =>
      var first := FirstOn(year, m, dow);
      var day := first + (w - 1) * 7;
      var last := DaysInMonth(year, m);
      ghost var skipped := 0;
      while day > last
        invariant day == first + (w - 1) * 7 - 7 * skipped
        invariant w < 5 ==> skipped == 0
        invariant w == 5 ==> day + 7 > last
      {
        day := day - 7;
        skipped := skipped + 1;
      }
      if w == 5 {
        WeekdayInMonth(year, m, last);
        LastWeekArithmetic(PosixWeekday(Date(year, m, 1)), last, dow, day);
      }
      d := Date(year, m, day);
    case JulianRule(day) =>
      var jan1 := DaysBeforeYear(year) + 1;
      d := FromOrdinal(jan1 + day - 1);
      if day >= 60 && IsLeap(year) {
        d := FromOrdinal(Ordinal(d) + 1);
      }
    case DayRule(day) =>
      d := FromOrdinal(DaysBeforeYear(year) + 1 + day);
  }

  /** An M rule selects the requested weekday of its month: the n-th one in the weeks 1 to 4,
      the last one in "week" 5. */
  lemma MonthRuleMeaning(r: Rule, y: int)
    requires r.Valid() && r.MonthRule?
    ensures var d := RuleDate(r, y);
            && d.year == y && d.month == r.month && PosixWeekday(d) == r.dayOfWeek
            && (r.week < 5 ==> 7 * (r.week - 1) < d.day <= 7 * r.week)
            && (r.week == 5 ==> d.day + 7 > DaysInMonth(y, r.month))
  {
    var first, last := PosixWeekday(Date(y, r.month, 1)), DaysInMonth(y, r.month);
    WeekdayInMonth(y, r.month, RuleDate(r, y).day);
    WeekdayInMonth(y, r.month, last);
    WeekArithmetic(first, last, r.dayOfWeek, r.week - 1);
  }

  /** Points in time are counted from 1970-01-01, which is a Thursday. */
  lemma EpochIsThursday()
    ensures var d := Date(1970, 1, 1);
            ValidDate(d) && Ordinal(d) == EPOCH_ORDINAL && Weekday(d) == 3 && PosixWeekday(d) == 4
  {
  }

  /** An n rule counts the days of the year from zero, leap days included. */
  lemma DayRuleMeaning(n: int, y: int)
    requires DayRule(n).Valid()
    ensures ValidDate(Date(y, 1, 1)) && Ordinal(RuleDate(DayRule(n), y)) == Ordinal(Date(y, 1, 1)) + n
  {
  }

  /** A J rule counts the days of a year without leap day from one. */
  lemma JulianRuleMeaning(n: int, y: int)
    requires JulianRule(n).Valid() && !IsLeap(y)
    ensures ValidDate(Date(y, 1, 1)) && Ordinal(RuleDate(JulianRule(n), y)) == Ordinal(Date(y, 1, 1)) + n - 1
  {
  }

  lemma JulianDayOfYear(day: int, y: int)
    requires 1 <= day <= 365
    ensures var n := DaysBeforeYear(y) + day + (if day >= 60 && IsLeap(y) then 1 else 0);
            DaysBeforeYear(y) < n <= DaysBeforeYear(y + 1) && FromOrdinal(n).year == y
  {
    YearLength(y);
    var n := DaysBeforeYear(y) + day + (if day >= 60 && IsLeap(y) then 1 else 0);
    YearOfIsUnique(n, y);
  }

  /** The month and day at a given J number do not depend on the year. */
  lemma JulianPosition(day: int, y: int, z: int, m: int, k: int)
    requires 1 <= m <= 12 && 1 <= k <= DaysInMonth(y, m) && !(m == 2 && k == 29)
    requires DaysBeforeMonth(y, m) + k == day + (if day >= 60 && IsLeap(y) then 1 else 0)
    ensures k <= DaysInMonth(z, m)
    ensures DaysBeforeMonth(z, m) + k == day + (if day >= 60 && IsLeap(z) then 1 else 0)
  {
    MonthTable(y);
    MonthTable(z);
  }

  /** A J rule never selects February 29. */
  lemma JulianRuleSkipsLeapDay(r: Rule, y: int)
    requires r.Valid() && r.JulianRule?
    ensures var d := RuleDate(r, y); d.year == y && !(d.month == 2 && d.day == 29)
  {
    hide YearOf, DaysBeforeYear, IsLeap;
    JulianDayOfYear(r.day, y);
    assert DaysBeforeMonth(y, 2) == 31;
  }

  /** A J rule selects the same month and day in every year. */
  lemma JulianRuleIsPerpetual(r: Rule, y: int, z: int)
    requires r.Valid() && r.JulianRule?
    ensures RuleDate(r, z) == RuleDate(r, y).(year := z)
  {
    hide YearOf, DaysBeforeYear, IsLeap;
    JulianDayOfYear(r.day, y);
    JulianRuleSkipsLeapDay(r, y);
    var d := RuleDate(r, y);
    var e := d.(year := z);
    assert DaysBeforeMonth(y, d.month) + d.day == r.day + (if r.day >= 60 && IsLeap(y) then 1 else 0);
    JulianPosition(r.day, y, z, d.month, d.day);
    FromOrdinalInverts(e);
  }

  lemma CycleOfDates(n: int)
    ensures FromOrdinal(n + DAYS_PER_400_YEARS) == FromOrdinal(n).(year := FromOrdinal(n).year + 400)
  {
    hide Ordinal, YearOf;
    var d := FromOrdinal(n);
    CycleOf400Years(d);
    FromOrdinalInverts(d.(year := d.year + 400));
  }

  lemma CycleOfMonthRule(y: int, m: int, dow: int)
    requires 1 <= m <= 12
    ensures FirstOn(y + 400, m, dow) == FirstOn(y, m, dow)
    ensures LastOn(y + 400, m, dow) == LastOn(y, m, dow)
  {
    CycleOfMonths(y, m);
    CycleOf400Years(Date(y, m, 1));
    CycleOf400Years(Date(y, m, DaysInMonth(y, m)));
  }

  lemma CycleOfDayCounts(y: int, k: int)
    ensures FromOrdinal(DaysBeforeYear(y + 400) + k)
            == FromOrdinal(DaysBeforeYear(y) + k).(year := FromOrdinal(DaysBeforeYear(y) + k).year + 400)
    ensures IsLeap(y + 400) <==> IsLeap(y)
  {
    hide FromOrdinal, YearOf, DaysBeforeYear, IsLeap;
    CycleOfYearStarts(y);
    CycleOfDates(DaysBeforeYear(y) + k);
  }

  /** Every rule repeats after 400 years. */
  lemma CycleOfRules(r: Rule, y: int)
    requires r.Valid()
    ensures RuleDate(r, y + 400) == RuleDate(r, y).(year := RuleDate(r, y).year + 400)
  {
    hide FromOrdinal, YearOf, DaysBeforeYear, IsLeap, FirstOn, LastOn;
    match r {
      case MonthRule(m, w, dow) =>
        CycleOfMonthRule(y, m, dow);
      case JulianRule(day) =>
        CycleOfDayCounts(y, day + (if day >= 60 && IsLeap(y) then 1 else 0));
      case DayRule(day) =>
        CycleOfDayCounts(y, day + 1);
    }
  }
}
