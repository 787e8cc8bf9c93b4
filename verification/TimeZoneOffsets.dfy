/** PosixTimeZone.get_offset and get_transitions: which UTC offset is in effect when. */
module TimeZoneOffsets {
  import opened Calendar
  import opened TimeZoneRules

  /** PosixTimeZone._instant */
  function Instant(tr: Transition, year: int, offset: int): int
    requires tr.rule.Valid()
  {
    (Ordinal(RuleDate(tr.rule, year)) - EPOCH_ORDINAL) * DAY + (tr.time - offset) * SECOND
  }

  function StartOf(z: Zone, year: int): int
    requires z.Valid() && z.Daylight?
  {
    Instant(z.start, year, z.standard)
  }

  function EndOf(z: Zone, year: int): int
    requires z.Valid() && z.Daylight?
  {
    Instant(z.end, year, z.daylight)
  }

  function LocalYear(local: int): int {
    YearOf(EPOCH_ORDINAL + local / DAY)
  }

  /** The calendar year in local standard time. */
  function StandardYear(z: Zone, t: int): int {
    LocalYear(t + z.standard * SECOND)
  }

  predicate InDaylight(start: int, end: int, t: int) {
    if start <= end then start <= t < end else t >= start || t < end
  }

  function GetOffset(z: Zone, t: int): int
    requires z.Valid()
  {
    match z
    case Fixed(standard) => standard
    case Daylight(standard, daylight, _, _) =>
      var year := StandardYear(z, t);
      if InDaylight(StartOf(z, year), EndOf(z, year), t) then daylight else standard
  }

  function GetTransitions(z: Zone, year: int): seq<int>
    requires z.Valid()
  {
    if z.Fixed? then [] else [StartOf(z, year), EndOf(z, year)]
  }

  // The 400-year period

  lemma CycleOfInstants(tr: Transition, year: int, offset: int)
    requires tr.rule.Valid()
    ensures Instant(tr, year + 400, offset) == Instant(tr, year, offset) + DAYS_PER_400_YEARS * DAY
  {
    hide RuleDate, Ordinal;
    CycleOfRules(tr.rule, year);
    CycleOf400Years(RuleDate(tr.rule, year));
  }

  lemma DayShift(local: int)
    ensures (local + DAYS_PER_400_YEARS * DAY) / DAY == local / DAY + DAYS_PER_400_YEARS
  {
  }

  lemma CycleOfLocalYear(local: int)
    ensures LocalYear(local + DAYS_PER_400_YEARS * DAY) == LocalYear(local) + 400
  {
    hide YearOf;
    DayShift(local);
    CycleOfYearOf(EPOCH_ORDINAL + local / DAY);
  }

  lemma CycleOfStandardYear(z: Zone, t: int)
    ensures StandardYear(z, t + DAYS_PER_400_YEARS * DAY) == StandardYear(z, t) + 400
  {
    hide LocalYear;
    CycleOfLocalYear(t + z.standard * SECOND);
  }

  /** The offset repeats every 400 years, for every zone and at every instant. */
  lemma OffsetRepeats(z: Zone, t: int)
    requires z.Valid()
    ensures GetOffset(z, t + DAYS_PER_400_YEARS * DAY) == GetOffset(z, t)
  {
    hide StandardYear, Instant;
    if z.Daylight? {
      var year := StandardYear(z, t);
      CycleOfStandardYear(z, t);
      CycleOfInstants(z.start, year, z.standard);
      CycleOfInstants(z.end, year, z.daylight);
    }
  }

  // Between transitions

  /** The instant at which local standard time reaches January 1. */
  function NewYear(z: Zone, y: int): int {
    (DaysBeforeYear(y) + 1 - EPOCH_ORDINAL) * DAY - z.standard * SECOND
  }

  lemma StandardYearSpan(z: Zone, t: int, y: int)
    ensures StandardYear(z, t) == y <==> NewYear(z, y) <= t < NewYear(z, y + 1)
  {
    hide DaysBeforeYear, YearOf;
    var local := t + z.standard * SECOND;
    var n := EPOCH_ORDINAL + local / DAY;
    assert local == DAY * (local / DAY) + local % DAY && 0 <= local % DAY < DAY;
    assert NewYear(z, y) <= t <==> DaysBeforeYear(y) < n;
    assert t < NewYear(z, y + 1) <==> n <= DaysBeforeYear(y + 1);
    if DaysBeforeYear(y) < n <= DaysBeforeYear(y + 1) {
      YearOfIsUnique(n, y);
    }
    assert DaysBeforeYear(YearOf(n)) < n <= DaysBeforeYear(YearOf(n) + 1);
  }

  ghost predicate IsTransition(z: Zone, t: int)
    requires z.Valid()
  {
    exists year :: t in GetTransitions(z, year)
  }

  /** No clock change happens after `a`, up to and including `b`. */
  ghost predicate Quiet(z: Zone, a: int, b: int)
    requires z.Valid()
  {
    forall year, x :: x in GetTransitions(z, year) ==> !(a < x <= b)
  }

  ghost predicate ConstantWhenQuiet(z: Zone)
    requires z.Valid()
  {
    forall a, b :: a <= b && Quiet(z, a, b) ==> GetOffset(z, a) == GetOffset(z, b)
  }

  /** The offset does not jump at the turn of a standard-time year, except by a transition. */
  ghost predicate Seamless(z: Zone)
    requires z.Valid()
  {
    forall y :: SmoothTurn(z, y)
  }

  ghost predicate SmoothTurn(z: Zone, y: int)
    requires z.Valid()
  {
    IsTransition(z, NewYear(z, y)) || GetOffset(z, NewYear(z, y) - 1) == GetOffset(z, NewYear(z, y))
  }

  /** Within one standard-time year no zone jumps without a transition. */
  lemma QuietWithinYear(z: Zone, a: int, b: int, y: int)
    requires z.Valid() && a <= b && Quiet(z, a, b)
    requires StandardYear(z, a) == y == StandardYear(z, b)
    ensures GetOffset(z, a) == GetOffset(z, b)
  {
    hide Instant, StandardYear;
    if z.Daylight? {
      var x := GetTransitions(z, y);
      assert x[0] in x && x[1] in x;
    }
  }

  lemma YearsFollowTime(z: Zone, a: int, b: int)
    requires a <= b
    ensures StandardYear(z, a) <= StandardYear(z, b)
    ensures NewYear(z, StandardYear(z, a)) <= a < NewYear(z, StandardYear(z, a) + 1)
  {
    hide StandardYear, DaysBeforeYear;
    var p, q := StandardYear(z, a), StandardYear(z, b);
    StandardYearSpan(z, a, p);
    StandardYearSpan(z, b, q);
    if q < p {
      YearsAreOrdered(q + 1, p);
    }
  }

  lemma {:induction false} SeamlessIsConstant(z: Zone, a: int, b: int)
    requires z.Valid() && Seamless(z) && a <= b && Quiet(z, a, b)
    ensures GetOffset(z, a) == GetOffset(z, b)
    decreases StandardYear(z, b) - StandardYear(z, a)
  {
    hide GetOffset, StandardYear, NewYear, GetTransitions;
    YearsFollowTime(z, a, b);
    var p, q := StandardYear(z, a), StandardYear(z, b);
    if p == q {
      QuietWithinYear(z, a, b, p);
    } else {
      var turn := NewYear(z, p + 1);
      YearsFollowTime(z, b, b);
      NewYearsAreOrdered(z, p, p + 1);
      NewYearsAreOrdered(z, p + 1, p + 2);
      NewYearsAreOrdered(z, p + 1, q);
      assert a < turn <= b;
      StandardYearSpan(z, turn - 1, p);
      StandardYearSpan(z, turn, p + 1);
      assert SmoothTurn(z, p + 1);
      QuietWithinYear(z, a, turn - 1, p);
      SeamlessIsConstant(z, turn, b);
    }
  }

  lemma NewYearsAreOrdered(z: Zone, x: int, y: int)
    requires x <= y
    ensures NewYear(z, x) + 365 * DAY * (y - x) <= NewYear(z, y)
  {
    hide DaysBeforeYear;
    YearsAreOrdered(x, y);
  }

  /** For every zone: the offset is constant wherever get_transitions lists nothing, over any
      number of years, exactly when no turn of the year makes it jump. */
  lemma ConstantIffSeamless(z: Zone)
    requires z.Valid()
    ensures ConstantWhenQuiet(z) <==> Seamless(z)
  {
    hide GetOffset, NewYear, GetTransitions;
    if Seamless(z) {
      forall a, b | a <= b && Quiet(z, a, b)
        ensures GetOffset(z, a) == GetOffset(z, b)
      {
        SeamlessIsConstant(z, a, b);
      }
    }
    if ConstantWhenQuiet(z) {
      forall y
        ensures SmoothTurn(z, y)
      {
        if !IsTransition(z, NewYear(z, y)) {
          assert Quiet(z, NewYear(z, y) - 1, NewYear(z, y));
        }
      }
    }
  }

  // A finite test

  lemma CycleOfTransitions(z: Zone, t: int)
    requires z.Valid()
    ensures IsTransition(z, t) <==> IsTransition(z, t + DAYS_PER_400_YEARS * DAY)
  {
    hide GetTransitions;
    if year :| t in GetTransitions(z, year) {
      CycleOfTransition(z, t, year);
    }
    if year :| t + DAYS_PER_400_YEARS * DAY in GetTransitions(z, year) {
      CycleOfTransition(z, t, year - 400);
    }
  }

  lemma CycleOfTransition(z: Zone, t: int, year: int)
    requires z.Valid()
    ensures t in GetTransitions(z, year) <==> t + DAYS_PER_400_YEARS * DAY in GetTransitions(z, year + 400)
  {
    hide Instant;
    if z.Daylight? {
      CycleOfInstants(z.start, year, z.standard);
      CycleOfInstants(z.end, year, z.daylight);
    }
  }

  lemma CycleOfTurns(z: Zone, y: int)
    requires z.Valid()
    ensures SmoothTurn(z, y + 400) <==> SmoothTurn(z, y)
  {
    hide GetOffset, IsTransition, DaysBeforeYear;
    var turn := NewYear(z, y);
    CycleOfYearStarts(y);
    assert NewYear(z, y + 400) == turn + DAYS_PER_400_YEARS * DAY;
    CycleOfTransitions(z, turn);
    OffsetRepeats(z, turn);
    OffsetRepeats(z, turn - 1);
  }

  lemma {:induction false} TurnsRepeat(z: Zone, y: int, k: nat)
    requires z.Valid()
    ensures SmoothTurn(z, y + 400 * k) <==> SmoothTurn(z, y)
  {
    hide SmoothTurn;
    if k > 0 {
      TurnsRepeat(z, y, k - 1);
      CycleOfTurns(z, y + 400 * (k - 1));
    }
  }

  /** Any 400 consecutive turns of the year decide. */
  lemma SeamlessIff400(z: Zone, first: int)
    requires z.Valid()
    ensures Seamless(z) <==> forall y :: first <= y < first + 400 ==> SmoothTurn(z, y)
  {
    hide SmoothTurn;
    if forall y :: first <= y < first + 400 ==> SmoothTurn(z, y) {
      forall y
        ensures SmoothTurn(z, y)
      {
        var k, r := (y - first) / 400, first + (y - first) % 400;
        assert y == r + 400 * k;
        if k >= 0 {
          TurnsRepeat(z, r, k);
        } else {
          TurnsRepeat(z, y, -k);
        }
      }
    }
  }

  /** The parser's ranges: offsets up to 24 hours and the default hour of summer time, and times of
      transitions up to 167 hours. */
  predicate InRange(z: Zone) {
    && -93600 < z.standard < 93600
    && (z.Daylight? ==>
          -93600 < z.daylight < 93600 && -604800 < z.start.time < 604800 && -604800 < z.end.time < 604800)
  }

  /** The turn of a year by itself: a transition of that or the previous year, or no jump. */
  predicate PassesTurn(z: Zone, y: int)
    requires z.Valid()
  {
    var turn := NewYear(z, y);
    || turn in GetTransitions(z, y - 1) || turn in GetTransitions(z, y)
    || GetOffset(z, turn - 1) == GetOffset(z, turn)
  }

  lemma RuleDateInYear(r: Rule, year: int)
    requires r.Valid()
    ensures DaysBeforeYear(year) < Ordinal(RuleDate(r, year)) <= DaysBeforeYear(year) + 366
  {
    hide DaysBeforeYear, DaysInMonth, FirstOn, LastOn;
    if r.MonthRule? {
      DateInYear(RuleDate(r, year));
      YearLength(year);
    }
  }

  /** A transition at the turn of a year is one of that year or of the previous year. */
  lemma NearestYears(tr: Transition, offset: int, z: Zone, year: int, y: int)
    requires tr.rule.Valid() && InRange(z) && -604800 < tr.time < 604800 && -93600 < offset < 93600
    requires Instant(tr, year, offset) == NewYear(z, y)
    ensures y - 1 <= year <= y
  {
    hide RuleDate, Ordinal, DaysBeforeYear;
    RuleDateInYear(tr.rule, year);
    if year > y {
      YearsAreOrdered(y, year);
    } else if year < y - 1 {
      YearsAreOrdered(year, y);
    }
  }

  /** So for every zone that the parser can produce, a test of 400 years and two transitions each
      decides whether its offset is constant between transitions at all times. */
  lemma ConstantIffTestPasses(z: Zone)
    requires z.Valid() && InRange(z)
    ensures ConstantWhenQuiet(z) <==> forall y :: 0 <= y < 400 ==> PassesTurn(z, y)
  {
    hide GetOffset, NewYear, Instant, ConstantWhenQuiet, Seamless;
    forall y
      ensures SmoothTurn(z, y) <==> PassesTurn(z, y)
    {
      if year :| NewYear(z, y) in GetTransitions(z, year) {
        if NewYear(z, y) == StartOf(z, year) {
          NearestYears(z.start, z.standard, z, year, y);
        } else {
          NearestYears(z.end, z.daylight, z, year, y);
        }
      }
    }
    hide SmoothTurn, PassesTurn;
    SeamlessIff400(z, 0);
    ConstantIffSeamless(z);
  }

  // Regular zones

  /** Both transitions fall inside their own standard-time year, every year in the same order. */
  ghost predicate Regular(z: Zone)
    requires z.Valid()
  {
    z.Daylight? ==> RegularInOrder(z, true) || RegularInOrder(z, false)
  }

  ghost predicate RegularInOrder(z: Zone, northern: bool)
    requires z.Valid() && z.Daylight?
  {
    forall y :: RegularYear(z, y, northern)
  }

  ghost predicate RegularYear(z: Zone, y: int, northern: bool)
    requires z.Valid() && z.Daylight?
  {
    && NewYear(z, y) <= StartOf(z, y) < NewYear(z, y + 1)
    && NewYear(z, y) <= EndOf(z, y) < NewYear(z, y + 1)
    && (northern <==> StartOf(z, y) <= EndOf(z, y))
  }

  lemma RegularIsSeamless(z: Zone)
    requires z.Valid() && Regular(z)
    ensures Seamless(z)
  {
    hide StandardYear, NewYear, Instant;
    if z.Daylight? {
      var northern := RegularInOrder(z, true);
      forall y
        ensures SmoothTurn(z, y)
      {
        var turn := NewYear(z, y);
        NewYearsAreOrdered(z, y - 1, y);
        NewYearsAreOrdered(z, y, y + 1);
        StandardYearSpan(z, turn - 1, y - 1);
        StandardYearSpan(z, turn, y);
        assert RegularYear(z, y - 1, northern) && RegularYear(z, y, northern);
        var x := GetTransitions(z, y);
        assert x[0] in x && x[1] in x;
      }
    }
  }

  /** The clock of a regular zone changes exactly at the listed transitions. */
  lemma RegularZonesChangeAtTransitions(z: Zone, y: int, x: int)
    requires z.Valid() && Regular(z) && z.Daylight? && z.standard != z.daylight
    requires StartOf(z, y) != EndOf(z, y) && x in GetTransitions(z, y)
    ensures GetOffset(z, x - 1) != GetOffset(z, x)
  {
    hide StandardYear, NewYear, Instant;
    var northern := RegularInOrder(z, true);
    assert RegularYear(z, y, northern) && RegularYear(z, y - 1, northern);
    NewYearsAreOrdered(z, y - 1, y);
    StandardYearSpan(z, x, y);
    StandardYearSpan(z, x - 1, if x == NewYear(z, y) then y - 1 else y);
  }

  /** Which offset is in effect when: daylight saving time runs from each start to the next end,
      and standard time from each end to the next start. */
  lemma RegularOffsets(z: Zone, t: int, y: int)
    requires z.Valid() && z.Daylight? && Regular(z)
    ensures (forall x :: StartOf(z, x) <= EndOf(z, x)) ==>
              && (StartOf(z, y) <= t < EndOf(z, y) ==> GetOffset(z, t) == z.daylight)
              && (EndOf(z, y) <= t < StartOf(z, y + 1) ==> GetOffset(z, t) == z.standard)
    ensures (forall x :: EndOf(z, x) < StartOf(z, x)) ==>
              && (StartOf(z, y) <= t < EndOf(z, y + 1) ==> GetOffset(z, t) == z.daylight)
              && (EndOf(z, y) <= t < StartOf(z, y) ==> GetOffset(z, t) == z.standard)
  {
    hide StandardYear, NewYear, Instant;
    var northern := RegularInOrder(z, true);
    assert RegularYear(z, y, northern) && RegularYear(z, y + 1, northern);
    StandardYearSpan(z, t, y);
    StandardYearSpan(z, t, y + 1);
  }

  /** A zone without daylight saving time has one offset. */
  lemma FixedOffset(z: Zone, t: int)
    requires z.Fixed?
    ensures GetOffset(z, t) == z.standard && forall year :: GetTransitions(z, year) == []
  {
  }

  /** What clocks on the wall show at a transition: the date and time of the rule, in the offset
      that is in effect before it. */
  lemma TransitionsOnTheWall(z: Zone, y: int)
    requires z.Valid() && z.Daylight?
    ensures |GetTransitions(z, y)| == 2
    ensures 0 <= z.start.time < 86400 ==>
              var local := GetTransitions(z, y)[0] + z.standard * SECOND;
              && FromOrdinal(EPOCH_ORDINAL + local / DAY) == RuleDate(z.start.rule, y)
              && local % DAY == z.start.time * SECOND
    ensures 0 <= z.end.time < 86400 ==>
              var local := GetTransitions(z, y)[1] + z.daylight * SECOND;
              && FromOrdinal(EPOCH_ORDINAL + local / DAY) == RuleDate(z.end.rule, y)
              && local % DAY == z.end.time * SECOND
  {
    hide RuleDate, Instant, FromOrdinal;
    if 0 <= z.start.time < 86400 {
      OnTheWall(z.start, y, z.standard);
    }
    if 0 <= z.end.time < 86400 {
      OnTheWall(z.end, y, z.daylight);
    }
  }

  lemma OnTheWall(tr: Transition, y: int, offset: int)
    requires tr.rule.Valid() && 0 <= tr.time < 86400
    ensures var local := Instant(tr, y, offset) + offset * SECOND;
            FromOrdinal(EPOCH_ORDINAL + local / DAY) == RuleDate(tr.rule, y) && local % DAY == tr.time * SECOND
  {
    hide RuleDate, Ordinal, FromOrdinal, Instant;
    var n := Ordinal(RuleDate(tr.rule, y)) - EPOCH_ORDINAL;
    InstantIs(tr, y, offset);
    FromOrdinalInverts(RuleDate(tr.rule, y));
    SplitDay(Instant(tr, y, offset) + offset * SECOND, n, tr.time);
  }

  lemma InstantIs(tr: Transition, y: int, offset: int)
    requires tr.rule.Valid()
    ensures Instant(tr, y, offset) + offset * SECOND
            == (Ordinal(RuleDate(tr.rule, y)) - EPOCH_ORDINAL) * DAY + tr.time * SECOND
  {
    hide RuleDate, Ordinal;
  }

  lemma SplitDay(t: int, n: int, time: int)
    requires 0 <= time < 86400 && t == n * DAY + time * SECOND
    ensures t / DAY == n && t % DAY == time * SECOND
  {
    assert 0 <= time * SECOND < DAY;
  }

  /** A syntactic test that covers the zones in use: month rules in February to November, at
      least two months apart. */
  predicate MonthsApart(z: Zone) {
    z.Daylight? ==>
      && z.start.rule.MonthRule? && z.end.rule.MonthRule?
      && 2 <= z.start.rule.month <= 11 && 2 <= z.end.rule.month <= 11
      && (z.start.rule.month + 2 <= z.end.rule.month || z.end.rule.month + 2 <= z.start.rule.month)
  }

  predicate Ordinary(z: Zone) {
    z.Daylight? ==> z.Valid() && MonthsApart(z) && InRange(z)
  }

  lemma MonthRuleSpan(r: Rule, y: int)
    requires r.Valid() && r.MonthRule? && 2 <= r.month <= 11
    ensures var k := Ordinal(RuleDate(r, y)) - DaysBeforeYear(y);
            DaysBeforeMonth(y, r.month) < k <= DaysBeforeMonth(y, r.month + 1)
            && 31 < k <= DaysInYear(y) - 31
  {
    hide DaysBeforeYear, DaysInYear, IsLeap, DaysInMonth;
    MonthRuleMeaning(r, y);
    MonthTable(y);
    MonthsAreOrdered(y, 2, r.month);
    MonthsAreOrdered(y, r.month + 1, 12);
    assert DaysBeforeMonth(y, r.month + 1) == DaysBeforeMonth(y, r.month) + DaysInMonth(y, r.month);
  }

  lemma OrdinaryYear(z: Zone, y: int)
    requires z.Valid() && Ordinary(z) && z.Daylight?
    ensures RegularYear(z, y, z.start.rule.month < z.end.rule.month)
  {
    hide DaysBeforeYear, DaysInYear, DaysBeforeMonth, DaysInMonth, Ordinal, RuleDate;
    YearLength(y);
    MonthRuleSpan(z.start.rule, y);
    MonthRuleSpan(z.end.rule, y);
    if z.start.rule.month < z.end.rule.month {
      MonthsAreOrdered(y, z.start.rule.month + 1, z.end.rule.month);
    } else {
      MonthsAreOrdered(y, z.end.rule.month + 1, z.start.rule.month);
    }
  }

  lemma OrdinaryIsRegular(z: Zone)
    requires z.Valid() && Ordinary(z)
    ensures Regular(z) && ConstantWhenQuiet(z)
  {
    hide RegularYear, ConstantWhenQuiet, Seamless;
    if z.Daylight? {
      var northern := z.start.rule.month < z.end.rule.month;
      forall y
        ensures RegularYear(z, y, northern)
      {
        OrdinaryYear(z, y);
      }
      assert RegularInOrder(z, northern);
    }
    RegularIsSeamless(z);
    ConstantIffSeamless(z);
  }
}
