/** PosixTimeZone.parse: the parser of POSIX TZ strings, and the grammar it inverts. */
module TimeZoneParser {
  import TimeZoneOffsets
  import opened TimeZoneRules

  /** A parsed value and the rest of the input, or the parser's ValueError. */
  datatype Parsed<+T> = Ok(value: T, rest: string) | Malformed {
    predicate IsFailure() {
      Malformed?
    }

    function PropagateFailure<U>(): Parsed<U>
      requires Malformed?
    {
      Malformed
    }

    function Extract(): (T, string)
      requires Ok?
    {
      (value, rest)
    }
  }

  predicate StartsWith(s: string, c: char) {
    |s| > 0 && s[0] == c
  }

  predicate IsAlpha(c: char) {
    'a' <= c <= 'z' || 'A' <= c <= 'Z'
  }

  predicate IsDigit(c: char) {
    '0' <= c <= '9'
  }

  // The parser

  function LetterRun(s: string): (n: nat)
    ensures n <= |s|
  {
    if s == "" || !IsAlpha(s[0]) then 0 else 1 + LetterRun(s[1..])
  }

  function DigitRun(s: string, maxDigits: nat): (n: nat)
    ensures n <= |s| && n <= maxDigits
    ensures forall i :: 0 <= i < n ==> IsDigit(s[i])
    ensures n < maxDigits && n < |s| ==> !IsDigit(s[n])
  {
    if maxDigits == 0 || s == "" || !IsDigit(s[0]) then 0
    else
      var n := DigitRun(s[1..], maxDigits - 1);
      assert forall i :: 1 <= i < n + 1 ==> s[i] == s[1..][i - 1];
      1 + n
  }

  function Find(s: string, c: char): (n: nat)
    ensures n <= |s| && c !in s[..n]
    ensures n < |s| ==> s[n] == c
  {
    if s == "" || s[0] == c then 0
    else
      var n := Find(s[1..], c);
      assert s[..n + 1] == [s[0]] + s[1..][..n];
      1 + n
  }

  function Value(digits: string): int
    requires forall i :: 0 <= i < |digits| ==> IsDigit(digits[i])
  {
    if digits == "" then 0
    else Value(digits[..|digits| - 1]) * 10 + (digits[|digits| - 1] as int - '0' as int)
  }

  function SkipAbbreviation(s: string): Parsed<()> {
    if StartsWith(s, '<') then
      var end := Find(s, '>');
      if end == |s| || end < 4 then Malformed else Ok((), s[end + 1..])
    else
      var length := LetterRun(s);
      if length < 3 then Malformed else Ok((), s[length..])
  }

  function ParseUnsigned(s: string, maxDigits: nat): Parsed<int> {
    var length := DigitRun(s, maxDigits);
    if length == 0 then Malformed else Ok(Value(s[..length]), s[length..])
  }

  lemma LetterRunIs(s: string, n: nat)
    requires n <= |s| && (forall i :: 0 <= i < n ==> IsAlpha(s[i])) && (n < |s| ==> !IsAlpha(s[n]))
    ensures LetterRun(s) == n
  {
    if n > 0 {
      LetterRunIs(s[1..], n - 1);
    }
  }

  lemma DigitRunIs(s: string, maxDigits: nat, n: nat)
    requires n <= |s| && n <= maxDigits && (forall i :: 0 <= i < n ==> IsDigit(s[i]))
    requires n < maxDigits && n < |s| ==> !IsDigit(s[n])
    ensures DigitRun(s, maxDigits) == n
  {
    var m := DigitRun(s, maxDigits);
  }

  lemma FindIs(s: string, c: char, n: nat)
    requires n < |s| && s[n] == c && forall i :: 0 <= i < n ==> s[i] != c
    ensures Find(s, c) == n
  {
    if n > 0 {
      FindIs(s[1..], c, n - 1);
    }
  }

  /** The scanning loop of _skip_abbreviation. */
  method ScanAbbreviation(s: string) returns (r: Parsed<()>)
    ensures r == SkipAbbreviation(s)
  {
    if StartsWith(s, '<') {
      var end := Find(s, '>');
      return if end == |s| || end < 4 then Malformed else Ok((), s[end + 1..]);
    }
    var length := 0;
    while length < |s| && IsAlpha(s[length])
      invariant length <= |s| && forall i :: 0 <= i < length ==> IsAlpha(s[i])
    {
      length := length + 1;
    }
    LetterRunIs(s, length);
    r := if length < 3 then Malformed else Ok((), s[length..]);
  }

  /** The scanning loop of _parse_unsigned. */
  method ScanUnsigned(s: string, maxDigits: nat) returns (r: Parsed<int>)
    ensures r == ParseUnsigned(s, maxDigits)
  {
    var length := 0;
    while length < |s| && length < maxDigits && IsDigit(s[length])
      invariant length <= |s| && length <= maxDigits && forall i :: 0 <= i < length ==> IsDigit(s[i])
    {
      length := length + 1;
    }
    DigitRunIs(s, maxDigits, length);
    r := if length == 0 then Malformed else Ok(Value(s[..length]), s[length..]);
  }

  function ParseSexagesimal(s: string): Parsed<int> {
    if StartsWith(s, ':') then
      var (n, rest) :- ParseUnsigned(s[1..], 2);
      if n > 59 then Malformed else Ok(n, rest)
    else Ok(0, s)
  }

  function ParseOffset(s: string, maxHours: int): Parsed<int> {
    var negative := StartsWith(s, '-');
    var t := if negative || StartsWith(s, '+') then s[1..] else s;
    var (hours, t1) :- ParseUnsigned(t, 3);
    if hours > maxHours then Malformed
    else
      var (minutes, t2) :- ParseSexagesimal(t1);
      var (seconds, t3) :- if StartsWith(t1, ':') then ParseSexagesimal(t2) else Ok(0, t2);
      var value := hours * 3600 + minutes * 60 + seconds;
      Ok(if negative then -value else value, t3)
  }

  function ParseRule(s: string): Parsed<Rule> {
    if StartsWith(s, 'M') then
      var (month, t1) :- ParseUnsigned(s[1..], 2);
      if !(1 <= month <= 12) || !StartsWith(t1, '.') then Malformed
      else
        var (week, t2) :- ParseUnsigned(t1[1..], 1);
        if !(1 <= week <= 5) || !StartsWith(t2, '.') then Malformed
        else
          var (day, t3) :- ParseUnsigned(t2[1..], 1);
          if day > 6 then Malformed else Ok(MonthRule(month, week, day), t3)
    else if StartsWith(s, 'J') then
      var (day, t) :- ParseUnsigned(s[1..], 3);
      if !(1 <= day <= 365) then Malformed else Ok(JulianRule(day), t)
    else
      var (day, t) :- ParseUnsigned(s, 3);
      if day > 365 then Malformed else Ok(DayRule(day), t)
  }

  const MAX_OFFSET_HOURS := 24
  const MAX_TIME_HOURS := 167
  const DEFAULT_TIME := 2 * 3600

  function ParseTransition(s: string): Parsed<Transition> {
    var (rule, t) :- ParseRule(s);
    if StartsWith(t, '/') then
      var (time, t1) :- ParseOffset(t[1..], MAX_TIME_HOURS);
      Ok(Transition(rule, time), t1)
    else Ok(Transition(rule, DEFAULT_TIME), t)
  }

  /** The part of the string after the standard offset. */
  function ParseSummer(t2: string, standard: int): Parsed<Zone> {
    var (_, t3) :- SkipAbbreviation(t2);
    var (daylight, t4) :-
      if t3 == "" || StartsWith(t3, ',') then Ok(standard + 3600, t3)
      else var (o, u) :- ParseOffset(t3, MAX_OFFSET_HOURS); Ok(-o, u);
    ParseRules(t4, standard, daylight)
  }

  function ParseRules(t4: string, standard: int, daylight: int): Parsed<Zone> {
    if !StartsWith(t4, ',') then Malformed
    else
      var (start, t5) :- ParseTransition(t4[1..]);
      if !StartsWith(t5, ',') then Malformed
      else
        var (end, t6) :- ParseTransition(t5[1..]);
        if t6 != "" then Malformed else Ok(Daylight(standard, daylight, start, end), "")
  }

  /** The rest is empty in every successful result: the parser rejects trailing garbage. */
  function Parse(s: string): Parsed<Zone> {
    var (_, t1) :- SkipAbbreviation(s);
    var (offset, t2) :- ParseOffset(t1, MAX_OFFSET_HOURS);
    if t2 == "" then Ok(Fixed(-offset), "") else ParseSummer(t2, -offset)
  }

  // The grammar: each form writes itself in front of the text that follows it

  predicate Number(digits: string, maxDigits: nat, low: int, high: int) {
    && 1 <= |digits| <= maxDigits
    && (forall i :: 0 <= i < |digits| ==> IsDigit(digits[i]))
    && low <= Value(digits) <= high
  }

  datatype Name = Plain(letters: string) | Quoted(text: string) {
    predicate Valid() {
      match this
      case Plain(letters) => |letters| >= 3 && forall i :: 0 <= i < |letters| ==> IsAlpha(letters[i])
      case Quoted(text) => |text| >= 3 && '>' !in text
    }

    function Write(rest: string): string {
      match this
      case Plain(letters) => letters + rest
      case Quoted(text) => "<" + (text + (">" + rest))
    }
  }

  datatype Sign = NoSign | Plus | Minus
  datatype Clock = Hours | Minutes(m: string) | Seconds(m: string, s: string)

  datatype Offset = Offset(sign: Sign, hours: string, clock: Clock) {
    predicate Valid(maxHours: int) {
      && Number(hours, 3, 0, maxHours)
      && (!clock.Hours? ==> Number(clock.m, 2, 0, 59))
      && (clock.Seconds? ==> Number(clock.s, 2, 0, 59))
    }

    function WriteClock(rest: string): string {
      match clock
      case Hours => rest
      case Minutes(m) => ":" + (m + rest)
      case Seconds(m, s) => ":" + (m + (":" + (s + rest)))
    }

    function Write(rest: string): string {
      var body := hours + WriteClock(rest);
      match sign
      case NoSign => body
      case Plus => "+" + body
      case Minus => "-" + body
    }

    function Denotes(maxHours: int): int
      requires Valid(maxHours)
    {
      var value := Value(hours) * 3600 + (if clock.Hours? then 0 else Value(clock.m) * 60)
                   + (if clock.Seconds? then Value(clock.s) else 0);
      if sign == Minus then -value else value
    }
  }

  datatype DateForm = MonthForm(m: string, w: string, d: string) | JulianForm(d: string) | DayForm(d: string) {
    predicate Valid() {
      match this
      case MonthForm(m, w, d) => Number(m, 2, 1, 12) && Number(w, 1, 1, 5) && Number(d, 1, 0, 6)
      case JulianForm(d) => Number(d, 3, 1, 365)
      case DayForm(d) => Number(d, 3, 0, 365)
    }

    function Write(rest: string): string {
      match this
      case MonthForm(m, w, d) => "M" + (m + ("." + (w + ("." + (d + rest)))))
      case JulianForm(d) => "J" + (d + rest)
      case DayForm(d) => d + rest
    }

    function Denotes(): Rule
      requires Valid()
    {
      match this
      case MonthForm(m, w, d) => MonthRule(Value(m), Value(w), Value(d))
      case JulianForm(d) => JulianRule(Value(d))
      case DayForm(d) => DayRule(Value(d))
    }
  }

  datatype Given = Default | Explicit(offset: Offset)

  datatype TransitionForm = TransitionForm(date: DateForm, time: Given) {
    predicate Valid() {
      date.Valid() && (time.Explicit? ==> time.offset.Valid(MAX_TIME_HOURS))
    }

    function Write(rest: string): string {
      date.Write(if time.Default? then rest else "/" + time.offset.Write(rest))
    }

    function Denotes(): Transition
      requires Valid()
    {
      Transition(date.Denotes(), if time.Default? then DEFAULT_TIME else time.offset.Denotes(MAX_TIME_HOURS))
    }
  }

  datatype ZoneForm =
    | FixedForm(name: Name, offset: Offset)
    | DaylightForm(name: Name, offset: Offset, summerName: Name, summer: Given,
                   start: TransitionForm, end: TransitionForm)
  {
    predicate Valid() {
      && name.Valid() && offset.Valid(MAX_OFFSET_HOURS)
      && (DaylightForm? ==>
            && summerName.Valid() && (summer.Explicit? ==> summer.offset.Valid(MAX_OFFSET_HOURS))
            && start.Valid() && end.Valid())
    }

    function WriteRules(): string
      requires DaylightForm?
    {
      "," + start.Write("," + end.Write(""))
    }

    function WriteSummer(): string
      requires DaylightForm?
    {
      if summer.Default? then WriteRules() else summer.offset.Write(WriteRules())
    }

    /** The TZ string itself. */
    function Render(): string {
      name.Write(offset.Write(if FixedForm? then "" else summerName.Write(WriteSummer())))
    }

    /** POSIX offsets count westwards, hence the flipped signs. */
    function Denotes(): Zone
      requires Valid()
    {
      var standard := -offset.Denotes(MAX_OFFSET_HOURS);
      if FixedForm? then Fixed(standard)
      else Daylight(standard,
                    if summer.Default? then standard + 3600 else -summer.offset.Denotes(MAX_OFFSET_HOURS),
                    start.Denotes(), end.Denotes())
    }
  }

  // Rendering, then parsing

  predicate NotNumeric(rest: string) {
    rest == "" || (!IsDigit(rest[0]) && rest[0] != ':')
  }

  lemma NumberIsRead(digits: string, maxDigits: nat, rest: string)
    requires 1 <= |digits| <= maxDigits && forall i :: 0 <= i < |digits| ==> IsDigit(digits[i])
    requires |digits| == maxDigits || rest == "" || !IsDigit(rest[0])
    ensures ParseUnsigned(digits + rest, maxDigits) == Ok(Value(digits), rest)
  {
    var s := digits + rest;
    DigitRunIs(s, maxDigits, |digits|);
    assert s[..|digits|] == digits && s[|digits|..] == rest;
  }

  lemma NameIsRead(name: Name, rest: string)
    requires name.Valid() && (rest == "" || !IsAlpha(rest[0]))
    ensures SkipAbbreviation(name.Write(rest)) == Ok((), rest)
  {
    match name {
      case Plain(letters) => PlainIsRead(letters, rest);
      case Quoted(text) => QuotedIsRead(text, rest);
    }
  }

  lemma PlainIsRead(letters: string, rest: string)
    requires Plain(letters).Valid() && (rest == "" || !IsAlpha(rest[0]))
    ensures SkipAbbreviation(letters + rest) == Ok((), rest)
  {
    hide LetterRun;
    var s := letters + rest;
    assert forall i :: 0 <= i < |letters| ==> s[i] == letters[i];
    LetterRunIs(s, |letters|);
    assert s[|letters|..] == rest;
  }

  lemma QuotedIsRead(text: string, rest: string)
    requires Quoted(text).Valid()
    ensures SkipAbbreviation("<" + (text + (">" + rest))) == Ok((), rest)
  {
    hide Find, LetterRun;
    var s, end := "<" + (text + (">" + rest)), |text| + 1;
    forall i | 0 <= i < end
      ensures s[i] != '>'
    {
      assert i > 0 ==> s[i] == text[i - 1];
    }
    FindIs(s, '>', end);
    assert s[end + 1..] == rest;
  }

  lemma SexagesimalIsRead(digits: string, rest: string)
    requires Number(digits, 2, 0, 59) && (rest == "" || !IsDigit(rest[0]))
    ensures ParseSexagesimal(":" + (digits + rest)) == Ok(Value(digits), rest)
  {
    hide ParseUnsigned;
    assert (":" + (digits + rest))[1..] == digits + rest;
    NumberIsRead(digits, 2, rest);
  }

  lemma ClockIsRead(o: Offset, maxHours: int, rest: string)
    requires o.Valid(maxHours) && NotNumeric(rest)
    ensures ParseOffset(o.(sign := NoSign).Write(rest), maxHours) == Ok(o.(sign := NoSign).Denotes(maxHours), rest)
  {
    hide ParseUnsigned, ParseSexagesimal;
    NumberIsRead(o.hours, 3, o.WriteClock(rest));
    NoSexagesimal(rest);
    match o.clock {
      case Hours =>
      case Minutes(m) =>
        SexagesimalIsRead(m, rest);
      case Seconds(m, s) =>
        SexagesimalIsRead(s, rest);
        SexagesimalIsRead(m, ":" + (s + rest));
    }
    assert o.(sign := NoSign).Write(rest)[0] == o.hours[0];
  }

  lemma OffsetIsRead(o: Offset, maxHours: int, rest: string)
    requires o.Valid(maxHours) && NotNumeric(rest)
    ensures ParseOffset(o.Write(rest), maxHours) == Ok(o.Denotes(maxHours), rest)
  {
    hide ParseUnsigned, ParseSexagesimal;
    ClockIsRead(o, maxHours, rest);
    var body := o.(sign := NoSign).Write(rest);
    assert body[0] == o.hours[0];
    assert o.sign != NoSign ==> o.Write(rest)[1..] == body;
  }

  lemma DateIsRead(f: DateForm, rest: string)
    requires f.Valid() && NotNumeric(rest)
    ensures ParseRule(f.Write(rest)) == Ok(f.Denotes(), rest)
  {
    hide ParseUnsigned;
    var s := f.Write(rest);
    match f {
      case MonthForm(m, w, d) =>
        var t2 := "." + (d + rest);
        var t1 := "." + (w + t2);
        assert s[1..] == m + t1 && t1[1..] == w + t2 && t2[1..] == d + rest;
        NumberIsRead(m, 2, t1);
        NumberIsRead(w, 1, t2);
        NumberIsRead(d, 1, rest);
      case JulianForm(d) =>
        assert s[1..] == d + rest;
        NumberIsRead(d, 3, rest);
      case DayForm(d) =>
        assert s[0] == d[0];
        NumberIsRead(d, 3, rest);
    }
  }

  lemma TransitionIsRead(f: TransitionForm, rest: string)
    requires f.Valid() && (rest == "" || rest[0] == ',')
    ensures ParseTransition(f.Write(rest)) == Ok(f.Denotes(), rest)
  {
    if f.time.Default? {
      DateIsRead(f.date, rest);
    } else {
      var t := "/" + f.time.offset.Write(rest);
      assert t[1..] == f.time.offset.Write(rest);
      DateIsRead(f.date, t);
      OffsetIsRead(f.time.offset, MAX_TIME_HOURS, rest);
    }
  }

  lemma RulesAreRead(f: ZoneForm, standard: int, daylight: int)
    requires f.Valid() && f.DaylightForm?
    ensures ParseRules(f.WriteRules(), standard, daylight)
            == Ok(Daylight(standard, daylight, f.start.Denotes(), f.end.Denotes()), "")
  {
    hide ParseTransition;
    var second := "," + f.end.Write("");
    assert f.WriteRules()[1..] == f.start.Write(second) && second[1..] == f.end.Write("");
    TransitionIsRead(f.start, second);
    TransitionIsRead(f.end, "");
  }

  lemma OffsetStart(o: Offset, rest: string, maxHours: int)
    requires o.Valid(maxHours)
    ensures var s := o.Write(rest); s != "" && !IsAlpha(s[0]) && s[0] != ','
  {
    assert o.Write(rest)[0] == if o.sign == NoSign then o.hours[0] else if o.sign == Plus then '+' else '-';
  }

  lemma NameStart(name: Name, rest: string)
    requires name.Valid()
    ensures name.Write(rest) != "" && NotNumeric(name.Write(rest))
  {
    assert name.Write(rest)[0] == if name.Plain? then name.letters[0] else '<';
  }

  lemma SummerIsRead(f: ZoneForm, standard: int)
    requires f.Valid() && f.DaylightForm? && standard == -f.offset.Denotes(MAX_OFFSET_HOURS)
    ensures ParseSummer(f.summerName.Write(f.WriteSummer()), standard) == Ok(f.Denotes(), "")
  {
    hide SkipAbbreviation, ParseOffset, ParseRules;
    var rules := f.WriteRules();
    if f.summer.Explicit? {
      OffsetStart(f.summer.offset, rules, MAX_OFFSET_HOURS);
      OffsetIsRead(f.summer.offset, MAX_OFFSET_HOURS, rules);
      RulesAreRead(f, standard, -f.summer.offset.Denotes(MAX_OFFSET_HOURS));
    } else {
      RulesAreRead(f, standard, standard + 3600);
    }
    NameIsRead(f.summerName, f.WriteSummer());
  }

  /** Parsing a rendered TZ string yields the zone it denotes, with no input left over. */
  lemma RenderedZoneIsParsed(f: ZoneForm)
    requires f.Valid()
    ensures Parse(f.Render()) == Ok(f.Denotes(), "")
  {
    hide SkipAbbreviation, ParseOffset, ParseSummer;
    var t2 := if f.FixedForm? then "" else f.summerName.Write(f.WriteSummer());
    if f.DaylightForm? {
      NameStart(f.summerName, f.WriteSummer());
      SummerIsRead(f, -f.offset.Denotes(MAX_OFFSET_HOURS));
    }
    OffsetIsRead(f.offset, MAX_OFFSET_HOURS, t2);
    OffsetStart(f.offset, t2, MAX_OFFSET_HOURS);
    NameIsRead(f.name, f.offset.Write(t2));
  }

  // Parsing, then rendering

  lemma NumberWasWritten(s: string, maxDigits: nat) returns (digits: string)
    requires ParseUnsigned(s, maxDigits).Ok?
    ensures 1 <= |digits| <= maxDigits && forall i :: 0 <= i < |digits| ==> IsDigit(digits[i])
    ensures var p := ParseUnsigned(s, maxDigits); p.value == Value(digits) && s == digits + p.rest
    ensures Value(digits) >= 0
  {
    digits := s[..DigitRun(s, maxDigits)];
    ValueIsNatural(digits);
  }

  lemma ValueIsNatural(digits: string)
    requires forall i :: 0 <= i < |digits| ==> IsDigit(digits[i])
    ensures Value(digits) >= 0
  {
  }

  lemma NameWasWritten(s: string) returns (name: Name)
    requires SkipAbbreviation(s).Ok?
    ensures name.Valid() && s == name.Write(SkipAbbreviation(s).rest)
  {
    if StartsWith(s, '<') {
      var end := Find(s, '>');
      name := Quoted(s[1..end]);
      assert forall i :: 1 <= i < end ==> s[i] == s[..end][i];
      assert s == "<" + (s[1..end] + (">" + s[end + 1..]));
    } else {
      LetterRunIsAlpha(s);
      name := Plain(s[..LetterRun(s)]);
    }
  }

  lemma LetterRunIsAlpha(s: string)
    ensures forall i :: 0 <= i < LetterRun(s) ==> IsAlpha(s[i])
  {
    if s != "" && IsAlpha(s[0]) {
      LetterRunIsAlpha(s[1..]);
      assert forall i :: 1 <= i < LetterRun(s) ==> s[i] == s[1..][i - 1];
    }
  }

  lemma SexagesimalWasWritten(s: string) returns (digits: string)
    requires StartsWith(s, ':') && ParseSexagesimal(s).Ok?
    ensures Number(digits, 2, 0, 59)
    ensures var p := ParseSexagesimal(s); p.value == Value(digits) && s == ":" + (digits + p.rest)
  {
    digits := NumberWasWritten(s[1..], 2);
    assert s == ":" + s[1..];
  }

  lemma OffsetWasWritten(s: string, maxHours: int) returns (o: Offset)
    requires ParseOffset(s, maxHours).Ok?
    ensures o.Valid(maxHours)
    ensures var p := ParseOffset(s, maxHours); p.value == o.Denotes(maxHours) && s == o.Write(p.rest)
  {
    hide ParseUnsigned, ParseSexagesimal, Value, Number;
    var sign := if StartsWith(s, '-') then Minus else if StartsWith(s, '+') then Plus else NoSign;
    var t := if sign != NoSign then s[1..] else s;
    var hours := NumberWasWritten(t, 3);
    assert Number(hours, 3, 0, maxHours) by {
      NumberUpTo(hours, 3, ParseUnsigned(t, 3).value, maxHours);
    }
    var t1 := ParseUnsigned(t, 3).rest;
    var clock := ClockWasWritten(t1);
    o := Offset(sign, hours, clock);
    assert sign != NoSign ==> s == [s[0]] + t;
  }

  lemma NumberUpTo(digits: string, maxDigits: nat, value: int, high: int)
    requires 1 <= |digits| <= maxDigits && (forall i :: 0 <= i < |digits| ==> IsDigit(digits[i]))
    requires 0 <= value <= high && Value(digits) == value
    ensures Number(digits, maxDigits, 0, high)
  {
  }

  /** Minutes and seconds, as far as they are given. */
  lemma ClockWasWritten(t1: string) returns (clock: Clock)
    requires var p := ParseSexagesimal(t1); p.Ok? && (StartsWith(t1, ':') ==> ParseSexagesimal(p.rest).Ok?)
    ensures clock.Hours? <==> !StartsWith(t1, ':')
    ensures !clock.Hours? ==> Number(clock.m, 2, 0, 59) && Value(clock.m) == ParseSexagesimal(t1).value
    ensures clock.Seconds? ==> Number(clock.s, 2, 0, 59)
    ensures var p := ParseSexagesimal(t1);
            if clock.Hours? then p == Ok(0, t1)
            else
              var q := ParseSexagesimal(p.rest);
              && q.value == (if clock.Seconds? then Value(clock.s) else 0)
              && t1 == Offset(NoSign, "", clock).WriteClock(q.rest)
  {
    hide ParseUnsigned, ParseSexagesimal, Value;
    clock := Hours;
    if StartsWith(t1, ':') {
      var m := SexagesimalWasWritten(t1);
      var t2 := ParseSexagesimal(t1).rest;
      if StartsWith(t2, ':') {
        var n := SexagesimalWasWritten(t2);
        clock := Seconds(m, n);
      } else {
        NoSexagesimal(t2);
        clock := Minutes(m);
      }
    } else {
      NoSexagesimal(t1);
    }
  }

  lemma NoSexagesimal(s: string)
    requires !StartsWith(s, ':')
    ensures ParseSexagesimal(s) == Ok(0, s)
  {
  }

  lemma DateWasWritten(s: string) returns (f: DateForm)
    requires ParseRule(s).Ok?
    ensures f.Valid()
    ensures var p := ParseRule(s); p.value == f.Denotes() && s == f.Write(p.rest)
  {
    hide ParseUnsigned;
    if StartsWith(s, 'M') {
      var m := NumberWasWritten(s[1..], 2);
      var t1 := ParseUnsigned(s[1..], 2).rest;
      var w := NumberWasWritten(t1[1..], 1);
      var t2 := ParseUnsigned(t1[1..], 1).rest;
      var d := NumberWasWritten(t2[1..], 1);
      f := MonthForm(m, w, d);
      assert s == "M" + s[1..] && t1 == "." + t1[1..] && t2 == "." + t2[1..];
    } else if StartsWith(s, 'J') {
      var d := NumberWasWritten(s[1..], 3);
      f := JulianForm(d);
      assert s == "J" + s[1..];
    } else {
      var d := NumberWasWritten(s, 3);
      f := DayForm(d);
    }
  }

  lemma TransitionWasWritten(s: string) returns (f: TransitionForm)
    requires ParseTransition(s).Ok?
    ensures f.Valid()
    ensures var p := ParseTransition(s); p.value == f.Denotes() && s == f.Write(p.rest)
  {
    hide ParseRule, ParseOffset;
    var date := DateWasWritten(s);
    var t := ParseRule(s).rest;
    if StartsWith(t, '/') {
      var o := OffsetWasWritten(t[1..], MAX_TIME_HOURS);
      f := TransitionForm(date, Explicit(o));
      assert t == "/" + t[1..];
    } else {
      f := TransitionForm(date, Default);
    }
  }

  lemma RulesWereWritten(t4: string, standard: int, daylight: int)
      returns (start: TransitionForm, end: TransitionForm)
    requires ParseRules(t4, standard, daylight).Ok?
    ensures start.Valid() && end.Valid() && t4 == "," + start.Write("," + end.Write(""))
    ensures ParseRules(t4, standard, daylight) == Ok(Daylight(standard, daylight, start.Denotes(), end.Denotes()), "")
  {
    hide ParseTransition;
    start := TransitionWasWritten(t4[1..]);
    var t5 := ParseTransition(t4[1..]).rest;
    end := TransitionWasWritten(t5[1..]);
    assert t4 == "," + t4[1..] && t5 == "," + t5[1..];
  }

  lemma SummerWasWritten(t2: string, name: Name, offset: Offset) returns (f: ZoneForm)
    requires name.Valid() && offset.Valid(MAX_OFFSET_HOURS)
    requires ParseSummer(t2, -offset.Denotes(MAX_OFFSET_HOURS)).Ok?
    ensures f.DaylightForm? && f.Valid() && f.name == name && f.offset == offset
    ensures t2 == f.summerName.Write(f.WriteSummer())
    ensures ParseSummer(t2, -offset.Denotes(MAX_OFFSET_HOURS)) == Ok(f.Denotes(), "")
  {
    hide SkipAbbreviation, ParseOffset, ParseRules, Offset.Denotes, Offset.Valid, TransitionForm.Valid,
         TransitionForm.Denotes, Name.Valid, Offset.Write, Name.Write, TransitionForm.Write;
    var standard := -offset.Denotes(MAX_OFFSET_HOURS);
    var summerName := NameWasWritten(t2);
    var t3 := SkipAbbreviation(t2).rest;
    if t3 == "" || StartsWith(t3, ',') {
      var start, end := RulesWereWritten(t3, standard, standard + 3600);
      f := DaylightForm(name, offset, summerName, Default, start, end);
    } else {
      var o := OffsetWasWritten(t3, MAX_OFFSET_HOURS);
      var start, end := RulesWereWritten(ParseOffset(t3, MAX_OFFSET_HOURS).rest, standard,
                                         -o.Denotes(MAX_OFFSET_HOURS));
      f := DaylightForm(name, offset, summerName, Explicit(o), start, end);
    }
  }

  /** Whatever the parser accepts is a TZ string of the grammar, and is read as what it denotes. */
  lemma ParsedZoneWasRendered(s: string) returns (f: ZoneForm)
    requires Parse(s).Ok?
    ensures f.Valid() && s == f.Render() && Parse(s) == Ok(f.Denotes(), "")
  {
    hide SkipAbbreviation, ParseOffset, ParseSummer;
    var name := NameWasWritten(s);
    var t1 := SkipAbbreviation(s).rest;
    var offset := OffsetWasWritten(t1, MAX_OFFSET_HOURS);
    var t2 := ParseOffset(t1, MAX_OFFSET_HOURS).rest;
    if t2 == "" {
      f := FixedForm(name, offset);
    } else {
      f := SummerWasWritten(t2, name, offset);
    }
  }

  /** The parser accepts exactly the rendered TZ strings. */
  lemma ParserAcceptsTheGrammar(s: string, z: Zone)
    ensures Parse(s) == Ok(z, "") <==> exists f: ZoneForm :: f.Valid() && f.Render() == s && f.Denotes() == z
  {
    hide Parse;
    if Parse(s) == Ok(z, "") {
      var f := ParsedZoneWasRendered(s);
    }
    forall f: ZoneForm | f.Valid() && f.Render() == s
      ensures Parse(s) == Ok(f.Denotes(), "")
    {
      RenderedZoneIsParsed(f);
    }
  }

  /** Every parsed zone has rules that get_date can evaluate. */
  lemma ParsedZoneIsValid(s: string)
    requires Parse(s).Ok?
    ensures Parse(s).rest == "" && Parse(s).value.Valid()
  {
    hide *;
    var f := ParsedZoneWasRendered(s);
    FormIsValid(f);
  }

  lemma FormIsValid(f: ZoneForm)
    requires f.Valid()
    ensures f.Denotes().Valid()
  {
    hide Value, Name.Valid, Offset.Valid, Offset.Denotes;
  }

  lemma OffsetInRange(o: Offset, maxHours: int)
    requires o.Valid(maxHours)
    ensures -(maxHours + 1) * 3600 < o.Denotes(maxHours) < (maxHours + 1) * 3600
  {
    hide Value;
  }

  /** Every parsed zone is in the ranges on which the evaluation of offsets is tested. */
  lemma ParsedZoneIsInRange(s: string)
    requires Parse(s).Ok?
    ensures Parse(s).value.Valid() && TimeZoneOffsets.InRange(Parse(s).value)
  {
    ParsedZoneIsValid(s);
    hide Parse;
    var f := ParsedZoneWasRendered(s);
    hide Offset.Denotes, Offset.Valid, Name.Valid, ZoneForm.Render, DateForm.Valid, DateForm.Denotes;
    OffsetInRange(f.offset, MAX_OFFSET_HOURS);
    if f.DaylightForm? {
      if f.summer.Explicit? {
        OffsetInRange(f.summer.offset, MAX_OFFSET_HOURS);
      }
      TimeInRange(f.start);
      TimeInRange(f.end);
    }
  }

  lemma TimeInRange(f: TransitionForm)
    requires f.Valid()
    ensures -604800 < f.Denotes().time < 604800
  {
    if f.time.Explicit? {
      OffsetInRange(f.time.offset, MAX_TIME_HOURS);
    }
  }

  /** A parsed zone with month rules in February to November, two months apart, keeps its offset
      wherever get_transitions lists nothing. */
  lemma ParsedZoneIsConstantBetweenTransitions(s: string)
    requires Parse(s).Ok?
    ensures var z := Parse(s).value;
            z.Valid()
            && (TimeZoneOffsets.MonthsApart(z) ==>
                  && TimeZoneOffsets.Ordinary(z) && TimeZoneOffsets.Regular(z)
                  && TimeZoneOffsets.ConstantWhenQuiet(z))
  {
    ParsedZoneIsInRange(s);
    hide Parse, TimeZoneOffsets.Regular, TimeZoneOffsets.ConstantWhenQuiet, TimeZoneOffsets.InRange;
    var z := Parse(s).value;
    if TimeZoneOffsets.MonthsApart(z) {
      TimeZoneOffsets.OrdinaryIsRegular(z);
    }
  }

  // Numbers and zones by example

  function Decimal(n: nat): (digits: string)
    ensures digits != "" && forall i :: 0 <= i < |digits| ==> IsDigit(digits[i])
  {
    var last := "0123456789"[n % 10];
    if n < 10 then [last] else Decimal(n / 10) + [last]
  }

  /** Digits are read as decimal numbers. */
  lemma {:induction false} ValueOfDecimal(n: nat)
    ensures Value(Decimal(n)) == n
  {
    var digits := Decimal(n);
    assert Value(digits) == Value(digits[..|digits| - 1]) * 10 + n % 10;
    if n >= 10 {
      ValueOfDecimal(n / 10);
      assert digits[..|digits| - 1] == Decimal(n / 10);
    }
  }

  /** Two characters at most. */
  lemma SmallValues()
    ensures Value("0") == 0 && Value("1") == 1 && Value("2") == 2 && Value("3") == 3 && Value("5") == 5
    ensures Value("10") == 10 && Value("11") == 11
  {
    assert "0"[..0] == "1"[..0] == "2"[..0] == "3"[..0] == "5"[..0] == "";
    assert "10"[..1] == "1" && "11"[..1] == "1";
  }

  function RuleForm(month: string, week: string, time: Given): TransitionForm {
    TransitionForm(MonthForm(month, week, "0"), time)
  }

  lemma RuleFormIs(month: string, week: string, time: Given)
    requires Number(month, 2, 1, 12) && Number(week, 1, 1, 5) && (time.Explicit? ==> time.offset.Valid(MAX_TIME_HOURS))
    ensures var f := RuleForm(month, week, time);
            f.Valid() && f.Denotes() == Transition(MonthRule(Value(month), Value(week), 0),
                                                   if time.Default? then 7200 else time.offset.Denotes(MAX_TIME_HOURS))
  {
    SmallValues();
  }

  const CET: ZoneForm := DaylightForm(Plain("CET"), Offset(Minus, "1", Hours), Plain("CEST"), Default,
                                      RuleForm("3", "5", Default),
                                      RuleForm("10", "5", Explicit(Offset(NoSign, "3", Hours))))

  const EST: ZoneForm := DaylightForm(Plain("EST"), Offset(NoSign, "5", Hours), Plain("EDT"), Default,
                                      RuleForm("3", "2", Default), RuleForm("11", "1", Default))

  lemma CetDenotes()
    ensures CET.Valid() && CET.Denotes() == Daylight(3600, 7200, Transition(MonthRule(3, 5, 0), 7200),
                                                     Transition(MonthRule(10, 5, 0), 10800))
  {
    SmallValues();
    RuleFormIs("3", "5", Default);
    RuleFormIs("10", "5", Explicit(Offset(NoSign, "3", Hours)));
    hide Value, RuleForm;
  }

  lemma CetRenders()
    ensures CET.Render() == "CET-1CEST,M3.5.0,M10.5.0/3"
  {
    hide TransitionForm.Write, Offset.Write;
    CetRules();
    assert "," + "M10.5.0/3" == ",M10.5.0/3" && "," + "M3.5.0,M10.5.0/3" == ",M3.5.0,M10.5.0/3";
    assert CET.WriteSummer() == ",M3.5.0,M10.5.0/3";
    hide ZoneForm.WriteSummer, RuleForm;
    CetName(",M3.5.0,M10.5.0/3");
  }

  lemma CetName(rules: string)
    ensures Plain("CET").Write(Offset(Minus, "1", Hours).Write(Plain("CEST").Write(rules))) == "CET-1CEST" + rules
  {
    assert "CET" + ("-" + ("1" + ("CEST" + rules))) == "CET-1CEST" + rules;
  }

  lemma CetRules()
    ensures CET.end.Write("") == "M10.5.0/3" && CET.start.Write(",M10.5.0/3") == "M3.5.0,M10.5.0/3"
  {
    assert "3" + "" == "3" && "/" + "3" == "/3";
    assert "." + ("0" + "/3") == ".0/3" && "." + ("5" + ".0/3") == ".5.0/3" && "M" + ("10" + ".5.0/3") == "M10.5.0/3";
    assert "." + ("0" + ",M10.5.0/3") == ".0,M10.5.0/3" && "." + ("5" + ".0,M10.5.0/3") == ".5.0,M10.5.0/3";
    assert "M" + ("3" + ".5.0,M10.5.0/3") == "M3.5.0,M10.5.0/3";
  }

  lemma EstDenotes()
    ensures EST.Valid() && EST.Denotes() == Daylight(-18000, -14400, Transition(MonthRule(3, 2, 0), 7200),
                                                     Transition(MonthRule(11, 1, 0), 7200))
  {
    SmallValues();
    RuleFormIs("3", "2", Default);
    RuleFormIs("11", "1", Default);
    hide Value, RuleForm;
  }

  lemma EstRenders()
    ensures EST.Render() == "EST5EDT,M3.2.0,M11.1.0"
  {
    hide TransitionForm.Write, Offset.Write;
    EstRules();
    assert "," + "M11.1.0" == ",M11.1.0" && "," + "M3.2.0,M11.1.0" == ",M3.2.0,M11.1.0";
    assert EST.WriteSummer() == ",M3.2.0,M11.1.0";
    hide ZoneForm.WriteSummer, RuleForm;
    EstName(",M3.2.0,M11.1.0");
  }

  lemma EstName(rules: string)
    ensures Plain("EST").Write(Offset(NoSign, "5", Hours).Write(Plain("EDT").Write(rules))) == "EST5EDT" + rules
  {
    assert "EST" + ("5" + ("EDT" + rules)) == "EST5EDT" + rules;
  }

  lemma EstRules()
    ensures EST.end.Write("") == "M11.1.0" && EST.start.Write(",M11.1.0") == "M3.2.0,M11.1.0"
  {
    assert "." + ("0" + "") == ".0" && "." + ("1" + ".0") == ".1.0" && "M" + ("11" + ".1.0") == "M11.1.0";
    assert "." + ("0" + ",M11.1.0") == ".0,M11.1.0" && "." + ("2" + ".0,M11.1.0") == ".2.0,M11.1.0";
    assert "M" + ("3" + ".2.0,M11.1.0") == "M3.2.0,M11.1.0";
  }

  /** J rules count from one, others from zero; days have up to three digits. */
  lemma NumberedRules(n: nat)
    requires n < 1000
    ensures ParseRule("J" + Decimal(n)) == (if 1 <= n <= 365 then Ok(JulianRule(n), "") else Malformed)
    ensures ParseRule(Decimal(n)) == (if n <= 365 then Ok(DayRule(n), "") else Malformed)
  {
    DecimalIsRead(n);
    var digits, s := Decimal(n), "J" + Decimal(n);
    assert s[1..] == digits && IsDigit(digits[0]);
    hide Decimal, ParseUnsigned;
  }

  lemma DecimalIsRead(n: nat)
    requires n < 1000
    ensures ParseUnsigned(Decimal(n), 3) == Ok(n, "")
  {
    var digits := Decimal(n);
    DecimalLength(n);
    ValueOfDecimal(n);
    DigitRunIs(digits, 3, |digits|);
    assert digits[..|digits|] == digits && digits[|digits|..] == "";
    hide Decimal, Value, DigitRun;
  }

  /** What an offset denotes, in seconds. */
  lemma OffsetMeaning(o: Offset, maxHours: int)
    requires o.Valid(maxHours)
    ensures var seconds := match o.clock
                           case Hours => 3600 * Value(o.hours)
                           case Minutes(m) => 3600 * Value(o.hours) + 60 * Value(m)
                           case Seconds(m, s) => 3600 * Value(o.hours) + 60 * Value(m) + Value(s);
            o.Denotes(maxHours) == if o.sign.Minus? then -seconds else seconds
  {
    hide Value;
  }

  /** A name in angle brackets, and no summer time. */
  lemma Brasilia()
    ensures Parse("<-03>3") == Ok(Fixed(-10800), "")
  {
    SmallValues();
    var f := FixedForm(Quoted("-03"), Offset(NoSign, "3", Hours));
    assert f.Valid() && f.Denotes() == Fixed(-10800);
    assert "3" + "" == "3" && ">" + "3" == ">3" && "-03" + ">3" == "-03>3" && "<" + "-03>3" == "<-03>3";
    assert f.Render() == "<-03>3";
    hide *;
    RenderedZoneIsParsed(f);
  }

  lemma CentralEurope()
    ensures Parse("CET-1CEST,M3.5.0,M10.5.0/3")
            == Ok(Daylight(3600, 7200, Transition(MonthRule(3, 5, 0), 7200), Transition(MonthRule(10, 5, 0), 10800)),
                  "")
  {
    CetDenotes();
    CetRenders();
    hide *;
    RenderedZoneIsParsed(CET);
  }

  lemma NewYork()
    ensures Parse("EST5EDT,M3.2.0,M11.1.0")
            == Ok(Daylight(-18000, -14400, Transition(MonthRule(3, 2, 0), 7200), Transition(MonthRule(11, 1, 0), 7200)),
                  "")
  {
    EstDenotes();
    EstRenders();
    hide *;
    RenderedZoneIsParsed(EST);
  }

  lemma HoursAreRead(n: nat, maxHours: int)
    requires n < 1000
    ensures ParseOffset(Decimal(n), maxHours) == if n <= maxHours then Ok(n * 3600, "") else Malformed
  {
    DecimalIsRead(n);
    assert IsDigit(Decimal(n)[0]);
    hide Decimal, ParseUnsigned;
    NoSexagesimal("");
  }

  /** Offsets have up to 24 hours, and times of transitions up to 167. */
  lemma HourLimits(n: nat)
    requires n < 1000
    ensures ParseOffset(Decimal(n), MAX_OFFSET_HOURS) == (if n <= 24 then Ok(n * 3600, "") else Malformed)
    ensures ParseOffset(Decimal(n), MAX_TIME_HOURS) == (if n <= 167 then Ok(n * 3600, "") else Malformed)
  {
    hide ParseOffset, Decimal;
    HoursAreRead(n, MAX_OFFSET_HOURS);
    HoursAreRead(n, MAX_TIME_HOURS);
  }

  lemma DecimalLength(n: nat)
    ensures n < 10 ==> |Decimal(n)| == 1
    ensures n < 100 ==> |Decimal(n)| <= 2
    ensures n < 1000 ==> |Decimal(n)| <= 3
  {
    if n >= 10 {
      assert |Decimal(n)| == |Decimal(n / 10)| + 1;
      if n >= 100 {
        assert |Decimal(n / 10)| == |Decimal(n / 100)| + 1;
      }
    }
  }
}
