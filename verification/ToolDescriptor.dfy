/** Parsing the descriptor of a system tool (ParseDescriptor in src/SystemTools.cpp).  Strings hold
    bytes. */
module ToolDescriptor {
  import opened Common
  import opened Permutations

  datatype Mode = JOB | EXCLUSIVE | COUNT

  datatype Confirmation = REQUIRED | NONE

  datatype Descriptor = Descriptor(name: string, description: string, instructions: string,
                                   mode: Mode, confirmation: Confirmation)

  const MAX_NAME_LENGTH := 80
  const MAX_DESCRIPTION_LENGTH := 240
  const MAX_INSTRUCTIONS_LENGTH := 1000

  /** Whether a text is valid UTF-8 and no longer than the limit. */
  type TextCheck = (string, nat) -> bool

  // Text

  function StripLeft(s: string): string {
    if s != "" && s[0] as int <= 0x20 then StripLeft(s[1..]) else s
  }

  function StripRight(s: string): string {
    if s != "" && s[|s| - 1] as int <= 0x20 then StripRight(s[..|s| - 1]) else s
  }

  function Strip(s: string): string {
    StripRight(StripLeft(s))
  }

  predicate HasControlCharacter(s: string) {
    exists i :: 0 <= i < |s| && (s[i] as int < 0x20 || s[i] as int == 0x7f)
  }

  function Find(s: string, c: char): (i: nat)
    ensures i <= |s| && (i < |s| ==> s[i] == c) && forall k :: 0 <= k < i ==> s[k] != c
  {
    if s == "" || s[0] == c then 0 else 1 + Find(s[1..], c)
  }

  predicate IsLocalizedKey(key: string, base: string, language: string) {
    && language != "" && |key| == |base| + |language| + 2
    && base <= key && key[|base|] == '[' && key[|key| - 1] == ']'
    && key[|base| + 1..|base| + 1 + |language|] == language
  }

  /** The key is the base with the language in brackets. */
  lemma LocalizedKeyIs(key: string, base: string, language: string)
    ensures IsLocalizedKey(key, base, language) <==> language != "" && key == base + "[" + language + "]"
  {
    var full := base + "[" + language + "]";
    assert full[..|base|] == base && full[|base| + 1..|base| + 1 + |language|] == language;
    if IsLocalizedKey(key, base, language) {
      assert key == key[..|base|] + [key[|base|]] + key[|base| + 1..|base| + 1 + |language|] + [key[|key| - 1]];
    }
  }

  // Lines

  datatype Field = Name | Description | Instructions | LocalName | LocalDescription | LocalInstructions
                 | ModeField | InputField | ConfirmationField

  /** Blank lines, comments and unknown keys are skipped. */
  datatype Line = Skip | Bad | Assign(f: Field, v: string)

  function FieldOf(key: string, language: string): Option<Field> {
    if key == "name" then Some(Name)
    else if key == "description" then Some(Description)
    else if key == "instructions" then Some(Instructions)
    else if IsLocalizedKey(key, "name", language) then Some(LocalName)
    else if IsLocalizedKey(key, "description", language) then Some(LocalDescription)
    else if IsLocalizedKey(key, "instructions", language) then Some(LocalInstructions)
    else if key == "mode" then Some(ModeField)
    else if key == "input" then Some(InputField)
    else if key == "confirmation" then Some(ConfirmationField)
    else None
  }

  function Classify(line: string, language: string): Line {
    var source := Strip(line);
    if source == "" || source[0] == '#' then Skip
    else
      var separator := Find(source, '=');
      if separator == |source| then Bad
      else
        var key, value := Strip(source[..separator]), Strip(source[separator + 1..]);
        if key == "" then Bad
        else if FieldOf(key, language).None? then Skip
        else Assign(FieldOf(key, language).value, value)
  }

  predicate ValidText(check: TextCheck, v: string, maxLength: nat) {
    v != "" && !HasControlCharacter(v) && check(v, maxLength)
  }

  predicate Valid(check: TextCheck, f: Field, v: string) {
    match f
    case Name => ValidText(check, v, MAX_NAME_LENGTH)
    case LocalName => ValidText(check, v, MAX_NAME_LENGTH)
    case Description => ValidText(check, v, MAX_DESCRIPTION_LENGTH)
    case LocalDescription => ValidText(check, v, MAX_DESCRIPTION_LENGTH)
    case Instructions => ValidText(check, v, MAX_INSTRUCTIONS_LENGTH)
    case LocalInstructions => ValidText(check, v, MAX_INSTRUCTIONS_LENGTH)
    case ModeField => v == "job" || v == "exclusive"
    case InputField => v == "none"
    case ConfirmationField => v == "required" || v == "none"
  }

  // What has been parsed

  /** The fields defined so far, or None after an error. */
  type Fields = Option<map<Field, string>>

  function Take(check: TextCheck, fields: Fields, line: Line): Fields {
    if fields.None? || line.Bad? then None
    else if line.Skip? then fields
    else if line.f in fields.value || !Valid(check, line.f, line.v) then None
    else Some(fields.value[line.f := line.v])
  }

  function TakeAll(check: TextCheck, lines: seq<Line>): Fields {
    if lines == [] then Some(map[])
    else Take(check, TakeAll(check, lines[..|lines| - 1]), lines[|lines| - 1])
  }

  function Lookup(m: map<Field, string>, f: Field): Option<string> {
    if f in m then Some(m[f]) else None
  }

  function Prefer(localized: Option<string>, default: string): string {
    if localized.Some? then localized.value else default
  }

  function ModeOf(value: Option<string>): Mode {
    if value.None? then COUNT else if value.value == "job" then JOB else EXCLUSIVE
  }

  function ConfirmationOf(value: Option<string>): Confirmation {
    if value == Some("none") then NONE else REQUIRED
  }

  function Result(fields: Fields): Option<Descriptor> {
    if fields.None? then None
    else
      var m := fields.value;
      var name, description, instructions := Lookup(m, Name), Lookup(m, Description), Lookup(m, Instructions);
      if name.None? || description.None? || instructions.None? || Lookup(m, ModeField).None? then None
      else
        Some(Descriptor(Prefer(Lookup(m, LocalName), name.value),
                        Prefer(Lookup(m, LocalDescription), description.value),
                        Prefer(Lookup(m, LocalInstructions), instructions.value),
                        ModeOf(Lookup(m, ModeField)), ConfirmationOf(Lookup(m, ConfirmationField))))
  }

  function Classified(lines: seq<string>, language: string): (r: seq<Line>)
    ensures |r| == |lines| && forall i :: 0 <= i < |r| ==> r[i] == Classify(lines[i], language)
  {
    seq(|lines|, i requires 0 <= i < |lines| => Classify(lines[i], language))
  }

  function Parsed(check: TextCheck, lines: seq<string>, language: string): Option<Descriptor> {
    Result(TakeAll(check, Classified(lines, language)))
  }

  // The program

  /** SetText, which also stores the value if it does not fail. */
  method SetText(check: TextCheck, field: Option<string>, value: string, maxLength: nat) returns (failed: bool)
    ensures failed <==> field.Some? || !ValidText(check, value, maxLength)
  {
    if field.Some? {
      return true;
    }
    return value == "" || HasControlCharacter(value) || !check(value, maxLength);
  }

  lemma NothingTaken(check: TextCheck)
    ensures TakeAll(check, []) == Some(map[]) && forall f :: Lookup(map[], f) == None
  {
  }

  lemma LookupAfter(m: map<Field, string>, f: Field, v: string)
    ensures forall g :: Lookup(m[f := v], g) == (if g == f then Some(v) else Lookup(m, g))
  {
    forall g
      ensures Lookup(m[f := v], g) == (if g == f then Some(v) else Lookup(m, g))
    {
    }
  }

  lemma TakeNext(check: TextCheck, lines: seq<Line>, i: nat, m: map<Field, string>)
    requires i < |lines| && TakeAll(check, lines[..i]) == Some(m)
    ensures lines[i].Bad? ==> TakeAll(check, lines) == None
    ensures lines[i].Skip? ==> TakeAll(check, lines[..i + 1]) == Some(m)
    ensures lines[i].Assign? ==>
              var f, v := lines[i].f, lines[i].v;
              if Lookup(m, f).Some? || !Valid(check, f, v) then TakeAll(check, lines) == None
              else TakeAll(check, lines[..i + 1]) == Some(m[f := v])
  {
    TakeOneMore(check, lines, i);
    if TakeAll(check, lines[..i + 1]).None? {
      ErrorIsFinal(check, lines, i + 1);
    }
  }

  /** The local variables of the parser: a field has a value once its flag is set. */
  datatype Parser = Parser(name: Option<string>, description: Option<string>, instructions: Option<string>,
                           localName: Option<string>, localDescription: Option<string>,
                           localInstructions: Option<string>,
                           mode: Mode, haveMode: bool, haveInput: bool,
                           confirmation: Confirmation, haveConfirmation: bool)

  predicate Represents(p: Parser, m: map<Field, string>) {
    && Lookup(m, Name) == p.name && Lookup(m, Description) == p.description && Lookup(m, Instructions) == p.instructions
    && Lookup(m, LocalName) == p.localName && Lookup(m, LocalDescription) == p.localDescription
    && Lookup(m, LocalInstructions) == p.localInstructions
    && p.haveMode == Lookup(m, ModeField).Some? && p.mode == ModeOf(Lookup(m, ModeField))
    && p.haveInput == Lookup(m, InputField).Some?
    && p.haveConfirmation == Lookup(m, ConfirmationField).Some?
    && p.confirmation == ConfirmationOf(Lookup(m, ConfirmationField))
  }

  method SetField(check: TextCheck, p: Parser, f: Field, value: string, ghost m: map<Field, string>)
    returns (failed: bool, q: Parser)
    requires Represents(p, m)
    ensures failed <==> Lookup(m, f).Some? || !Valid(check, f, value)
    ensures !failed ==> Represents(q, m[f := value])
  {
    hide Valid, ValidText, Lookup;
    ValidMeans(check, f, value);
    LookupAfter(m, f, value);
    q := p;
    match f {
      case Name =>
        failed := SetText(check, p.name, value, MAX_NAME_LENGTH);
        q := p.(name := Some(value));
      case Description =>
        failed := SetText(check, p.description, value, MAX_DESCRIPTION_LENGTH);
        q := p.(description := Some(value));
      case Instructions =>
        failed := SetText(check, p.instructions, value, MAX_INSTRUCTIONS_LENGTH);
        q := p.(instructions := Some(value));
      case LocalName =>
        failed := SetText(check, p.localName, value, MAX_NAME_LENGTH);
        q := p.(localName := Some(value));
      case LocalDescription =>
        failed := SetText(check, p.localDescription, value, MAX_DESCRIPTION_LENGTH);
        q := p.(localDescription := Some(value));
      case LocalInstructions =>
        failed := SetText(check, p.localInstructions, value, MAX_INSTRUCTIONS_LENGTH);
        q := p.(localInstructions := Some(value));
      case ModeField =>
        failed := p.haveMode || (value != "job" && value != "exclusive");
        q := p.(mode := if value == "job" then JOB else EXCLUSIVE, haveMode := true);
      case InputField =>
        failed := p.haveInput || value != "none";
        q := p.(haveInput := true);
      case ConfirmationField =>
        failed := p.haveConfirmation || (value != "required" && value != "none");
        q := p.(confirmation := if value == "required" then REQUIRED else Confirmation.NONE, haveConfirmation := true);
    }
  }

  method ParseDescriptor(check: TextCheck, lines: seq<string>, language: string) returns (r: Option<Descriptor>)
    ensures r == Parsed(check, lines, language)
  {
    hide Classify, Valid, TakeAll, Take;
    NothingTaken(check);
    var p := Parser(None, None, None, None, None, None, COUNT, false, false, REQUIRED, false);
    ghost var all := Classified(lines, language);
    ghost var m: map<Field, string> := map[];
    for i := 0 to |lines|
      invariant TakeAll(check, all[..i]) == Some(m) && Represents(p, m)
    {
      hide Represents, Lookup;
      TakeNext(check, all, i, m);
      var line := Classify(lines[i], language);
      if line.Bad? {
        return None;
      }
      if line.Skip? {
        continue;
      }
      var failed;
      failed, p := SetField(check, p, line.f, line.v, m);
      if failed {
        return None;
      }
      m := m[line.f := line.v];
    }
    assert all[..|lines|] == all;
    if p.name.None? || p.description.None? || p.instructions.None? || !p.haveMode {
      return None;
    }
    r := Some(Descriptor(p.name.value, p.description.value, p.instructions.value, p.mode, p.confirmation));
    if p.localName.Some? {
      r := Some(r.value.(name := p.localName.value));
    }
    if p.localDescription.Some? {
      r := Some(r.value.(description := p.localDescription.value));
    }
    if p.localInstructions.Some? {
      r := Some(r.value.(instructions := p.localInstructions.value));
    }
  }

  lemma ValidMeans(check: TextCheck, f: Field, v: string)
    ensures f.Name? || f.LocalName? ==> (Valid(check, f, v) <==> ValidText(check, v, MAX_NAME_LENGTH))
    ensures f.Description? || f.LocalDescription?
            ==> (Valid(check, f, v) <==> ValidText(check, v, MAX_DESCRIPTION_LENGTH))
    ensures f.Instructions? || f.LocalInstructions?
            ==> (Valid(check, f, v) <==> ValidText(check, v, MAX_INSTRUCTIONS_LENGTH))
    ensures f.ModeField? ==> (Valid(check, f, v) <==> v == "job" || v == "exclusive")
    ensures f.InputField? ==> (Valid(check, f, v) <==> v == "none")
    ensures f.ConfirmationField? ==> (Valid(check, f, v) <==> v == "required" || v == "none")
  {
  }

  lemma TakeOneMore(check: TextCheck, lines: seq<Line>, i: nat)
    requires i < |lines|
    ensures TakeAll(check, lines[..i + 1]) == Take(check, TakeAll(check, lines[..i]), lines[i])
  {
    assert lines[..i + 1][..i] == lines[..i];
  }

  lemma {:induction false} ErrorIsFinal(check: TextCheck, lines: seq<Line>, i: nat)
    requires i <= |lines| && TakeAll(check, lines[..i]).None?
    ensures TakeAll(check, lines).None?
  {
    if i == |lines| {
      assert lines[..i] == lines;
    } else {
      var k := |lines| - 1;
      assert lines[..k][..i] == lines[..i];
      ErrorIsFinal(check, lines[..k], i);
    }
  }

  // What is accepted

  /** Every line is well formed, and no field is assigned twice or wrongly. */
  ghost predicate Clean(check: TextCheck, lines: seq<Line>) {
    && (forall i :: 0 <= i < |lines| ==> !lines[i].Bad? && (lines[i].Assign? ==> Valid(check, lines[i].f, lines[i].v)))
    && (forall i, j :: 0 <= i < j < |lines| && lines[i].Assign? && lines[j].Assign? ==> lines[i].f != lines[j].f)
  }

  /** Without regard to any order: the lines are taken if and only if they are clean, and then a
      field has a value if and only if a line assigns it. */
  lemma {:induction false} TakenLinesAreClean(check: TextCheck, lines: seq<Line>)
    ensures TakeAll(check, lines).Some? <==> Clean(check, lines)
    ensures TakeAll(check, lines).Some? ==>
              forall f, v ::
                (f in TakeAll(check, lines).value && TakeAll(check, lines).value[f] == v) <==> Assign(f, v) in lines
  {
    if lines != [] {
      hide Valid;
      var k := |lines| - 1;
      var init, last := lines[..k], lines[k];
      TakenLinesAreClean(check, init);
      CleanOneMore(check, init, last);
      assert lines == init + [last];
      hide Clean;
      if TakeAll(check, init).Some? && last.Assign? && last.f in TakeAll(check, init).value {
        assert Assign(last.f, TakeAll(check, init).value[last.f]) in init;
      }
    }
  }

  lemma CleanOneMore(check: TextCheck, init: seq<Line>, last: Line)
    ensures Clean(check, init + [last]) <==>
              && Clean(check, init) && !last.Bad?
              && (last.Assign? ==> Valid(check, last.f, last.v) && forall v :: Assign(last.f, v) !in init)
  {
    hide Valid;
    var lines := init + [last];
    assert forall i :: 0 <= i < |init| ==> lines[i] == init[i];
    assert lines[|init|] == last;
  }

  // The order of the lines does not matter

  function TakeFrom(check: TextCheck, fields: Fields, lines: seq<Line>): Fields
    decreases |lines|
  {
    if lines == [] then fields else TakeFrom(check, Take(check, fields, lines[0]), lines[1..])
  }

  lemma {:induction false} TakeFromStart(check: TextCheck, lines: seq<Line>, i: nat)
    requires i <= |lines|
    ensures TakeFrom(check, TakeAll(check, lines[..i]), lines[i..]) == TakeAll(check, lines)
    decreases |lines| - i
  {
    if i < |lines| {
      TakeFromStart(check, lines, i + 1);
      TakeOneMore(check, lines, i);
      assert lines[i..][1..] == lines[i + 1..];
    } else {
      assert lines[..i] == lines;
    }
  }

  lemma TakeCommutes(check: TextCheck, fields: Fields, a: Line, b: Line)
    ensures Take(check, Take(check, fields, a), b) == Take(check, Take(check, fields, b), a)
  {
    hide Valid;
    if fields.Some? && a.Assign? && b.Assign? && a.f != b.f {
      assert fields.value[a.f := a.v][b.f := b.v] == fields.value[b.f := b.v][a.f := a.v];
    }
  }

  lemma {:induction false} TakeToFront(check: TextCheck, fields: Fields, lines: seq<Line>, i: nat)
    requires i < |lines|
    ensures TakeFrom(check, fields, lines)
            == TakeFrom(check, Take(check, fields, lines[i]), Remove(lines, i))
    decreases i
  {
    hide Take;
    if i > 0 {
      var rest := lines[1..];
      TakeToFront(check, Take(check, fields, lines[0]), rest, i - 1);
      TakeCommutes(check, fields, lines[0], lines[i]);
      assert Remove(lines, i)[0] == lines[0] && Remove(lines, i)[1..] == Remove(rest, i - 1);
    } else {
      assert Remove(lines, 0) == lines[1..];
    }
  }

  lemma {:induction false} TakeAnyOrder(check: TextCheck, fields: Fields, a: seq<Line>, b: seq<Line>)
    requires multiset(a) == multiset(b)
    ensures TakeFrom(check, fields, a) == TakeFrom(check, fields, b)
    decreases |a|
  {
    hide Take;
    if a == [] {
      NothingElsewhere(b);
    } else {
      var i := FirstElsewhere(a, b);
      TakeToFront(check, fields, b, i);
      TakeAnyOrder(check, Take(check, fields, a[0]), a[1..], Remove(b, i));
    }
  }

  /** Classifying a permutation gives a permutation. */
  lemma {:induction false} ClassifiedAnyOrder(a: seq<string>, b: seq<string>, language: string)
    requires multiset(a) == multiset(b)
    ensures multiset(Classified(a, language)) == multiset(Classified(b, language))
  {
    if a == [] {
      NothingElsewhere(b);
    } else {
      var i := FirstElsewhere(a, b);
      ClassifiedAnyOrder(a[1..], Remove(b, i), language);
      ClassifiedFirst(a, language);
      ClassifiedRemove(b, i, language);
    }
  }

  lemma ClassifiedFirst(a: seq<string>, language: string)
    requires a != []
    ensures multiset(Classified(a, language))
            == multiset(Classified(a[1..], language)) + multiset{Classify(a[0], language)}
  {
    hide Classify;
    assert Classified(a, language) == [Classify(a[0], language)] + Classified(a[1..], language);
  }

  lemma ClassifiedRemove(b: seq<string>, i: nat, language: string)
    requires i < |b|
    ensures multiset(Classified(b, language))
            == multiset(Classified(Remove(b, i), language)) + multiset{Classify(b[i], language)}
  {
    hide Classify;
    RemoveOne(Classified(b, language), i);
    assert Remove(Classified(b, language), i) == Classified(Remove(b, i), language);
  }

  /** Acceptance and the descriptor, including the localized texts, depend on the lines and not on
      their order. */
  lemma OrderDoesNotMatter(check: TextCheck, a: seq<string>, b: seq<string>, language: string)
    requires multiset(a) == multiset(b)
    ensures Parsed(check, a, language) == Parsed(check, b, language)
  {
    hide TakeAll;
    var x, y := Classified(a, language), Classified(b, language);
    ClassifiedAnyOrder(a, b, language);
    TakeFromStart(check, x, 0);
    TakeFromStart(check, y, 0);
    assert x[0..] == x && y[0..] == y && x[..0] == y[..0] == [];
    TakeAnyOrder(check, TakeAll(check, []), x, y);
  }

  predicate Assigned(lines: seq<Line>, f: Field) {
    exists i :: 0 <= i < |lines| && lines[i].Assign? && lines[i].f == f
  }

  /** A localized text takes the place of the default. */
  predicate Shows(lines: seq<Line>, f: Field, localized: Field, text: string) {
    Assign(if Assigned(lines, localized) then localized else f, text) in lines
  }

  /** A descriptor is accepted exactly if the lines are clean and define the mandatory fields, and
      says what its lines say. */
  lemma AcceptedDescriptors(check: TextCheck, lines: seq<string>, language: string)
    ensures var all, r := Classified(lines, language), Parsed(check, lines, language);
            && (r.Some? <==> Clean(check, all) && Assigned(all, Name) && Assigned(all, Description)
                             && Assigned(all, Instructions) && Assigned(all, ModeField))
            && (r.Some? ==>
                  && Shows(all, Name, LocalName, r.value.name)
                  && Shows(all, Description, LocalDescription, r.value.description)
                  && Shows(all, Instructions, LocalInstructions, r.value.instructions)
                  && r.value.mode == (if Assign(ModeField, "job") in all then JOB else EXCLUSIVE)
                  && r.value.confirmation
                     == (if Assign(ConfirmationField, "none") in all then Confirmation.NONE else REQUIRED))
  {
    hide Classify, TakeAll, Clean;
    var all := Classified(lines, language);
    TakenLinesAreClean(check, all);
    if TakeAll(check, all).Some? {
      var m := TakeAll(check, all).value;
      forall f
        ensures Lookup(m, f).Some? <==> Assigned(all, f)
        ensures Lookup(m, f).Some? ==> Assign(f, Lookup(m, f).value) in all
        ensures forall v :: Assign(f, v) in all <==> Lookup(m, f) == Some(v)
      {
        LookupIsAssigned(all, m, f);
      }
      hide Lookup, Assigned;
    }
  }

  lemma LookupIsAssigned(all: seq<Line>, m: map<Field, string>, f: Field)
    requires forall g, v :: (g in m && m[g] == v) <==> Assign(g, v) in all
    ensures Lookup(m, f).Some? <==> Assigned(all, f)
    ensures Lookup(m, f).Some? ==> Assign(f, Lookup(m, f).value) in all
    ensures forall v :: Assign(f, v) in all <==> Lookup(m, f) == Some(v)
  {
    if f in m {
      assert Assign(f, m[f]) in all;
    }
    if i :| 0 <= i < |all| && all[i].Assign? && all[i].f == f {
      assert Assign(f, all[i].v) in all;
    }
  }

  // What a line says

  /** Stripping removes spaces and control characters at both ends, and nothing else. */
  lemma {:induction false} StripMeaning(s: string) returns (a: nat, b: nat)
    ensures a <= b <= |s| && Strip(s) == s[a..b]
    ensures forall i :: 0 <= i < a || b <= i < |s| ==> s[i] as int <= 0x20
    ensures a < b ==> s[a] as int > 0x20 && s[b - 1] as int > 0x20
  {
    a := StripLeftMeaning(s);
    var n := StripRightMeaning(s[a..]);
    b := a + n;
    assert s[a..][..n] == s[a..b];
  }

  lemma {:induction false} StripLeftMeaning(s: string) returns (a: nat)
    ensures a <= |s| && StripLeft(s) == s[a..]
    ensures forall i :: 0 <= i < a ==> s[i] as int <= 0x20
    ensures a < |s| ==> s[a] as int > 0x20
  {
    if s != "" && s[0] as int <= 0x20 {
      var n := StripLeftMeaning(s[1..]);
      a := n + 1;
      assert forall i :: 1 <= i < a ==> s[i] == s[1..][i - 1];
    } else {
      a := 0;
    }
  }

  lemma {:induction false} StripRightMeaning(s: string) returns (b: nat)
    ensures b <= |s| && StripRight(s) == s[..b]
    ensures forall i :: b <= i < |s| ==> s[i] as int <= 0x20
    ensures 0 < b ==> s[b - 1] as int > 0x20
  {
    if s != "" && s[|s| - 1] as int <= 0x20 {
      b := StripRightMeaning(s[..|s| - 1]);
    } else {
      b := |s|;
    }
  }

  /** A text without spaces or control characters at its ends is its own stripped text. */
  lemma StripOfStripped(s: string)
    requires s == "" || (s[0] as int > 0x20 && s[|s| - 1] as int > 0x20)
    ensures Strip(s) == s
  {
  }

  /** The line is no comment, and is `key`, an equals sign and `value`, with space around them. */
  ghost predicate Says(line: string, key: string, value: string) {
    exists left, right ::
      && Strip(line) == left + "=" + right && left != "" && left[0] != '#' && '=' !in left
      && Strip(left) == key && Strip(right) == value
  }

  predicate IsComment(line: string) {
    Strip(line) != "" && Strip(line)[0] == '#'
  }

  lemma FirstEquals(source: string, left: string, right: string)
    requires source == left + "=" + right && '=' !in left
    ensures Find(source, '=') == |left| && source[..|left|] == left && source[|left| + 1..] == right
  {
    var i := Find(source, '=');
    assert source[|left|] == '=';
    assert forall k :: 0 <= k < |left| ==> source[k] == left[k];
  }

  /** A line with the key `key` and the value `value` is classified by the key. */
  lemma SaidLine(line: string, key: string, value: string, language: string)
    requires Says(line, key, value)
    ensures Classify(line, language)
            == if key == "" then Bad
               else if FieldOf(key, language).None? then Skip else Assign(FieldOf(key, language).value, value)
  {
    hide Strip, FieldOf;
    var left, right :| Strip(line) == left + "=" + right && left != "" && left[0] != '#' && '=' !in left
                       && Strip(left) == key && Strip(right) == value;
    FirstEquals(Strip(line), left, right);
    assert Strip(line)[0] == left[0];
  }

  /** Every line is blank, a comment, without equals sign, begins with one, or says something. */
  lemma LineCases(line: string) returns (key: string, value: string)
    ensures var source := Strip(line);
            source == "" || source[0] == '#' || '=' !in source || source[0] == '=' || Says(line, key, value)
  {
    hide Strip;
    var source := Strip(line);
    var i := Find(source, '=');
    if source != "" && source[0] != '#' && '=' in source && source[0] != '=' {
      var left, right := source[..i], source[i + 1..];
      assert source == left + "=" + right && left[0] == source[0];
      key, value := Strip(left), Strip(right);
      assert Says(line, key, value);
    } else {
      key, value := "", "";
    }
  }

  /** The key that each field is written with. */
  function KeyOf(f: Field, language: string): string {
    match f
    case Name => "name"
    case Description => "description"
    case Instructions => "instructions"
    case LocalName => "name[" + language + "]"
    case LocalDescription => "description[" + language + "]"
    case LocalInstructions => "instructions[" + language + "]"
    case ModeField => "mode"
    case InputField => "input"
    case ConfirmationField => "confirmation"
  }

  predicate IsLocal(f: Field) {
    f.LocalName? || f.LocalDescription? || f.LocalInstructions?
  }

  lemma KeyWithBracket(base: string, language: string)
    ensures base + ("[" + language + "]") == base + "[" + language + "]"
  {
  }

  /** Each key stands for one field; localized keys only if there is a language. */
  lemma FieldOfKey(key: string, language: string, f: Field)
    ensures FieldOf(key, language) == Some(f) <==> key == KeyOf(f, language) && (IsLocal(f) ==> language != "")
  {
    LocalizedKeyIs(key, "name", language);
    LocalizedKeyIs(key, "description", language);
    LocalizedKeyIs(key, "instructions", language);
    LocalKeys(language);
    hide IsLocalizedKey;
  }

  lemma LocalKeys(language: string)
    ensures "name" + "[" + language + "]" == "name[" + language + "]"
    ensures "description" + "[" + language + "]" == "description[" + language + "]"
    ensures "instructions" + "[" + language + "]" == "instructions[" + language + "]"
    ensures ("name[" + language + "]")[4] == '[' && ("description[" + language + "]")[11] == '['
            && ("instructions[" + language + "]")[12] == '['
  {
    assert "name" + "[" == "name[" && "description" + "[" == "description[" && "instructions" + "[" == "instructions[";
  }

  lemma NoSuchLine(line: string, language: string)
    ensures var source := Strip(line);
            && (source == "" || source[0] == '#' ==> Classify(line, language) == Skip)
            && (source != "" && source[0] != '#' && ('=' !in source || source[0] == '=') ==>
                  Classify(line, language) == Bad)
    ensures forall key, v :: Says(line, key, v) ==>
              Strip(line) != "" && Strip(line)[0] != '#' && '=' in Strip(line) && Strip(line)[0] != '='
  {
    var source := Strip(line);
    hide Strip, FieldOf;
    var i := Find(source, '=');
    if source != "" && source[0] == '=' {
      assert source[..0] == "";
      StripOfStripped("");
    }
    forall key, v | Says(line, key, v)
      ensures source != "" && source[0] != '#' && '=' in source && source[0] != '='
    {
      var left, right :| source == left + "=" + right && left != "" && left[0] != '#' && '=' !in left
                         && Strip(left) == key && Strip(right) == v;
      assert source[0] == left[0] && source[|left|] == '=';
    }
  }

  lemma AssignMeaning(line: string, language: string, f: Field, v: string)
    ensures Classify(line, language) == Assign(f, v) <==>
              Says(line, KeyOf(f, language), v) && (IsLocal(f) ==> language != "")
  {
    NoSuchLine(line, language);
    var key, value := LineCases(line);
    hide Classify, Strip, KeyOf, Says, FieldOf;
    if Says(line, key, value) {
      SaidLine(line, key, value, language);
      FieldOfKey(key, language, f);
    }
    if Says(line, KeyOf(f, language), v) {
      SaidLine(line, KeyOf(f, language), v, language);
      FieldOfKey(KeyOf(f, language), language, f);
      KeysAreNotEmpty(f, language);
    }
  }

  lemma KeysAreNotEmpty(f: Field, language: string)
    ensures KeyOf(f, language) != ""
  {
  }

  /** The line has a key that stands for nothing. */
  ghost predicate SaysUnknown(line: string, language: string) {
    exists key, v :: Says(line, key, v) && forall f :: key == KeyOf(f, language) ==> IsLocal(f) && language == ""
  }

  /** What becomes of every line, by its text: it assigns the field of its key, or is wrong, or is
      skipped. */
  lemma ClassifyMeaning(line: string, language: string, v: string)
    ensures Classify(line, language) == Assign(Name, v) <==> Says(line, "name", v)
    ensures Classify(line, language) == Assign(Description, v) <==> Says(line, "description", v)
    ensures Classify(line, language) == Assign(Instructions, v) <==> Says(line, "instructions", v)
    ensures Classify(line, language) == Assign(ModeField, v) <==> Says(line, "mode", v)
    ensures Classify(line, language) == Assign(InputField, v) <==> Says(line, "input", v)
    ensures Classify(line, language) == Assign(ConfirmationField, v) <==> Says(line, "confirmation", v)
    ensures Classify(line, language) == Assign(LocalName, v) <==>
              Says(line, "name[" + language + "]", v) && language != ""
    ensures Classify(line, language) == Assign(LocalDescription, v) <==>
              Says(line, "description[" + language + "]", v) && language != ""
    ensures Classify(line, language) == Assign(LocalInstructions, v) <==>
              Says(line, "instructions[" + language + "]", v) && language != ""
    ensures Classify(line, language) == Bad <==>
              var source := Strip(line);
              source != "" && source[0] != '#' && ('=' !in source || source[0] == '=')
    ensures Classify(line, language) == Skip <==>
              Strip(line) == "" || Strip(line)[0] == '#' || SaysUnknown(line, language)
  {
    hide Classify, Strip, Says, SaysUnknown;
    AssignMeaning(line, language, Name, v);
    AssignMeaning(line, language, Description, v);
    AssignMeaning(line, language, Instructions, v);
    AssignMeaning(line, language, ModeField, v);
    AssignMeaning(line, language, InputField, v);
    AssignMeaning(line, language, ConfirmationField, v);
    AssignMeaning(line, language, LocalName, v);
    AssignMeaning(line, language, LocalDescription, v);
    AssignMeaning(line, language, LocalInstructions, v);
    OtherMeaning(line, language);
  }

  lemma OtherMeaning(line: string, language: string)
    ensures Classify(line, language) == Bad <==>
              var source := Strip(line);
              source != "" && source[0] != '#' && ('=' !in source || source[0] == '=')
    ensures Classify(line, language) == Skip <==>
              Strip(line) == "" || Strip(line)[0] == '#' || SaysUnknown(line, language)
  {
    NoSuchLine(line, language);
    var key, value := LineCases(line);
    hide Classify, Strip, KeyOf, Says, FieldOf;
    forall k, w | Says(line, k, w)
      ensures Classify(line, language).Bad? <==> k == ""
      ensures Classify(line, language).Skip? <==> k != "" && FieldOf(k, language).None?
      ensures k != ""
      ensures FieldOf(k, language).None? <==>
                forall f :: k == KeyOf(f, language) ==> IsLocal(f) && language == ""
    {
      SaidLine(line, k, w, language);
      SaidKeyIsNotEmpty(line, k, w);
      UnknownKey(k, language);
    }
  }

  lemma UnknownKey(key: string, language: string)
    ensures FieldOf(key, language).None? <==>
              forall f :: key == KeyOf(f, language) ==> IsLocal(f) && language == ""
  {
    hide KeyOf, FieldOf;
    forall f
      ensures FieldOf(key, language) == Some(f) <==> key == KeyOf(f, language) && (IsLocal(f) ==> language != "")
    {
      FieldOfKey(key, language, f);
    }
  }

  lemma SaidKeyIsNotEmpty(line: string, key: string, value: string)
    requires Says(line, key, value)
    ensures key != ""
  {
    var left, right :| Strip(line) == left + "=" + right && left != "" && left[0] != '#' && '=' !in left
                       && Strip(left) == key && Strip(right) == value;
    var a, b := StripMeaning(line);
    var c, d := StripMeaning(left);
    hide Strip;
    assert Strip(line)[0] == left[0] && Strip(line)[0] == line[a];
  }

  // Descriptors as they are written

  predicate IsStripped(v: string) {
    v != "" && v[0] as int > 0x20 && v[|v| - 1] as int > 0x20
  }

  function WriteLine(f: Field, v: string, language: string): string {
    KeyOf(f, language) + "=" + v
  }

  lemma WrittenLineSays(f: Field, v: string, language: string)
    requires IsStripped(v) && (IsLocal(f) ==> '=' !in language)
    ensures Says(WriteLine(f, v, language), KeyOf(f, language), v)
  {
    var key, line := KeyOf(f, language), WriteLine(f, v, language);
    KeyIsStripped(f, language);
    assert line[0] == key[0] && line[|line| - 1] == v[|v| - 1];
    StripOfStripped(line);
    StripOfStripped(key);
    StripOfStripped(v);
    hide Strip, KeyOf;
    assert Strip(line) == key + "=" + v;
  }

  lemma KeyIsStripped(f: Field, language: string)
    ensures IsStripped(KeyOf(f, language)) && KeyOf(f, language)[0] != '#'
    ensures (IsLocal(f) ==> '=' !in language) ==> '=' !in KeyOf(f, language)
  {
  }

  function WriteAll(order: seq<Field>, given: map<Field, string>, language: string): (lines: seq<string>)
    requires forall i :: 0 <= i < |order| ==> order[i] in given
    ensures |lines| == |order|
    ensures forall i :: 0 <= i < |order| ==> lines[i] == WriteLine(order[i], given[order[i]], language)
  {
    seq(|order|, i requires 0 <= i < |order| => WriteLine(order[i], given[order[i]], language))
  }

  /** A blank line, a comment or an unknown key. */
  ghost predicate IsNoise(line: string, language: string) {
    Strip(line) == "" || Strip(line)[0] == '#' || SaysUnknown(line, language)
  }

  /** Values that can be written on a line, for each field once. */
  ghost predicate Writable(check: TextCheck, given: map<Field, string>, order: seq<Field>, language: string) {
    && (forall f :: f in given <==> f in order)
    && (forall i, j :: 0 <= i < j < |order| ==> order[i] != order[j])
    && (forall f :: f in given ==>
          && Valid(check, f, given[f]) && IsStripped(given[f])
          && (IsLocal(f) ==> language != "" && '=' !in language))
  }

  lemma WrittenLines(check: TextCheck, given: map<Field, string>, order: seq<Field>, noise: seq<string>,
                     language: string)
    requires Writable(check, given, order, language)
    requires forall i :: 0 <= i < |noise| ==> IsNoise(noise[i], language)
    ensures var all := Classified(WriteAll(order, given, language) + noise, language);
            && Clean(check, all)
            && (forall f, v :: Assign(f, v) in all <==> f in given && given[f] == v)
            && (forall f :: Assigned(all, f) <==> f in given)
  {
    assert forall i :: 0 <= i < |order| ==> order[i] in given;
    WrittenEach(check, given, order, noise, language);
    hide Classify, Says, Strip, SaysUnknown, IsNoise, KeyOf, WriteLine, Valid, IsStripped, Classified, Writable, Clean;
    var all := Classified(WriteAll(order, given, language) + noise, language);
    AssignedOnce(check, given, order, all, language);
    forall f
      ensures Assigned(all, f) <==> f in given
    {
      if f in given {
        var i :| 0 <= i < |all| && all[i] == Assign(f, given[f]);
      }
    }
  }

  lemma AssignedOnce(check: TextCheck, given: map<Field, string>, order: seq<Field>, all: seq<Line>, language: string)
    requires Writable(check, given, order, language) && |order| <= |all|
    requires forall i :: 0 <= i < |order| ==> order[i] in given && all[i] == Assign(order[i], given[order[i]])
    requires forall i :: |order| <= i < |all| ==> all[i] == Skip
    ensures Clean(check, all)
    ensures forall f, v :: Assign(f, v) in all <==> f in given && given[f] == v
  {
    hide Valid, IsStripped;
    forall f | f in given
      ensures Assign(f, given[f]) in all
    {
      var i :| 0 <= i < |order| && order[i] == f;
      assert all[i] == Assign(f, given[f]);
    }
  }

  lemma WrittenEach(check: TextCheck, given: map<Field, string>, order: seq<Field>, noise: seq<string>,
                    language: string)
    requires Writable(check, given, order, language)
    requires forall i :: 0 <= i < |noise| ==> IsNoise(noise[i], language)
    ensures var all := Classified(WriteAll(order, given, language) + noise, language);
            && |all| == |order| + |noise|
            && (forall i :: 0 <= i < |order| ==> all[i] == Assign(order[i], given[order[i]]))
            && (forall i :: |order| <= i < |all| ==> all[i] == Skip)
  {
    hide Classify, Says, Strip, SaysUnknown, KeyOf, Valid, WriteLine, IsStripped;
    var lines := WriteAll(order, given, language) + noise;
    var all := Classified(lines, language);
    forall i | 0 <= i < |all|
      ensures all[i] == if i < |order| then Assign(order[i], given[order[i]]) else Skip
    {
      if i < |order| {
        WrittenLineIs(order[i], given[order[i]], language);
      } else {
        assert lines[i] == noise[i - |order|];
        OtherMeaning(lines[i], language);
      }
    }
  }

  lemma WrittenLineIs(f: Field, v: string, language: string)
    requires IsStripped(v) && (IsLocal(f) ==> language != "" && '=' !in language)
    ensures Classify(WriteLine(f, v, language), language) == Assign(f, v)
  {
    hide *;
    WrittenLineSays(f, v, language);
    AssignMeaning(WriteLine(f, v, language), language, f, v);
  }

  /** Writing a descriptor and parsing it gives it back: its fields may come in any order, among
      blank lines, comments and unknown keys. */
  lemma WrittenDescriptorIsRead(check: TextCheck, given: map<Field, string>, order: seq<Field>, noise: seq<string>,
                                lines: seq<string>, language: string)
    requires Writable(check, given, order, language)
    requires Name in given && Description in given && Instructions in given && ModeField in given
    requires forall i :: 0 <= i < |noise| ==> IsNoise(noise[i], language)
    requires multiset(lines) == multiset(WriteAll(order, given, language) + noise)
    ensures Parsed(check, lines, language)
            == Some(Descriptor(if LocalName in given then given[LocalName] else given[Name],
                               if LocalDescription in given then given[LocalDescription] else given[Description],
                               if LocalInstructions in given then given[LocalInstructions] else given[Instructions],
                               if given[ModeField] == "job" then JOB else EXCLUSIVE,
                               if ConfirmationField in given && given[ConfirmationField] == "none"
                               then Confirmation.NONE else REQUIRED))
  {
    assert forall i :: 0 <= i < |order| ==> order[i] in given;
    hide *;
    var written := WriteAll(order, given, language) + noise;
    OrderDoesNotMatter(check, lines, written, language);
    WrittenLines(check, given, order, noise, language);
    AcceptedDescriptors(check, written, language);
    var all, d := Classified(written, language), Parsed(check, written, language).value;
    ShownText(all, Name, LocalName, d.name);
    ShownText(all, Description, LocalDescription, d.description);
    ShownText(all, Instructions, LocalInstructions, d.instructions);
  }

  lemma ShownText(lines: seq<Line>, f: Field, localized: Field, text: string)
    requires Shows(lines, f, localized, text)
    ensures Assign(if Assigned(lines, localized) then localized else f, text) in lines
  {
  }

  /** The values that fields may have. */
  lemma ValueLimits(check: TextCheck, v: string)
    ensures var text := v != "" && forall i :: 0 <= i < |v| ==> 0x20 <= v[i] as int && v[i] as int != 0x7f;
            && (Valid(check, Name, v) <==> text && check(v, 80))
            && (Valid(check, LocalName, v) <==> text && check(v, 80))
            && (Valid(check, Description, v) <==> text && check(v, 240))
            && (Valid(check, LocalDescription, v) <==> text && check(v, 240))
            && (Valid(check, Instructions, v) <==> text && check(v, 1000))
            && (Valid(check, LocalInstructions, v) <==> text && check(v, 1000))
            && (Valid(check, ModeField, v) <==> v == "job" || v == "exclusive")
            && (Valid(check, InputField, v) <==> v == "none")
            && (Valid(check, ConfirmationField, v) <==> v == "required" || v == "none")
  {
  }
}
