/** What `interpolate_domain` promises of any template. */
module FormatLaws {
  import opened Basics
  import opened RubyFormat

  // ── Templates compose ───────────────────────────────────────────────────

  lemma {:induction false} NumberExtends(s: string, n: nat, more: string)
    requires Number(s, n).Ok?
    ensures Number(s + more, n)
         == Ok(Read(Number(s, n).value.value, Number(s, n).value.rest + more))
    decreases |s|
  {
    if IsDigit(s[0]) {
      assert (s + more)[1..] == s[1..] + more;
      NumberExtends(s[1..], n * 10 + DigitOf(s[0]), more);
    }
  }

  lemma {:induction false} FindExtends(s: string, c: char, more: string)
    requires Find(s, c).Some?
    ensures Find(s + more, c) == Find(s, c)
    decreases |s|
  {
    if s[0] != c {
      assert (s + more)[1..] == s[1..] + more;
      FindExtends(s[1..], c, more);
    }
  }

  /** What a step does when more follows what it read. */
  function Extended(step: Step, more: string): Step {
    match step
    case More(rest, addressing, spec) => More(rest + more, addressing, spec)
    case Done(c) => Done(c.(rest := c.rest + more))
    case Refused(_) => step
  }

  lemma DigitsExtend(s: string, addressing: Addressing, spec: Spec, more: string)
    requires s != "" && IsDigit(s[0]) && !Digits(s, addressing, spec).Refused?
    ensures Digits(s + more, addressing, spec) == Extended(Digits(s, addressing, spec), more)
  {
    NumberExtends(s, 0, more);
    var rest := Number(s, 0).value.rest;
    assert (rest + more)[0] == rest[0] && (rest + more)[1..] == rest[1..] + more;
  }

  lemma NameExtends(domain: string, s: string, addressing: Addressing, spec: Spec, more: string)
    requires s != "" && (s[0] == '<' || s[0] == '{') && !Name(domain, s, addressing, spec).Refused?
    ensures Name(domain, s + more, addressing, spec) == Extended(Name(domain, s, addressing, spec), more)
  {
    var term := if s[0] == '<' then '>' else '}';
    FindExtends(s, term, more);
    var close := Find(s, term).value;
    CutThenMore(s, close + 1, more);
  }

  lemma CutThenMore(s: string, k: nat, more: string)
    requires k <= |s|
    ensures (s + more)[..k] == s[..k] && (s + more)[k..] == s[k..] + more
  {
  }

  lemma TurnExtends(domain: string, s: string, addressing: Addressing, spec: Spec, more: string)
    requires s != "" && !Turn(domain, s, addressing, spec).Refused?
    ensures Turn(domain, s + more, addressing, spec)
         == Extended(Turn(domain, s, addressing, spec), more)
  {
    assert (s + more)[0] == s[0] && (s + more)[1..] == s[1..] + more;
    if IsFlag(s[0]) {
    } else if IsDigit(s[0]) {
      DigitsExtend(s, addressing, spec, more);
    } else if s[0] == '<' || s[0] == '{' {
      NameExtends(domain, s, addressing, spec, more);
    } else if s[0] == '.' {
      NumberExtends(s[1..], 0, more);
    }
  }

  lemma {:induction false} ConversionExtends(
    domain: string, s: string, addressing: Addressing, spec: Spec, more: string)
    requires Conversion(domain, s, addressing, spec).Ok?
    ensures var c := Conversion(domain, s, addressing, spec).value;
            Conversion(domain, s + more, addressing, spec) == Ok(c.(rest := c.rest + more))
    decreases |s|
  {
    TurnExtends(domain, s, addressing, spec, more);
    match Turn(domain, s, addressing, spec)
    case Done(_) =>
    case More(rest, addressing', spec') => ConversionExtends(domain, rest, addressing', spec', more);
  }

  /** If a template formats, what follows it formats from the addressing it
      ended in, and the two outputs join: nothing is read again or ahead. */
  lemma {:induction false} FormatComposes(domain: string, a: string, b: string, addressing: Addressing)
    requires Format(domain, a, addressing).Ok?
    ensures var f := Format(domain, a, addressing).value;
            Format(domain, a + b, addressing) == Prepend(f.out, Format(domain, b, f.addressing))
    decreases |a|
  {
    if a == "" {
      assert a + b == b;
      PrependNothing(Format(domain, b, addressing));
    } else {
      assert (a + b)[0] == a[0] && (a + b)[1..] == a[1..] + b;
      if a[0] != '%' {
        FormatComposes(domain, a[1..], b, addressing);
        var f := Format(domain, a[1..], addressing).value;
        PrependTwice([a[0]], f.out, Format(domain, b, f.addressing));
      } else {
        ConversionExtends(domain, a[1..], addressing, FRESH, b);
        var c := Conversion(domain, a[1..], addressing, FRESH).value;
        FormatComposes(domain, c.rest, b, c.addressing);
        var f := Format(domain, c.rest, c.addressing).value;
        PrependTwice(c.out, f.out, Format(domain, b, f.addressing));
      }
    }
  }

  // ── Escaping ────────────────────────────────────────────────────────────

  /** A text as a template of itself: each `%` doubled. */
  function Double(text: string): string {
    if text == "" then ""
    else (if text[0] == '%' then "%%" else [text[0]]) + Double(text[1..])
  }

  lemma EscapeConverts(domain: string, rest: string, addressing: Addressing)
    ensures Conversion(domain, "%" + rest, addressing, FRESH) == Ok(Converted("%", rest, addressing))
  {
    assert ("%" + rest)[1..] == rest;
    assert Turn(domain, "%" + rest, addressing, FRESH) == Done(Converted("%", rest, addressing));
  }

  lemma {:induction false} DoubledFormatsToItself(domain: string, text: string, addressing: Addressing)
    ensures Format(domain, Double(text), addressing) == Ok(Formatted(text, addressing))
    decreases |text|
  {
    if text != "" {
      var s, rest := Double(text), Double(text[1..]);
      DoubledFormatsToItself(domain, text[1..], addressing);
      assert [text[0]] + text[1..] == text;
      if text[0] == '%' {
        assert s[1..] == "%" + rest;
        EscapeConverts(domain, rest, addressing);
      } else {
        assert s[1..] == rest;
      }
    }
  }

  /** A conversion that takes no argument is `%%` and nothing else. */
  lemma {:induction false} TakesNoArgument(domain: string, s: string, addressing: Addressing, spec: Spec)
    requires addressing.Unaddressed? || (addressing.Unnumbered? && 1 <= addressing.taken)
    requires spec.value.None? && Conversion(domain, s, addressing, spec).Ok?
    requires Conversion(domain, s, addressing, spec).value.addressing == addressing
    ensures !spec.flagged && s != "" && s[0] == '%'
    ensures Conversion(domain, s, addressing, spec).value == Converted("%", s[1..], addressing)
    decreases |s|
  {
    match Turn(domain, s, addressing, spec)
    case Done(_) =>
    case More(rest, addressing', spec') =>
      if spec'.value.None? {
        TakesNoArgument(domain, rest, addressing', spec');
      } else {
        AddressingStays(domain, rest, addressing', spec');
      }
  }

  /** Within a conversion that has its argument, the addressing is settled. */
  lemma {:induction false} AddressingStays(domain: string, s: string, addressing: Addressing, spec: Spec)
    requires Conversion(domain, s, addressing, spec).Ok?
    requires !addressing.Unaddressed?
    requires addressing.Unnumbered? ==> 1 <= addressing.taken
    ensures Conversion(domain, s, addressing, spec).value.addressing == addressing
    decreases |s|
  {
    match Turn(domain, s, addressing, spec)
    case Done(_) =>
    case More(rest, addressing', spec') => AddressingStays(domain, rest, addressing', spec');
  }

  // ── One addressing mode ─────────────────────────────────────────────────

  /** The states a run from the start can be in: a second bare conversion is
      refused, so at most one is ever taken. */
  predicate Reachable(addressing: Addressing) {
    addressing.Unnumbered? ==> addressing.taken == 1
  }

  lemma {:induction false} ConversionReaches(domain: string, s: string, addressing: Addressing, spec: Spec)
    requires Reachable(addressing) && Conversion(domain, s, addressing, spec).Ok?
    ensures Reachable(Conversion(domain, s, addressing, spec).value.addressing)
    decreases |s|
  {
    match Turn(domain, s, addressing, spec)
    case Done(_) =>
    case More(rest, addressing', spec') => ConversionReaches(domain, rest, addressing', spec');
  }

  /** An accepted template keeps to one way of addressing: whatever mode some
      prefix of it has settled on is the mode it ends in, and at most one bare
      conversion is taken. */
  lemma {:induction false} OneAddressingMode(domain: string, s: string, addressing: Addressing)
    requires Reachable(addressing) && Format(domain, s, addressing).Ok?
    ensures Reachable(Format(domain, s, addressing).value.addressing)
    ensures !addressing.Unaddressed? ==> Format(domain, s, addressing).value.addressing == addressing
    decreases |s|
  {
    if s != "" {
      if s[0] != '%' {
        OneAddressingMode(domain, s[1..], addressing);
      } else {
        var c := Conversion(domain, s[1..], addressing, FRESH).value;
        ConversionReaches(domain, s[1..], addressing, FRESH);
        if !addressing.Unaddressed? {
          AddressingStays(domain, s[1..], addressing, FRESH);
        }
        OneAddressingMode(domain, c.rest, c.addressing);
      }
    }
  }

  // ── What the conversions of a template are ──────────────────────────────

  datatype Kind = Escape | ByName | ByNumber | Bare

  /** How a conversion, as it is written after its `%`, says which argument it
      takes. */
  function KindOf(conversion: string): Kind {
    if '<' in conversion || '{' in conversion then ByName
    else if '$' in conversion then ByNumber
    else if '%' in conversion then Escape
    else Bare
  }

  /** The text that reading `s` up to `rest` consumed. */
  function Consumed(s: string, rest: string): string
    requires |rest| <= |s|
  {
    s[..|s| - |rest|]
  }

  /** The kinds of the conversions of a template, in order. */
  function Kinds(domain: string, s: string, addressing: Addressing): seq<Kind>
    decreases |s|
  {
    if s == "" then []
    else if s[0] != '%' then Kinds(domain, s[1..], addressing)
    else
      match Conversion(domain, s[1..], addressing, FRESH)
      case Err(_) => []
      case Ok(c) => [KindOf(Consumed(s[1..], c.rest))] + Kinds(domain, c.rest, c.addressing)
  }

  predicate Plain(text: string) {
    forall c :: c in text ==> c != '<' && c != '{' && c != '$' && c != '%'
  }

  lemma KindOfJoined(a: string, b: string)
    ensures Plain(a) ==> KindOf(a + b) == KindOf(b)
    ensures '<' in a ==> KindOf(a + b) == ByName
    ensures '<' !in a && '{' !in a && '$' in a ==>
      KindOf(a + b) == if KindOf(b) == ByName then ByName else ByNumber
  {
  }

  lemma {:induction false} NumberConsumesDigits(s: string, n: nat) returns (text: string)
    requires Number(s, n).Ok?
    ensures s == text + Number(s, n).value.rest && Plain(text)
    decreases |s|
  {
    text := "";
    if IsDigit(s[0]) {
      text := NumberConsumesDigits(s[1..], n * 10 + DigitOf(s[0]));
      text := [s[0]] + text;
    }
  }

  /** What a turn that goes on has read: a name, the number of an argument, or
      something plain. */
  predicate Reads(text: string, step: Step, addressing: Addressing, spec: Spec)
    requires step.More?
  {
    if Plain(text) then
      step.addressing == addressing && step.spec.value == spec.value
    else if '<' in text then
      step.addressing == Named && (addressing.Unaddressed? || addressing.Named?) && step.spec.value.Some?
    else
      '{' !in text && '$' in text
      && step.addressing == Numbered && (addressing.Unaddressed? || addressing.Numbered?) && step.spec.value.Some?
  }

  lemma NumberReads(s: string, addressing: Addressing, spec: Spec) returns (text: string)
    requires s != "" && IsDigit(s[0]) && Digits(s, addressing, spec).More?
    ensures s == text + Digits(s, addressing, spec).rest
    ensures Reads(text, Digits(s, addressing, spec), addressing, spec)
  {
    text := NumberConsumesDigits(s, 0);
    var rest := Number(s, 0).value.rest;
    if rest[0] == '$' {
      text := text + "$";
      assert '$' in text;
      assert s == text + rest[1..];
    }
  }

  lemma PrecisionIsPlain(s: string, addressing: Addressing, spec: Spec) returns (text: string)
    requires s != "" && s[0] == '.' && Precision(s, addressing, spec).More?
    ensures s == text + Precision(s, addressing, spec).rest && Plain(text)
  {
    text := NumberConsumesDigits(s[1..], 0);
    text := "." + text;
  }

  lemma NameIsRead(domain: string, s: string, addressing: Addressing, spec: Spec) returns (text: string)
    requires s != "" && (s[0] == '<' || s[0] == '{') && !Name(domain, s, addressing, spec).Refused?
    ensures var step := Name(domain, s, addressing, spec);
            && s == text + (if step.More? then step.rest else step.converted.rest)
            && s[0] in text && (addressing.Unaddressed? || addressing.Named?)
            && (if s[0] == '<' then step.More? && step.addressing == Named && step.spec.value.Some?
                else step.Done? && step.converted.addressing == Named)
  {
    var close := Find(s, if s[0] == '<' then '>' else '}').value;
    text := s[..close + 1];
    assert text[0] == s[0];
    assert s == text + s[close + 1..];
  }

  lemma TurnReads(domain: string, s: string, addressing: Addressing, spec: Spec) returns (text: string)
    requires s != "" && Turn(domain, s, addressing, spec).More?
    ensures s == text + Turn(domain, s, addressing, spec).rest
    ensures Reads(text, Turn(domain, s, addressing, spec), addressing, spec)
  {
    if IsFlag(s[0]) {
      text := [s[0]];
    } else if IsDigit(s[0]) {
      text := NumberReads(s, addressing, spec);
    } else if s[0] == '<' || s[0] == '{' {
      text := NameIsRead(domain, s, addressing, spec);
    } else {
      text := PrecisionIsPlain(s, addressing, spec);
    }
  }

  /** What a conversion of some kind does to the addressing, given whether it
      had its argument already. */
  predicate Addresses(kind: Kind, given: bool, before: Addressing, after: Addressing) {
    match kind
    case ByName => after.Named? && (before.Unaddressed? || before.Named?)
    case ByNumber => after.Numbered? && (before.Unaddressed? || before.Numbered?)
    case Escape => after == before
    case Bare => if given then after == before else before.Unaddressed? && after == Unnumbered(1)
  }

  lemma TurnEnds(domain: string, s: string, addressing: Addressing, spec: Spec) returns (text: string)
    requires Reachable(addressing) && s != "" && Turn(domain, s, addressing, spec).Done?
    ensures var c := Turn(domain, s, addressing, spec).converted;
            s == text + c.rest && Addresses(KindOf(text), spec.value.Some?, addressing, c.addressing)
  {
    if s[0] == '<' || s[0] == '{' {
      text := NameIsRead(domain, s, addressing, spec);
    } else {
      text := [s[0]];
    }
  }

  lemma KindsJoin(
    a: string, b: string, before: Addressing, spec: Spec, step: Step, after: Addressing)
    requires step.More? && Reads(a, step, before, spec)
    requires Addresses(KindOf(b), step.spec.value.Some?, step.addressing, after)
    ensures Addresses(KindOf(a + b), spec.value.Some?, before, after)
  {
    KindOfJoined(a, b);
  }

  lemma {:induction false} ConversionAddresses(domain: string, s: string, addressing: Addressing, spec: Spec)
    returns (text: string)
    requires Reachable(addressing) && Conversion(domain, s, addressing, spec).Ok?
    ensures var c := Conversion(domain, s, addressing, spec).value;
            s == text + c.rest && Addresses(KindOf(text), spec.value.Some?, addressing, c.addressing)
    decreases |s|
  {
    var step := Turn(domain, s, addressing, spec);
    if step.Done? {
      text := TurnEnds(domain, s, addressing, spec);
    } else {
      var first := TurnReads(domain, s, addressing, spec);
      var c := Conversion(domain, s, addressing, spec).value;
      text := ConversionAddresses(domain, step.rest, step.addressing, step.spec);
      KindsJoin(first, text, addressing, spec, step, c.addressing);
      Regrouped(s, first, text, step.rest, c.rest);
      text := first + text;
    }
  }

  lemma Regrouped(s: string, a: string, b: string, rest: string, last: string)
    requires s == a + rest && rest == b + last
    ensures s == a + b + last
  {
  }

  predicate Only(kinds: seq<Kind>, kind: Kind) {
    forall k :: k in kinds ==> k == Escape || k == kind
  }

  /** All by name, all by number, or at most one bare; escapes aside. */
  ghost predicate OneWay(kinds: seq<Kind>) {
    || Only(kinds, ByName)
    || Only(kinds, ByNumber)
    || (Only(kinds, Bare) && AtMostOneBare(kinds))
  }

  ghost predicate AtMostOneBare(kinds: seq<Kind>) {
    forall i, j :: 0 <= i < j < |kinds| ==> kinds[i] != Bare || kinds[j] != Bare
  }

  ghost predicate OneWayFrom(addressing: Addressing, kinds: seq<Kind>) {
    match addressing
    case Unaddressed => OneWay(kinds)
    case Unnumbered(_) => Only(kinds, Escape)
    case Numbered => Only(kinds, ByNumber)
    case Named => Only(kinds, ByName)
  }

  lemma OnlyCons(kind: Kind, kinds: seq<Kind>, only: Kind)
    requires Only(kinds, only) && (kind == Escape || kind == only)
    ensures Only([kind] + kinds, only)
  {
  }

  lemma EscapeFirst(kinds: seq<Kind>)
    requires OneWay(kinds)
    ensures OneWay([Escape] + kinds)
  {
    if Only(kinds, ByName) {
      OnlyCons(Escape, kinds, ByName);
    } else if Only(kinds, ByNumber) {
      OnlyCons(Escape, kinds, ByNumber);
    } else {
      OnlyCons(Escape, kinds, Bare);
      assert forall j :: 0 < j < |[Escape] + kinds| ==> ([Escape] + kinds)[j] == kinds[j - 1];
    }
  }

  lemma BareFirst(kinds: seq<Kind>)
    requires Only(kinds, Escape)
    ensures OneWay([Bare] + kinds)
  {
    OnlyCons(Bare, kinds, Bare);
    forall j | 0 < j < |[Bare] + kinds| ensures ([Bare] + kinds)[j] != Bare {
      assert ([Bare] + kinds)[j] == kinds[j - 1];
      assert kinds[j - 1] in kinds;
    }
  }

  lemma OneMoreKind(kind: Kind, kinds: seq<Kind>, before: Addressing, after: Addressing)
    requires Addresses(kind, false, before, after) && OneWayFrom(after, kinds) && Reachable(before)
    ensures OneWayFrom(before, [kind] + kinds)
  {
    match kind
    case ByName => OnlyCons(kind, kinds, ByName);
    case ByNumber => OnlyCons(kind, kinds, ByNumber);
    case Bare => BareFirst(kinds);
    case Escape =>
      match before
      case Unaddressed => EscapeFirst(kinds);
      case Unnumbered(_) => OnlyCons(kind, kinds, Escape);
      case Numbered => OnlyCons(kind, kinds, ByNumber);
      case Named => OnlyCons(kind, kinds, ByName);
  }

  lemma {:induction false} ConversionsAreOneWay(domain: string, s: string, addressing: Addressing)
    requires Reachable(addressing) && Format(domain, s, addressing).Ok?
    ensures OneWayFrom(addressing, Kinds(domain, s, addressing))
    decreases |s|
  {
    if s != "" {
      if s[0] != '%' {
        ConversionsAreOneWay(domain, s[1..], addressing);
      } else {
        var c := Conversion(domain, s[1..], addressing, FRESH).value;
        var text := ConversionAddresses(domain, s[1..], addressing, FRESH);
        ConversionReaches(domain, s[1..], addressing, FRESH);
        ConversionsAreOneWay(domain, c.rest, c.addressing);
        assert Consumed(s[1..], c.rest) == text;
        OneMoreKind(KindOf(text), Kinds(domain, c.rest, c.addressing), addressing, c.addressing);
      }
    }
  }

  /** Of an accepted template: its conversions, escapes aside, all name their
      argument, or all number it, or there is at most one and it does neither. */
  lemma AcceptedTemplatesAreOneWay(domain: string, template: string)
    requires Format(domain, template, Unaddressed).Ok?
    ensures OneWay(Kinds(domain, template, Unaddressed))
  {
    ConversionsAreOneWay(domain, template, Unaddressed);
  }

  /** With nothing addressed by the end, or all taken by one bare conversion
      before, a template is accepted exactly when it is its output, escaped. */
  lemma {:induction false} OnlyEscapesTakeNothing(
    domain: string, s: string, addressing: Addressing, out: string)
    requires addressing.Unaddressed? || addressing == Unnumbered(1)
    ensures Format(domain, s, addressing) == Ok(Formatted(out, addressing)) <==> s == Double(out)
    decreases |s|
  {
    if s == Double(out) {
      DoubledFormatsToItself(domain, out, addressing);
    } else if Format(domain, s, addressing) == Ok(Formatted(out, addressing)) {
      EscapedFrom(domain, s, addressing);
    }
  }

  lemma {:induction false} EscapedFrom(domain: string, s: string, addressing: Addressing)
    requires addressing.Unaddressed? || addressing == Unnumbered(1)
    requires Format(domain, s, addressing).Ok?
    requires Format(domain, s, addressing).value.addressing == addressing
    ensures s == Double(Format(domain, s, addressing).value.out)
    decreases |s|
  {
    if s != "" {
      var out := Format(domain, s, addressing).value.out;
      if s[0] != '%' {
        EscapedFrom(domain, s[1..], addressing);
        assert out[1..] == Format(domain, s[1..], addressing).value.out;
      } else {
        var c := Conversion(domain, s[1..], addressing, FRESH).value;
        ConversionReaches(domain, s[1..], addressing, FRESH);
        assert Format(domain, c.rest, c.addressing).value.addressing == addressing;
        OneAddressingMode(domain, c.rest, c.addressing);
        if !addressing.Unaddressed? {
          AddressingStays(domain, s[1..], addressing, FRESH);
        }
        TakesNoArgument(domain, s[1..], addressing, FRESH);
        EscapedFrom(domain, c.rest, addressing);
        assert out[1..] == Format(domain, c.rest, addressing).value.out;
        assert s == "%%" + c.rest;
      }
    }
  }

  // ── Literals and domains mixed ──────────────────────────────────────────

  datatype Piece = Literal(text: string) | Braced | Angled

  /** A template that writes literals escaped, and the domain either way. */
  function Template(pieces: seq<Piece>): string {
    if pieces == [] then ""
    else
      (match pieces[0]
       case Literal(text) => Double(text)
       case Braced => "%{domain}"
       case Angled => "%<domain>s") + Template(pieces[1..])
  }

  function Expansion(domain: string, pieces: seq<Piece>): string {
    if pieces == [] then ""
    else (if pieces[0].Literal? then pieces[0].text else domain) + Expansion(domain, pieces[1..])
  }

  lemma NameOfDomain(domain: string, addressing: Addressing, spec: Spec, braced: bool, more: string)
    requires addressing.Unaddressed? || addressing.Named?
    requires !spec.named
    ensures Turn(domain, (if braced then "{domain}" else "<domain>") + more, addressing, spec)
         == if braced then Done(Converted(Text(domain, Domain, false, spec), more, Named))
            else More(more, Named, spec.(named := true, value := Some(Domain)))
  {
    var start := if braced then "{domain" else "<domain";
    var term := if braced then '}' else '>';
    var s := start + [term] + more;
    assert s == (if braced then "{domain}" else "<domain>") + more;
    Closes(start, term, more);
    assert s[..8] == start + [term] && s[8..] == more;
    assert s[..8][1..7] == "domain";
  }

  lemma BracedFormats(domain: string, addressing: Addressing)
    requires addressing.Unaddressed? || addressing.Named?
    ensures Format(domain, "%{domain}", addressing) == Ok(Formatted(domain, Named))
  {
    NameOfDomain(domain, addressing, FRESH, true, "");
    var s := "%{domain}";
    assert s[1..] == "{domain}" + "";
    assert domain + "" == domain;
  }

  lemma AngledFormats(domain: string, addressing: Addressing)
    requires addressing.Unaddressed? || addressing.Named?
    ensures Format(domain, "%<domain>s", addressing) == Ok(Formatted(domain, Named))
  {
    NameOfDomain(domain, addressing, FRESH, false, "s");
    var s := "%<domain>s";
    assert s[1..] == "<domain>" + "s";
    var spec := FRESH.(named := true, value := Some(Domain));
    assert Turn(domain, "s", Named, spec) == Done(Converted(domain, "", Named));
    assert Conversion(domain, "s", Named, spec) == Ok(Converted(domain, "", Named));
    assert domain + "" == domain;
  }

  lemma {:induction false} Closes(s: string, c: char, more: string)
    requires c !in s
    ensures Find(s + [c] + more, c) == Some(|s|)
    decreases |s|
  {
    if s != "" {
      assert (s + [c] + more)[1..] == s[1..] + [c] + more;
      Closes(s[1..], c, more);
    }
  }

  /** Any mix of escaped literals and domains formats to just their texts, the
      domain's own `%`s, if any, among them: it is never read as a template. */
  lemma {:induction false} MixFormatsToItsParts(domain: string, pieces: seq<Piece>, addressing: Addressing)
    requires addressing.Unaddressed? || addressing.Named?
    ensures var r := Format(domain, Template(pieces), addressing);
            && r.Ok? && r.value.out == Expansion(domain, pieces)
            && (r.value.addressing == addressing || r.value.addressing == Named)
    decreases |pieces|
  {
    if pieces != [] {
      var rest := Template(pieces[1..]);
      match pieces[0]
      case Literal(text) =>
        DoubledFormatsToItself(domain, text, addressing);
        FormatComposes(domain, Double(text), rest, addressing);
        MixFormatsToItsParts(domain, pieces[1..], addressing);
      case Braced =>
        BracedFormats(domain, addressing);
        FormatComposes(domain, "%{domain}", rest, addressing);
        MixFormatsToItsParts(domain, pieces[1..], Named);
      case Angled =>
        AngledFormats(domain, addressing);
        FormatComposes(domain, "%<domain>s", rest, addressing);
        MixFormatsToItsParts(domain, pieces[1..], Named);
    }
  }

  // ── Widths ──────────────────────────────────────────────────────────────

  function Decimal(n: nat): string {
    (if n < 10 then "" else Decimal(n / 10)) + ['0' + (n % 10) as char]
  }

  lemma {:induction false} NumberReadsDecimal(n: nat, rest: string)
    requires n <= INT_MAX
    ensures Number(Decimal(n) + rest, 0) == Number(rest, n)
    ensures Decimal(n) != "" && IsDigit(Decimal(n)[0]) && (Decimal(n)[0] == '0' <==> n == 0)
    decreases n
  {
    var digit := ['0' + (n % 10) as char];
    assert DigitOf(digit[0]) == n % 10;
    assert (digit + rest)[1..] == rest;
    if 10 <= n {
      NumberReadsDecimal(n / 10, digit + rest);
      assert Decimal(n) + rest == Decimal(n / 10) + (digit + rest);
    } else {
      assert Decimal(n) == digit;
    }
  }

  /** What a conversion puts in is its value, cut to the precision, at one end
      of at least the width. */
  lemma TextFits(domain: string, arg: Arg, inspect: bool, spec: Spec)
    ensures var value, s := Value(domain, arg, inspect), Text(domain, arg, inspect, spec);
            var kept := if spec.prec.Some? then Least(spec.prec.value, |value|) else |value|;
            && |s| == (if spec.width.Some? && kept < spec.width.value then spec.width.value else kept)
            && (if spec.minus then s[..kept] else s[|s| - kept..]) == value[..kept]
  {
  }

  /** A width written in decimal pads the domain to just that width. */
  lemma WidthPadsTheDomain(domain: string, width: nat, addressing: Addressing)
    requires addressing.Unaddressed? || addressing.Named?
    requires 0 < width <= INT_MAX
    ensures Format(domain, "%" + Decimal(width) + "{domain}", addressing)
         == Ok(Formatted(Pad(domain, false, Some(width)), Named))
  {
    var s := Decimal(width) + "{domain}";
    NumberReadsDecimal(width, "{domain}");
    assert ("%" + Decimal(width) + "{domain}")[1..] == s;
    DecimalIsNoFlag(width);
    var spec := FRESH.(flagged := true, width := Some(width));
    assert s[0] == Decimal(width)[0];
    assert Number("{domain}", width) == Ok(Read(width, "{domain}"));
    assert Turn(domain, s, addressing, FRESH) == More("{domain}", addressing, spec);
    NameOfDomain(domain, addressing, spec, true, "");
    assert "{domain}" + "" == "{domain}";
    var out := Pad(domain, false, Some(width));
    assert Conversion(domain, s, addressing, FRESH) == Ok(Converted(out, "", Named));
    assert out + "" == out;
  }

  lemma DecimalIsNoFlag(n: nat)
    requires 0 < n <= INT_MAX
    ensures Decimal(n) != "" && IsDigit(Decimal(n)[0]) && !IsFlag(Decimal(n)[0])
  {
    NumberReadsDecimal(n, "");
  }

  // ── Whole conversions ───────────────────────────────────────────────────

  predicate Fits(n: Option<nat>) {
    n.Some? ==> n.value <= INT_MAX
  }

  /** What stands between a name and the end of its conversion. */
  function Spelled(minus: bool, width: Option<nat>, prec: Option<nat>, letter: char): string {
    if minus then "-" + FromWidth(width, prec, letter) else FromWidth(width, prec, letter)
  }

  function FromWidth(width: Option<nat>, prec: Option<nat>, letter: char): string {
    if width.Some? then Decimal(width.value) + FromPrecision(prec, letter) else FromPrecision(prec, letter)
  }

  function FromPrecision(prec: Option<nat>, letter: char): string {
    if prec.Some? then "." + Decimal(prec.value) + [letter] else [letter]
  }

  lemma MinusReads(domain: string, rest: string, spec: Spec)
    requires spec.width.None? && spec.prec.None?
    ensures Conversion(domain, "-" + rest, Named, spec)
         == Conversion(domain, rest, Named, spec.(flagged := true, minus := true))
  {
    var s := "-" + rest;
    assert s[1..] == rest;
    assert Turn(domain, s, Named, spec) == More(rest, Named, spec.(flagged := true, minus := true));
  }

  lemma WidthReads(domain: string, width: nat, rest: string, spec: Spec)
    requires 0 < width <= INT_MAX && spec.width.None? && spec.prec.None?
    requires rest != "" && !IsDigit(rest[0]) && rest[0] != '$'
    ensures Conversion(domain, Decimal(width) + rest, Named, spec)
         == Conversion(domain, rest, Named, spec.(flagged := true, width := Some(width)))
  {
    var s := Decimal(width) + rest;
    NumberReadsDecimal(width, rest);
    DecimalIsNoFlag(width);
    assert s[0] == Decimal(width)[0];
    assert Turn(domain, s, Named, spec)
        == More(rest, Named, spec.(flagged := true, width := Some(width)));
  }

  lemma PrecisionReads(domain: string, prec: nat, rest: string, spec: Spec)
    requires prec <= INT_MAX && spec.prec.None? && rest != "" && !IsDigit(rest[0])
    ensures Conversion(domain, "." + Decimal(prec) + rest, Named, spec)
         == Conversion(domain, rest, Named, spec.(flagged := true, prec := Some(prec)))
  {
    var s := "." + Decimal(prec) + rest;
    NumberReadsDecimal(prec, rest);
    assert s[1..] == Decimal(prec) + rest;
    assert s[1] == Decimal(prec)[0];
    assert Turn(domain, s, Named, spec)
        == More(rest, Named, spec.(flagged := true, prec := Some(prec)));
  }

  /** What a letter makes of the domain: `s` the text and `p` the text
      inspected, cut to the precision, and `c` the first character, which no
      precision cuts. */
  function Kept(domain: string, prec: Option<nat>, letter: char): string {
    if letter == 'c' then domain[..Least(1, |domain|)]
    else
      var value := if letter == 'p' then Inspect(domain) else domain;
      if prec.Some? then value[..Least(prec.value, |value|)] else value
  }

  lemma LetterKeeps(domain: string, letter: char, spec: Spec)
    requires letter in "spc" && spec.value == Some(Domain)
    ensures Letter(domain, [letter], Named, spec)
         == Done(Converted(Pad(Kept(domain, spec.prec, letter), spec.minus, spec.width), "", Named))
  {
    assert [letter][1..] == "";
  }

  lemma LetterTurns(domain: string, letter: char, spec: Spec)
    requires letter in "spc"
    ensures Turn(domain, [letter], Named, spec) == Letter(domain, [letter], Named, spec)
  {
  }

  lemma LetterEnds(domain: string, letter: char, spec: Spec)
    requires letter in "spc" && spec.value == Some(Domain)
    ensures Conversion(domain, [letter], Named, spec)
         == Ok(Converted(Pad(Kept(domain, spec.prec, letter), spec.minus, spec.width), "", Named))
  {
    LetterKeeps(domain, letter, spec);
    LetterTurns(domain, letter, spec);
  }

  lemma FromPrecisionReads(domain: string, prec: Option<nat>, letter: char, spec: Spec)
    requires letter in "spc" && Fits(prec) && spec.value == Some(Domain) && spec.prec.None?
    ensures Conversion(domain, FromPrecision(prec, letter), Named, spec)
         == Ok(Converted(Pad(Kept(domain, prec, letter), spec.minus, spec.width), "", Named))
  {
    if prec.Some? {
      PrecisionReads(domain, prec.value, [letter], spec);
      LetterEnds(domain, letter, spec.(flagged := true, prec := prec));
    } else {
      LetterEnds(domain, letter, spec);
    }
  }

  lemma FromWidthReads(domain: string, width: Option<nat>, prec: Option<nat>, letter: char, spec: Spec)
    requires letter in "spc" && Fits(width) && Fits(prec) && width != Some(0)
    requires spec.value == Some(Domain) && spec.prec.None? && spec.width.None?
    ensures Conversion(domain, FromWidth(width, prec, letter), Named, spec)
         == Ok(Converted(Pad(Kept(domain, prec, letter), spec.minus, width), "", Named))
  {
    var rest := FromPrecision(prec, letter);
    if width.Some? {
      assert rest[0] == if prec.Some? then '.' else letter;
      WidthReads(domain, width.value, rest, spec);
      FromPrecisionReads(domain, prec, letter, spec.(flagged := true, width := width));
    } else {
      FromPrecisionReads(domain, prec, letter, spec);
    }
  }

  lemma SpelledReads(
    domain: string, minus: bool, width: Option<nat>, prec: Option<nat>, letter: char, spec: Spec)
    requires letter in "spc" && Fits(width) && Fits(prec) && width != Some(0)
    requires spec == FRESH.(named := true, value := Some(Domain))
    ensures Conversion(domain, Spelled(minus, width, prec, letter), Named, spec)
         == Ok(Converted(Pad(Kept(domain, prec, letter), minus, width), "", Named))
  {
    if minus {
      MinusReads(domain, FromWidth(width, prec, letter), spec);
      FromWidthReads(domain, width, prec, letter, spec.(flagged := true, minus := true));
    } else {
      FromWidthReads(domain, width, prec, letter, spec);
    }
  }

  /** Any way of writing the domain by name, aligned or not, with a width or a
      precision or both, puts in what its letter keeps, so padded. */
  lemma NamedConversionFormats(
    domain: string, minus: bool, width: Option<nat>, prec: Option<nat>, letter: char, addressing: Addressing)
    requires addressing.Unaddressed? || addressing.Named?
    requires letter in "spc" && Fits(width) && Fits(prec) && width != Some(0)
    ensures Format(domain, "%<domain>" + Spelled(minus, width, prec, letter), addressing)
         == Ok(Formatted(Pad(Kept(domain, prec, letter), minus, width), Named))
  {
    var rest, out := Spelled(minus, width, prec, letter), Pad(Kept(domain, prec, letter), minus, width);
    var s := "%<domain>" + rest;
    assert s[1..] == "<domain>" + rest;
    NameOfDomain(domain, addressing, FRESH, false, rest);
    SpelledReads(domain, minus, width, prec, letter, FRESH.(named := true, value := Some(Domain)));
    assert Conversion(domain, "<domain>" + rest, addressing, FRESH) == Ok(Converted(out, "", Named));
    assert out + "" == out;
  }

  // ── Inspection ──────────────────────────────────────────────────────────

  /** Reading a quoted string back, to its closing quote. */
  function Unquote(s: string): Option<(string, string)> {
    if s == "" then None
    else if s[0] == '"' then Some(("", s[1..]))
    else
      var n := if s[0] == '\\' then 1 else 0;
      if |s| <= n then None
      else
        match Unquote(s[n + 1..])
        case None => None
        case Some((text, rest)) => Some(([s[n]] + text, rest))
  }

  /** An inspected text reads back as itself, and stops where it ends: its own
      quotes and backslashes never close it. */
  lemma {:induction false} InspectedReadsBack(text: string, more: string)
    ensures Unquote(Escaped(text) + "\"" + more) == Some((text, more))
    decreases |text|
  {
    var s := Escaped(text) + "\"" + more;
    if text == "" {
      assert s == "\"" + more && s[1..] == more;
    } else {
      var n := if text[0] == '"' || text[0] == '\\' then 1 else 0;
      InspectedReadsBack(text[1..], more);
      assert s[n + 1..] == Escaped(text[1..]) + "\"" + more;
      assert [text[0]] + text[1..] == text;
    }
  }
}
