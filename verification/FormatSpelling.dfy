/** Which conversions are accepted, and what each puts in: a grammar of their
    parts, in whatever order they are written, against the interpreter. */
module FormatSpelling {
  import opened Basics
  import opened RubyFormat
  import opened FormatLaws

  /** What may stand between the `%` and the end of a conversion. */
  datatype Item = Flagged(c: char) | First | ByDomain | Wide(n: nat) | Precise(n: nat)

  datatype End = Percent | Brace | Takes(c: char)

  predicate WellSpelled(item: Item) {
    match item
    case Flagged(c) => c in " #+-0"
    case Wide(n) => 0 < n <= INT_MAX
    case Precise(n) => n <= INT_MAX
    case _ => true
  }

  function SpellItem(item: Item): string {
    match item
    case Flagged(c) => [c]
    case First => "1$"
    case ByDomain => "<domain>"
    case Wide(n) => Decimal(n)
    case Precise(n) => "." + Decimal(n)
  }

  function SpellEnd(end: End): string {
    match end
    case Percent => "%"
    case Brace => "{domain}"
    case Takes(c) => [c]
  }

  function Spell(items: seq<Item>, end: End): string {
    if items == [] then SpellEnd(end) else SpellItem(items[0]) + Spell(items[1..], end)
  }

  predicate EndsInDigit(item: Item) {
    item.Wide? || item.Precise?
  }

  predicate BeginsWithDigit(item: Item) {
    item.Wide? || item.First? || item == Flagged('0')
  }

  /** No number runs into the next. */
  ghost predicate Separate(items: seq<Item>) {
    forall i :: 0 <= i < |items| - 1 ==> !(EndsInDigit(items[i]) && BeginsWithDigit(items[i + 1]))
  }

  ghost predicate Spellable(items: seq<Item>, end: End) {
    (forall x :: x in items ==> WellSpelled(x)) && Separate(items) && (end.Takes? ==> TakesArgument(end.c))
  }

  // ── The grammar ─────────────────────────────────────────────────────────

  /** Whether one part may come after another, anywhere. */
  predicate MayFollow(a: Item, b: Item) {
    match b
    case Flagged(_) => !a.Wide? && !a.Precise?
    case Wide(_) => !a.Wide? && !a.Precise?
    case Precise(_) => !a.Precise?
    case First => !a.First? && !a.ByDomain?
    case ByDomain => !a.First? && !a.ByDomain?
  }

  /** Whether an argument may be addressed so, after what came before. */
  predicate MayAddress(item: Item, before: Addressing) {
    match item
    case First => before.Unaddressed? || before.Numbered?
    case ByDomain => before.Unaddressed? || before.Named?
    case _ => true
  }

  ghost predicate Allowed(items: seq<Item>, before: Addressing) {
    && (forall i, j :: 0 <= i < j < |items| ==> MayFollow(items[i], items[j]))
    && (forall x :: x in items ==> MayAddress(x, before))
  }

  ghost predicate MayEnd(items: seq<Item>, end: End, before: Addressing) {
    match end
    case Percent => forall x :: x in items ==> x.First? || x.ByDomain?
    case Brace => First !in items && ByDomain !in items && (before.Unaddressed? || before.Named?)
    case Takes(c) =>
      if ByDomain in items then c in "spc"
      else c in "sp" && (First in items || before.Unaddressed?)
  }

  // ── Reading the parts ───────────────────────────────────────────────────

  datatype Reading = Reading(addressing: Addressing, spec: Spec)

  function ReadItem(item: Item, r: Reading): Option<Reading> {
    var Reading(addressing, spec) := r;
    match item
    case Flagged(c) =>
      if spec.width.Some? || spec.prec.Some? then None
      else Some(Reading(addressing, spec.(flagged := true, minus := spec.minus || c == '-')))
    case First =>
      if spec.value.Some? || addressing.Unnumbered? || addressing.Named? then None
      else Some(Reading(Numbered, spec.(value := Some(Hash))))
    case ByDomain =>
      if spec.named || addressing.Unnumbered? || addressing.Numbered? then None
      else Some(Reading(Named, spec.(named := true, value := Some(Domain))))
    case Wide(n) =>
      if spec.width.Some? || spec.prec.Some? then None
      else Some(Reading(addressing, spec.(flagged := true, width := Some(n))))
    case Precise(n) =>
      if spec.prec.Some? then None
      else Some(Reading(addressing, spec.(flagged := true, prec := Some(n))))
  }

  function ReadItems(items: seq<Item>, r: Reading): Option<Reading> {
    if items == [] then Some(r)
    else
      match ReadItem(items[0], r)
      case None => None
      case Some(r') => ReadItems(items[1..], r')
  }

  lemma {:induction false} ReadItemsAppend(items: seq<Item>, last: Item, r: Reading)
    ensures ReadItems(items + [last], r)
         == match ReadItems(items, r) case None => None case Some(r') => ReadItem(last, r')
    decreases |items|
  {
    if items == [] {
      assert ([] + [last])[1..] == [];
    } else {
      assert (items + [last])[1..] == items[1..] + [last];
      match ReadItem(items[0], r)
      case None =>
      case Some(r') => ReadItemsAppend(items[1..], last, r');
    }
  }

  // ── The interpreter reads the parts ─────────────────────────────────────

  predicate ItemIsRead(domain: string, item: Item, rest: string, r: Reading) {
    var s := SpellItem(item) + rest;
    s != "" &&
    match ReadItem(item, r)
    case None => Turn(domain, s, r.addressing, r.spec).Refused?
    case Some(r') => Turn(domain, s, r.addressing, r.spec) == More(rest, r'.addressing, r'.spec)
  }

  lemma FlagReads(domain: string, c: char, rest: string, r: Reading)
    requires c in " #+-0"
    ensures ItemIsRead(domain, Flagged(c), rest, r)
  {
    assert ([c] + rest)[1..] == rest;
  }

  lemma WideReads(domain: string, n: nat, rest: string, r: Reading)
    requires 0 < n <= INT_MAX && rest != "" && !IsDigit(rest[0]) && rest[0] != '$'
    ensures ItemIsRead(domain, Wide(n), rest, r)
  {
    NumberReadsDecimal(n, rest);
    DecimalIsNoFlag(n);
    assert (Decimal(n) + rest)[0] == Decimal(n)[0];
  }

  lemma PreciseReads(domain: string, n: nat, rest: string, r: Reading)
    requires n <= INT_MAX && rest != "" && !IsDigit(rest[0])
    ensures ItemIsRead(domain, Precise(n), rest, r)
  {
    var s := "." + Decimal(n) + rest;
    NumberReadsDecimal(n, rest);
    assert s[1..] == Decimal(n) + rest && s[1] == Decimal(n)[0];
  }

  lemma FirstReads(domain: string, rest: string, r: Reading)
    ensures ItemIsRead(domain, First, rest, r)
  {
    var s := "1$" + rest;
    OneIsDecimal();
    NumberReadsDecimal(1, "$" + rest);
    assert s == Decimal(1) + ("$" + rest);
    assert ("$" + rest)[1..] == rest;
  }

  lemma OneIsDecimal()
    ensures Decimal(1) == "1"
  {
  }

  lemma ByDomainReads(domain: string, rest: string, r: Reading)
    ensures ItemIsRead(domain, ByDomain, rest, r)
  {
    var s := "<domain>" + rest;
    Closes("<domain", '>', rest);
    assert s == "<domain" + ['>'] + rest;
    assert s[..8] == "<domain>" && s[8..] == rest;
    assert s[..8][1..7] == "domain";
  }

  lemma ItemReads(domain: string, item: Item, rest: string, r: Reading)
    requires WellSpelled(item) && rest != ""
    requires EndsInDigit(item) ==> !IsDigit(rest[0]) && rest[0] != '$'
    ensures ItemIsRead(domain, item, rest, r)
  {
    match item
    case Flagged(c) => FlagReads(domain, c, rest, r);
    case First => FirstReads(domain, rest, r);
    case ByDomain => ByDomainReads(domain, rest, r);
    case Wide(n) => WideReads(domain, n, rest, r);
    case Precise(n) => PreciseReads(domain, n, rest, r);
  }

  lemma SpelledBegins(items: seq<Item>, end: End, more: string)
    requires Spellable(items, end)
    ensures Spell(items, end) != ""
    ensures (items == [] || !BeginsWithDigit(items[0])) ==>
              !IsDigit((Spell(items, end) + more)[0]) && (Spell(items, end) + more)[0] != '$'
  {
    if items != [] {
      assert items[0] in items && WellSpelled(items[0]);
      if items[0].Wide? {
        DecimalIsNoFlag(items[0].n);
      }
    }
  }

  lemma SpellableTail(items: seq<Item>, end: End)
    requires Spellable(items, end) && items != []
    ensures Spellable(items[1..], end) && WellSpelled(items[0])
    ensures items[1..] != [] ==> !(EndsInDigit(items[0]) && BeginsWithDigit(items[1..][0]))
  {
    var rest := items[1..];
    assert items[0] in items && forall x :: x in rest ==> x in items;
    forall i | 0 <= i < |rest| - 1 ensures !(EndsInDigit(rest[i]) && BeginsWithDigit(rest[i + 1])) {
      assert rest[i] == items[i + 1] && rest[i + 1] == items[i + 1 + 1];
    }
  }

  lemma NextItemReads(domain: string, items: seq<Item>, end: End, more: string, r: Reading)
    requires Spellable(items, end) && items != []
    ensures ItemIsRead(domain, items[0], Spell(items[1..], end) + more, r)
  {
    SpellableTail(items, end);
    SpelledBegins(items[1..], end, more);
    ItemReads(domain, items[0], Spell(items[1..], end) + more, r);
  }

  lemma OneItemOn(domain: string, item: Item, rest: string, r: Reading)
    requires ItemIsRead(domain, item, rest, r)
    ensures var c := Conversion(domain, SpellItem(item) + rest, r.addressing, r.spec);
            match ReadItem(item, r)
            case None => c.Err?
            case Some(r') => c == Conversion(domain, rest, r'.addressing, r'.spec)
  {
  }

  lemma SpellOn(items: seq<Item>, end: End, more: string)
    requires items != []
    ensures Spell(items, end) + more == SpellItem(items[0]) + (Spell(items[1..], end) + more)
  {
  }

  /** What is left to read once the parts are. */
  lemma {:induction false} ItemsRead(domain: string, items: seq<Item>, end: End, more: string, r: Reading)
    requires Spellable(items, end)
    ensures var s := Spell(items, end) + more;
            match ReadItems(items, r)
            case None => Conversion(domain, s, r.addressing, r.spec).Err?
            case Some(r') =>
              Conversion(domain, s, r.addressing, r.spec)
                == Conversion(domain, SpellEnd(end) + more, r'.addressing, r'.spec)
    decreases |items|
  {
    if items != [] {
      SpellableTail(items, end);
      SpellOn(items, end, more);
      NextItemReads(domain, items, end, more, r);
      OneItemOn(domain, items[0], Spell(items[1..], end) + more, r);
      match ReadItem(items[0], r)
      case None =>
      case Some(r') => ItemsRead(domain, items[1..], end, more, r');
    }
  }

  // ── The grammar says which can be read ──────────────────────────────────

  /** A flag, a width or a precision. */
  ghost predicate AnyFlag(items: seq<Item>) {
    exists x :: x in items && !x.First? && !x.ByDomain?
  }

  lemma AnyFlagAppend(items: seq<Item>, last: Item)
    ensures AnyFlag(items + [last]) <==> AnyFlag(items) || !(last.First? || last.ByDomain?)
  {
    assert forall x :: x in items + [last] <==> x in items || x == last;
    assert last in items + [last];
    if AnyFlag(items) {
      var x :| x in items && !x.First? && !x.ByDomain?;
      assert x in items + [last];
    }
  }

  /** What the parts read leave behind. */
  ghost predicate Amounts(items: seq<Item>, before: Addressing, r: Reading) {
    && (forall n: nat :: r.spec.width == Some(n) <==> Wide(n) in items)
    && (forall n: nat :: r.spec.prec == Some(n) <==> Precise(n) in items)
    && (r.spec.flagged <==> AnyFlag(items))
    && (r.spec.minus <==> Flagged('-') in items)
    && (r.spec.named <==> ByDomain in items)
    && r.spec.value == (if ByDomain in items then Some(Domain) else if First in items then Some(Hash) else None)
    && r.addressing == (if ByDomain in items then Named else if First in items then Numbered else before)
  }

  ghost predicate MayComeNext(items: seq<Item>, last: Item, before: Addressing) {
    (forall x :: x in items ==> MayFollow(x, last)) && MayAddress(last, before)
  }

  lemma AllowedAppend(items: seq<Item>, last: Item, before: Addressing)
    ensures Allowed(items + [last], before) <==> Allowed(items, before) && MayComeNext(items, last, before)
  {
    var more := items + [last];
    assert forall i :: 0 <= i < |items| ==> more[i] == items[i];
    assert forall x :: x in more <==> x in items || x == last;
    if Allowed(more, before) {
      forall x | x in items ensures MayFollow(x, last) {
        var i :| 0 <= i < |items| && items[i] == x;
        assert MayFollow(more[i], more[|items|]);
      }
      forall i, j | 0 <= i < j < |items| ensures MayFollow(items[i], items[j]) {
        assert MayFollow(more[i], more[j]);
      }
    }
  }

  lemma NextAmounts(items: seq<Item>, last: Item, before: Addressing, r: Reading)
    requires Amounts(items, before, r)
    ensures ReadItem(last, r).Some? <==> MayComeNext(items, last, before)
    ensures ReadItem(last, r).Some? ==> Amounts(items + [last], before, ReadItem(last, r).value)
  {
    NextIsRead(items, last, before, r);
    AnyFlagAppend(items, last);
    if ReadItem(last, r).Some? {
      assert forall x :: x in items + [last] <==> x in items || x == last;
    }
  }

  lemma NextIsRead(items: seq<Item>, last: Item, before: Addressing, r: Reading)
    requires Amounts(items, before, r)
    ensures ReadItem(last, r).Some? <==> MayComeNext(items, last, before)
  {
    assert r.spec.width.Some? ==> Wide(r.spec.width.value) in items;
    assert r.spec.prec.Some? ==> Precise(r.spec.prec.value) in items;
    assert r.spec.width.None? ==> forall x :: x in items ==> !x.Wide?;
    assert r.spec.prec.None? ==> forall x :: x in items ==> !x.Precise?;
  }

  lemma {:induction false} AllowedAreRead(items: seq<Item>, before: Addressing)
    ensures ReadItems(items, Reading(before, FRESH)).Some? <==> Allowed(items, before)
    ensures ReadItems(items, Reading(before, FRESH)).Some? ==>
              Amounts(items, before, ReadItems(items, Reading(before, FRESH)).value)
    decreases |items|
  {
    if items != [] {
      var rest, last := items[..|items| - 1], items[|items| - 1];
      assert items == rest + [last];
      AllowedAreRead(rest, before);
      AllowedAppend(rest, last, before);
      ReadItemsAppend(rest, last, Reading(before, FRESH));
      if ReadItems(rest, Reading(before, FRESH)).Some? {
        NextAmounts(rest, last, before, ReadItems(rest, Reading(before, FRESH)).value);
      }
    }
  }

  // ── Ends ────────────────────────────────────────────────────────────────

  /** A text cut to a precision. */
  function Cut(text: string, prec: Option<nat>): string {
    if prec.Some? && prec.value < |text| then text[..prec.value] else text
  }

  /** What the whole hash inspects as: the domain, quoted and escaped, in it. */
  function InspectedHash(domain: string): string {
    "{domain: \"" + Escaped(domain) + "\"}"
  }

  /** What a conversion puts in, by its end and whether it names the domain. */
  function PutsIn(domain: string, end: End, named: bool, minus: bool, width: Option<nat>, prec: Option<nat>): string {
    match end
    case Percent => "%"
    case Brace => Pad(Cut(domain, prec), minus, width)
    case Takes(c) =>
      if c == 'c' then Pad(Cut(domain, Some(1)), minus, width)
      else if !named then Pad(Cut(InspectedHash(domain), prec), minus, width)
      else if c == 'p' then Pad(Cut("\"" + Escaped(domain) + "\"", prec), minus, width)
      else Pad(Cut(domain, prec), minus, width)
  }

  function AddressingAfter(items: seq<Item>, end: End, before: Addressing): Addressing {
    if ByDomain in items || end.Brace? then Named
    else if First in items then Numbered
    else if end.Takes? then Unnumbered(1)
    else before
  }

  lemma BraceEnds(domain: string, more: string, items: seq<Item>, before: Addressing, r: Reading)
    requires Amounts(items, before, r)
    ensures var c := Conversion(domain, "{domain}" + more, r.addressing, r.spec);
            && (c.Ok? <==> MayEnd(items, Brace, before))
            && (c.Ok? ==> c.value == Converted(
                  PutsIn(domain, Brace, r.spec.named, r.spec.minus, r.spec.width, r.spec.prec), more, Named))
  {
    var s := "{domain}" + more;
    Closes("{domain", '}', more);
    assert s == "{domain" + ['}'] + more;
    assert s[..8] == "{domain}" && s[8..] == more;
    assert s[..8][1..7] == "domain";
  }

  lemma PercentEnds(domain: string, more: string, items: seq<Item>, before: Addressing, r: Reading)
    requires Amounts(items, before, r)
    ensures var c := Conversion(domain, "%" + more, r.addressing, r.spec);
            && (c.Ok? <==> MayEnd(items, Percent, before))
            && (c.Ok? ==> c.value == Converted("%", more, r.addressing))
  {
    assert ("%" + more)[1..] == more;
  }

  lemma TextIsCut(domain: string, letter: char, arg: Arg, spec: Spec)
    requires letter in "sp"
    ensures Text(domain, arg, letter == 'p', spec)
         == PutsIn(domain, Takes(letter), arg.Domain?, spec.minus, spec.width, spec.prec)
  {
    HashInspects(domain);
    var value := Value(domain, arg, letter == 'p');
    assert spec.prec.Some? ==> value[..Least(spec.prec.value, |value|)] == Cut(value, spec.prec);
  }

  lemma LetterWithArg(domain: string, letter: char, more: string, r: Reading, arg: Arg, after: Addressing)
    requires TakesArgument(letter) && ArgOf(r.spec, r.addressing) == Ok(Taken(arg, after))
    ensures var c := Letter(domain, [letter] + more, r.addressing, r.spec);
            if letter in "sp" || (letter == 'c' && arg.Domain?) then
              c == Done(Converted(
                PutsIn(domain, Takes(letter), arg.Domain?, r.spec.minus, r.spec.width, r.spec.prec), more, after))
            else c.Refused?
  {
    assert ([letter] + more)[1..] == more;
    if letter in "sp" {
      TextIsCut(domain, letter, arg, r.spec);
    }
  }

  lemma ArgTaken(items: seq<Item>, before: Addressing, r: Reading)
    requires Amounts(items, before, r) && Reachable(before)
    ensures var taken := ArgOf(r.spec, r.addressing);
            && (taken.Ok? <==>
                  ByDomain in items || First in items || before.Unaddressed?)
            && (taken.Ok? ==> taken.value.arg == if ByDomain in items then Domain else Hash)
            && (taken.Ok? ==>
                  taken.value.addressing
                    == if ByDomain in items then Named else if First in items then Numbered else Unnumbered(1))
  {
  }

  lemma LetterEndsSo(domain: string, letter: char, more: string, items: seq<Item>, before: Addressing, r: Reading)
    requires Amounts(items, before, r) && TakesArgument(letter) && Reachable(before)
    ensures var c := Letter(domain, [letter] + more, r.addressing, r.spec);
            && (c.Done? <==> MayEnd(items, Takes(letter), before))
            && (!c.Done? ==> c.Refused?)
            && (c.Done? ==> c.converted == Converted(
                  PutsIn(domain, Takes(letter), r.spec.named, r.spec.minus, r.spec.width, r.spec.prec), more,
                  AddressingAfter(items, Takes(letter), before)))
  {
    ArgTaken(items, before, r);
    match ArgOf(r.spec, r.addressing)
    case Err(_) =>
    case Ok(Taken(arg, after)) => LetterWithArg(domain, letter, more, r, arg, after);
  }

  lemma HashInspects(domain: string)
    ensures HashInspect(domain) == InspectedHash(domain)
  {
    assert "{domain: " + ("\"" + Escaped(domain) + "\"") + "}" == "{domain: \"" + Escaped(domain) + "\"}";
  }

  lemma LetterTurn(domain: string, letter: char, more: string, r: Reading)
    requires TakesArgument(letter)
    ensures Turn(domain, [letter] + more, r.addressing, r.spec) == Letter(domain, [letter] + more, r.addressing, r.spec)
  {
  }

  lemma TakesEnds(domain: string, letter: char, more: string, items: seq<Item>, before: Addressing, r: Reading)
    requires Amounts(items, before, r) && TakesArgument(letter) && Reachable(before)
    ensures var c := Conversion(domain, [letter] + more, r.addressing, r.spec);
            && (c.Ok? <==> MayEnd(items, Takes(letter), before))
            && (c.Ok? ==> c.value == Converted(
                  PutsIn(domain, Takes(letter), r.spec.named, r.spec.minus, r.spec.width, r.spec.prec), more,
                  AddressingAfter(items, Takes(letter), before)))
  {
    LetterEndsSo(domain, letter, more, items, before, r);
    LetterTurn(domain, letter, more, r);
  }

  /** A conversion, of whatever parts in whatever order, is accepted if and only
      if each part may follow those before it, addresses its argument as what
      came before the conversion did, and may be ended so. Then it puts in what
      its end makes of the value, cut and padded as its parts say, and what
      follows it is read from there. */
  lemma AcceptedExactlyWhenAllowed(
    domain: string, items: seq<Item>, end: End, more: string, before: Addressing,
    width: Option<nat>, prec: Option<nat>)
    requires Spellable(items, end) && Reachable(before)
    requires if width.Some? then Wide(width.value) in items else forall x :: x in items ==> !x.Wide?
    requires if prec.Some? then Precise(prec.value) in items else forall x :: x in items ==> !x.Precise?
    ensures var c := Conversion(domain, Spell(items, end) + more, before, FRESH);
            && (c.Ok? <==> Allowed(items, before) && MayEnd(items, end, before))
            && (c.Ok? ==> c.value == Converted(
                  PutsIn(domain, end, ByDomain in items, Flagged('-') in items, width, prec), more,
                  AddressingAfter(items, end, before)))
  {
    ItemsRead(domain, items, end, more, Reading(before, FRESH));
    AllowedAreRead(items, before);
    if Allowed(items, before) {
      var r := ReadItems(items, Reading(before, FRESH)).value;
      assert r.spec.width == width && r.spec.prec == prec;
      match end
      case Percent => PercentEnds(domain, more, items, before, r);
      case Brace => BraceEnds(domain, more, items, before, r);
      case Takes(letter) => TakesEnds(domain, letter, more, items, before, r);
    }
  }

  /** Bare, or by number, `%s` and `%p` put in the whole hash, inspected. */
  lemma BareFormatsTheHash(domain: string, letter: char, numbered: bool)
    requires letter in "sp"
    ensures Format(domain, (if numbered then "%1$" else "%") + [letter], Unaddressed)
         == Ok(Formatted("{domain: \"" + Escaped(domain) + "\"}", if numbered then Numbered else Unnumbered(1)))
  {
    var s := (if numbered then "%1$" else "%") + [letter];
    BareConverts(domain, letter, numbered);
    assert s[1..] == (if numbered then "1$" else "") + [letter];
    OnlyConversion(domain, s, Converted(InspectedHash(domain), "", if numbered then Numbered else Unnumbered(1)));
  }

  lemma BareConverts(domain: string, letter: char, numbered: bool)
    requires letter in "sp"
    ensures Conversion(domain, (if numbered then "1$" else "") + [letter], Unaddressed, FRESH)
         == Ok(Converted(InspectedHash(domain), "", if numbered then Numbered else Unnumbered(1)))
  {
    var items := if numbered then [First] else [];
    SpellHash(letter);
    AcceptedExactlyWhenAllowed(domain, items, Takes(letter), "", Unaddressed, None, None);
    assert Spell(items, Takes(letter)) + "" == (if numbered then "1$" else "") + [letter];
  }

  lemma OnlyConversion(domain: string, s: string, c: Converted)
    requires |s| > 1 && s[0] == '%' && c.rest == ""
    requires Conversion(domain, s[1..], Unaddressed, FRESH) == Ok(c)
    ensures Format(domain, s, Unaddressed) == Ok(Formatted(c.out, c.addressing))
  {
    assert c.out + "" == c.out;
  }

  lemma SpellHash(letter: char)
    ensures Spell([First], Takes(letter)) == "1$" + [letter] && Spell([], Takes(letter)) == [letter]
  {
    assert [First][1..] == [];
  }

  /** Only quotes and backslashes are escaped, each by a backslash before it. */
  lemma {:induction false} EscapesJustTheseTwo(a: string, c: char, b: string)
    ensures Escaped(a + [c] + b)
         == Escaped(a) + (if c == '"' || c == '\\' then ['\\', c] else [c]) + Escaped(b)
    decreases |a|
  {
    var s := a + [c] + b;
    if a == "" {
      assert s[0] == c && s[1..] == b;
    } else {
      assert s[0] == a[0] && s[1..] == a[1..] + [c] + b;
      EscapesJustTheseTwo(a[1..], c, b);
    }
  }

  // ── Numbers too large, and characters that begin nothing ────────────────

  /** A number past 2,147,483,647 is refused, however it goes on. */
  lemma {:induction false} NumberTooLarge(n: nat, rest: string)
    requires 2_147_483_647 < n
    ensures Number(Decimal(n) + rest, 0) == Err(WidthTooBig)
    decreases n
  {
    var digit := ['0' + (n % 10) as char];
    assert DigitOf(digit[0]) == n % 10 && IsDigit(digit[0]);
    assert (digit + rest)[1..] == rest;
    assert Decimal(n) + rest == Decimal(n / 10) + (digit + rest);
    if n / 10 <= INT_MAX {
      NumberReadsDecimal(n / 10, digit + rest);
    } else {
      NumberTooLarge(n / 10, digit + rest);
    }
  }

  /** An argument by any number but one, there being but one, is refused. */
  lemma OtherNumbersAreRefused(domain: string, n: nat, more: string, r: Reading)
    requires 0 < n <= INT_MAX && n != 1
    ensures Conversion(domain, Decimal(n) + ("$" + more), r.addressing, r.spec).Err?
  {
    NumberReadsDecimal(n, "$" + more);
    DecimalIsNoFlag(n);
    assert (Decimal(n) + ("$" + more))[0] == Decimal(n)[0];
  }

  /** So is any name but the domain's, and one that does not end. */
  lemma OtherNamesAreRefused(domain: string, name: string, braced: bool, more: string, r: Reading)
    requires (if braced then '}' else '>') !in name
    ensures var s := [if braced then '{' else '<'] + name;
            && (name != "domain" ==>
                  Conversion(domain, s + [if braced then '}' else '>'] + more, r.addressing, r.spec).Err?)
            && Conversion(domain, s, r.addressing, r.spec).Err?
  {
    var term := if braced then '}' else '>';
    var begun := [if braced then '{' else '<'] + name;
    var s := begun + [term] + more;
    Closes(begun, term, more);
    assert s[..|begun| + 1] == begun + [term];
    assert (begun + [term])[1..|begun|] == name;
    assert term !in begun;
  }

  /** A `*` for a precision, a conversion with no end, and a `%` alone. */
  lemma UnfinishedAreRefused(domain: string, more: string, r: Reading, before: Addressing)
    ensures Conversion(domain, ".*" + more, r.addressing, r.spec).Err?
    ensures Conversion(domain, "", r.addressing, r.spec).Err?
    ensures Format(domain, "%", before) == Err(IncompleteSpecifier)
  {
    assert (".*" + more)[1] == '*';
  }

  /** A `*`, and anything that is no flag, digit, name, precision, percent or
      letter of a conversion, is refused. */
  lemma NothingElseIsRead(domain: string, c: char, more: string, r: Reading)
    requires c !in " #+-0123456789<{.%cspdioxXbBufgGeEaA"
    ensures Conversion(domain, [c] + more, r.addressing, r.spec).Err?
  {
  }
}
