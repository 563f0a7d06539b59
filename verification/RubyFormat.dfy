/** Ruby's `format(text, domain:)`, as the policy documents are interpolated:
    first as a grammar read from the left, then as the loop over a cursor that
    the source runs, proved to compute it. */
module RubyFormat {
  import opened Basics

  datatype Result<+T> = Ok(value: T) | Err(error: Error)

  /** What Ruby raises, with what its message carries. */
  datatype Error =
    | IncompleteSpecifier
    | MalformedString
    | MalformedCharacter(c: char)
    | MalformedNumber
    | WidthTooBig
    | FlagAfterWidth
    | FlagAfterPrecision
    | WidthGivenTwice
    | WidthAfterPrecision
    | PrecisionGivenTwice
    | ValueGivenTwice(n: nat)
    | NumberedAfterUnnumbered(n: nat, taken: nat)
    | NumberedAfterNamed(n: nat)
    | UnnumberedAfterNumbered
    | UnnumberedAfterNamed
    | NamedAfterName(name: string)
    | NamedAfterUnnumbered(name: string, taken: nat)
    | NamedAfterNumbered(name: string)
    | UnmatchedParenthesis
    | KeyNotFound(name: string)
    | TooFewArguments
    | InvalidPercent
    | HashIntoInteger
    | HashIntoNumber(float: bool)
    | DomainIntoNumber(float: bool)

  /** How the arguments have been addressed so far. */
  datatype Addressing = Unaddressed | Unnumbered(taken: nat) | Numbered | Named

  datatype Arg = Hash | Domain

  /** What the flags of a conversion have said so far. */
  datatype Spec = Spec(
    flagged: bool, minus: bool, width: Option<nat>, prec: Option<nat>, value: Option<Arg>, named: bool)

  const FRESH := Spec(false, false, None, None, None, false)

  // ── Values ──────────────────────────────────────────────────────────────

  function Spaces(n: nat): (s: string)
    ensures |s| == n && forall c :: c in s ==> c == ' '
  {
    seq(n, _ => ' ')
  }

  /** `pad`: exactly the width or the text's length, whichever is greater; the
      text at one end and spaces at the other. */
  function Pad(text: string, minus: bool, width: Option<nat>): (s: string)
    ensures |s| == if width.Some? && |text| < width.value then width.value else |text|
    ensures minus ==> s == text + Spaces(|s| - |text|)
    ensures !minus ==> s == Spaces(|s| - |text|) + text
  {
    if width.Some? && |text| < width.value then
      var fill := Spaces(width.value - |text|);
      if minus then text + fill else fill + text
    else
      text
  }

  function Escaped(s: string): string {
    if s == "" then ""
    else (if s[0] == '"' || s[0] == '\\' then ['\\', s[0]] else [s[0]]) + Escaped(s[1..])
  }

  /** `ruby_inspect`. */
  function Inspect(s: string): string {
    "\"" + Escaped(s) + "\""
  }

  function HashInspect(domain: string): string {
    "{domain: " + Inspect(domain) + "}"
  }

  function Value(domain: string, arg: Arg, inspect: bool): string {
    if arg.Hash? then HashInspect(domain) else if inspect then Inspect(domain) else domain
  }

  function Least(a: nat, b: nat): nat {
    if a < b then a else b
  }

  /** `string`: `%s` and `%p`, the value cut to the precision and then padded to
      the width. */
  function Text(domain: string, arg: Arg, inspect: bool, spec: Spec): string {
    var value := Value(domain, arg, inspect);
    var text := if spec.prec.Some? then value[..Least(spec.prec.value, |value|)] else value;
    Pad(text, spec.minus, spec.width)
  }

  // ── The grammar ─────────────────────────────────────────────────────────

  const INT_MAX: nat := 0x7FFF_FFFF

  predicate IsDigit(c: char) {
    '0' <= c <= '9'
  }

  function DigitOf(c: char): nat
    requires IsDigit(c)
  {
    c as nat - '0' as nat
  }

  datatype Read<+T> = Read(value: T, rest: string)

  /** `number`: digits, which something must still follow. */
  function Number(s: string, n: nat): (r: Result<Read<nat>>)
    ensures r.Ok? ==> 0 < |r.value.rest| <= |s| && (s != "" && IsDigit(s[0]) ==> |r.value.rest| < |s|)
    decreases |s|
  {
    if s == "" then Err(MalformedNumber)
    else if !IsDigit(s[0]) then Ok(Read(n, s))
    else
      var n' := n * 10 + DigitOf(s[0]);
      if INT_MAX < n' then Err(WidthTooBig) else Number(s[1..], n')
  }

  /** `position`. */
  function Find(s: string, c: char): (i: Option<nat>)
    ensures i.Some? ==> i.value < |s| && s[i.value] == c && c !in s[..i.value]
    ensures i.None? ==> c !in s
  {
    if s == "" then None
    else if s[0] == c then Some(0)
    else
      match Find(s[1..], c)
      case None => None
      case Some(i) =>
        assert s[..i + 1] == [s[0]] + s[1..][..i];
        Some(i + 1)
  }

  datatype Taken = Taken(arg: Arg, addressing: Addressing)

  /** `next_arg`. */
  function NextArg(addressing: Addressing): Result<Taken> {
    match addressing
    case Numbered => Err(UnnumberedAfterNumbered)
    case Named => Err(UnnumberedAfterNamed)
    case Unaddressed => Ok(Taken(Hash, Unnumbered(1)))
    case Unnumbered(k) => if k >= 1 then Err(TooFewArguments) else Ok(Taken(Hash, Unnumbered(k + 1)))
  }

  function ArgOf(spec: Spec, addressing: Addressing): Result<Taken> {
    if spec.value.Some? then Ok(Taken(spec.value.value, addressing)) else NextArg(addressing)
  }

  predicate IsFlag(c: char) {
    c in " #+-0"
  }

  predicate IsFloat(c: char) {
    c in "fgGeEaA"
  }

  predicate IsNumeric(c: char) {
    c in "dioxXbBu" || IsFloat(c)
  }

  predicate IsGraphic(c: char) {
    '!' <= c <= '~'
  }

  /** What one conversion turned into, what follows it, and how it left the
      arguments addressed. */
  datatype Converted = Converted(out: string, rest: string, addressing: Addressing)

  /** Where one part of a conversion leaves it: with more to read, done, or
      refused. */
  datatype Step =
    | More(rest: string, addressing: Addressing, spec: Spec)
    | Done(converted: Converted)
    | Refused(error: Error)

  function Flag(s: string, addressing: Addressing, spec: Spec): Step
    requires s != ""
  {
    if spec.width.Some? then Refused(FlagAfterWidth)
    else if spec.prec.Some? then Refused(FlagAfterPrecision)
    else More(s[1..], addressing, spec.(flagged := true, minus := spec.minus || s[0] == '-'))
  }

  /** A width, or with a `$` the number of an argument. */
  function Digits(s: string, addressing: Addressing, spec: Spec): (step: Step)
    requires s != "" && IsDigit(s[0])
    ensures step.More? ==> |step.rest| < |s|
  {
    match Number(s, 0)
    case Err(e) => Refused(e)
    case Ok(Read(n, rest)) =>
      if rest[0] == '$' then
        if spec.value.Some? then Refused(ValueGivenTwice(n))
        else if addressing.Unnumbered? then Refused(NumberedAfterUnnumbered(n, addressing.taken))
        else if addressing.Named? then Refused(NumberedAfterNamed(n))
        else if n != 1 then Refused(TooFewArguments)
        else More(rest[1..], Numbered, spec.(value := Some(Hash)))
      else if spec.width.Some? then Refused(WidthGivenTwice)
      else if spec.prec.Some? then Refused(WidthAfterPrecision)
      else More(rest, addressing, spec.(flagged := true, width := Some(n)))
  }

  /** `<domain>`, or `{domain}`, which ends the conversion. */
  function Name(domain: string, s: string, addressing: Addressing, spec: Spec): (step: Step)
    requires s != "" && (s[0] == '<' || s[0] == '{')
    ensures step.More? ==> |step.rest| < |s|
    ensures step.Done? ==> |step.converted.rest| < |s|
  {
    match Find(s, if s[0] == '<' then '>' else '}')
    case None => Refused(UnmatchedParenthesis)
    case Some(close) => Called(domain, s[..close + 1], s[close + 1..], addressing, spec)
  }

  /** A name read with its brackets, and what follows it. */
  function Called(domain: string, name: string, rest: string, addressing: Addressing, spec: Spec): (step: Step)
    requires |name| > 1
    ensures step.More? ==> step.rest == rest
    ensures step.Done? ==> step.converted.rest == rest
  {
    if spec.named then Refused(NamedAfterName(name))
    else if addressing.Unnumbered? then Refused(NamedAfterUnnumbered(name, addressing.taken))
    else if addressing.Numbered? then Refused(NamedAfterNumbered(name))
    else if name[1..|name| - 1] != "domain" then Refused(KeyNotFound(name))
    else if name[0] == '{' then Done(Converted(Text(domain, Domain, false, spec), rest, Named))
    else More(rest, Named, spec.(named := true, value := Some(Domain)))
  }

  function Precision(s: string, addressing: Addressing, spec: Spec): (step: Step)
    requires s != ""
    ensures step.More? ==> |step.rest| < |s|
  {
    if spec.prec.Some? then Refused(PrecisionGivenTwice)
    else if |s| > 1 && s[1] == '*' then Refused(HashIntoInteger)
    else
      match Number(s[1..], 0)
      case Err(e) => Refused(e)
      case Ok(Read(n, rest)) => More(rest, addressing, spec.(flagged := true, prec := Some(n)))
  }

  predicate TakesArgument(c: char) {
    c == 'c' || c == 's' || c == 'p' || IsNumeric(c)
  }

  /** The letter that takes the argument. */
  function Letter(domain: string, s: string, addressing: Addressing, spec: Spec): Step
    requires s != "" && TakesArgument(s[0])
  {
    match ArgOf(spec, addressing)
    case Err(e) => Refused(e)
    case Ok(Taken(arg, addressing')) =>
      if s[0] == 's' || s[0] == 'p' then
        Done(Converted(Text(domain, arg, s[0] == 'p', spec), s[1..], addressing'))
      else if s[0] == 'c' then
        if arg.Hash? then Refused(HashIntoInteger)
        else
          var first := if domain == "" then "" else domain[..1];
          Done(Converted(Pad(first, spec.minus, spec.width), s[1..], addressing'))
      else
        Refused(if arg.Hash? then HashIntoNumber(IsFloat(s[0])) else DomainIntoNumber(IsFloat(s[0])))
  }

  /** One turn of the loop over a conversion. */
  function Turn(domain: string, s: string, addressing: Addressing, spec: Spec): (step: Step)
    requires s != ""
    ensures step.More? ==> |step.rest| < |s|
    ensures step.Done? ==> |step.converted.rest| < |s|
  {
    var c := s[0];
    if IsFlag(c) then Flag(s, addressing, spec)
    else if IsDigit(c) then Digits(s, addressing, spec)
    else if c == '<' || c == '{' then Name(domain, s, addressing, spec)
    else if c == '*' then Refused(HashIntoInteger)
    else if c == '.' then Precision(s, addressing, spec)
    else if c == '%' then
      if spec.flagged then Refused(InvalidPercent) else Done(Converted("%", s[1..], addressing))
    else if TakesArgument(c) then Letter(domain, s, addressing, spec)
    else if IsGraphic(c) then Refused(MalformedCharacter(c))
    else Refused(MalformedString)
  }

  /** A conversion, from after its `%`. */
  function Conversion(domain: string, s: string, addressing: Addressing, spec: Spec): (r: Result<Converted>)
    ensures r.Ok? ==> |r.value.rest| < |s|
    decreases |s|
  {
    if s == "" then Err(MalformedString)
    else
      match Turn(domain, s, addressing, spec)
      case Refused(e) => Err(e)
      case Done(converted) => Ok(converted)
      case More(rest, addressing', spec') => Conversion(domain, rest, addressing', spec')
  }

  datatype Formatted = Formatted(out: string, addressing: Addressing)

  function Prepend(out: string, r: Result<Formatted>): Result<Formatted> {
    match r
    case Ok(f) => Ok(f.(out := out + f.out))
    case Err(e) => Err(e)
  }

  /** A template, from wherever the arguments have got to. */
  function Format(domain: string, s: string, addressing: Addressing): Result<Formatted>
    decreases |s|
  {
    if s == "" then Ok(Formatted("", addressing))
    else if s[0] != '%' then Prepend([s[0]], Format(domain, s[1..], addressing))
    else if |s| == 1 then Err(IncompleteSpecifier)
    else
      match Conversion(domain, s[1..], addressing, FRESH)
      case Err(e) => Err(e)
      case Ok(c) => Prepend(c.out, Format(domain, c.rest, c.addressing))
  }

  // ── The loop ────────────────────────────────────────────────────────────

  method RubyInspect(s: string) returns (out: string)
    ensures out == Inspect(s)
  {
    out := "\"";
    for i := 0 to |s|
      invariant out + Escaped(s[i..]) == "\"" + Escaped(s)
    {
      assert s[i..][0] == s[i] && s[i..][1..] == s[i + 1..];
      ghost var before := out;
      if s[i] == '"' || s[i] == '\\' {
        out := out + ['\\'];
      }
      out := out + [s[i]];
      assert out + Escaped(s[i + 1..]) == before + Escaped(s[i..]);
    }
    assert s[|s|..] == "";
    out := out + "\"";
  }

  /** `number`, from a cursor to the one after the digits. */
  method NumberAt(chars: string, start: nat) returns (r: Result<(nat, nat)>)
    requires start <= |chars|
    ensures match Number(chars[start..], 0)
            case Err(e) => r == Err(e)
            case Ok(read) =>
              && r.Ok? && r.value.0 == read.value
              && start <= r.value.1 < |chars| && chars[r.value.1..] == read.rest
  {
    var n: nat, p := 0, start;
    while p < |chars| && IsDigit(chars[p])
      invariant start <= p <= |chars|
      invariant Number(chars[p..], n) == Number(chars[start..], 0)
    {
      assert chars[p..][1..] == chars[p + 1..];
      n := n * 10 + DigitOf(chars[p]);
      if n > INT_MAX {
        return Err(WidthTooBig);
      }
      p := p + 1;
    }
    if p >= |chars| {
      return Err(MalformedNumber);
    }
    return Ok((n, p));
  }

  /** Where a turn of the loop leaves the cursor, as a `Step`. */
  datatype Turned =
    | On(p: nat, addressing: Addressing, spec: Spec)
    | Out(text: string, next: nat, addressing: Addressing)
    | Raise(error: Error)

  ghost predicate Agrees(chars: string, turned: Turned, step: Step) {
    match turned
    case On(p, addressing, spec) => p <= |chars| && step == More(chars[p..], addressing, spec)
    case Out(text, next, addressing) =>
      next <= |chars| && step == Done(Converted(text, chars[next..], addressing))
    case Raise(e) => step == Refused(e)
  }

  method DigitsAt(chars: string, p: nat, addressing: Addressing, spec: Spec) returns (t: Turned)
    requires p < |chars| && IsDigit(chars[p])
    ensures Agrees(chars, t, Digits(chars[p..], addressing, spec))
  {
    var number := NumberAt(chars, p);
    if number.Err? { return Raise(number.error); }
    var (n, next) := number.value;
    if chars[next] == '$' {
      if spec.value.Some? { return Raise(ValueGivenTwice(n)); }
      match addressing {
        case Unnumbered(k) => return Raise(NumberedAfterUnnumbered(n, k));
        case Named => return Raise(NumberedAfterNamed(n));
        case _ =>
      }
      if n != 1 { return Raise(TooFewArguments); }
      return On(next + 1, Numbered, spec.(value := Some(Hash)));
    }
    if spec.width.Some? { return Raise(WidthGivenTwice); }
    if spec.prec.Some? { return Raise(WidthAfterPrecision); }
    return On(next, addressing, spec.(flagged := true, width := Some(n)));
  }

  method NameAt(chars: string, domain: string, p: nat, addressing: Addressing, spec: Spec) returns (t: Turned)
    requires p < |chars| && (chars[p] == '<' || chars[p] == '{')
    ensures Agrees(chars, t, Name(domain, chars[p..], addressing, spec))
  {
    var found := Find(chars[p..], if chars[p] == '<' then '>' else '}');
    if found.None? { return Raise(UnmatchedParenthesis); }
    var close := p + found.value;
    var name := chars[p..close + 1];
    CutTwice(chars, p, found.value + 1);
    if spec.named { return Raise(NamedAfterName(name)); }
    match addressing {
      case Unnumbered(k) => return Raise(NamedAfterUnnumbered(name, k));
      case Numbered => return Raise(NamedAfterNumbered(name));
      case _ =>
    }
    if name[1..|name| - 1] != "domain" { return Raise(KeyNotFound(name)); }
    if chars[p] == '{' {
      return Out(Text(domain, Domain, false, spec), close + 1, Named);
    }
    return On(close + 1, Named, spec.(named := true, value := Some(Domain)));
  }

  method PrecisionAt(chars: string, p: nat, addressing: Addressing, spec: Spec) returns (t: Turned)
    requires p < |chars|
    ensures Agrees(chars, t, Precision(chars[p..], addressing, spec))
  {
    if spec.prec.Some? { return Raise(PrecisionGivenTwice); }
    if p + 1 < |chars| && chars[p + 1] == '*' { return Raise(HashIntoInteger); }
    assert chars[p..][1..] == chars[p + 1..];
    var number := NumberAt(chars, p + 1);
    if number.Err? { return Raise(number.error); }
    return On(number.value.1, addressing, spec.(flagged := true, prec := Some(number.value.0)));
  }

  method LetterAt(chars: string, domain: string, p: nat, addressing: Addressing, spec: Spec) returns (t: Turned)
    requires p < |chars| && TakesArgument(chars[p])
    ensures Agrees(chars, t, Letter(domain, chars[p..], addressing, spec))
  {
    var c := chars[p];
    assert chars[p..][1..] == chars[p + 1..];
    var taken := ArgOf(spec, addressing);
    if taken.Err? { return Raise(taken.error); }
    var Taken(arg, addressed) := taken.value;
    if c == 'c' {
      if arg.Hash? { return Raise(HashIntoInteger); }
      var first := if domain == "" then "" else domain[..1];
      return Out(Pad(first, spec.minus, spec.width), p + 1, addressed);
    } else if c == 's' || c == 'p' {
      return Out(Text(domain, arg, c == 'p', spec), p + 1, addressed);
    }
    return Raise(if arg.Hash? then HashIntoNumber(IsFloat(c)) else DomainIntoNumber(IsFloat(c)));
  }

  /** One conversion, from a cursor after its `%` to the one after it. */
  method Convert(chars: string, domain: string, start: nat, addressed: Addressing)
    returns (r: Result<(string, nat, Addressing)>)
    requires start <= |chars|
    ensures match Conversion(domain, chars[start..], addressed, FRESH)
            case Err(e) => r == Err(e)
            case Ok(c) =>
              && r.Ok? && r.value.0 == c.out && r.value.2 == c.addressing
              && start < r.value.1 <= |chars| && chars[r.value.1..] == c.rest
  {
    var p, addressing, spec := start, addressed, FRESH;
    while p < |chars|
      invariant start <= p <= |chars|
      invariant Conversion(domain, chars[p..], addressing, spec)
             == Conversion(domain, chars[start..], addressed, FRESH)
      decreases |chars| - p
    {
      var c, turned := chars[p], Raise(MalformedString);
      assert chars[p..][0] == c && chars[p..][1..] == chars[p + 1..];
      if IsFlag(c) {
        if spec.width.Some? {
          turned := Raise(FlagAfterWidth);
        } else if spec.prec.Some? {
          turned := Raise(FlagAfterPrecision);
        } else {
          turned := On(p + 1, addressing, spec.(flagged := true, minus := spec.minus || c == '-'));
        }
      } else if IsDigit(c) {
        turned := DigitsAt(chars, p, addressing, spec);
      } else if c == '<' || c == '{' {
        turned := NameAt(chars, domain, p, addressing, spec);
      } else if c == '*' {
        turned := Raise(HashIntoInteger);
      } else if c == '.' {
        turned := PrecisionAt(chars, p, addressing, spec);
      } else if c == '%' {
        turned := if spec.flagged then Raise(InvalidPercent) else Out("%", p + 1, addressing);
      } else if TakesArgument(c) {
        turned := LetterAt(chars, domain, p, addressing, spec);
      } else if IsGraphic(c) {
        turned := Raise(MalformedCharacter(c));
      }
      assert Agrees(chars, turned, Turn(domain, chars[p..], addressing, spec));
      match turned {
        case On(next, addressing', spec') => p, addressing, spec := next, addressing', spec';
        case Out(text, next, addressing') => return Ok((text, next, addressing'));
        case Raise(e) => return Err(e);
      }
    }
    return Err(MalformedString);
  }

  /** `interpolate_domain`. */
  method InterpolateDomain(chars: string, domain: string) returns (r: Result<string>)
    ensures match Format(domain, chars, Unaddressed)
            case Err(e) => r == Err(e)
            case Ok(f) => r == Ok(f.out)
  {
    var out, addressing, p := "", Unaddressed, 0;
    assert chars[0..] == chars;
    PrependNothing(Format(domain, chars, Unaddressed));
    while p < |chars|
      invariant p <= |chars|
      invariant Prepend(out, Format(domain, chars[p..], addressing)) == Format(domain, chars, Unaddressed)
      decreases |chars| - p
    {
      ghost var rest := chars[p..];
      if chars[p] != '%' {
        assert rest[1..] == chars[p + 1..];
        PrependTwice(out, [chars[p]], Format(domain, chars[p + 1..], addressing));
        out := out + [chars[p]];
        p := p + 1;
      } else {
        p := p + 1;
        assert rest[1..] == chars[p..];
        if p >= |chars| {
          return Err(IncompleteSpecifier);
        }
        var converted := Convert(chars, domain, p, addressing);
        if converted.Err? {
          return Err(converted.error);
        }
        var (text, next, addressed) := converted.value;
        PrependTwice(out, text, Format(domain, chars[next..], addressed));
        out, p, addressing := out + text, next, addressed;
      }
    }
    assert chars[p..] == "" && out + "" == out;
    return Ok(out);
  }

  lemma CutTwice(s: string, p: nat, k: nat)
    requires p + k <= |s|
    ensures s[p..][..k] == s[p..p + k] && s[p..][k..] == s[p + k..]
  {
  }

  lemma PrependNothing(r: Result<Formatted>)
    ensures Prepend("", r) == r
  {
    if r.Ok? {
      assert "" + r.value.out == r.value.out;
    }
  }

  lemma PrependTwice(a: string, b: string, r: Result<Formatted>)
    ensures Prepend(a, Prepend(b, r)) == Prepend(a + b, r)
  {
    if r.Ok? {
      assert a + (b + r.value.out) == a + b + r.value.out;
    }
  }
}
