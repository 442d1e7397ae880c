/** The grammar of RFC 8259 (sections 2 to 7, without unpaired surrogate escapes, which section 7 derives but which
    name no character) as derivations, independent of any parser: the parser of module Json accepts exactly the
    texts that have a derivation, with exactly its meaning. */
module JsonGrammar {
  import opened Decimal
  import opened Json
  import opened Models

  // ---------------------------------------------------------------- derivations

  // char: unescaped, a one-letter escape, one \u unit, or a surrogate pair of units.
  datatype CharForm = Plain(c: char) | Short(letter: char) | Hex(digits: string) | Pair(high: string, low: string)

  datatype Exponent = Exponent(mark: char, sign: string, digits: string)

  datatype Number = Number(minus: bool, whole: string, fraction: Option<string>, exponent: Option<Exponent>)

  // A derivation of a value. `inner` is the white space of an empty array or object.
  datatype Syntax =
    | Null
    | True
    | False
    | Num(number: Number)
    | Str(chars: seq<CharForm>)
    | Arr(elements: seq<Element>, inner: string)
    | Obj(fields: seq<Field>, inner: string)

  datatype Element = Element(before: string, value: Syntax, after: string)

  datatype Field = Field(before: string, name: seq<CharForm>, between: string, element: Element)

  // ---------------------------------------------------------------- which derivations the grammar allows

  predicate IsWs(s: string) { forall k :: 0 <= k < |s| ==> IsSpace(s[k]) }

  predicate CharOk(f: CharForm) {
    match f
    case Plain(c) => c as int >= 0x20 && c != '"' && c != '\\'
    case Short(letter) => letter in "\"\\/bfnrt"
    case Hex(digits) => |digits| == 4 && Unit(digits) >= 0 && !IsHigh(Unit(digits)) && !IsLow(Unit(digits))
    case Pair(high, low) => |high| == 4 && |low| == 4 && IsHigh(Unit(high)) && IsLow(Unit(low))
  }

  predicate Digits(s: string) { s != "" && AllDigits(s) }

  predicate NumberOk(n: Number) {
    && (n.whole == "0" || (Digits(n.whole) && n.whole[0] != '0'))
    && (n.fraction.Some? ==> Digits(n.fraction.value))
    && (n.exponent.Some? ==> ExponentOk(n.exponent.value))
  }

  predicate ExponentOk(e: Exponent) {
    (e.mark == 'e' || e.mark == 'E') && (e.sign == "" || e.sign == "+" || e.sign == "-") && Digits(e.digits)
  }

  predicate CharsOk(fs: seq<CharForm>) { forall k :: 0 <= k < |fs| ==> CharOk(fs[k]) }

  predicate Ok(v: Syntax) {
    match v
    case Null => true
    case True => true
    case False => true
    case Num(n) => NumberOk(n)
    case Str(fs) => CharsOk(fs)
    case Arr(es, inner) => IsWs(inner) && forall k :: 0 <= k < |es| ==> ElementOk(es[k])
    case Obj(fs, inner) => IsWs(inner) && forall k :: 0 <= k < |fs| ==> FieldOk(fs[k])
  }

  predicate ElementOk(e: Element) { IsWs(e.before) && IsWs(e.after) && Ok(e.value) }

  predicate FieldOk(f: Field) { IsWs(f.before) && IsWs(f.between) && CharsOk(f.name) && ElementOk(f.element) }

  /** Which characters and numbers the derivations allow, by the ranges and alternatives of sections 6 and 7. */
  lemma TerminalsAre(c: char, digits: string, n: Number)
    ensures CharOk(Plain(c)) <==> 0x20 <= c as int <= 0x21 || 0x23 <= c as int <= 0x5B || 0x5D <= c as int
    ensures CharOk(Short(c)) <==> c in ['"', '\\', '/', 'b', 'f', 'n', 'r', 't']
    ensures CharOk(Hex(digits)) <==> |digits| == 4 && (0 <= Unit(digits) < 0xD800 || 0xE000 <= Unit(digits))
    ensures NumberOk(n) <==>
      && n.whole != "" && (forall d :: d in n.whole ==> '0' <= d <= '9') && (|n.whole| > 1 ==> n.whole[0] != '0')
      && (n.fraction.Some? ==> n.fraction.value != "" && forall d :: d in n.fraction.value ==> '0' <= d <= '9')
      && (n.exponent.Some? ==>
            var e := n.exponent.value;
            && e.mark in "eE" && e.sign in ["", "+", "-"] && e.digits != ""
            && forall d :: d in e.digits ==> '0' <= d <= '9')
  {
    DigitsOf(n.whole);
    if n.fraction.Some? { DigitsOf(n.fraction.value); }
    if n.exponent.Some? { DigitsOf(n.exponent.value.digits); }
  }

  lemma DigitsOf(s: string)
    ensures AllDigits(s) <==> forall d :: d in s ==> '0' <= d <= '9'
  {
    if forall d :: d in s ==> '0' <= d <= '9' {
      assert forall k :: 0 <= k < |s| ==> s[k] in s;
    }
  }

  // ---------------------------------------------------------------- their text

  function CharText(f: CharForm): string {
    match f
    case Plain(c) => [c]
    case Short(letter) => ['\\', letter]
    case Hex(digits) => "\\u" + digits
    case Pair(high, low) => "\\u" + (high + ("\\u" + low))
  }

  // The body of a string with its closing quote, then what follows.
  function CharsText(fs: seq<CharForm>, t: string): string {
    if fs == [] then "\"" + t else CharText(fs[0]) + CharsText(fs[1..], t)
  }

  function ExponentText(e: Option<Exponent>): string {
    if e.None? then "" else [e.value.mark] + (e.value.sign + e.value.digits)
  }

  function AfterWhole(n: Number): string {
    (if n.fraction.Some? then "." + n.fraction.value else "") + ExponentText(n.exponent)
  }

  function NumberText(n: Number): string {
    (if n.minus then "-" else "") + (n.whole + AfterWhole(n))
  }

  // The text of a value, then what follows.
  function Text(v: Syntax, t: string): string
    decreases v, 0
  {
    match v
    case Null => "null" + t
    case True => "true" + t
    case False => "false" + t
    case Num(n) => NumberText(n) + t
    case Str(fs) => "\"" + CharsText(fs, t)
    case Arr(es, inner) => "[" + if es == [] then inner + ("]" + t) else ElementsText(es, t)
    case Obj(fs, inner) => "{" + if fs == [] then inner + ("}" + t) else FieldsText(fs, t)
  }

  function ElementText(e: Element, t: string): string
    decreases e, 0
  {
    e.before + Text(e.value, e.after + t)
  }

  function ElementsText(es: seq<Element>, t: string): string
    requires es != []
    decreases es, 1
  {
    ElementText(es[0], if |es| == 1 then "]" + t else "," + ElementsText(es[1..], t))
  }

  function FieldText(f: Field, t: string): string
    decreases f, 1
  {
    f.before + ("\"" + CharsText(f.name, f.between + (":" + ElementText(f.element, t))))
  }

  function FieldsText(fs: seq<Field>, t: string): string
    requires fs != []
    decreases fs, 2
  {
    FieldText(fs[0], if |fs| == 1 then "}" + t else "," + FieldsText(fs[1..], t))
  }

  // ---------------------------------------------------------------- their meaning

  function CharOf(f: CharForm): char
    requires CharOk(f)
  {
    match f
    case Plain(c) => c
    case Short(letter) => Named(letter)
    case Hex(digits) => Unit(digits) as char
    case Pair(high, low) => Joined(Unit(high), Unit(low))
  }

  function CharsOf(fs: seq<CharForm>): string
    requires CharsOk(fs)
  {
    if fs == [] then "" else [CharOf(fs[0])] + CharsOf(fs[1..])
  }

  function Meaning(v: Syntax): Value
    requires Ok(v)
    decreases v, 0
  {
    match v
    case Null => JNull
    case True => JBool(true)
    case False => JBool(false)
    case Num(n) => JNumber(NumberText(n))
    case Str(fs) => JString(CharsOf(fs))
    case Arr(es, _) => JArray(ElementsOf(es))
    case Obj(fs, _) => JObject(FieldsOf(fs))
  }

  function ElementsOf(es: seq<Element>): seq<Value>
    requires forall k :: 0 <= k < |es| ==> ElementOk(es[k])
    decreases es, 1
  {
    if es == [] then []
    else
      assert ElementOk(es[0]);
      [Meaning(es[0].value)] + ElementsOf(es[1..])
  }

  function FieldOf(f: Field): Member
    requires FieldOk(f)
    decreases f, 1
  {
    assert ElementOk(f.element);
    Member(CharsOf(f.name), Meaning(f.element.value))
  }

  function FieldsOf(fs: seq<Field>): seq<Member>
    requires forall k :: 0 <= k < |fs| ==> FieldOk(fs[k])
    decreases fs, 2
  {
    if fs == [] then []
    else
      assert FieldOk(fs[0]);
      [FieldOf(fs[0])] + FieldsOf(fs[1..])
  }

  // ---------------------------------------------------------------- every derivation parses to its meaning

  lemma {:induction false} SkipWs(ws: string, s: string)
    requires IsWs(ws)
    ensures SkipSpace(ws + s) == SkipSpace(s)
  {
    if ws == "" {
      assert ws + s == s;
    } else {
      Drop(ws, s, 1);
      SkipWs(ws[1..], s);
    }
  }

  lemma SkipTo(ws: string, s: string)
    requires IsWs(ws) && s != "" && !IsSpace(s[0])
    ensures SkipSpace(ws + s) == s
  {
    SkipWs(ws, s);
  }

  lemma NextAfter(ws: string, c: char, t: string)
    requires IsWs(ws) && !IsSpace(c)
    ensures Next(ws + ([c] + t)) == Got(c, t)
  {
    SkipTo(ws, [c] + t);
    assert ([c] + t)[1..] == t;
  }

  lemma UnitThen(digits: string, t: string)
    requires |digits| == 4
    ensures Unit(digits + t) == Unit(digits) && (digits + t)[4..] == t
  {
    Drop(digits, t, 4);
    assert digits[4..] + t == t;
  }

  lemma PairParses(high: string, low: string, t: string)
    requires |high| == 4 && |low| == 4 && IsHigh(Unit(high)) && IsLow(Unit(low))
    ensures ParseUnits(high + ("\\u" + (low + t))) == Got(Joined(Unit(high), Unit(low)), t)
  {
    var s := high + ("\\u" + (low + t));
    UnitThen(high, "\\u" + (low + t));
    assert s[4] == s[4..][0] && s[5] == s[4..][1];
    assert s[6..] == s[4..][2..] == low + t;
    UnitThen(low, t);
    assert s[10..] == s[6..][4..];
  }

  lemma ShortParses(letter: char, t: string)
    requires CharOk(Short(letter))
    ensures ParseChar(['\\', letter] + t) == Got(Named(letter), t)
  {
    var s := ['\\', letter] + t;
    assert s[1..] == [letter] + t;
    assert s[1..][1..] == t;
    assert letter != 'u' && Named(letter) != 0 as char;
  }

  lemma UnitsParse(units: string, c: char, t: string)
    requires ParseUnits(units) == Got(c, t)
    ensures ParseChar("\\u" + units) == Got(c, t)
  {
    assert ("\\u" + units)[1..] == "u" + units;
    assert ("u" + units)[1..] == units;
  }

  lemma HexParses(f: CharForm, t: string)
    requires CharOk(f) && f.Hex?
    ensures ParseChar(CharText(f) + t) == Got(CharOf(f), t)
  {
    UnitThen(f.digits, t);
    UnitsParse(f.digits + t, CharOf(f), t);
    assert CharText(f) + t == "\\u" + (f.digits + t);
  }

  lemma PairCharParses(f: CharForm, t: string)
    requires CharOk(f) && f.Pair?
    ensures ParseChar(CharText(f) + t) == Got(CharOf(f), t)
  {
    PairParses(f.high, f.low, t);
    var units := f.high + ("\\u" + (f.low + t));
    UnitsParse(units, CharOf(f), t);
    assert CharText(f) + t == "\\u" + units;
  }

  lemma CharFront(f: CharForm)
    requires CharOk(f)
    ensures CharText(f) != "" && CharText(f)[0] != '"'
  {
  }

  lemma CharParses(f: CharForm, t: string)
    requires CharOk(f)
    ensures ParseChar(CharText(f) + t) == Got(CharOf(f), t)
  {
    match f
    case Plain(c) => PlainRoundTrip(c, t);
    case Short(letter) => ShortParses(letter, t);
    case Hex(_) => HexParses(f, t);
    case Pair(_, _) => PairCharParses(f, t);
  }

  lemma {:induction false} CharsParse(fs: seq<CharForm>, t: string)
    requires CharsOk(fs)
    ensures ParseChars(CharsText(fs, t)) == Got(CharsOf(fs), t)
    decreases |fs|
  {
    if fs == [] {
      assert ("\"" + t)[1..] == t;
    } else {
      CharFront(fs[0]);
      CharParses(fs[0], CharsText(fs[1..], t));
      CharsParse(fs[1..], t);
    }
  }

  lemma {:induction false} DigitsRun(s: string, t: string)
    requires AllDigits(s) && (t == "" || !IsDigit(t[0]))
    ensures DigitRun(s + t) == |s|
  {
    if s == "" {
      assert s + t == t;
    } else {
      Drop(s, t, 1);
      assert IsDigit(s[0]);
      DigitsRun(s[1..], t);
    }
  }

  lemma ConsThen(c: char, a: string, t: string)
    ensures ([c] + a + t)[0] == c && ([c] + a + t)[1..] == a + t
  {
  }

  lemma Assoc(a: string, b: string, t: string)
    ensures a + b + t == a + (b + t)
  {
  }

  lemma DigitsThen(digits: string, t: string)
    requires Digits(digits) && Delimits(t)
    ensures DigitRun(digits + t) == |digits| && (digits + t)[|digits|..] == t
  {
    DigitsRun(digits, t);
    Drop(digits, t, |digits|);
    assert digits[|digits|..] + t == t;
  }

  lemma ExponentParses(e: Option<Exponent>, t: string)
    requires (e.Some? ==> ExponentOk(e.value)) && Delimits(t)
    ensures ExponentEnd(ExponentText(e) + t) == Got((), t)
  {
    if e.None? {
      assert ExponentText(e) + t == t;
    } else {
      var sign, digits := e.value.sign, e.value.digits;
      ConsThen(e.value.mark, sign + digits, t);
      Assoc(sign, digits, t);
      SignThen(sign, digits, t);
      DigitsThen(digits, t);
    }
  }

  lemma SignThen(sign: string, digits: string, t: string)
    requires (sign == "" || sign == "+" || sign == "-") && Digits(digits)
    ensures Unsigned(sign + (digits + t)) == digits + t
  {
    assert IsDigit(digits[0]);
    if sign == "" {
      assert sign + (digits + t) == digits + t;
    } else {
      Drop(sign, digits + t, 1);
      assert sign[1..] + (digits + t) == digits + t;
    }
  }

  lemma FractionParses(fraction: Option<string>, t: string)
    requires (fraction.Some? ==> Digits(fraction.value)) && (t == "" || (!IsDigit(t[0]) && t[0] != '.'))
    ensures FractionEnd((if fraction.Some? then "." + fraction.value else "") + t) == Got((), t)
  {
    if fraction.Some? {
      var digits := fraction.value;
      var s := "." + digits + t;
      assert s[1..] == digits + t;
      DigitsRun(digits, t);
      assert s[1 + |digits|..] == t;
    } else {
      assert "" + t == t;
    }
  }

  lemma AfterIntParses(fraction: Option<string>, e: Option<Exponent>, t: string)
    requires (fraction.Some? ==> Digits(fraction.value)) && (e.Some? ==> ExponentOk(e.value)) && Delimits(t)
    ensures AfterInt((if fraction.Some? then "." + fraction.value else "") + (ExponentText(e) + t)) == Got((), t)
  {
    assert e.None? ==> ExponentText(e) + t == t;
    FractionParses(fraction, ExponentText(e) + t);
    ExponentParses(e, t);
  }

  lemma WholeParses(whole: string, t: string)
    requires whole == "0" || (Digits(whole) && whole[0] != '0')
    requires t == "" || !IsDigit(t[0])
    ensures IntLength(whole + t) == |whole| && (whole + t)[|whole|..] == t
  {
    if whole != "0" { DigitsRun(whole, t); }
    Drop(whole, t, |whole|);
    assert whole[|whole|..] + t == t;
  }

  lemma NumberEnds(n: Number, t: string)
    requires NumberOk(n) && Delimits(t)
    ensures NumberEnd(NumberText(n) + t) == Got((), t)
    ensures NumberText(n) != "" && (NumberText(n)[0] == '-' || IsDigit(NumberText(n)[0]))
  {
    var tail := AfterWhole(n) + t;
    assert IsDigit(n.whole[0]);
    TailIsNoDigit(n, t);
    WholeParses(n.whole, tail);
    AfterWholeText(n, t);
    AfterIntParses(n.fraction, n.exponent, t);
    Assoc(n.whole, AfterWhole(n), t);
    assert (n.whole + tail)[0] == n.whole[0];
    if n.minus {
      ConsThen('-', n.whole + AfterWhole(n), t);
    } else {
      assert NumberText(n) == n.whole + AfterWhole(n);
    }
  }

  lemma AfterWholeText(n: Number, t: string)
    ensures AfterWhole(n) + t == (if n.fraction.Some? then "." + n.fraction.value else "")
      + (ExponentText(n.exponent) + t)
  {
  }

  lemma NumberParses(n: Number, t: string)
    requires NumberOk(n) && Delimits(t)
    ensures ParseValue(NumberText(n) + t) == Got(JNumber(NumberText(n)), t)
  {
    var s := NumberText(n) + t;
    NumberEnds(n, t);
    assert s[..|s| - |t|] == NumberText(n);
    assert s[0] == NumberText(n)[0];
    NumberStarts(s);
  }

  lemma TailIsNoDigit(n: Number, t: string)
    requires NumberOk(n) && Delimits(t)
    ensures AfterWhole(n) + t == "" || !IsDigit((AfterWhole(n) + t)[0])
  {
    assert n.fraction.None? && n.exponent.None? ==> AfterWhole(n) + t == t;
  }

  // The first character of a value is neither white space nor a closing mark.
  lemma TextFront(v: Syntax, t: string)
    requires Ok(v)
    ensures Text(v, t) != "" && !IsSpace(Text(v, t)[0]) && Text(v, t)[0] != ']' && Text(v, t)[0] != '}'
  {
    if v.Num? {
      assert IsDigit(v.number.whole[0]);
      assert NumberText(v.number)[0] == if v.number.minus then '-' else v.number.whole[0];
    }
  }

  lemma WordParses(v: Syntax, t: string)
    requires v.Null? || v.True? || v.False?
    ensures ParseValue(Text(v, t)) == Got(Meaning(v), t)
  {
    var word := Text(v, "");
    assert Text(v, t) == word + t;
    WordExtends(word, t);
    assert "" + t == t;
  }

  lemma AfterDelimits(after: string, c: char, t: string)
    requires IsWs(after) && (c == ']' || c == '}' || c == ',')
    ensures Delimits(after + ([c] + t))
  {
    if after != "" { assert IsSpace(after[0]); }
  }

  /** Completeness: whatever the grammar derives, the parser reads, with the derivation's own meaning. */
  lemma {:induction false} DerivationsParse(v: Syntax, t: string)
    requires Ok(v) && Delimits(t)
    ensures ParseValue(Text(v, t)) == Got(Meaning(v), t)
    decreases v, 0
  {
    match v
    case Null => WordParses(v, t);
    case True => WordParses(v, t);
    case False => WordParses(v, t);
    case Num(n) => NumberParses(n, t);
    case Str(fs) =>
      CharsParse(fs, t);
      assert Text(v, t)[1..] == CharsText(fs, t);
    case Arr(es, inner) => ArrayParses(es, inner, t);
    case Obj(fs, inner) => ObjectParses(fs, inner, t);
  }

  lemma {:induction false} ArrayParses(es: seq<Element>, inner: string, t: string)
    requires Ok(Arr(es, inner)) && Delimits(t)
    ensures ParseValue(Text(Arr(es, inner), t)) == Got(JArray(ElementsOf(es)), t)
    decreases es, 2
  {
    var s := Text(Arr(es, inner), t);
    if es == [] {
      assert s[1..] == inner + ("]" + t);
      SkipTo(inner, "]" + t);
      assert ("]" + t)[1..] == t;
    } else {
      assert s[1..] == ElementsText(es, t);
      ElementsParse(es, t);
    }
  }

  lemma {:induction false} ObjectParses(fs: seq<Field>, inner: string, t: string)
    requires Ok(Obj(fs, inner)) && Delimits(t)
    ensures ParseValue(Text(Obj(fs, inner), t)) == Got(JObject(FieldsOf(fs)), t)
    decreases fs, 4
  {
    var s := Text(Obj(fs, inner), t);
    if fs == [] {
      assert s[1..] == inner + ("}" + t);
      SkipTo(inner, "}" + t);
      assert ("}" + t)[1..] == t;
    } else {
      assert s[1..] == FieldsText(fs, t);
      FieldsParse(fs, t);
    }
  }

  lemma {:induction false} ElementParses(e: Element, c: char, t: string)
    requires ElementOk(e) && (c == ']' || c == '}' || c == ',')
    ensures var u := SkipSpace(ElementText(e, [c] + t));
      && ParseValue(u) == Got(Meaning(e.value), e.after + ([c] + t))
      && u != "" && u[0] != ']'
    decreases e, 1
  {
    var tail := e.after + ([c] + t);
    AfterDelimits(e.after, c, t);
    TextFront(e.value, tail);
    SkipTo(e.before, Text(e.value, tail));
    DerivationsParse(e.value, tail);
  }

  lemma {:induction false} ElementsParse(es: seq<Element>, t: string)
    requires es != [] && forall k :: 0 <= k < |es| ==> ElementOk(es[k])
    ensures var u := SkipSpace(ElementsText(es, t));
      ParseElements(u) == Got(ElementsOf(es), t) && u != "" && u[0] != ']'
    decreases es, 1
  {
    var e := es[0];
    if |es| == 1 {
      ElementParses(e, ']', t);
      NextAfter(e.after, ']', t);
      assert ElementsOf(es) == [Meaning(e.value)];
    } else {
      var more := ElementsText(es[1..], t);
      ElementParses(e, ',', more);
      NextAfter(e.after, ',', more);
      ElementsParse(es[1..], t);
    }
  }

  lemma {:induction false} FieldParses(f: Field, c: char, t: string)
    requires FieldOk(f) && (c == '}' || c == ',')
    ensures var u := SkipSpace(FieldText(f, [c] + t));
      && ParseMember(u) == Got(FieldOf(f), f.element.after + ([c] + t))
      && u != "" && u[0] == '"'
    decreases f, 2
  {
    var value := ElementText(f.element, [c] + t);
    var named := CharsText(f.name, f.between + (":" + value));
    SkipTo(f.before, "\"" + named);
    assert ("\"" + named)[1..] == named;
    CharsParse(f.name, f.between + (":" + value));
    NextAfter(f.between, ':', value);
    ElementParses(f.element, c, t);
  }

  lemma {:induction false} FieldsParse(fs: seq<Field>, t: string)
    requires fs != [] && forall k :: 0 <= k < |fs| ==> FieldOk(fs[k])
    ensures var u := SkipSpace(FieldsText(fs, t));
      ParseMembers(u) == Got(FieldsOf(fs), t) && u != "" && u[0] == '"'
    decreases fs, 3
  {
    var f := fs[0];
    assert FieldOk(f) && ElementOk(f.element);
    var m := FieldOf(f);
    if |fs| == 1 {
      FieldParses(f, '}', t);
      LastOne(SkipSpace(FieldsText(fs, t)), m, f.element.after, t);
      assert FieldsOf(fs) == [m];
    } else {
      var more := FieldsText(fs[1..], t);
      FieldParses(f, ',', more);
      FieldsParse(fs[1..], t);
      OneMore(SkipSpace(FieldsText(fs, t)), m, f.element.after, more);
    }
  }

  lemma LastOne(s: string, m: Member, after: string, t: string)
    requires ParseMember(s) == Got(m, after + (['}'] + t)) && IsWs(after)
    ensures ParseMembers(s) == Got([m], t)
  {
    NextAfter(after, '}', t);
  }

  lemma OneMore(s: string, m: Member, after: string, more: string)
    requires ParseMember(s) == Got(m, after + ([','] + more)) && IsWs(after) && ParseMembers(SkipSpace(more)).Got?
    ensures ParseMembers(s) == Got([m] + ParseMembers(SkipSpace(more)).value, ParseMembers(SkipSpace(more)).rest)
  {
    NextAfter(after, ',', more);
  }

  // ---------------------------------------------------------------- everything parsed has a derivation

  function Leading(s: string): (ws: string)
    ensures IsWs(ws) && s == ws + SkipSpace(s)
  {
    if s != "" && IsSpace(s[0]) then [s[0]] + Leading(s[1..]) else ""
  }

  lemma NextDerives(s: string)
    requires Next(s).Got?
    ensures s == Leading(s) + ([Next(s).value] + Next(s).rest)
  {
    var u := SkipSpace(s);
    assert u == [u[0]] + u[1..];
  }

  lemma DeriveUnits(s: string) returns (f: CharForm)
    requires ParseUnits(s).Got?
    ensures CharOk(f) && CharOf(f) == ParseUnits(s).value && "\\u" + s == CharText(f) + ParseUnits(s).rest
  {
    assert s == s[..4] + s[4..];
    UnitThen(s[..4], s[4..]);
    if !IsHigh(Unit(s)) {
      f := Hex(s[..4]);
    } else {
      assert s[6..] == s[6..][..4] + s[10..];
      UnitThen(s[6..][..4], s[10..]);
      f := Pair(s[..4], s[6..][..4]);
      assert s == s[..4] + ("\\u" + (s[6..][..4] + s[10..]));
    }
  }

  lemma DeriveChar(s: string) returns (f: CharForm)
    requires ParseChar(s).Got?
    ensures CharOk(f) && CharOf(f) == ParseChar(s).value && s == CharText(f) + ParseChar(s).rest
  {
    if s[0] != '\\' {
      f := Plain(s[0]);
      assert s == [s[0]] + s[1..];
    } else if s[1] == 'u' {
      f := DeriveUnits(s[1..][1..]);
      assert s == "\\u" + s[1..][1..];
    } else {
      f := Short(s[1]);
      assert s == ['\\', s[1]] + s[1..][1..];
    }
  }

  lemma {:induction false} DeriveChars(s: string) returns (fs: seq<CharForm>)
    requires ParseChars(s).Got?
    ensures CharsOk(fs) && CharsOf(fs) == ParseChars(s).value && s == CharsText(fs, ParseChars(s).rest)
    decreases |s|
  {
    if s[0] == '"' {
      fs := [];
      assert s == "\"" + s[1..];
    } else {
      var f := DeriveChar(s);
      var more := DeriveChars(ParseChar(s).rest);
      fs := [f] + more;
      assert fs[1..] == more;
    }
  }

  lemma DeriveFraction(s: string) returns (fraction: Option<string>)
    requires FractionEnd(s).Got?
    ensures fraction.Some? ==> Digits(fraction.value)
    ensures s == (if fraction.Some? then "." + fraction.value else "") + FractionEnd(s).rest
  {
    if s == "" || s[0] != '.' {
      fraction := None;
    } else {
      var n := DigitRun(s[1..]);
      fraction := Some(s[1..][..n]);
      assert s == "." + s[1..][..n] + s[1 + n..];
    }
  }

  lemma DeriveSign(s: string) returns (sign: string)
    ensures (sign == "" || sign == "+" || sign == "-") && s == sign + Unsigned(s)
  {
    if s != "" && (s[0] == '+' || s[0] == '-') {
      sign := [s[0]];
      assert s == [s[0]] + s[1..];
    } else {
      sign := "";
    }
  }

  lemma SplitDigits(s: string) returns (digits: string, rest: string)
    ensures s == digits + rest && |digits| == DigitRun(s) && AllDigits(digits) && rest == s[DigitRun(s)..]
  {
    digits, rest := s[..DigitRun(s)], s[DigitRun(s)..];
  }

  lemma ExponentRegroup(s: string, mark: char, sign: string, digits: string, rest: string)
    requires s != "" && s[0] == mark && s[1..] == sign + (digits + rest)
    ensures s == [mark] + (sign + digits) + rest
  {
    Assoc(sign, digits, rest);
    Assoc([mark], sign + digits, rest);
    assert s == [s[0]] + s[1..];
  }

  lemma DeriveExponent(s: string) returns (e: Option<Exponent>)
    requires ExponentEnd(s).Got?
    ensures (e.Some? ==> ExponentOk(e.value)) && s == ExponentText(e) + ExponentEnd(s).rest
  {
    if s == "" || (s[0] != 'e' && s[0] != 'E') {
      e := None;
    } else {
      var sign := DeriveSign(s[1..]);
      var digits, rest := SplitDigits(Unsigned(s[1..]));
      e := Some(Exponent(s[0], sign, digits));
      ExponentRegroup(s, s[0], sign, digits, rest);
    }
  }

  lemma DeriveAfterInt(s: string, minus: bool, whole: string) returns (n: Number)
    requires AfterInt(s).Got? && (whole == "0" || (Digits(whole) && whole[0] != '0'))
    ensures NumberOk(n) && n.minus == minus && n.whole == whole && s == AfterWhole(n) + AfterInt(s).rest
  {
    var fraction := DeriveFraction(s);
    var exponent := DeriveExponent(FractionEnd(s).rest);
    n := Number(minus, whole, fraction, exponent);
    AfterWholeText(n, AfterInt(s).rest);
  }

  lemma WholeDerives(s: string)
    requires IntLength(s) > 0
    ensures var whole := s[..IntLength(s)];
      (whole == "0" || (Digits(whole) && whole[0] != '0')) && s == whole + s[IntLength(s)..]
  {
    var whole := s[..IntLength(s)];
    assert s[0] == '0' ==> whole == "0";
  }

  lemma DeriveNumber(s: string) returns (n: Number)
    requires NumberEnd(s).Got?
    ensures NumberOk(n) && s == NumberText(n) + NumberEnd(s).rest
  {
    var minus, rest := s != "" && s[0] == '-', NumberEnd(s).rest;
    var digits := if minus then s[1..] else s;
    var whole := digits[..IntLength(digits)];
    WholeDerives(digits);
    n := DeriveAfterInt(digits[|whole|..], minus, whole);
    NumberRegroup(s, minus, digits, whole, AfterWhole(n), rest);
  }

  lemma NumberRegroup(s: string, minus: bool, digits: string, whole: string, after: string, rest: string)
    requires minus ==> s != "" && s[0] == '-' && digits == s[1..]
    requires !minus ==> digits == s
    requires digits == whole + (after + rest)
    ensures s == (if minus then "-" else "") + (whole + after) + rest
  {
    Assoc(whole, after, rest);
    if minus {
      assert s == "-" + digits;
      Assoc("-", whole + after, rest);
    } else {
      assert "" + (whole + after) == whole + after;
    }
  }

  lemma DeriveNumberValue(s: string) returns (v: Syntax)
    requires ParseNumber(s).Got?
    ensures Ok(v) && Meaning(v) == ParseNumber(s).value && s == Text(v, ParseNumber(s).rest)
  {
    var n := DeriveNumber(s);
    v := Num(n);
    assert s[..|s| - |NumberEnd(s).rest|] == NumberText(n);
  }

  lemma DeriveWord(s: string) returns (v: Syntax)
    requires ParseWord(s).Got?
    ensures Ok(v) && Meaning(v) == ParseWord(s).value && s == Text(v, ParseWord(s).rest)
  {
    if "true" <= s {
      v := True;
    } else if "false" <= s {
      v := False;
    } else {
      v := Null;
    }
  }

  /** Soundness: whatever the parser reads, the grammar derives, with the same meaning. */
  lemma {:induction false} DeriveValue(s: string) returns (v: Syntax)
    requires ParseValue(s).Got?
    ensures Ok(v) && Meaning(v) == ParseValue(s).value && s == Text(v, ParseValue(s).rest)
    decreases |s|, 0
  {
    assert s == [s[0]] + s[1..];
    if s[0] == '"' {
      var fs := DeriveChars(s[1..]);
      v := Str(fs);
    } else if s[0] == '[' {
      v := DeriveArray(s);
    } else if s[0] == '{' {
      v := DeriveObject(s);
    } else if s[0] == '-' || IsDigit(s[0]) {
      v := DeriveNumberValue(s);
    } else {
      v := DeriveWord(s);
    }
  }

  lemma {:induction false} DeriveArray(s: string) returns (v: Syntax)
    requires ParseValue(s).Got? && s[0] == '['
    ensures Ok(v) && Meaning(v) == ParseValue(s).value && s == Text(v, ParseValue(s).rest)
    decreases |s| - 1, 3
  {
    assert s == "[" + s[1..];
    var inner, u := Leading(s[1..]), SkipSpace(s[1..]);
    if u[0] == ']' {
      v := Arr([], inner);
      assert u == "]" + u[1..];
    } else {
      var es := DeriveElements(inner, u);
      v := Arr(es, "");
    }
  }

  lemma {:induction false} DeriveObject(s: string) returns (v: Syntax)
    requires ParseValue(s).Got? && s[0] == '{'
    ensures Ok(v) && Meaning(v) == ParseValue(s).value && s == Text(v, ParseValue(s).rest)
    decreases |s| - 1, 3
  {
    assert s == "{" + s[1..];
    var inner, u := Leading(s[1..]), SkipSpace(s[1..]);
    if u[0] == '}' {
      v := Obj([], inner);
      assert u == "}" + u[1..];
    } else {
      var fs := DeriveFields(inner, u);
      v := Obj(fs, "");
    }
  }

  lemma ElementsCons(e: Element, more: seq<Element>)
    requires ElementOk(e) && more != [] && forall k :: 0 <= k < |more| ==> ElementOk(more[k])
    ensures forall k :: 0 <= k < |[e] + more| ==> ElementOk(([e] + more)[k])
    ensures ElementsOf([e] + more) == [Meaning(e.value)] + ElementsOf(more)
    ensures forall t: string :: ElementsText([e] + more, t) == ElementText(e, "," + ElementsText(more, t))
  {
    assert ([e] + more)[1..] == more;
  }

  lemma {:induction false} DeriveElements(ws: string, s: string) returns (es: seq<Element>)
    requires IsWs(ws) && ParseElements(s).Got?
    ensures es != [] && forall k :: 0 <= k < |es| ==> ElementOk(es[k])
    ensures ElementsOf(es) == ParseElements(s).value && ws + s == ElementsText(es, ParseElements(s).rest)
    decreases |s|, 1
  {
    var v := DeriveValue(s);
    var rest := ParseValue(s).rest;
    var next := Next(rest);
    NextDerives(rest);
    var e := Element(ws, v, Leading(rest));
    assert ElementOk(e) && ElementText(e, [next.value] + next.rest) == ws + s;
    if next.value == ']' {
      es := [e];
    } else {
      var more := DeriveElements(Leading(next.rest), SkipSpace(next.rest));
      es := [e] + more;
      ElementsCons(e, more);
    }
  }

  lemma {:induction false} DeriveField(ws: string, s: string) returns (f: Field)
    requires IsWs(ws) && ParseMember(s).Got?
    ensures FieldOk(f) && FieldOf(f) == ParseMember(s).value
    ensures ws + s == FieldText(f, SkipSpace(ParseMember(s).rest))
    decreases |s|, 1
  {
    var name := DeriveChars(s[1..]);
    var rest := ParseChars(s[1..]).rest;
    var next := Next(rest);
    NextDerives(rest);
    var v := DeriveValue(SkipSpace(next.rest));
    var end := ParseValue(SkipSpace(next.rest)).rest;
    var e := Element(Leading(next.rest), v, Leading(end));
    assert ElementOk(e) && ElementText(e, SkipSpace(end)) == next.rest;
    f := Field(ws, name, Leading(rest), e);
    assert s == "\"" + s[1..];
  }

  lemma FieldsCons(f: Field, more: seq<Field>, t: string)
    requires FieldOk(f) && more != [] && forall k :: 0 <= k < |more| ==> FieldOk(more[k])
    ensures forall k :: 0 <= k < |[f] + more| ==> FieldOk(([f] + more)[k])
    ensures FieldsOf([f] + more) == [FieldOf(f)] + FieldsOf(more)
    ensures FieldsText([f] + more, t) == FieldText(f, "," + FieldsText(more, t))
  {
    assert ([f] + more)[1..] == more;
  }

  lemma {:induction false} DeriveFields(ws: string, s: string) returns (fs: seq<Field>)
    requires IsWs(ws) && ParseMembers(s).Got?
    ensures fs != [] && forall k :: 0 <= k < |fs| ==> FieldOk(fs[k])
    ensures FieldsOf(fs) == ParseMembers(s).value && ws + s == FieldsText(fs, ParseMembers(s).rest)
    decreases |s|, 2
  {
    var f := DeriveField(ws, s);
    var rest := ParseMember(s).rest;
    var next := Next(rest);
    var u := SkipSpace(rest);
    assert u == [next.value] + next.rest;
    if next.value == '}' {
      fs := [f];
    } else {
      var more := DeriveFields(Leading(next.rest), SkipSpace(next.rest));
      fs := [f] + more;
      FieldsCons(f, more, ParseMembers(s).rest);
    }
  }

  // ---------------------------------------------------------------- what follows a text stays behind it

  lemma {:induction false} CharsConcat(fs: seq<CharForm>, a: string, b: string)
    ensures CharsText(fs, a + b) == CharsText(fs, a) + b
    decreases |fs|
  {
    if fs != [] { CharsConcat(fs[1..], a, b); }
  }

  lemma {:induction false} TextConcat(v: Syntax, a: string, b: string)
    ensures Text(v, a + b) == Text(v, a) + b
    decreases v, 0
  {
    match v
    case Null =>
    case True =>
    case False =>
    case Num(n) => Assoc(NumberText(n), a, b);
    case Str(fs) => CharsConcat(fs, a, b);
    case Arr(es, inner) =>
      if es == [] {
        assert inner + ("]" + (a + b)) == inner + ("]" + a) + b;
      } else {
        ElementsConcat(es, a, b);
      }
    case Obj(fs, inner) =>
      if fs == [] {
        assert inner + ("}" + (a + b)) == inner + ("}" + a) + b;
      } else {
        FieldsConcat(fs, a, b);
      }
  }

  lemma {:induction false} ElementConcat(e: Element, a: string, b: string)
    ensures ElementText(e, a + b) == ElementText(e, a) + b
    decreases e, 0
  {
    Assoc(e.after, a, b);
    TextConcat(e.value, e.after + a, b);
    Assoc(e.before, Text(e.value, e.after + a), b);
  }

  lemma {:induction false} ElementsConcat(es: seq<Element>, a: string, b: string)
    requires es != []
    ensures ElementsText(es, a + b) == ElementsText(es, a) + b
    decreases es, 1
  {
    if |es| == 1 {
      Assoc("]", a, b);
      ElementConcat(es[0], "]" + a, b);
    } else {
      ElementsConcat(es[1..], a, b);
      Assoc(",", ElementsText(es[1..], a), b);
      ElementConcat(es[0], "," + ElementsText(es[1..], a), b);
    }
  }

  lemma {:induction false} FieldConcat(f: Field, a: string, b: string)
    ensures FieldText(f, a + b) == FieldText(f, a) + b
    decreases f, 1
  {
    var value := ElementText(f.element, a);
    ElementConcat(f.element, a, b);
    assert f.between + (":" + (value + b)) == f.between + (":" + value) + b;
    CharsConcat(f.name, f.between + (":" + value), b);
    var named := CharsText(f.name, f.between + (":" + value));
    assert f.before + ("\"" + (named + b)) == f.before + ("\"" + named) + b;
  }

  lemma {:induction false} FieldsConcat(fs: seq<Field>, a: string, b: string)
    requires fs != []
    ensures FieldsText(fs, a + b) == FieldsText(fs, a) + b
    decreases fs, 2
  {
    if |fs| == 1 {
      Assoc("}", a, b);
      FieldConcat(fs[0], "}" + a, b);
    } else {
      FieldsConcat(fs[1..], a, b);
      Assoc(",", FieldsText(fs[1..], a), b);
      FieldConcat(fs[0], "," + FieldsText(fs[1..], a), b);
    }
  }

  // ---------------------------------------------------------------- the parser is the grammar

  predicate Writes(before: string, v: Syntax, after: string, s: string, x: Value) {
    IsWs(before) && IsWs(after) && Ok(v) && s == before + Text(v, after) && Meaning(v) == x
  }

  // `s` is a well-formed JSON text that means `x`.
  ghost predicate WellFormed(s: string, x: Value) {
    exists before: string, v: Syntax, after: string :: Writes(before, v, after, s, x)
  }

  /** A text parses to a value exactly when the grammar derives that text with that meaning. */
  lemma ParserIsTheGrammar(s: string, x: Value)
    ensures Parse(s) == Document(x) <==> WellFormed(s, x)
  {
    if Parse(s) == Document(x) {
      var v := DeriveValue(SkipSpace(s));
      var after := ParseValue(SkipSpace(s)).rest;
      assert after == Leading(after) + "";
      assert Writes(Leading(s), v, after, s, x);
    }
    if WellFormed(s, x) {
      var before: string, v: Syntax, after: string :| Writes(before, v, after, s, x);
      TextFront(v, after);
      SkipTo(before, Text(v, after));
      WsDelimits(after);
      DerivationsParse(v, after);
      SkipWs(after, "");
      assert after + "" == after;
    }
  }

  lemma WsDelimits(ws: string)
    requires IsWs(ws)
    ensures Delimits(ws)
  {
    if ws != "" { assert IsSpace(ws[0]); }
  }
}
