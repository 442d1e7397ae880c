/** json.dumps with its defaults: every text it prints is a text of the grammar, and means what was printed. */
module JsonPrinter {
  import opened Decimal
  import opened Json
  import opened JsonGrammar

  // ---------------------------------------------------------------- strings, with ensure_ascii

  function HexChar(n: int): char
    requires 0 <= n < 16
  {
    if n < 10 then ('0' as int + n) as char else ('a' as int + n - 10) as char
  }

  // Four lower-case hexadecimal digits.
  function Hex4(n: int): string
    requires 0 <= n < 0x1_0000
  {
    [HexChar(n / 0x1000), HexChar(n / 0x100 % 0x10), HexChar(n / 0x10 % 0x10), HexChar(n % 0x10)]
  }

  // The one-letter escape of a character, or a space.
  function Letter(c: char): char {
    if c == '"' || c == '\\' then c
    else if c == '\n' then 'n'
    else if c == '\r' then 'r'
    else if c == '\t' then 't'
    else if c as int == 12 then 'f'
    else if c as int == 8 then 'b'
    else ' '
  }

  // The surrogate pair of a character outside the basic plane.
  function HighOf(c: char): (u: int)
    requires c as int >= 0x1_0000
    ensures IsHigh(u)
  {
    0xD800 + (c as int - 0x1_0000) / 0x400
  }

  function LowOf(c: char): (u: int)
    requires c as int >= 0x1_0000
    ensures IsLow(u)
  {
    0xDC00 + (c as int - 0x1_0000) % 0x400
  }

  // Whatever is outside ' '..'~' is written as an escape.
  function FormOf(c: char): CharForm {
    if Letter(c) != ' ' then Short(Letter(c))
    else if ' ' <= c <= '~' then Plain(c)
    else if c as int < 0x1_0000 then Hex(Hex4(c as int))
    else Pair(Hex4(HighOf(c)), Hex4(LowOf(c)))
  }

  function EscapeChar(c: char): string { CharText(FormOf(c)) }

  /** The text of one character: itself if it is printable ASCII, a short escape if it has one, else lower-case
      units. */
  lemma EscapesAre(c: char)
    ensures EscapeChar('"') == "\\\"" && EscapeChar('\\') == "\\\\" && EscapeChar('\n') == "\\n"
    ensures EscapeChar('\r') == "\\r" && EscapeChar('\t') == "\\t"
    ensures EscapeChar(12 as char) == "\\f" && EscapeChar(8 as char) == "\\b"
    ensures ' ' <= c <= '~' && c != '"' && c != '\\' ==> EscapeChar(c) == [c]
    ensures (c > '~' && c as int < 0x1_0000) ==> EscapeChar(c) == "\\u" + Hex4(c as int)
    ensures c as int >= 0x1_0000 ==> EscapeChar(c) == "\\u" + (Hex4(HighOf(c)) + ("\\u" + Hex4(LowOf(c))))
    ensures forall n :: 0 <= n < 16 ==> HexChar(n) == "0123456789abcdef"[n]
  {
  }

  function EscapeAll(s: string): string {
    if s == "" then "" else EscapeChar(s[0]) + EscapeAll(s[1..])
  }

  function Quote(s: string): string { "\"" + EscapeAll(s) + "\"" }

  lemma HexDigitOfChar(n: int)
    requires 0 <= n < 16
    ensures HexDigit(HexChar(n)) == n
  {
  }

  lemma Nibbles(n: int)
    requires 0 <= n < 0x1_0000
    ensures n == n / 0x1000 * 0x1000 + n / 0x100 % 0x10 * 0x100 + n / 0x10 % 0x10 * 0x10 + n % 0x10
    ensures n / 0x1000 < 16
  {
  }

  lemma UnitOfHex4(n: int)
    requires 0 <= n < 0x1_0000
    ensures Unit(Hex4(n)) == n
  {
    Nibbles(n);
    HexDigitOfChar(n / 0x1000);
    HexDigitOfChar(n / 0x100 % 0x10);
    HexDigitOfChar(n / 0x10 % 0x10);
    HexDigitOfChar(n % 0x10);
  }

  lemma JoinedOfPair(c: char)
    requires c as int >= 0x1_0000
    ensures Joined(HighOf(c), LowOf(c)) == c
  {
    var n := c as int - 0x1_0000;
    assert n == n / 0x400 * 0x400 + n % 0x400;
  }

  lemma FormMeans(c: char)
    ensures CharOk(FormOf(c)) && CharOf(FormOf(c)) == c
  {
    if Letter(c) == ' ' && !(' ' <= c <= '~') {
      if c as int < 0x1_0000 {
        UnitOfHex4(c as int);
      } else {
        UnitOfHex4(HighOf(c));
        UnitOfHex4(LowOf(c));
        JoinedOfPair(c);
      }
    }
  }

  function Forms(s: string): seq<CharForm> {
    if s == "" then [] else [FormOf(s[0])] + Forms(s[1..])
  }

  /** A printed string is a string of the grammar and means the string printed. */
  lemma {:induction false} FormsMean(s: string)
    ensures CharsOk(Forms(s)) && CharsOf(Forms(s)) == s
    decreases |s|
  {
    if s != "" {
      FormMeans(s[0]);
      FormsMean(s[1..]);
      assert Forms(s)[1..] == Forms(s[1..]);
      assert s == [s[0]] + s[1..];
    }
  }

  lemma {:induction false} FormsText(s: string, t: string)
    ensures CharsText(Forms(s), t) == EscapeAll(s) + ("\"" + t)
    decreases |s|
  {
    if s != "" {
      FormsText(s[1..], t);
      assert Forms(s)[1..] == Forms(s[1..]);
      Assoc(EscapeChar(s[0]), EscapeAll(s[1..]), "\"" + t);
    }
  }

  lemma QuoteText(s: string, t: string)
    ensures Quote(s) + t == "\"" + CharsText(Forms(s), t)
  {
    FormsText(s, t);
  }

  // ---------------------------------------------------------------- values, with ", " and ": "

  predicate IsNumber(s: string) { NumberEnd(s) == Got((), "") }

  predicate Printable(v: Value) {
    match v
    case JNumber(n) => IsNumber(n)
    case JArray(vs) => forall v :: v in vs ==> Printable(v)
    case JObject(ms) => forall m :: m in ms ==> Printable(m.value)
    case JNull => true
    case JBool(_) => true
    case JString(_) => true
  }

  function Dumps(v: Value): string {
    match v
    case JNull => "null"
    case JBool(b) => if b then "true" else "false"
    case JNumber(n) => n
    case JString(s) => Quote(s)
    case JArray(vs) => if vs == [] then "[]" else "[" + DumpsElements(vs)
    case JObject(ms) => if ms == [] then "{}" else "{" + DumpsMembers(ms)
  }

  function DumpsElements(vs: seq<Value>): string
    requires vs != []
  {
    if |vs| == 1 then Dumps(vs[0]) + "]" else Dumps(vs[0]) + ", " + DumpsElements(vs[1..])
  }

  function DumpsMembers(ms: seq<Member>): string
    requires ms != []
  {
    if |ms| == 1 then DumpsMember(ms[0]) + "}" else DumpsMember(ms[0]) + ", " + DumpsMembers(ms[1..])
  }

  function DumpsMember(m: Member): string { Quote(m.name) + ": " + Dumps(m.value) }

  /** The separators are the defaults: a comma or a colon, each with one blank after it. */
  lemma SeparatorsAre(a: Value, b: Value, name: string)
    ensures Dumps(JArray([a, b])) == "[" + (Dumps(a) + ", " + (Dumps(b) + "]"))
    ensures Dumps(JObject([Member(name, a)])) == "{" + ((Quote(name) + ": " + Dumps(a)) + "}")
    ensures Dumps(JArray([])) == "[]" && Dumps(JObject([])) == "{}"
    ensures Dumps(JNull) == "null" && Dumps(JBool(true)) == "true" && Dumps(JBool(false)) == "false"
  {
    assert [a, b][1..] == [b];
    assert DumpsElements([b]) == Dumps(b) + "]";
    assert DumpsElements([a, b]) == Dumps(a) + ", " + DumpsElements([b]);
    assert DumpsMembers([Member(name, a)]) == DumpsMember(Member(name, a)) + "}";
  }

  // ---------------------------------------------------------------- what is printed is a text of the grammar

  // `x` derives the text `s`, whatever follows it.
  ghost predicate Derives(x: Syntax, s: string) {
    Ok(x) && forall t: string :: Text(x, t) == s + t
  }

  lemma NumberDerives(n: string) returns (x: Syntax)
    requires IsNumber(n)
    ensures Derives(x, n) && Meaning(x) == JNumber(n)
  {
    var number := DeriveNumber(n);
    assert NumberText(number) + "" == NumberText(number);
    x := Num(number);
  }

  lemma StringDerives(s: string) returns (x: Syntax)
    ensures Derives(x, Quote(s)) && Meaning(x) == JString(s)
  {
    x := Str(Forms(s));
    FormsMean(s);
    forall t: string ensures Text(x, t) == Quote(s) + t { QuoteText(s, t); }
  }

  /** Whatever json.dumps prints has a derivation, and the derivation means the value printed. */
  lemma {:induction false} DumpsDerives(v: Value) returns (x: Syntax)
    requires Printable(v)
    ensures Derives(x, Dumps(v)) && Meaning(x) == v
    decreases v, 0
  {
    match v
    case JNull => x := Null;
    case JBool(b) => x := if b then True else False;
    case JNumber(n) => x := NumberDerives(n);
    case JString(s) => x := StringDerives(s);
    case JArray(vs) => x := ArrayDerives(vs);
    case JObject(ms) => x := ObjectDerives(ms);
  }

  lemma Opened(mark: string, body: string, t: string)
    ensures mark + ("" + body + t) == mark + body + t
  {
  }

  lemma {:induction false} ArrayDerives(vs: seq<Value>) returns (x: Syntax)
    requires forall v :: v in vs ==> Printable(v)
    ensures Derives(x, Dumps(JArray(vs))) && Meaning(x) == JArray(vs)
    decreases vs, 2
  {
    if vs == [] {
      x := Arr([], "");
      forall t: string ensures Text(x, t) == "[]" + t { assert "" + ("]" + t) == "]" + t; }
    } else {
      var es := ElementsDerive("", vs);
      x := Arr(es, "");
      forall t: string ensures Text(x, t) == "[" + DumpsElements(vs) + t {
        Opened("[", DumpsElements(vs), t);
      }
    }
  }

  lemma {:induction false} ObjectDerives(ms: seq<Member>) returns (x: Syntax)
    requires forall m :: m in ms ==> Printable(m.value)
    ensures Derives(x, Dumps(JObject(ms))) && Meaning(x) == JObject(ms)
    decreases ms, 2
  {
    if ms == [] {
      x := Obj([], "");
      forall t: string ensures Text(x, t) == "{}" + t { assert "" + ("}" + t) == "}" + t; }
    } else {
      var fs := FieldsDerive("", ms);
      x := Obj(fs, "");
      forall t: string ensures Text(x, t) == "{" + DumpsMembers(ms) + t {
        Opened("{", DumpsMembers(ms), t);
      }
    }
  }

  lemma {:induction false} ElementsDerive(ws: string, vs: seq<Value>) returns (es: seq<Element>)
    requires IsWs(ws) && vs != [] && forall v :: v in vs ==> Printable(v)
    ensures es != [] && (forall k :: 0 <= k < |es| ==> ElementOk(es[k])) && ElementsOf(es) == vs
    ensures forall t: string :: ElementsText(es, t) == ws + DumpsElements(vs) + t
    decreases vs, 1
  {
    var x := DumpsDerives(vs[0]);
    var e := Element(ws, x, "");
    assert ElementOk(e) && vs == [vs[0]] + vs[1..];
    if |vs| == 1 {
      es := [e];
      forall t: string ensures ElementsText(es, t) == ws + DumpsElements(vs) + t {
        Around(ws, Dumps(vs[0]), "]", t);
      }
    } else {
      var more := ElementsDerive(" ", vs[1..]);
      es := [e] + more;
      ElementsCons(e, more);
      forall t: string ensures ElementsText(es, t) == ws + DumpsElements(vs) + t {
        Separated(ws, Dumps(vs[0]), DumpsElements(vs[1..]), t);
        assert ElementsText(es, t) == ElementText(e, "," + ElementsText(more, t));
      }
    }
  }

  lemma Around(ws: string, a: string, close: string, t: string)
    ensures ws + (a + ("" + (close + t))) == ws + (a + close) + t
  {
  }

  lemma Separated(ws: string, a: string, b: string, t: string)
    ensures ws + (a + ("" + ("," + (" " + b + t)))) == ws + (a + ", " + b) + t
  {
  }

  lemma {:induction false} FieldDerives(ws: string, m: Member) returns (f: Field)
    requires IsWs(ws) && Printable(m.value)
    ensures FieldOk(f) && FieldOf(f) == m
    ensures forall t: string :: FieldText(f, t) == ws + (DumpsMember(m) + t)
    decreases m, 1
  {
    var x := DumpsDerives(m.value);
    FormsMean(m.name);
    var e := Element(" ", x, "");
    assert ElementOk(e);
    f := Field(ws, Forms(m.name), "", e);
    forall t: string ensures FieldText(f, t) == ws + (DumpsMember(m) + t) {
      QuoteText(m.name, "" + (":" + ElementText(e, t)));
      Colon(Quote(m.name), Dumps(m.value), t);
    }
  }

  lemma Colon(a: string, b: string, t: string)
    ensures a + ("" + (":" + (" " + (b + ("" + t))))) == a + ": " + b + t
  {
  }

  lemma {:induction false} FieldsDerive(ws: string, ms: seq<Member>) returns (fs: seq<Field>)
    requires IsWs(ws) && ms != [] && forall m :: m in ms ==> Printable(m.value)
    ensures fs != [] && (forall k :: 0 <= k < |fs| ==> FieldOk(fs[k])) && FieldsOf(fs) == ms
    ensures forall t: string :: FieldsText(fs, t) == ws + DumpsMembers(ms) + t
    decreases ms, 1
  {
    var f := FieldDerives(ws, ms[0]);
    assert ms == [ms[0]] + ms[1..];
    if |ms| == 1 {
      fs := [f];
      forall t: string ensures FieldsText(fs, t) == ws + DumpsMembers(ms) + t {
        Around(ws, DumpsMember(ms[0]), "}", t);
        assert "" + ("}" + t) == "}" + t;
      }
    } else {
      var more := FieldsDerive(" ", ms[1..]);
      fs := [f] + more;
      forall t: string ensures FieldsText(fs, t) == ws + DumpsMembers(ms) + t {
        FieldsCons(f, more, t);
        Separated(ws, DumpsMember(ms[0]), DumpsMembers(ms[1..]), t);
        assert "" + ("," + FieldsText(more, t)) == "," + FieldsText(more, t);
      }
      FieldsCons(f, more, "");
    }
  }

  /** json.loads after json.dumps is the identity on every value that has a text, whatever may follow it. */
  lemma ValueRoundTrip(v: Value, t: string)
    requires Printable(v) && Delimits(t)
    ensures ParseValue(Dumps(v) + t) == Got(v, t)
    ensures Dumps(v) != "" && !IsSpace(Dumps(v)[0])
  {
    var x := DumpsDerives(v);
    assert Text(x, "") == Dumps(v) + "" == Dumps(v);
    assert Text(x, t) == Dumps(v) + t;
    TextFront(x, "");
    DerivationsParse(x, t);
  }

  lemma DocumentRoundTrip(v: Value)
    requires Printable(v)
    ensures Parse(Dumps(v)) == Document(v)
  {
    ValueRoundTrip(v, "");
    assert Dumps(v) + "" == Dumps(v);
  }
}
