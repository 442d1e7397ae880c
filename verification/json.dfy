/** JSON texts (RFC 8259, sections 2 to 7, without unpaired surrogate escapes) over decoded characters: a strict
    recursive-descent parser. */
module Json {
  import opened Decimal

  // Numbers keep their text. Members keep the order and the repetitions of the text.
  datatype Value =
    | JNull
    | JBool(truth: bool)
    | JNumber(literal: string)
    | JString(text: string)
    | JArray(elements: seq<Value>)
    | JObject(members: seq<Member>)

  datatype Member = Member(name: string, value: Value)

  datatype Parsed<+T> = Bad | Got(value: T, rest: string)

  // ---------------------------------------------------------------- white space and numbers

  predicate IsSpace(c: char) { c == ' ' || c == '\t' || c == '\n' || c == '\r' }

  function SkipSpace(s: string): (r: string)
    ensures |r| <= |s|
    ensures r != "" ==> !IsSpace(r[0])
  {
    if s != "" && IsSpace(s[0]) then SkipSpace(s[1..]) else s
  }

  // The next character that is not white space.
  function Next(s: string): (r: Parsed<char>)
    ensures r.Got? ==> |r.rest| < |s|
  {
    var u := SkipSpace(s);
    if u == "" then Bad else Got(u[0], u[1..])
  }

  // How many digits the text starts with.
  function DigitRun(s: string): (n: nat)
    ensures n <= |s|
    ensures forall k :: 0 <= k < n ==> IsDigit(s[k])
    ensures n < |s| ==> !IsDigit(s[n])
  {
    if s != "" && IsDigit(s[0]) then 1 + DigitRun(s[1..]) else 0
  }

  // int = zero / ( digit1-9 *DIGIT )
  function IntLength(s: string): (n: nat)
    ensures n <= |s|
  {
    if s != "" && s[0] == '0' then 1 else DigitRun(s)
  }

  // [ "." 1*DIGIT ]: None when a point is not followed by a digit.
  function FractionEnd(s: string): (r: Parsed<()>)
    ensures r.Got? ==> |r.rest| <= |s|
  {
    if s == "" || s[0] != '.' then Got((), s)
    else
      var n := DigitRun(s[1..]);
      if n == 0 then Bad else Got((), s[1 + n..])
  }

  // [ ("e" / "E") [ "+" / "-" ] 1*DIGIT ]
  function ExponentEnd(s: string): (r: Parsed<()>)
    ensures r.Got? ==> |r.rest| <= |s|
  {
    if s == "" || (s[0] != 'e' && s[0] != 'E') then Got((), s)
    else
      var digits := Unsigned(s[1..]);
      var n := DigitRun(digits);
      if n == 0 then Bad else Got((), digits[n..])
  }

  function Unsigned(s: string): (r: string)
    ensures |r| <= |s|
  {
    if s != "" && (s[0] == '+' || s[0] == '-') then s[1..] else s
  }

  // [ frac ] [ exp ]
  function AfterInt(s: string): (r: Parsed<()>)
    ensures r.Got? ==> |r.rest| <= |s|
  {
    match FractionEnd(s)
    case Bad => Bad
    case Got(_, rest) => ExponentEnd(rest)
  }

  function NumberEnd(s: string): (r: Parsed<()>)
    ensures r.Got? ==> |r.rest| < |s|
  {
    var digits := if s != "" && s[0] == '-' then s[1..] else s;
    var n := IntLength(digits);
    if n == 0 then Bad else AfterInt(digits[n..])
  }

  function ParseNumber(s: string): (r: Parsed<Value>)
    ensures r.Got? ==> |r.rest| < |s|
  {
    match NumberEnd(s)
    case Bad => Bad
    case Got(_, rest) => Got(JNumber(s[..|s| - |rest|]), rest)
  }

  // ---------------------------------------------------------------- strings

  function HexDigit(c: char): int {
    if '0' <= c <= '9' then c as int - '0' as int
    else if 'a' <= c <= 'f' then c as int - 'a' as int + 10
    else if 'A' <= c <= 'F' then c as int - 'A' as int + 10
    else -1
  }

  // The code unit of four hexadecimal digits, or -1.
  function Unit(s: string): (u: int)
    ensures -1 <= u < 0x1_0000
    ensures u >= 0 ==> |s| >= 4
  {
    if |s| < 4 || HexDigit(s[0]) < 0 || HexDigit(s[1]) < 0 || HexDigit(s[2]) < 0 || HexDigit(s[3]) < 0 then -1
    else HexDigit(s[0]) * 0x1000 + HexDigit(s[1]) * 0x100 + HexDigit(s[2]) * 0x10 + HexDigit(s[3])
  }

  predicate IsHigh(u: int) { 0xD800 <= u < 0xDC00 }
  predicate IsLow(u: int) { 0xDC00 <= u < 0xE000 }

  // The character of a surrogate pair.
  function Joined(hi: int, lo: int): char
    requires IsHigh(hi) && IsLow(lo)
  {
    (0x1_0000 + (hi - 0xD800) * 0x400 + (lo - 0xDC00)) as char
  }

  // What follows `\u`: one unit, or a surrogate pair. A lone surrogate names no character and is refused.
  function ParseUnits(s: string): (r: Parsed<char>)
    ensures r.Got? ==> |r.rest| < |s|
  {
    var u := Unit(s);
    if u < 0 || IsLow(u) then Bad
    else if !IsHigh(u) then Got(u as char, s[4..])
    else if |s| < 6 || s[4] != '\\' || s[5] != 'u' then Bad
    else
      var v := Unit(s[6..]);
      if !IsLow(v) then Bad
      else Got(Joined(u, v), s[10..])
  }

  // The character a one-letter escape stands for, or NUL.
  function Named(letter: char): char {
    if letter == '"' || letter == '\\' || letter == '/' then letter
    else if letter == 'b' then 8 as char
    else if letter == 'f' then 12 as char
    else if letter == 'n' then '\n'
    else if letter == 'r' then '\r'
    else if letter == 't' then '\t'
    else 0 as char
  }

  // What follows a backslash.
  function ParseEscape(s: string): (r: Parsed<char>)
    ensures r.Got? ==> |r.rest| < |s|
  {
    if s == "" then Bad
    else if s[0] == 'u' then ParseUnits(s[1..])
    else if Named(s[0]) == 0 as char then Bad
    else Got(Named(s[0]), s[1..])
  }

  // One character of a string body, escaped or not.
  function ParseChar(s: string): (r: Parsed<char>)
    ensures r.Got? ==> |r.rest| < |s|
  {
    if s == "" || s[0] as int < 0x20 || s[0] == '"' then Bad
    else if s[0] == '\\' then ParseEscape(s[1..])
    else Got(s[0], s[1..])
  }

  // The body of a string, up to and including its closing quote.
  function ParseChars(s: string): (r: Parsed<string>)
    ensures r.Got? ==> |r.rest| < |s|
    decreases |s|
  {
    if s != "" && s[0] == '"' then Got("", s[1..])
    else
      match ParseChar(s)
      case Bad => Bad
      case Got(c, rest) =>
        match ParseChars(rest)
        case Bad => Bad
        case Got(cs, rest') => Got([c] + cs, rest')
  }

  // ---------------------------------------------------------------- values

  function ParseWord(s: string): (r: Parsed<Value>)
    ensures r.Got? ==> |r.rest| < |s|
  {
    if "true" <= s then Got(JBool(true), s[4..])
    else if "false" <= s then Got(JBool(false), s[5..])
    else if "null" <= s then Got(JNull, s[4..])
    else Bad
  }

  // A value that starts at the first character of `s`.
  function ParseValue(s: string): (r: Parsed<Value>)
    ensures r.Got? ==> |r.rest| < |s|
    decreases |s|, 0
  {
    if s == "" then Bad
    else if s[0] == '"' then
      match ParseChars(s[1..])
      case Bad => Bad
      case Got(cs, rest) => Got(JString(cs), rest)
    else if s[0] == '[' then
      var u := SkipSpace(s[1..]);
      if u != "" && u[0] == ']' then Got(JArray([]), u[1..])
      else
        match ParseElements(u)
        case Bad => Bad
        case Got(vs, rest) => Got(JArray(vs), rest)
    else if s[0] == '{' then
      var u := SkipSpace(s[1..]);
      if u != "" && u[0] == '}' then Got(JObject([]), u[1..])
      else
        match ParseMembers(u)
        case Bad => Bad
        case Got(ms, rest) => Got(JObject(ms), rest)
    else if s[0] == '-' || IsDigit(s[0]) then ParseNumber(s)
    else ParseWord(s)
  }

  // One or more elements and the closing bracket.
  function ParseElements(s: string): (r: Parsed<seq<Value>>)
    ensures r.Got? ==> |r.rest| < |s|
    decreases |s|, 1
  {
    match ParseValue(s)
    case Bad => Bad
    case Got(v, rest) =>
      match Next(rest)
      case Bad => Bad
      case Got(c, rest') =>
        if c == ']' then Got([v], rest')
        else if c != ',' then Bad
        else
          match ParseElements(SkipSpace(rest'))
          case Bad => Bad
          case Got(vs, end) => Got([v] + vs, end)
  }

  // string ws ":" ws value
  function ParseMember(s: string): (r: Parsed<Member>)
    ensures r.Got? ==> |r.rest| < |s|
    decreases |s|, 1
  {
    if s == "" || s[0] != '"' then Bad
    else
      match ParseChars(s[1..])
      case Bad => Bad
      case Got(name, rest) =>
        match Next(rest)
        case Bad => Bad
        case Got(c, rest') =>
          if c != ':' then Bad
          else
            match ParseValue(SkipSpace(rest'))
            case Bad => Bad
            case Got(v, end) => Got(Member(name, v), end)
  }

  // One or more members and the closing brace.
  function ParseMembers(s: string): (r: Parsed<seq<Member>>)
    ensures r.Got? ==> |r.rest| < |s|
    decreases |s|, 2
  {
    match ParseMember(s)
    case Bad => Bad
    case Got(m, rest) =>
      match Next(rest)
      case Bad => Bad
      case Got(c, rest') =>
        if c == '}' then Got([m], rest')
        else if c != ',' then Bad
        else
          match ParseMembers(SkipSpace(rest'))
          case Bad => Bad
          case Got(ms, end) => Got([m] + ms, end)
  }

  datatype Document = Malformed | Document(value: Value)

  // ws value ws, and nothing else.
  function Parse(s: string): Document {
    match ParseValue(SkipSpace(s))
    case Bad => Malformed
    case Got(v, rest) => if SkipSpace(rest) == "" then Document(v) else Malformed
  }

  // ---------------------------------------------------------------- a parse survives what comes after it

  // A text that cannot prolong a number.
  predicate Delimits(t: string) {
    t == "" || !(IsDigit(t[0]) || t[0] == '.' || t[0] == 'e' || t[0] == 'E' || t[0] == '+' || t[0] == '-')
  }

  lemma Drop(s: string, t: string, n: nat)
    requires n <= |s|
    ensures (s + t)[n..] == s[n..] + t
  {
  }

  lemma Take(s: string, t: string, n: nat)
    requires n <= |s|
    ensures (s + t)[..n] == s[..n]
  {
  }

  lemma {:induction false} SkipSpaceExtends(s: string, t: string)
    ensures SkipSpace(s + t) == if SkipSpace(s) == "" then SkipSpace(t) else SkipSpace(s) + t
  {
    if s == "" {
      assert s + t == t;
    } else {
      Drop(s, t, 1);
      if IsSpace(s[0]) { SkipSpaceExtends(s[1..], t); }
    }
  }

  lemma NextExtends(s: string, t: string)
    requires Next(s).Got?
    ensures Next(s + t) == Got(Next(s).value, Next(s).rest + t)
  {
    SkipSpaceExtends(s, t);
    Drop(SkipSpace(s), t, 1);
  }

  lemma {:induction false} DigitRunExtends(s: string, t: string)
    requires t == "" || !IsDigit(t[0]) || DigitRun(s) < |s|
    ensures DigitRun(s + t) == DigitRun(s)
  {
    if s == "" {
      assert s + t == t;
    } else {
      Drop(s, t, 1);
      if IsDigit(s[0]) { DigitRunExtends(s[1..], t); }
    }
  }

  lemma FractionExtends(s: string, t: string)
    requires FractionEnd(s).Got? && Delimits(t)
    ensures FractionEnd(s + t) == Got((), FractionEnd(s).rest + t)
  {
    if s == "" {
      assert s + t == t;
    } else if s[0] == '.' {
      Drop(s, t, 1);
      DigitRunExtends(s[1..], t);
      Drop(s, t, 1 + DigitRun(s[1..]));
    }
  }

  lemma UnsignedExtends(s: string, t: string)
    requires s != ""
    ensures Unsigned(s + t) == Unsigned(s) + t
  {
    Drop(s, t, 1);
  }

  lemma ExponentExtends(s: string, t: string)
    requires ExponentEnd(s).Got? && Delimits(t)
    ensures ExponentEnd(s + t) == Got((), ExponentEnd(s).rest + t)
  {
    if s == "" {
      assert s + t == t;
    } else if s[0] == 'e' || s[0] == 'E' {
      Drop(s, t, 1);
      var digits := Unsigned(s[1..]);
      UnsignedExtends(s[1..], t);
      DigitRunExtends(digits, t);
      Drop(digits, t, DigitRun(digits));
    }
  }

  lemma AfterIntExtends(s: string, t: string)
    requires AfterInt(s).Got? && Delimits(t)
    ensures AfterInt(s + t) == Got((), AfterInt(s).rest + t)
  {
    FractionExtends(s, t);
    ExponentExtends(FractionEnd(s).rest, t);
  }

  lemma NumberExtends(s: string, t: string)
    requires NumberEnd(s).Got? && Delimits(t)
    ensures NumberEnd(s + t) == Got((), NumberEnd(s).rest + t)
  {
    var digits := if s != "" && s[0] == '-' then s[1..] else s;
    Drop(s, t, if digits == s then 0 else 1);
    DigitRunExtends(digits, t);
    var n := IntLength(digits);
    Drop(digits, t, n);
    AfterIntExtends(digits[n..], t);
  }

  lemma UnitsExtend(s: string, t: string)
    requires ParseUnits(s).Got?
    ensures ParseUnits(s + t) == Got(ParseUnits(s).value, ParseUnits(s).rest + t)
  {
    Drop(s, t, 4);
    if IsHigh(Unit(s)) {
      Drop(s, t, 6);
      Drop(s, t, 10);
    }
  }

  lemma CharExtends(s: string, t: string)
    requires ParseChar(s).Got?
    ensures ParseChar(s + t) == Got(ParseChar(s).value, ParseChar(s).rest + t)
  {
    Drop(s, t, 1);
    if s[0] == '\\' {
      Drop(s[1..], t, 1);
      if s[1] == 'u' { UnitsExtend(s[1..][1..], t); }
    }
  }

  lemma {:induction false} CharsExtend(s: string, t: string)
    requires ParseChars(s).Got?
    ensures ParseChars(s + t) == Got(ParseChars(s).value, ParseChars(s).rest + t)
    decreases |s|
  {
    if s[0] == '"' {
      Drop(s, t, 1);
    } else {
      CharExtends(s, t);
      CharsExtend(ParseChar(s).rest, t);
    }
  }

  lemma WordExtends(s: string, t: string)
    requires ParseWord(s).Got?
    ensures ParseWord(s + t) == Got(ParseWord(s).value, ParseWord(s).rest + t)
  {
    assert (s + t)[0] == s[0];
    assert "true" <= s ==> "true" <= s + t;
    assert "false" <= s ==> "false" <= s + t;
    assert "null" <= s ==> "null" <= s + t;
    Drop(s, t, |s| - |ParseWord(s).rest|);
  }

  lemma NumberValueExtends(s: string, t: string)
    requires ParseNumber(s).Got? && Delimits(t)
    ensures ParseNumber(s + t) == Got(ParseNumber(s).value, ParseNumber(s).rest + t)
  {
    NumberExtends(s, t);
    var n := |s| - |NumberEnd(s).rest|;
    Take(s, t, n);
    assert |s + t| - |NumberEnd(s).rest + t| == n;
  }

  /** A value already read stays the same value whatever is appended, unless the text appended prolongs a number. */
  lemma {:induction false} ValueExtends(s: string, t: string)
    requires ParseValue(s).Got? && Delimits(t)
    ensures ParseValue(s + t) == Got(ParseValue(s).value, ParseValue(s).rest + t)
    decreases |s|, 0
  {
    Drop(s, t, 1);
    if s[0] == '"' {
      CharsExtend(s[1..], t);
    } else if s[0] == '[' {
      var u := SkipSpace(s[1..]);
      SkipSpaceExtends(s[1..], t);
      if u[0] == ']' { Drop(u, t, 1); } else { ElementsExtend(u, t); }
    } else if s[0] == '{' {
      var u := SkipSpace(s[1..]);
      SkipSpaceExtends(s[1..], t);
      if u[0] == '}' { Drop(u, t, 1); } else { MembersExtend(u, t); }
    } else if s[0] == '-' || IsDigit(s[0]) {
      NumberValueExtends(s, t);
    } else {
      WordExtends(s, t);
    }
  }

  lemma {:induction false} ElementsExtend(s: string, t: string)
    requires ParseElements(s).Got? && Delimits(t)
    ensures ParseElements(s + t) == Got(ParseElements(s).value, ParseElements(s).rest + t)
    decreases |s|, 1
  {
    ValueExtends(s, t);
    NextExtends(ParseValue(s).rest, t);
    var next := Next(ParseValue(s).rest);
    if next.value == ',' {
      SkipSpaceExtends(next.rest, t);
      ElementsExtend(SkipSpace(next.rest), t);
    }
  }

  lemma {:induction false} MemberExtends(s: string, t: string)
    requires ParseMember(s).Got? && Delimits(t)
    ensures ParseMember(s + t) == Got(ParseMember(s).value, ParseMember(s).rest + t)
    decreases |s|, 1
  {
    Drop(s, t, 1);
    CharsExtend(s[1..], t);
    NextExtends(ParseChars(s[1..]).rest, t);
    var next := Next(ParseChars(s[1..]).rest);
    SkipSpaceExtends(next.rest, t);
    ValueExtends(SkipSpace(next.rest), t);
  }

  lemma {:induction false} MembersExtend(s: string, t: string)
    requires ParseMembers(s).Got? && Delimits(t)
    ensures ParseMembers(s + t) == Got(ParseMembers(s).value, ParseMembers(s).rest + t)
    decreases |s|, 2
  {
    MemberExtends(s, t);
    NextExtends(ParseMember(s).rest, t);
    var next := Next(ParseMember(s).rest);
    if next.value == ',' {
      SkipSpaceExtends(next.rest, t);
      MembersExtend(SkipSpace(next.rest), t);
    }
  }

  // ---------------------------------------------------------------- single steps of the parser

  lemma PlainRoundTrip(c: char, t: string)
    requires ' ' <= c && c != '"' && c != '\\'
    ensures ParseChar([c] + t) == Got(c, t)
  {
    assert ([c] + t)[1..] == t;
  }

  lemma NumberStarts(s: string)
    requires s != "" && (s[0] == '-' || IsDigit(s[0]))
    ensures ParseValue(s) == ParseNumber(s)
  {
  }

  lemma NextIs(c: char, t: string)
    requires !IsSpace(c)
    ensures Next([c] + t) == Got(c, t)
  {
    assert ([c] + t)[1..] == t;
  }

  lemma MoreMembers(s: string, m: Member, tail: string)
    requires ParseMember(s) == Got(m, "," + tail) && ParseMembers(SkipSpace(tail)).Got?
    ensures var more := ParseMembers(SkipSpace(tail));
      ParseMembers(s) == Got([m] + more.value, more.rest)
  {
    NextIs(',', tail);
  }

  // ---------------------------------------------------------------- the characters of the grammar

  /** White space, the letters of short escapes, hexadecimal digits in both cases, and surrogate halves. */
  lemma CharactersOfTheGrammar(c: char)
    ensures IsSpace(c) <==> c in " \t\n\r"
    ensures Named(c) == match c
      case '"' => '"' case '\\' => '\\' case '/' => '/'
      case 'b' => 8 as char case 'f' => 12 as char case 'n' => 10 as char case 'r' => 13 as char case 't' => 9 as char
      case _ => 0 as char
    ensures HexDigit(c) ==
      var n := c as int;
      if 48 <= n <= 57 then n - 48 else if 97 <= n <= 102 then n - 87 else if 65 <= n <= 70 then n - 55 else -1
    ensures IsHigh(c as int) <==> 0xD800 <= c as int <= 0xDBFF
    ensures IsLow(c as int) <==> 0xDC00 <= c as int <= 0xDFFF
  {
  }

  /** Four hexadecimal digits, most significant first; a surrogate pair names the character that UTF-16 gives
      it (section 2.2 of RFC 2781). */
  lemma UnitsOfTheGrammar(s: string, hi: int, lo: int)
    requires |s| >= 4 && forall k :: 0 <= k < 4 ==> HexDigit(s[k]) >= 0
    requires 0xD800 <= hi <= 0xDBFF && 0xDC00 <= lo <= 0xDFFF
    ensures Unit(s) == ((HexDigit(s[0]) * 16 + HexDigit(s[1])) * 16 + HexDigit(s[2])) * 16 + HexDigit(s[3])
    ensures Joined(hi, lo) as int == 0x1_0000 + (hi - 0xD800) * 0x400 + (lo - 0xDC00)
  {
  }
}
