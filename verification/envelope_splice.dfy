/** The Request envelope as the API splices it around the body, against the JSON reading of the result. */
module EnvelopeSplice {
  import opened Decimal
  import opened Json
  import G = JsonGrammar
  import opened JsonPrinter
  import opened Models

  // ---------------------------------------------------------------- the splice

  // json.dumps(correlation_id) prints this value.
  function IdValue(id: Option<string>): Value {
    match id
    case None => JNull
    case Some(text) => JString(text)
  }

  function Prefix(stamp: Stamp, id: Option<string>): string {
    "{\"retry\":0,\"published_at\":\"" + stamp + "\",\"correlation_id\":" + Dumps(IdValue(id))
      + ",\"errors\":[],\"payload\":"
  }

  function BuildEnvelope(raw: string, stamp: Stamp, id: Option<string>): string {
    Prefix(stamp, id) + raw + "}"
  }

  /** Its text, to the character, when the request has no correlation id. */
  lemma EnvelopeWithoutId(raw: string, stamp: Stamp)
    ensures BuildEnvelope(raw, stamp, None)
      == "{\"retry\":0,\"published_at\":\"" + stamp + "\",\"correlation_id\":" + "null"
         + ",\"errors\":[],\"payload\":" + raw + "}"
  {
  }

  // ---------------------------------------------------------------- the reader: RequestEnvelope

  datatype Request = Request(
    retry: nat, publishedAt: string, correlationId: Option<string>, errors: seq<Value>, payload: seq<Value>)

  // A repeated field: the last one counts.
  function Field(members: seq<Member>, name: string): Option<Value> {
    if members == [] then None
    else
      var later := Field(members[1..], name);
      if later.Some? then later
      else if members[0].name == name then Some(members[0].value) else None
  }

  function ReadRetry(v: Option<Value>): Option<nat> {
    if v.Some? && v.value.JNumber? && AllDigits(v.value.literal)
    then Some(NatOf(v.value.literal)) else None
  }

  predicate ObjectsOnly(vs: seq<Value>) {
    forall k :: 0 <= k < |vs| ==> vs[k].JObject?
  }

  function Read(text: string): Option<Request> {
    match Parse(text)
    case Malformed => None
    case Document(v) =>
      if !v.JObject? then None
      else
        ReadFields(
          ReadRetry(Field(v.members, "retry")), Field(v.members, "published_at"), Field(v.members, "correlation_id"),
          Field(v.members, "errors"), Field(v.members, "payload"))
  }

  function ReadFields(retry: Option<nat>, at: Option<Value>, id: Option<Value>, errors: Option<Value>,
        payload: Option<Value>)
    : Option<Request>
  {
    if retry.None? || at.None? || !at.value.JString? then None
    else if id.Some? && !id.value.JNull? && !id.value.JString? then None
    else if errors.Some? && !errors.value.JArray? then None
    else if payload.None? || !payload.value.JArray? then None
    else if !ObjectsOnly(payload.value.elements) || |payload.value.elements| > MAX_BATCH_ITEMS then None
    else
      Some(Request(
        retry.value,
        at.value.text,
        if id.Some? && id.value.JString? then Some(id.value.text) else None,
        if errors.Some? then errors.value.elements else [],
        payload.value.elements))
  }

  // ---------------------------------------------------------------- reading one spliced member

  predicate Plain(s: string) {
    forall k :: 0 <= k < |s| ==> ' ' <= s[k] && s[k] != '"' && s[k] != '\\'
  }

  lemma {:induction false} PlainBody(s: string, t: string)
    requires Plain(s)
    ensures ParseChars(s + ("\"" + t)) == Got(s, t)
    decreases |s|
  {
    if s == "" {
      assert s + ("\"" + t) == "\"" + t;
      assert ("\"" + t)[1..] == t;
    } else {
      var tail := s[1..] + ("\"" + t);
      assert s + ("\"" + t) == [s[0]] + tail;
      PlainRoundTrip(s[0], tail);
      PlainBody(s[1..], t);
      assert s == [s[0]] + s[1..];
    }
  }

  lemma PlainString(s: string, t: string)
    requires Plain(s)
    ensures ParseValue("\"" + (s + ("\"" + t))) == Got(JString(s), t)
  {
    PlainBody(s, t);
    assert ("\"" + (s + ("\"" + t)))[1..] == s + ("\"" + t);
  }

  // A member without white space before its colon.
  function Spliced(name: string, rest: string): string { "\"" + (name + ("\"" + (":" + rest))) }

  lemma SplicedMember(name: string, rest: string)
    requires Plain(name) && ParseValue(SkipSpace(rest)).Got?
    ensures var v := ParseValue(SkipSpace(rest));
      ParseMember(Spliced(name, rest)) == Got(Member(name, v.value), v.rest)
  {
    PlainBody(name, ":" + rest);
    assert Spliced(name, rest)[1..] == name + ("\"" + (":" + rest));
    NextIs(':', rest);
  }

  lemma SplicedMore(name: string, text: string, v: Value, more: string)
    requires Plain(name) && text != "" && !IsSpace(text[0])
    requires more != "" && !IsSpace(more[0])
    requires ParseValue(text + ("," + more)) == Got(v, "," + more)
    requires ParseMembers(more).Got?
    ensures ParseMembers(Spliced(name, text + ("," + more)))
      == Got([Member(name, v)] + ParseMembers(more).value, ParseMembers(more).rest)
  {
    var rest := text + ("," + more);
    assert SkipSpace(rest) == rest;
    SplicedMember(name, rest);
    MoreMembers(Spliced(name, rest), Member(name, v), more);
  }

  lemma BraceNext(s: string)
    requires SkipSpace(s) == ""
    ensures Next(s + "}") == Got('}', "")
  {
    SkipSpaceExtends(s, "}");
    assert "}"[1..] == "";
  }

  lemma SplicedLast(name: string, raw: string)
    requires Plain(name) && Parse(raw).Document?
    ensures ParseMembers(Spliced(name, raw + "}")) == Got([Member(name, Parse(raw).value)], "")
  {
    var u := SkipSpace(raw);
    SkipSpaceExtends(raw, "}");
    ValueExtends(u, "}");
    SplicedMember(name, raw + "}");
    BraceNext(ParseValue(u).rest);
  }

  // ---------------------------------------------------------------- an object spliced from pieces

  // A member's name, its text as spliced, and the value that text stands for.
  datatype Piece = Piece(name: string, text: string, value: Value)

  ghost predicate Sound(p: Piece) {
    Plain(p.name) && p.text != "" && !IsSpace(p.text[0])
    && forall t: string :: Delimits(t) ==> ParseValue(p.text + t) == Got(p.value, t)
  }

  ghost predicate AllSound(ps: seq<Piece>) {
    forall k :: 0 <= k < |ps| ==> Sound(ps[k])
  }

  function Body(ps: seq<Piece>, name: string, raw: string): string {
    if ps == [] then Spliced(name, raw + "}")
    else Spliced(ps[0].name, ps[0].text + ("," + Body(ps[1..], name, raw)))
  }

  function MembersOf(ps: seq<Piece>, name: string, v: Value): seq<Member> {
    if ps == [] then [Member(name, v)] else [Member(ps[0].name, ps[0].value)] + MembersOf(ps[1..], name, v)
  }

  lemma SoundPiece(p: Piece, more: string)
    requires Sound(p)
    ensures ParseValue(p.text + ("," + more)) == Got(p.value, "," + more)
  {
    assert Delimits("," + more);
  }

  lemma {:induction false} PiecesParse(ps: seq<Piece>, name: string, raw: string)
    requires AllSound(ps) && Plain(name) && Parse(raw).Document?
    ensures ParseMembers(Body(ps, name, raw)) == Got(MembersOf(ps, name, Parse(raw).value), "")
  {
    if ps == [] {
      SplicedLast(name, raw);
    } else {
      PiecesParse(ps[1..], name, raw);
      var more := Body(ps[1..], name, raw);
      SoundPiece(ps[0], more);
      SplicedMore(ps[0].name, ps[0].text, ps[0].value, more);
    }
  }

  // ---------------------------------------------------------------- the four fixed members

  function Pieces(stamp: Stamp, id: Option<string>): seq<Piece> {
    [ Piece("retry", "0", JNumber("0")),
      Piece("published_at", "\"" + stamp + "\"", JString(stamp)),
      Piece("correlation_id", Dumps(IdValue(id)), IdValue(id)),
      Piece("errors", "[]", JArray([])) ]
  }

  lemma StampSound(p: Piece, stamp: Stamp)
    requires p == Piece("published_at", "\"" + stamp + "\"", JString(stamp))
    ensures Sound(p)
  {
    forall t: string | Delimits(t) ensures ParseValue(p.text + t) == Got(p.value, t) {
      PlainString(stamp, t);
      assert p.text + t == "\"" + (stamp + ("\"" + t));
    }
  }

  lemma DumpedSound(p: Piece)
    requires Plain(p.name) && p.text == Dumps(p.value) && Printable(p.value)
    ensures Sound(p)
  {
    ValueRoundTrip(p.value, "");
    forall t: string | Delimits(t) ensures ParseValue(p.text + t) == Got(p.value, t) { ValueRoundTrip(p.value, t); }
  }

  lemma PiecesSound(stamp: Stamp, id: Option<string>)
    ensures AllSound(Pieces(stamp, id))
  {
    var ps := Pieces(stamp, id);
    DumpedSound(ps[0]);
    StampSound(ps[1], stamp);
    DumpedSound(ps[2]);
    DumpedSound(ps[3]);
  }

  // ---------------------------------------------------------------- the text of the splice

  lemma RetryText(rest: string)
    ensures "{" + Spliced("retry", "0" + ("," + rest)) == "{\"retry\":0," + rest
  {
  }

  lemma StampText(stamp: string, rest: string)
    ensures Spliced("published_at", "\"" + stamp + "\"" + ("," + rest))
      == "\"published_at\":\"" + (stamp + ("\"," + rest))
  {
  }

  lemma IdText(text: string, rest: string)
    ensures Spliced("correlation_id", text + ("," + rest)) == "\"correlation_id\":" + (text + ("," + rest))
  {
  }

  lemma ErrorsText(rest: string)
    ensures Spliced("errors", "[]" + ("," + rest)) == "\"errors\":[]," + rest
  {
  }

  lemma PayloadText(rest: string)
    ensures Spliced("payload", rest) == "\"payload\":" + rest
  {
  }

  lemma Glue(a: string, b: string, stamp: string, c: string, d: string, id: string, e: string, f: string, g: string,
        rest: string)
    ensures (a + b) + stamp + (c + d) + id + (e + f + g) + rest
      == a + (b + (stamp + (c + (d + (id + (e + (f + (g + rest))))))))
  {
  }

  lemma Literals()
    ensures "{\"retry\":0," + "\"published_at\":\"" == "{\"retry\":0,\"published_at\":\""
    ensures "\"," + "\"correlation_id\":" == "\",\"correlation_id\":"
    ensures "," + "\"errors\":[]," + "\"payload\":" == ",\"errors\":[],\"payload\":"
  {
  }

  lemma GlueEnvelope(stamp: Stamp, id: Option<string>, end: string)
    ensures Prefix(stamp, id) + end == "{\"retry\":0,"
      + ("\"published_at\":\"" + (stamp + ("\"," + ("\"correlation_id\":"
      + (Dumps(IdValue(id)) + ("," + ("\"errors\":[]," + ("\"payload\":" + end))))))))
  {
    Literals();
    Glue("{\"retry\":0,", "\"published_at\":\"", stamp, "\",", "\"correlation_id\":", Dumps(IdValue(id)),
      ",", "\"errors\":[],", "\"payload\":", end);
  }

  lemma BodyOfFour(a: Piece, b: Piece, c: Piece, d: Piece, name: string, raw: string)
    ensures Body([a, b, c, d], name, raw) ==
      Spliced(a.name, a.text + ("," + Spliced(b.name, b.text + ("," + Spliced(c.name, c.text + ("," +
        Spliced(d.name, d.text + ("," + Spliced(name, raw + "}")))))))))
  {
    assert [a, b, c, d][1..] == [b, c, d] && [b, c, d][1..] == [c, d] && [c, d][1..] == [d] && [d][1..] == [];
    assert Body([c, d], name, raw) == Spliced(c.name, c.text + ("," + Body([d], name, raw)));
  }

  lemma EnvelopeText(raw: string, stamp: Stamp, id: Option<string>)
    ensures BuildEnvelope(raw, stamp, id) == "{" + Body(Pieces(stamp, id), "payload", raw)
  {
    var ps := Pieces(stamp, id);
    BodyOfFour(ps[0], ps[1], ps[2], ps[3], "payload", raw);
    var end := raw + "}";
    PayloadText(end);
    var r4 := Spliced("payload", end);
    ErrorsText(r4);
    var r3 := Spliced("errors", "[]" + ("," + r4));
    IdText(ps[2].text, r3);
    var r2 := Spliced("correlation_id", ps[2].text + ("," + r3));
    StampText(stamp, r2);
    var r1 := Spliced("published_at", ps[1].text + ("," + r2));
    RetryText(r1);
    GlueEnvelope(stamp, id, end);
  }

  // ---------------------------------------------------------------- main results

  function Members(payload: Value, stamp: Stamp, id: Option<string>): seq<Member> {
    [Member("retry", JNumber("0")), Member("published_at", JString(stamp)), Member("correlation_id", IdValue(id)),
     Member("errors", JArray([])), Member("payload", payload)]
  }

  lemma MembersOfCons(p: Piece, ps: seq<Piece>, name: string, v: Value)
    ensures MembersOf([p] + ps, name, v) == [Member(p.name, p.value)] + MembersOf(ps, name, v)
  {
    assert ([p] + ps)[1..] == ps;
  }

  lemma MembersOfFour(a: Piece, b: Piece, c: Piece, d: Piece, name: string, v: Value)
    ensures MembersOf([a, b, c, d], name, v) == [Member(a.name, a.value), Member(b.name, b.value),
      Member(c.name, c.value), Member(d.name, d.value), Member(name, v)]
  {
    assert [a, b, c, d] == [a] + [b, c, d] && [b, c, d] == [b] + [c, d] && [c, d] == [c] + [d] && [d] == [d] + [];
    MembersOfCons(d, [], name, v);
    MembersOfCons(c, [d], name, v);
    MembersOfCons(b, [c, d], name, v);
    MembersOfCons(a, [b, c, d], name, v);
  }

  lemma MembersOfPieces(v: Value, stamp: Stamp, id: Option<string>)
    ensures MembersOf(Pieces(stamp, id), "payload", v) == Members(v, stamp, id)
  {
    var ps := Pieces(stamp, id);
    MembersOfFour(ps[0], ps[1], ps[2], ps[3], "payload", v);
  }

  lemma OpenBrace(s: string)
    requires s != "" && s[0] == '"' && ParseMembers(s).Got? && ParseMembers(s).rest == ""
    ensures Parse("{" + s) == Document(JObject(ParseMembers(s).value))
  {
    assert ("{" + s)[1..] == s;
  }

  lemma ObjectParses(ps: seq<Piece>, name: string, raw: string)
    requires AllSound(ps) && Plain(name) && Parse(raw).Document?
    ensures Parse("{" + Body(ps, name, raw)) == Document(JObject(MembersOf(ps, name, Parse(raw).value)))
  {
    PiecesParse(ps, name, raw);
    OpenBrace(Body(ps, name, raw));
  }

  lemma SplicedObject(raw: string, stamp: Stamp, id: Option<string>)
    requires Parse(raw).Document?
    ensures Parse(BuildEnvelope(raw, stamp, id))
      == Document(JObject(MembersOf(Pieces(stamp, id), "payload", Parse(raw).value)))
  {
    EnvelopeText(raw, stamp, id);
    PiecesSound(stamp, id);
    ObjectParses(Pieces(stamp, id), "payload", raw);
  }

  /** Whatever well-formed text is spliced in, the envelope is one object with exactly these five members. */
  lemma SpliceRoundTrip(raw: string, stamp: Stamp, id: Option<string>)
    requires Parse(raw).Document?
    ensures Parse(BuildEnvelope(raw, stamp, id)) == Document(JObject(Members(Parse(raw).value, stamp, id)))
    ensures Members(Parse(raw).value, stamp, id) == [
      Member("retry", JNumber("0")), Member("published_at", JString(stamp)),
      Member("correlation_id", if id.Some? then JString(id.value) else JNull),
      Member("errors", JArray([])), Member("payload", Parse(raw).value)]
  {
    SplicedObject(raw, stamp, id);
    MembersOfPieces(Parse(raw).value, stamp, id);
  }

  // ---------------------------------------------------------------- and only if

  function Readings(ps: seq<Piece>): seq<Member> {
    if ps == [] then [] else [Member(ps[0].name, ps[0].value)] + Readings(ps[1..])
  }

  lemma {:induction false} MembersOfIsReadings(ps: seq<Piece>, name: string, v: Value)
    ensures MembersOf(ps, name, v) == Readings(ps) + [Member(name, v)]
  {
    if ps != [] { MembersOfIsReadings(ps[1..], name, v); }
  }

  lemma SplicedMoreOnlyIf(name: string, text: string, v: Value, more: string)
    requires Plain(name) && text != "" && !IsSpace(text[0]) && more != "" && !IsSpace(more[0])
    requires ParseValue(text + ("," + more)) == Got(v, "," + more)
    requires ParseMembers(Spliced(name, text + ("," + more))).Got?
    ensures ParseMembers(more).Got?
    ensures ParseMembers(Spliced(name, text + ("," + more)))
      == Got([Member(name, v)] + ParseMembers(more).value, ParseMembers(more).rest)
  {
    var rest := text + ("," + more);
    assert SkipSpace(rest) == rest;
    SplicedMember(name, rest);
    NextIs(',', more);
  }

  lemma ConsConcat(m: Member, a: seq<Member>, b: seq<Member>)
    ensures [m] + (a + b) == [m] + a + b
  {
  }

  lemma Cancel(a: seq<Member>, b: seq<Member>, c: seq<Member>)
    requires a + b == a + c
    ensures b == c
  {
    assert b == (a + b)[|a|..] && c == (a + c)[|a|..];
  }

  // The fixed members are read whatever the body is; what is left to the body is the last member.
  lemma {:induction false} PiecesLeaveTheBody(ps: seq<Piece>, name: string, raw: string)
    requires AllSound(ps) && Plain(name) && ParseMembers(Body(ps, name, raw)).Got?
    ensures ParseMembers(Spliced(name, raw + "}")).Got?
    ensures var last := ParseMembers(Spliced(name, raw + "}"));
      ParseMembers(Body(ps, name, raw)) == Got(Readings(ps) + last.value, last.rest)
  {
    if ps == [] {
      var last := ParseMembers(Spliced(name, raw + "}"));
      assert Readings(ps) + last.value == last.value;
    } else {
      var more := Body(ps[1..], name, raw);
      SoundPiece(ps[0], more);
      SplicedMoreOnlyIf(ps[0].name, ps[0].text, ps[0].value, more);
      PiecesLeaveTheBody(ps[1..], name, raw);
      ConsConcat(Member(ps[0].name, ps[0].value), Readings(ps[1..]), ParseMembers(Spliced(name, raw + "}")).value);
    }
  }

  // A single last member can only be read if what was spliced in is a text of its own.
  lemma LoneMemberIsADocument(name: string, raw: string)
    requires Plain(name) && ParseMembers(Spliced(name, raw + "}")).Got?
    requires |ParseMembers(Spliced(name, raw + "}")).value| == 1
      && SkipSpace(ParseMembers(Spliced(name, raw + "}")).rest) == ""
    ensures G.WellFormed(raw, ParseMembers(Spliced(name, raw + "}")).value[0].value)
  {
    var s, u := Spliced(name, raw + "}"), SkipSpace(raw + "}");
    var end := ParseMembers(s).rest;
    LoneMemberParses(name, raw);
    var v := G.DeriveValue(u);
    var rest := ParseValue(u).rest;
    var before, after := G.Leading(raw + "}"), G.Leading(rest);
    G.NextDerives(rest);
    G.TextConcat(v, after, "}" + end);
    var text := before + G.Text(v, after);
    assert raw + "}" == text + ("}" + end);
    LastBrace(raw, text, end);
    assert G.Writes(before, v, after, raw, ParseValue(u).value);
  }

  lemma LoneMemberParses(name: string, raw: string)
    requires Plain(name) && ParseMembers(Spliced(name, raw + "}")).Got?
    requires |ParseMembers(Spliced(name, raw + "}")).value| == 1
    ensures var u := SkipSpace(raw + "}");
      && ParseValue(u).Got? && Next(ParseValue(u).rest) == Got('}', ParseMembers(Spliced(name, raw + "}")).rest)
      && ParseMembers(Spliced(name, raw + "}")).value[0].value == ParseValue(u).value
  {
    var rest := raw + "}";
    PlainBody(name, ":" + rest);
    assert Spliced(name, rest)[1..] == name + ("\"" + (":" + rest));
    NextIs(':', rest);
    SplicedMember(name, rest);
  }

  lemma LastOf(text: string, end: string)
    requires forall k :: 0 <= k < |end| ==> IsSpace(end[k])
    ensures end != "" ==> IsSpace((text + ("}" + end))[|text| + |end|])
  {
  }

  lemma LastBrace(raw: string, text: string, end: string)
    requires raw + "}" == text + ("}" + end) && SkipSpace(end) == ""
    ensures end == "" && raw == text
  {
    AllSpace(end);
    LastOf(text, end);
    assert (raw + "}")[|raw|] == '}' && |raw| == |text| + |end|;
    assert raw == (raw + "}")[..|raw|];
    assert text == (text + ("}" + end))[..|text|];
  }

  lemma {:induction false} AllSpace(s: string)
    requires SkipSpace(s) == ""
    ensures forall k :: 0 <= k < |s| ==> IsSpace(s[k])
  {
    if s != "" { AllSpace(s[1..]); }
  }

  /** Exactly the well-formed bodies make clean envelopes: the envelope is a text of the grammar that means the five
      members with payload `x` if and only if the body is a text of the grammar that means `x`. */
  lemma SpliceIsExact(raw: string, x: Value, stamp: Stamp, id: Option<string>)
    ensures G.WellFormed(BuildEnvelope(raw, stamp, id), JObject(Members(x, stamp, id))) <==> G.WellFormed(raw, x)
  {
    var text := BuildEnvelope(raw, stamp, id);
    G.ParserIsTheGrammar(text, JObject(Members(x, stamp, id)));
    G.ParserIsTheGrammar(raw, x);
    if Parse(raw) == Document(x) {
      SpliceRoundTrip(raw, stamp, id);
    }
    if Parse(text) == Document(JObject(Members(x, stamp, id))) {
      CleanEnvelopeHasAWellFormedBody(raw, x, stamp, id);
    }
  }

  lemma CleanEnvelopeHasAWellFormedBody(raw: string, x: Value, stamp: Stamp, id: Option<string>)
    requires Parse(BuildEnvelope(raw, stamp, id)) == Document(JObject(Members(x, stamp, id)))
    ensures G.WellFormed(raw, x)
  {
    CleanEnvelopeIsCleanBody(raw, x, stamp, id);
    PiecesSound(stamp, id);
    PayloadIsPlain();
    BodyDecides(Pieces(stamp, id), "payload", raw, x);
  }

  lemma PayloadIsPlain()
    ensures Plain("payload")
  {
  }

  lemma CleanEnvelopeIsCleanBody(raw: string, x: Value, stamp: Stamp, id: Option<string>)
    requires Parse(BuildEnvelope(raw, stamp, id)) == Document(JObject(Members(x, stamp, id)))
    ensures Parse("{" + Body(Pieces(stamp, id), "payload", raw))
      == Document(JObject(MembersOf(Pieces(stamp, id), "payload", x)))
  {
    EnvelopeText(raw, stamp, id);
    MembersOfPieces(x, stamp, id);
  }

  lemma OpenBraceOnlyIf(s: string, ms: seq<Member>)
    requires s != "" && s[0] == '"' && Parse("{" + s) == Document(JObject(ms))
    ensures ParseMembers(s).Got? && ParseMembers(s).value == ms && SkipSpace(ParseMembers(s).rest) == ""
  {
    assert ("{" + s)[1..] == s;
  }

  lemma BodyDecides(ps: seq<Piece>, name: string, raw: string, x: Value)
    requires AllSound(ps) && Plain(name) && Parse("{" + Body(ps, name, raw))
      == Document(JObject(MembersOf(ps, name, x)))
    ensures G.WellFormed(raw, x)
  {
    OpenBraceOnlyIf(Body(ps, name, raw), MembersOf(ps, name, x));
    PiecesLeaveTheBody(ps, name, raw);
    MembersOfIsReadings(ps, name, x);
    var last := ParseMembers(Spliced(name, raw + "}"));
    Cancel(Readings(ps), last.value, [Member(name, x)]);
    LoneMemberIsADocument(name, raw);
  }

  // ---------------------------------------------------------------- the API's side and the consumer's

  // What validate_batch has seen: a non-empty array of at most 500 objects.
  predicate AcceptedBody(raw: string) {
    Parse(raw).Document? && Parse(raw).value.JArray? && ObjectsOnly(Parse(raw).value.elements)
    && 1 <= |Parse(raw).value.elements| <= MAX_BATCH_ITEMS
  }

  lemma FieldCons(m: Member, ms: seq<Member>, name: string)
    ensures Field([m] + ms, name) ==
      if Field(ms, name).Some? then Field(ms, name) else if m.name == name then Some(m.value) else None
  {
    assert ([m] + ms)[1..] == ms;
  }

  lemma FieldOfFive(a: Member, b: Member, c: Member, d: Member, e: Member, m: Member)
    requires m in [a, b, c, d, e]
    requires a.name != b.name && a.name != c.name && a.name != d.name && a.name != e.name
    requires b.name != c.name && b.name != d.name && b.name != e.name && c.name != d.name && c.name != e.name
      && d.name != e.name
    ensures Field([a, b, c, d, e], m.name) == Some(m.value)
  {
    var n := m.name;
    assert [a, b, c, d, e] == [a] + [b, c, d, e] && [b, c, d, e] == [b] + [c, d, e];
    assert [c, d, e] == [c] + [d, e] && [d, e] == [d] + [e] && [e] == [e] + [];
    FieldCons(a, [b, c, d, e], n);
    FieldCons(b, [c, d, e], n);
    FieldCons(c, [d, e], n);
    FieldCons(d, [e], n);
    FieldCons(e, [], n);
  }

  lemma FieldsOfEnvelope(v: Value, stamp: Stamp, id: Option<string>)
    ensures var ms := Members(v, stamp, id);
      && Field(ms, "retry") == Some(JNumber("0")) && Field(ms, "published_at") == Some(JString(stamp))
      && Field(ms, "correlation_id") == Some(IdValue(id)) && Field(ms, "errors") == Some(JArray([]))
      && Field(ms, "payload") == Some(v)
  {
    var ms := Members(v, stamp, id);
    FieldsByName(ms[0], ms[1], ms[2], ms[3], ms[4]);
  }

  /** The consumer reads back a first attempt with the very correlation id, no errors and the body's own items. */
  lemma ConsumerReadsWhatTheApiAccepted(raw: string, stamp: Stamp, id: Option<string>)
    requires Parse(raw).Document? && Parse(raw).value.JArray?
    requires 1 <= |Parse(raw).value.elements| <= 500 && forall v :: v in Parse(raw).value.elements ==> v.JObject?
    ensures AcceptedBody(raw)
    ensures Read(BuildEnvelope(raw, stamp, id)) == Some(Request(0, stamp, id, [], Parse(raw).value.elements))
  {
    SpliceRoundTrip(raw, stamp, id);
    FieldsOfEnvelope(Parse(raw).value, stamp, id);
    OneDigit('0');
  }

  /** And any later attempt, as the publisher writes it when it requeues an item: the retry count, the stamp, the id,
      the history and the items are each read from the field of that name. */
  lemma EachFieldIsRead(text: string, retry: string, stamp: string, id: Value, errors: seq<Value>, items: seq<Value>)
    requires Parse(text) == Document(JObject([
      Member("retry", JNumber(retry)), Member("published_at", JString(stamp)), Member("correlation_id", id),
      Member("errors", JArray(errors)), Member("payload", JArray(items))]))
    requires AllDigits(retry) && (id.JNull? || id.JString?)
    requires |items| <= 500 && forall v :: v in items ==> v.JObject?
    ensures Read(text) ==
      Some(Request(NatOf(retry), stamp, if id.JString? then Some(id.text) else None, errors, items))
  {
    var ms := Parse(text).value.members;
    FieldsByName(ms[0], ms[1], ms[2], ms[3], ms[4]);
  }

  lemma FieldsByName(a: Member, b: Member, c: Member, d: Member, e: Member)
    requires a.name == "retry" && b.name == "published_at" && c.name == "correlation_id"
    requires d.name == "errors" && e.name == "payload"
    ensures var ms := [a, b, c, d, e];
      && Field(ms, "retry") == Some(a.value) && Field(ms, "published_at") == Some(b.value)
      && Field(ms, "correlation_id") == Some(c.value) && Field(ms, "errors") == Some(d.value)
      && Field(ms, "payload") == Some(e.value)
  {
    assert |"retry"| == 5 && |"published_at"| == 12 && |"correlation_id"| == 14 && |"errors"| == 6 && |"payload"| == 7;
    FieldOfFive(a, b, c, d, e, a);
    FieldOfFive(a, b, c, d, e, b);
    FieldOfFive(a, b, c, d, e, c);
    FieldOfFive(a, b, c, d, e, d);
    FieldOfFive(a, b, c, d, e, e);
  }

  /** What is not an envelope is refused: no text, no object, a field missing or of another kind, too many items. */
  lemma OtherTextsAreRefused(text: string)
    ensures Parse(text).Malformed? ==> Read(text).None?
    ensures Read(text).Some? ==>
      && Parse(text).Document? && Parse(text).value.JObject?
      && |Read(text).value.payload| <= 500 && forall v :: v in Read(text).value.payload ==> v.JObject?
  {
  }

  // ---------------------------------------------------------------- the payload member's own text

  function PlainForms(name: string): (fs: seq<G.CharForm>)
    ensures |fs| == |name| && forall k :: 0 <= k < |name| ==> fs[k] == G.CharForm.Plain(name[k])
  {
    seq(|name|, k requires 0 <= k < |name| => G.CharForm.Plain(name[k]))
  }

  lemma {:induction false} PlainFormsText(name: string, t: string)
    requires Plain(name)
    ensures G.CharsOk(PlainForms(name)) && G.CharsOf(PlainForms(name)) == name
    ensures G.CharsText(PlainForms(name), t) == name + ("\"" + t)
    decreases |name|
  {
    if name == "" {
      assert name + ("\"" + t) == "\"" + t;
    } else {
      PlainFormsText(name[1..], t);
      assert PlainForms(name)[1..] == PlainForms(name[1..]);
      assert name == [name[0]] + name[1..];
      G.Assoc([name[0]], name[1..], "\"" + t);
    }
  }

  lemma SplicedField(name: string, e: G.Element, t: string) returns (f: G.Field)
    requires Plain(name) && G.ElementOk(e)
    ensures G.FieldOk(f) && f.element == e && G.CharsOf(f.name) == name
    ensures G.FieldText(f, t) == Spliced(name, G.ElementText(e, t))
  {
    PlainFormsText(name, "" + (":" + G.ElementText(e, t)));
    f := G.Field("", PlainForms(name), "", e);
    assert "" + (":" + G.ElementText(e, t)) == ":" + G.ElementText(e, t);
    assert "" + ("\"" + (name + ("\"" + (":" + G.ElementText(e, t))))) == Spliced(name, G.ElementText(e, t));
  }

  lemma BodyElement(raw: string) returns (e: G.Element)
    requires Parse(raw).Document?
    ensures G.ElementOk(e) && G.ElementText(e, "") == raw && G.ElementText(e, "}") == raw + "}"
    ensures G.Meaning(e.value) == Parse(raw).value
  {
    var v := G.DeriveValue(SkipSpace(raw));
    var after := ParseValue(SkipSpace(raw)).rest;
    assert after == G.Leading(after) + "";
    e := G.Element(G.Leading(raw), v, after);
    assert after + "" == after;
    G.ElementConcat(e, "", "}");
    assert "" + "}" == "}";
  }

  lemma PieceElement(p: Piece) returns (e: G.Element)
    requires Sound(p)
    ensures G.ElementOk(e) && G.Meaning(e.value) == p.value
    ensures forall t: string :: G.ElementText(e, t) == p.text + t
  {
    assert p.text + "" == p.text && ParseValue(p.text + "") == Got(p.value, "");
    var v := G.DeriveValue(p.text);
    e := G.Element("", v, "");
    forall t: string ensures G.ElementText(e, t) == p.text + t {
      G.TextConcat(v, "", t);
      assert "" + t == t && "" + G.Text(v, t) == G.Text(v, t);
    }
  }

  lemma PieceField(p: Piece, t: string) returns (f: G.Field)
    requires Sound(p)
    ensures G.FieldOk(f) && G.FieldOf(f) == Member(p.name, p.value) && G.FieldText(f, t) == Spliced(p.name, p.text + t)
  {
    var e := PieceElement(p);
    f := SplicedField(p.name, e, t);
  }

  // The envelope's derivation: the pieces' fields, and last the field whose element is the body.
  lemma {:induction false} PiecesDerive(ps: seq<Piece>, name: string, raw: string) returns (fs: seq<G.Field>)
    requires AllSound(ps) && Plain(name) && Parse(raw).Document?
    ensures |fs| == |ps| + 1 && (forall k :: 0 <= k < |fs| ==> G.FieldOk(fs[k]))
    ensures G.FieldsText(fs, "") == Body(ps, name, raw) && G.FieldsOf(fs) == MembersOf(ps, name, Parse(raw).value)
    ensures G.CharsOf(fs[|ps|].name) == name && G.ElementText(fs[|ps|].element, "") == raw
    ensures G.ElementText(fs[|ps|].element, "}") == raw + "}"
    decreases |ps|
  {
    if ps == [] {
      var e := BodyElement(raw);
      var f := SplicedField(name, e, "}" + "");
      assert "}" + "" == "}";
      fs := [f];
      assert G.FieldsOf(fs) == [G.FieldOf(f)];
    } else {
      var more := PiecesDerive(ps[1..], name, raw);
      var f := PieceField(ps[0], "," + G.FieldsText(more, ""));
      fs := [f] + more;
      G.FieldsCons(f, more, "");
      assert fs[|ps|] == more[|ps| - 1];
    }
  }

  /** The envelope is derived as an object of five fields whose fifth is named `payload` and has for its text the
      request body, character for character; that text is all that stands between the prefix and the last brace. */
  lemma PayloadMemberIsTheBody(raw: string, stamp: Stamp, id: Option<string>) returns (fields: seq<G.Field>)
    requires Parse(raw).Document?
    ensures |fields| == 5 && G.Ok(G.Obj(fields, "")) && G.Text(G.Obj(fields, ""), "") == BuildEnvelope(raw, stamp, id)
    ensures G.Meaning(G.Obj(fields, "")) == JObject(Members(Parse(raw).value, stamp, id))
    ensures G.FieldOk(fields[4]) && G.CharsOf(fields[4].name) == "payload"
      && G.ElementText(fields[4].element, "") == raw
    ensures BuildEnvelope(raw, stamp, id) == Prefix(stamp, id) + G.ElementText(fields[4].element, "}")
  {
    PiecesSound(stamp, id);
    fields := PiecesDerive(Pieces(stamp, id), "payload", raw);
    EnvelopeText(raw, stamp, id);
    MembersOfPieces(Parse(raw).value, stamp, id);
    G.Assoc(Prefix(stamp, id), raw, "}");
  }

  // ---------------------------------------------------------------- why the body must be validated first

  // A body that is no JSON text, yet closes the payload and opens a member of its own.
  const SMUGGLED := "[],\"retry\":4"

  lemma SmuggledTail()
    ensures SMUGGLED + "}" == "[]" + ("," + Spliced("retry", "4" + "}"))
  {
  }

  lemma SmuggledText(stamp: Stamp, id: Option<string>)
    ensures BuildEnvelope(SMUGGLED, stamp, id) == "{"
      + Body(Pieces(stamp, id) + [Piece("payload", "[]", JArray([]))], "retry", "4")
  {
    var ps, p := Pieces(stamp, id), Piece("payload", "[]", JArray([]));
    EnvelopeText(SMUGGLED, stamp, id);
    SmuggledTail();
    BodyOfFour(ps[0], ps[1], ps[2], ps[3], "payload", SMUGGLED);
    BodyOfFive(ps[0], ps[1], ps[2], ps[3], p, "retry", "4");
    assert ps + [p] == [ps[0], ps[1], ps[2], ps[3], p];
  }

  lemma BodyOfFive(a: Piece, b: Piece, c: Piece, d: Piece, e: Piece, name: string, raw: string)
    ensures Body([a, b, c, d, e], name, raw) ==
      Spliced(a.name, a.text + ("," + Spliced(b.name, b.text + ("," + Spliced(c.name, c.text + ("," +
        Spliced(d.name, d.text + ("," + Spliced(e.name, e.text + ("," + Spliced(name, raw + "}")))))))))))
  {
    assert [a, b, c, d, e][1..] == [b, c, d, e];
    BodyOfFour(b, c, d, e, name, raw);
  }

  lemma {:induction false} FieldSnoc(ms: seq<Member>, m: Member, name: string)
    ensures Field(ms + [m], name) == if m.name == name then Some(m.value) else Field(ms, name)
  {
    if ms == [] {
      assert ms + [m] == [m] + [];
      FieldCons(m, [], name);
    } else {
      assert ms + [m] == [ms[0]] + (ms[1..] + [m]);
      FieldCons(ms[0], ms[1..] + [m], name);
      FieldSnoc(ms[1..], m, name);
    }
  }

  lemma {:induction false} MembersOfSnoc(ps: seq<Piece>, p: Piece, name: string, v: Value)
    ensures MembersOf(ps + [p], name, v) == MembersOf(ps, p.name, p.value) + [Member(name, v)]
  {
    if ps == [] {
      assert ps + [p] == [p] + [];
      MembersOfCons(p, [], name, v);
    } else {
      assert ps + [p] == [ps[0]] + (ps[1..] + [p]);
      MembersOfCons(ps[0], ps[1..] + [p], name, v);
      MembersOfSnoc(ps[1..], p, name, v);
    }
  }

  lemma OneMorePiece(ps: seq<Piece>, p: Piece, name: string, raw: string)
    requires AllSound(ps) && Sound(p) && Plain(name) && Parse(raw).Document?
    ensures Parse("{" + Body(ps + [p], name, raw))
      == Document(JObject(MembersOf(ps, p.name, p.value) + [Member(name, Parse(raw).value)]))
  {
    ObjectParses(ps + [p], name, raw);
    MembersOfSnoc(ps, p, name, Parse(raw).value);
  }

  lemma SmuggledParse(stamp: Stamp, id: Option<string>)
    ensures Parse(BuildEnvelope(SMUGGLED, stamp, id))
      == Document(JObject(Members(JArray([]), stamp, id) + [Member("retry", JNumber("4"))]))
  {
    var p := Piece("payload", "[]", JArray([]));
    SmuggledText(stamp, id);
    PiecesSound(stamp, id);
    DumpedSound(p);
    DocumentRoundTrip(JNumber("4"));
    OneMorePiece(Pieces(stamp, id), p, "retry", "4");
    MembersOfPieces(JArray([]), stamp, id);
  }

  lemma SmuggledFields(stamp: Stamp, id: Option<string>)
    ensures var ms := Members(JArray([]), stamp, id) + [Member("retry", JNumber("4"))];
      && Field(ms, "retry") == Some(JNumber("4")) && Field(ms, "published_at") == Some(JString(stamp))
      && Field(ms, "correlation_id") == Some(IdValue(id)) && Field(ms, "errors") == Some(JArray([]))
      && Field(ms, "payload") == Some(JArray([]))
  {
    var ms, m := Members(JArray([]), stamp, id), Member("retry", JNumber("4"));
    FieldsOfEnvelope(JArray([]), stamp, id);
    assert |"retry"| == 5 && |"published_at"| == 12 && |"correlation_id"| == 14 && |"errors"| == 6 && |"payload"| == 7;
    FieldSnoc(ms, m, "retry");
    FieldSnoc(ms, m, "published_at");
    FieldSnoc(ms, m, "correlation_id");
    FieldSnoc(ms, m, "errors");
    FieldSnoc(ms, m, "payload");
  }

  lemma SmuggledIsMalformed()
    ensures Parse(SMUGGLED).Malformed?
  {
    assert SMUGGLED[1..] == "],\"retry\":4";
  }

  /** The splice is safe only for a well-formed body: this one, unparsed, would be read as a fifth attempt. */
  lemma UnvalidatedBodyCanOverwriteTheRetryCount(stamp: Stamp, id: Option<string>)
    ensures Parse(SMUGGLED).Malformed?
    ensures Read(BuildEnvelope(SMUGGLED, stamp, id)) == Some(Request(4, stamp, id, [], []))
  {
    SmuggledIsMalformed();
    SmuggledParse(stamp, id);
    SmuggledFields(stamp, id);
    OneDigit('4');
  }
}
