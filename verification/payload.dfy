/** What bounds a Request message: the counting body reader, the correlation id, and the spliced bytes. */
module Payload {
  import opened Utf8
  import opened Json
  import opened JsonPrinter
  import opened Models
  import EnvelopeSplice

  const MAX_BODY_BYTES: nat := 1_048_576
  const KAFKA_MAX_MESSAGE_BYTES: nat := 2_097_152
  const MAX_CORRELATION_ID_LENGTH: nat := 128
  // x-request-id
  const HEADER_NAME: seq<byte> := [120, 45, 114, 101, 113, 117, 101, 115, 116, 45, 105, 100]

  // One MiB of body, two of message.
  lemma BoundsAre()
    ensures MAX_BODY_BYTES == 1024 * 1024 && KAFKA_MAX_MESSAGE_BYTES == 2 * 1024 * 1024
  {
  }

  // ---------------------------------------------------------------- read_capped

  datatype Body = Body(bytes: seq<byte>) | PayloadTooLarge

  function Concat(chunks: seq<seq<byte>>): seq<byte> {
    if chunks == [] then [] else Concat(chunks[..|chunks| - 1]) + chunks[|chunks| - 1]
  }

  // The chunks, one after the other.
  lemma {:induction false} ConcatIsAll(chunks: seq<seq<byte>>, more: seq<seq<byte>>)
    ensures Concat(chunks + more) == Concat(chunks) + Concat(more)
    ensures forall chunk: seq<byte> :: Concat([chunk]) == chunk
    decreases |more|
  {
    forall chunk: seq<byte> ensures Concat([chunk]) == chunk {
      assert [chunk][..0] == [];
    }
    if more == [] {
      assert chunks + more == chunks;
    } else {
      var front := more[..|more| - 1];
      assert (chunks + more)[..|chunks + more| - 1] == chunks + front;
      ConcatIsAll(chunks, front);
    }
  }

  lemma {:induction false} ConcatGrows(chunks: seq<seq<byte>>, n: nat)
    requires n <= |chunks|
    ensures |Concat(chunks[..n])| <= |Concat(chunks)|
    decreases |chunks|
  {
    if n < |chunks| {
      assert chunks[..|chunks| - 1][..n] == chunks[..n];
      ConcatGrows(chunks[..|chunks| - 1], n);
    } else {
      assert chunks[..n] == chunks;
    }
  }

  /** The whole body exactly when it is within the ceiling. Whatever arrives, no more than the ceiling is
      ever buffered, and the chunk that crosses it is the last one asked for. */
  method ReadCapped(stream: seq<seq<byte>>) returns (body: Body, chunks: seq<seq<byte>>, asked: nat)
    ensures body == if |Concat(stream)| <= MAX_BODY_BYTES then Body(Concat(stream)) else PayloadTooLarge
    ensures chunks <= stream && |Concat(chunks)| <= MAX_BODY_BYTES
    ensures body.Body? ==> asked == |chunks| == |stream|
    ensures body.PayloadTooLarge? ==> asked == |chunks| + 1 <= |stream| && |Concat(stream[..asked])| > MAX_BODY_BYTES
  {
    chunks, asked := [], 0;
    var total := 0;
    while asked < |stream|
      invariant asked <= |stream| && chunks == stream[..asked]
      invariant total == |Concat(chunks)| <= MAX_BODY_BYTES
    {
      var chunk := stream[asked];
      asked := asked + 1;
      assert stream[..asked][..asked - 1] == chunks && stream[..asked] == chunks + [chunk];
      total := total + |chunk|;
      if total > MAX_BODY_BYTES {
        ConcatGrows(stream, asked);
        return PayloadTooLarge, chunks, asked;
      }
      chunks := chunks + [chunk];
    }
    assert chunks == stream;
    body := Body(Concat(chunks));
  }

  // ---------------------------------------------------------------- _extract_or_generate_correlation_id

  function LowerByte(b: byte): byte { if 65 <= b <= 90 then b + 32 else b }

  function Lower(s: seq<byte>): seq<byte> { seq(|s|, i requires 0 <= i < |s| => LowerByte(s[i])) }

  // value.decode("latin-1"): one character per byte, always defined.
  function Latin1(s: seq<byte>): (r: string)
    ensures |r| == |s| && forall k :: 0 <= k < |r| ==> r[k] as int == s[k] as int
  {
    seq(|s|, i requires 0 <= i < |s| => s[i] as int as char)
  }

  predicate IsCorrelationHeader(name: seq<byte>) { Lower(name) == HEADER_NAME }

  type Headers = seq<(seq<byte>, seq<byte>)>

  // The index of the first correlation header, or |headers|.
  function FirstHeader(headers: Headers): (i: nat)
    ensures i <= |headers|
    ensures i < |headers| ==> IsCorrelationHeader(headers[i].0)
    ensures forall k :: 0 <= k < i ==> !IsCorrelationHeader(headers[k].0)
  {
    if headers == [] || IsCorrelationHeader(headers[0].0) then 0
    else
      assert forall k :: 1 <= k < |headers| ==> headers[k] == headers[1..][k - 1];
      1 + FirstHeader(headers[1..])
  }

  predicate Usable(id: string) { id != "" && '\r' !in id && '\n' !in id }

  // Only the first correlation header is looked at, cut to 128 characters before it is judged.
  function CorrelationId(headers: Headers, generated: string): string {
    var i := FirstHeader(headers);
    if i < |headers| && Usable(Upto(Latin1(headers[i].1), MAX_CORRELATION_ID_LENGTH))
    then Upto(Latin1(headers[i].1), MAX_CORRELATION_ID_LENGTH)
    else generated
  }

  method ExtractOrGenerate(headers: Headers, generated: string) returns (id: string)
    ensures id == CorrelationId(headers, generated)
  {
    var i := 0;
    while i < |headers|
      invariant i <= |headers| && forall k :: 0 <= k < i ==> !IsCorrelationHeader(headers[k].0)
    {
      if IsCorrelationHeader(headers[i].0) {
        var decoded := Latin1(headers[i].1);
        if decoded != "" {
          decoded := Upto(decoded, MAX_CORRELATION_ID_LENGTH);
          if '\r' !in decoded && '\n' !in decoded { return decoded; }
        }
        break;
      }
      i := i + 1;
    }
    id := generated;
  }

  // A header by this name in any case: x-request-id.
  predicate Named(name: seq<byte>) {
    |name| == 12 && forall k :: 0 <= k < 12 ==>
      name[k] == HEADER_NAME[k] || (97 <= HEADER_NAME[k] <= 122 && name[k] == HEADER_NAME[k] - 32)
  }

  lemma NamedInAnyCase(name: seq<byte>)
    ensures IsCorrelationHeader(name) <==> Named(name)
  {
    if Named(name) {
      assert Lower(name) == HEADER_NAME;
    } else if Lower(name) == HEADER_NAME {
      forall k | 0 <= k < 12 ensures LowerByte(name[k]) == HEADER_NAME[k] {
        assert Lower(name)[k] == HEADER_NAME[k];
      }
    }
  }

  lemma HeaderNameIs()
    ensures Latin1(HEADER_NAME) == "x-request-id"
  {
  }

  /** The rule itself: the first header of that name, in whatever case, decides. Its first 128 characters are the id if
      they are not empty and hold no line end; if it is unusable, or there is no such header, the generated id is. */
  lemma FirstHeaderDecides(headers: Headers, generated: string, i: nat)
    requires i <= |headers| && (forall k :: 0 <= k < i ==> !Named(headers[k].0))
      && (i < |headers| ==> Named(headers[i].0))
    ensures i == |headers| ==> CorrelationId(headers, generated) == generated
    ensures i < |headers| ==>
      var text := Latin1(headers[i].1);
      var cut := if |text| <= 128 then text else text[..128];
      CorrelationId(headers, generated) == if cut != "" && '\r' !in cut && '\n' !in cut then cut else generated
  {
    forall k | 0 <= k <= i && k < |headers| ensures IsCorrelationHeader(headers[k].0) <==> Named(headers[k].0) {
      NamedInAnyCase(headers[k].0);
    }
    assert FirstHeader(headers) == i;
  }

  // Up to 128 Latin-1 characters, no line ending: fit for a response header and for the envelope.
  predicate SafeId(id: string) {
    1 <= |id| <= MAX_CORRELATION_ID_LENGTH && Usable(id) && forall k :: 0 <= k < |id| ==> id[k] as int < 0x100
  }

  // str(uuid.uuid7())
  predicate UuidText(s: string) {
    |s| == 36 && forall k :: 0 <= k < |s| ==> s[k] == '-' || '0' <= s[k] <= '9' || 'a' <= s[k] <= 'f'
  }

  /** No header a client can send yields an id that is empty, long, not Latin-1, or able to split a response header. */
  lemma EveryIdIsSafe(headers: Headers, generated: string)
    requires UuidText(generated)
    ensures SafeId(CorrelationId(headers, generated))
    ensures var id := CorrelationId(headers, generated);
      1 <= |id| <= 128 && forall c :: c in id ==> c != '\r' && c != '\n' && c as int < 0x100
  {
    if CorrelationId(headers, generated) == generated {
      assert forall k :: 0 <= k < |generated| ==> generated[k] != '\r' && generated[k] != '\n';
    }
  }

  // ---------------------------------------------------------------- the size of the envelope

  function EnvelopeBytes(raw: seq<byte>, stamp: Stamp, id: Option<string>): seq<byte> {
    Encode(EnvelopeSplice.Prefix(stamp, id)) + raw + Encode("}")
  }

  /** The byte splice is the text splice: for a body that is the UTF-8 form of a text, splicing bytes and encoding
      commute. */
  lemma SplicingBytesIsSplicingText(text: string, stamp: Stamp, id: Option<string>)
    ensures EnvelopeBytes(Encode(text), stamp, id) == Encode(EnvelopeSplice.BuildEnvelope(text, stamp, id))
  {
    var prefix := EnvelopeSplice.Prefix(stamp, id);
    EncodeConcat(prefix + text, "}");
    EncodeConcat(prefix, text);
  }

  lemma EscapeCharIsShort(c: char)
    ensures IsAscii(EscapeChar(c))
    ensures |EscapeChar(c)| <= if c as int < 0x1_0000 then 6 else 12
  {
  }

  lemma {:induction false} EscapeAllIsShort(s: string)
    ensures IsAscii(EscapeAll(s))
    ensures (forall k :: 0 <= k < |s| ==> s[k] as int < 0x1_0000) ==> |EscapeAll(s)| <= 6 * |s|
  {
    if s != "" {
      EscapeCharIsShort(s[0]);
      EscapeAllIsShort(s[1..]);
    }
  }

  lemma AsciiConcat(a: string, b: string)
    requires IsAscii(a) && IsAscii(b)
    ensures IsAscii(a + b)
  {
  }

  lemma IdIsShort(id: Option<string>)
    requires id.Some? ==> SafeId(id.value)
    ensures IsAscii(Dumps(EnvelopeSplice.IdValue(id)))
    ensures |Dumps(EnvelopeSplice.IdValue(id))| <= 2 + 6 * MAX_CORRELATION_ID_LENGTH
  {
    if id.Some? {
      EscapeAllIsShort(id.value);
      AsciiConcat("\"", EscapeAll(id.value));
      AsciiConcat("\"" + EscapeAll(id.value), "\"");
    }
  }

  lemma PrefixIsShort(stamp: Stamp, id: Option<string>)
    requires |stamp| <= 32 && (id.Some? ==> SafeId(id.value))
    ensures IsAscii(EnvelopeSplice.Prefix(stamp, id))
    ensures |EnvelopeSplice.Prefix(stamp, id)| <= 69 + 32 + 770
  {
    IdIsShort(id);
    var a, b, c := "{\"retry\":0,\"published_at\":\"", "\",\"correlation_id\":", ",\"errors\":[],\"payload\":";
    assert |a| == 27 && |b| == 19 && |c| == 23;
    assert IsAscii(a) && IsAscii(b) && IsAscii(c) && IsAscii(stamp);
    AsciiConcat(a, stamp);
    AsciiConcat(a + stamp, b);
    AsciiConcat(a + stamp + b, Dumps(EnvelopeSplice.IdValue(id)));
    AsciiConcat(a + stamp + b + Dumps(EnvelopeSplice.IdValue(id)), c);
  }

  /** Every accepted body, under every correlation id the middleware can hand over, makes a message the broker
      takes: the envelope adds fewer than a thousand bytes. (A UTC stamp is at most 32 characters.) */
  lemma AcceptedBodiesFitTheBroker(stream: seq<seq<byte>>, headers: Headers, generated: string, stamp: Stamp)
    requires |Concat(stream)| <= MAX_BODY_BYTES && UuidText(generated) && |stamp| <= 32
    ensures var size := |EnvelopeBytes(Concat(stream), stamp, Some(CorrelationId(headers, generated)))|;
      size <= |Concat(stream)| + 872 && size < KAFKA_MAX_MESSAGE_BYTES
  {
    var id := Some(CorrelationId(headers, generated));
    EveryIdIsSafe(headers, generated);
    PrefixIsShort(stamp, id);
    AsciiLength(EnvelopeSplice.Prefix(stamp, id));
    AsciiLength("}");
  }

  /** From the client's chunks to the consumer: a valid body, however it was split, is read back item for item. */
  lemma AcceptedBodiesReadBack(stream: seq<seq<byte>>, text: string, headers: Headers, generated: string, stamp: Stamp)
    requires Concat(stream) == Encode(text) && Parse(text).Document? && Parse(text).value.JArray?
    requires 1 <= |Parse(text).value.elements| <= 500 && forall v :: v in Parse(text).value.elements ==> v.JObject?
    ensures var id := Some(CorrelationId(headers, generated));
      var sent := EnvelopeSplice.BuildEnvelope(text, stamp, id);
      && EnvelopeBytes(Concat(stream), stamp, id) == Encode(sent)
      && EnvelopeSplice.Read(sent) == Some(EnvelopeSplice.Request(0, stamp, id, [], Parse(text).value.elements))
  {
    var id := Some(CorrelationId(headers, generated));
    SplicingBytesIsSplicingText(text, stamp, id);
    EnvelopeSplice.ConsumerReadsWhatTheApiAccepted(text, stamp, id);
  }

  /** With 128 characters that all need six bytes the bound is reached: 872 is exact. */
  lemma TheBoundIsReached(raw: seq<byte>, stamp: Stamp)
    requires |stamp| == 32
    ensures var id := seq(MAX_CORRELATION_ID_LENGTH, _ => 0xFF as char);
      SafeId(id) && |EnvelopeBytes(raw, stamp, Some(id))| == |raw| + 872
  {
    var id := seq(MAX_CORRELATION_ID_LENGTH, _ => 0xFF as char);
    SixEach(id);
    PrefixIsShort(stamp, Some(id));
    AsciiLength(EnvelopeSplice.Prefix(stamp, Some(id)));
    AsciiLength("}");
  }

  lemma {:induction false} SixEach(s: string)
    requires forall k :: 0 <= k < |s| ==> s[k] as int == 0xFF
    ensures |EscapeAll(s)| == 6 * |s|
  {
    if s != "" { SixEach(s[1..]); }
  }
}
