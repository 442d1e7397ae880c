/** Bytes, and the UTF-8 form of a text (RFC 3629, section 3). */
module Utf8 {

  newtype byte = n: int | 0 <= n < 256

  function EncodeChar(c: char): (r: seq<byte>)
    ensures 1 <= |r| <= 4 && (c as int < 0x80 <==> |r| == 1)
  {
    var n := c as int;
    if n < 0x80 then [n as byte]
    else if n < 0x800 then [(0xC0 + n / 0x40) as byte, (0x80 + n % 0x40) as byte]
    else if n < 0x1_0000 then
      [(0xE0 + n / 0x1000) as byte, (0x80 + n / 0x40 % 0x40) as byte, (0x80 + n % 0x40) as byte]
    else
      [(0xF0 + n / 0x4_0000) as byte, (0x80 + n / 0x1000 % 0x40) as byte,
       (0x80 + n / 0x40 % 0x40) as byte, (0x80 + n % 0x40) as byte]
  }

  function Encode(s: string): seq<byte> {
    if s == "" then [] else EncodeChar(s[0]) + Encode(s[1..])
  }

  predicate IsAscii(s: string) { forall k :: 0 <= k < |s| ==> s[k] as int < 0x80 }

  lemma {:induction false} EncodeConcat(a: string, b: string)
    ensures Encode(a + b) == Encode(a) + Encode(b)
  {
    if a == "" {
      assert a + b == b;
    } else {
      assert (a + b)[1..] == a[1..] + b;
      EncodeConcat(a[1..], b);
    }
  }

  // The code point that a lead byte and its continuation bytes spell.
  function CodePoint(r: seq<byte>): int {
    if |r| == 1 then r[0] as int
    else if |r| == 2 then (r[0] as int - 0xC0) * 0x40 + (r[1] as int - 0x80)
    else if |r| == 3 then (r[0] as int - 0xE0) * 0x1000 + (r[1] as int - 0x80) * 0x40 + (r[2] as int - 0x80)
    else if |r| == 4 then
      (r[0] as int - 0xF0) * 0x4_0000 + (r[1] as int - 0x80) * 0x1000 + (r[2] as int - 0x80) * 0x40
          + (r[3] as int - 0x80)
    else -1
  }

  /** Each character's bytes are the shortest form that spells it: lead byte by length, then continuation bytes. */
  lemma EveryCharIsSpelled(c: char)
    ensures CodePoint(EncodeChar(c)) == c as int
    ensures var r, n := EncodeChar(c), c as int;
      && |r| == (if n < 0x80 then 1 else if n < 0x800 then 2 else if n < 0x1_0000 then 3 else 4)
      && (forall k :: 1 <= k < |r| ==> 0x80 <= r[k] as int < 0xC0)
      && (|r| == 2 ==> 0xC2 <= r[0] as int < 0xE0)
      && (|r| == 3 ==> 0xE0 <= r[0] as int < 0xF0)
      && (|r| == 4 ==> 0xF0 <= r[0] as int < 0xF8)
  {
    var n := c as int;
    var a, b := n / 0x40, n / 0x40 / 0x40;
    Nested(n, 0x40);
    Nested(a, 0x40);
    Quotients(n);
  }

  lemma Nested(n: nat, d: nat)
    requires d > 0
    ensures n == n / d * d + n % d
  {
  }

  lemma Quotients(n: nat)
    ensures n / 0x1000 == n / 0x40 / 0x40 && n / 0x4_0000 == n / 0x1000 / 0x40
    ensures n / 0x1000 == n / 0x4_0000 * 0x40 + n / 0x1000 % 0x40
  {
  }

  lemma {:induction false} AsciiLength(s: string)
    requires IsAscii(s)
    ensures |Encode(s)| == |s|
  {
    if s != "" { AsciiLength(s[1..]); }
  }
}
