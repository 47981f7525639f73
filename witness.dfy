/** A library that satisfies `Sound`, so the results that assume it are not vacuous: the
    ciphers leave their input as it is, text is written in a fixed-width encoding of three octets
    per scalar value (big-endian; none exceeds 0x10FFFF), and a `NextHopPayload` is written as a
    JSON array of its four fields, each `null` or a string with `"` and `\` escaped. */
module Witness {
  import opened Wrappers
  import opened Bytes
  import opened Keys
  import opened NextHop
  import opened Platform

  function CharBytes(c: char): seq<byte> {
    var v := c as int;
    [v / 65536, (v / 256) % 256, v % 256]
  }

  /** A scalar value from three octets; `?` for a value that is not one. */
  function CharOfBytes(b0: byte, b1: byte, b2: byte): char {
    var v := b0 * 65536 + b1 * 256 + b2;
    if v < 0xD800 || 0xE000 <= v < 0x11_0000 then v as char else '?'
  }

  function TextEncode(t: string): seq<byte> {
    if t == [] then [] else CharBytes(t[0]) + TextEncode(t[1..])
  }

  function TextDecode(b: seq<byte>): string {
    if |b| < 3 then [] else [CharOfBytes(b[0], b[1], b[2])] + TextDecode(b[3..])
  }

  lemma CharRoundTrip(c: char)
    ensures var b := CharBytes(c); CharOfBytes(b[0], b[1], b[2]) == c
  {
    var v := c as int;
    assert v / 65536 * 65536 + (v / 256) % 256 * 256 + v % 256 == v;
  }

  lemma {:induction false} TextRoundTrip(t: string)
    ensures TextDecode(TextEncode(t)) == t
  {
    if t != [] {
      TextRoundTrip(t[1..]);
      DecodeFront(CharBytes(t[0]), TextEncode(t[1..]));
      CharRoundTrip(t[0]);
      assert [t[0]] + t[1..] == t;
    }
  }

  /** Three octets in front decode to one character in front. */
  lemma DecodeFront(b: seq<byte>, rest: seq<byte>)
    requires |b| == 3
    ensures TextDecode(b + rest) == [CharOfBytes(b[0], b[1], b[2])] + TextDecode(rest)
  {
    assert (b + rest)[3..] == rest;
  }

  /** The body of a JSON string: `"` and `\` preceded by `\`. */
  function Escape(t: string): string {
    if t == [] then [] else EscapeChar(t[0]) + Escape(t[1..])
  }

  function EscapeChar(c: char): string {
    if c == '"' || c == '\\' then ['\\', c] else [c]
  }

  /** Reads a string body up to its closing `"`: the text and what follows the quote. */
  function ParseString(s: string): Option<(string, string)>
    decreases |s|
  {
    if |s| == 0 then None
    else if s[0] == '"' then Some(([], s[1..]))
    else if s[0] == '\\' then
      if |s| < 2 then None
      else
        var r :- ParseString(s[2..]);
        Some(([s[1]] + r.0, r.1))
    else
      var r :- ParseString(s[1..]);
      Some(([s[0]] + r.0, r.1))
  }

  lemma {:induction false} ParseEscaped(t: string, rest: string)
    ensures ParseString(Escape(t) + ['"'] + rest) == Some((t, rest))
  {
    if t == [] {
      assert Escape(t) + ['"'] + rest == ['"'] + rest;
    } else {
      var tail := Escape(t[1..]) + ['"'] + rest;
      ParseEscaped(t[1..], rest);
      ParseEscapedChar(t[0], tail, t[1..], rest);
      assert Escape(t) + ['"'] + rest == EscapeChar(t[0]) + tail;
      assert [t[0]] + t[1..] == t;
    }
  }

  /** An escaped character in front of a string body is read back as that character. */
  lemma ParseEscapedChar(c: char, tail: string, u: string, rest: string)
    requires ParseString(tail) == Some((u, rest))
    ensures ParseString(EscapeChar(c) + tail) == Some(([c] + u, rest))
  {
    var e := EscapeChar(c);
    assert (e + tail)[|e|..] == tail;
  }

  function FieldJson(f: Option<string>): string {
    if f.None? then "null" else ['"'] + Escape(f.value) + ['"']
  }

  function ParseField(s: string): Option<(Option<string>, string)> {
    if |s| >= 1 && s[0] == '"' then
      var r :- ParseString(s[1..]);
      Some((Some(r.0), r.1))
    else if |s| >= 4 && s[..4] == "null" then Some((None, s[4..]))
    else None
  }

  lemma ParseFieldJson(f: Option<string>, rest: string)
    ensures ParseField(FieldJson(f) + rest) == Some((f, rest))
  {
    if f.None? {
      ParseNullField(rest);
    } else {
      ParseStringField(f.value, rest);
    }
  }

  lemma ParseNullField(rest: string)
    ensures ParseField("null" + rest) == Some((None, rest))
  {
    var s := "null" + rest;
    assert s[0] == 'n' && s[..4] == "null" && s[4..] == rest;
  }

  lemma ParseStringField(v: string, rest: string)
    ensures ParseField(['"'] + Escape(v) + ['"'] + rest) == Some((Some(v), rest))
  {
    var s := ['"'] + Escape(v) + ['"'] + rest;
    ParseEscaped(v, rest);
    assert s[0] == '"' && s[1..] == Escape(v) + ['"'] + rest;
  }

  /** One expected character in front. */
  function Expect(c: char, s: string): Option<string> {
    if |s| > 0 && s[0] == c then Some(s[1..]) else None
  }

  function ToJson(p: NextHopPayload): string {
    ['['] + (FieldJson(p.nextEncryptedPayloadBase64) + ([','] + (FieldJson(p.nextIvBase64) +
    ([','] + (FieldJson(p.nextEncryptedSymmetricKeyBase64) + ([','] + (FieldJson(p.nextHopId) + [']'])))))))
  }

  function FromJson(s: string): Option<NextHopPayload> {
    var r0 :- Expect('[', s);
    var f1 :- ParseField(r0);
    var r1 :- Expect(',', f1.1);
    var f2 :- ParseField(r1);
    var r2 :- Expect(',', f2.1);
    var f3 :- ParseField(r2);
    var r3 :- Expect(',', f3.1);
    var f4 :- ParseField(r3);
    var r4 :- Expect(']', f4.1);
    if r4 == [] then Some(NextHopPayload(f1.0, f2.0, f3.0, f4.0)) else None
  }

  lemma ExpectFront(c: char, s: string)
    ensures Expect(c, [c] + s) == Some(s)
  {
    assert ([c] + s)[1..] == s;
  }

  lemma JsonRoundTrip(p: NextHopPayload)
    ensures FromJson(ToJson(p)) == Some(p)
  {
    var r4 := [']'];
    var r3 := FieldJson(p.nextHopId) + r4;
    var r2 := [','] + r3;
    var q2 := FieldJson(p.nextEncryptedSymmetricKeyBase64) + r2;
    var r1 := [','] + q2;
    var q1 := FieldJson(p.nextIvBase64) + r1;
    var r0 := [','] + q1;
    var q0 := FieldJson(p.nextEncryptedPayloadBase64) + r0;
    assert ToJson(p) == ['['] + q0;
    ExpectFront('[', q0);
    ParseFieldJson(p.nextEncryptedPayloadBase64, r0);
    ExpectFront(',', q1);
    ParseFieldJson(p.nextIvBase64, r1);
    ExpectFront(',', q2);
    ParseFieldJson(p.nextEncryptedSymmetricKeyBase64, r2);
    ExpectFront(',', r3);
    ParseFieldJson(p.nextHopId, r4);
    ExpectFront(']', []);
    assert [']'] + [] == r4;
  }

  function ToyLibrary(): Library {
    Library(
      (key: seq<byte>, iv: seq<byte>, plain: seq<byte>) => plain,
      (key: seq<byte>, iv: seq<byte>, cipher: seq<byte>) => Some(cipher),
      (pk: PublicKey, seed: seq<byte>, m: seq<byte>) => m,
      (sk: PrivateKey, c: seq<byte>) => Some(c),
      TextEncode,
      TextDecode,
      ToJson,
      FromJson)
  }

  lemma ToyLibrarySound()
    ensures Sound(ToyLibrary())
  {
    var lib := ToyLibrary();
    forall text: string
      ensures lib.utf8Decode(lib.utf8Encode(text)) == text
    {
      TextRoundTrip(text);
    }
    forall payload: NextHopPayload
      ensures lib.fromJson(lib.toJson(payload)) == Some(payload)
    {
      JsonRoundTrip(payload);
    }
  }
}
