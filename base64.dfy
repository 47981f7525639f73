/** Octets, as `byte[]` holds them (the sign of Java's bytes plays no part here). */
module Bytes {
  type byte = x: int | 0 <= x < 256
}

/** The Base64 encoding of section 4 of RFC 4648, as `java.util.Base64.getEncoder()` writes
    it (with `=` padding) and as `java.util.Base64.getDecoder()` reads it: the decoder accepts
    a last unit of two or three characters with or without its padding, rejects a last unit of
    one character, any character outside the alphabet and anything after the padding, and
    ignores the unused low bits of a padded unit. A decoding failure stands for the
    `IllegalArgumentException` the Java decoder throws. */
module Base64 {
  import opened Wrappers
  import opened Bytes

  /** The character for the 6-bit value `i` (table 1 of RFC 4648). */
  function CharOf(i: int): (c: char)
    requires 0 <= i < 64
    ensures IndexOf(c) == Some(i)
  {
    if i < 26 then ('A' as int + i) as char
    else if i < 52 then ('a' as int + (i - 26)) as char
    else if i < 62 then ('0' as int + (i - 52)) as char
    else if i == 62 then '+'
    else '/'
  }

  /** The 6-bit value of an alphabet character; `None` for any other character. */
  function IndexOf(c: char): (r: Option<int>)
    ensures r.Some? ==> 0 <= r.value < 64
  {
    if 'A' <= c <= 'Z' then Some(c as int - 'A' as int)
    else if 'a' <= c <= 'z' then Some(c as int - 'a' as int + 26)
    else if '0' <= c <= '9' then Some(c as int - '0' as int + 52)
    else if c == '+' then Some(62)
    else if c == '/' then Some(63)
    else None
  }

  predicate InAlphabet(c: char) {
    IndexOf(c).Some?
  }

  function Value(c: char): int
    requires InAlphabet(c)
  {
    IndexOf(c).value
  }

  /** The four characters of a full 24-bit group. */
  function EncodeGroup(b0: byte, b1: byte, b2: byte): string {
    [CharOf(b0 / 4), CharOf((b0 % 4) * 16 + b1 / 16), CharOf((b1 % 16) * 4 + b2 / 64), CharOf(b2 % 64)]
  }

  function Encode(b: seq<byte>): (s: string)
    ensures |s| % 4 == 0
  {
    if |b| == 0 then ""
    else if |b| == 1 then [CharOf(b[0] / 4), CharOf((b[0] % 4) * 16), '=', '=']
    else if |b| == 2 then [CharOf(b[0] / 4), CharOf((b[0] % 4) * 16 + b[1] / 16), CharOf((b[1] % 16) * 4), '=']
    else EncodeGroup(b[0], b[1], b[2]) + Encode(b[3..])
  }

  /** Every started group of three octets becomes four characters. */
  lemma {:induction false} EncodeLength(b: seq<byte>)
    ensures |Encode(b)| == 4 * ((|b| + 2) / 3)
  {
    if |b| > 2 {
      EncodeLength(b[3..]);
      assert (|b| + 2) / 3 == (|b[3..]| + 2) / 3 + 1;
    }
  }

  function FirstByte(c0: char, c1: char): byte
    requires InAlphabet(c0) && InAlphabet(c1)
  {
    Value(c0) * 4 + Value(c1) / 16
  }

  function SecondByte(c1: char, c2: char): byte
    requires InAlphabet(c1) && InAlphabet(c2)
  {
    (Value(c1) % 16) * 16 + Value(c2) / 4
  }

  function ThirdByte(c2: char, c3: char): byte
    requires InAlphabet(c2) && InAlphabet(c3)
  {
    (Value(c2) % 4) * 64 + Value(c3)
  }

  /** The last unit of the input: two or three alphabet characters, with or without their
      padding, and nothing after it. */
  function DecodeLastUnit(s: string): Option<seq<byte>> {
    if 2 <= |s| <= 4 && InAlphabet(s[0]) && InAlphabet(s[1]) && (|s| == 2 || s[2..] == "==") then
      Some([FirstByte(s[0], s[1])])
    else if 3 <= |s| <= 4 && InAlphabet(s[0]) && InAlphabet(s[1]) && InAlphabet(s[2]) && (|s| == 3 || s[3] == '=') then
      Some([FirstByte(s[0], s[1]), SecondByte(s[1], s[2])])
    else
      None
  }

  function Decode(s: string): Option<seq<byte>>
  {
    if |s| == 0 then Some([])
    else if |s| >= 4 && InAlphabet(s[0]) && InAlphabet(s[1]) && InAlphabet(s[2]) && InAlphabet(s[3]) then
      var rest :- Decode(s[4..]);
      Some([FirstByte(s[0], s[1]), SecondByte(s[1], s[2]), ThirdByte(s[2], s[3])] + rest)
    else
      DecodeLastUnit(s)
  }

  /** The characters of a full group are alphabet characters that give back its three octets. */
  lemma GroupRoundTrip(b0: byte, b1: byte, b2: byte)
    ensures var g := EncodeGroup(b0, b1, b2);
            InAlphabet(g[0]) && InAlphabet(g[1]) && InAlphabet(g[2]) && InAlphabet(g[3]) &&
            FirstByte(g[0], g[1]) == b0 && SecondByte(g[1], g[2]) == b1 && ThirdByte(g[2], g[3]) == b2
  {
  }

  /** A last unit of one octet: two characters and two padding characters. */
  lemma DecodeEncodeOne(b: seq<byte>)
    requires |b| == 1
    ensures Decode(Encode(b)) == Some(b)
  {
    var s := Encode(b);
    assert s[2..] == "==";
    assert FirstByte(s[0], s[1]) == b[0];
    assert b == [b[0]];
  }

  /** A last unit of two octets: three characters and one padding character. */
  lemma DecodeEncodeTwo(b: seq<byte>)
    requires |b| == 2
    ensures Decode(Encode(b)) == Some(b)
  {
    var s := Encode(b);
    assert FirstByte(s[0], s[1]) == b[0];
    assert SecondByte(s[1], s[2]) == b[1];
    assert b == [b[0], b[1]];
  }

  /** Decoding what the encoder wrote gives back the original octets. */
  lemma {:induction false} DecodeEncode(b: seq<byte>)
    ensures Decode(Encode(b)) == Some(b)
  {
    if |b| == 1 {
      DecodeEncodeOne(b);
    } else if |b| == 2 {
      DecodeEncodeTwo(b);
    } else if |b| > 2 {
      DecodeEncode(b[3..]);
      DecodeEncodeGroup(b);
      SplitFront(b);
    }
  }

  /** A full group in front: the round trip for the rest extends to the whole. */
  lemma DecodeEncodeGroup(b: seq<byte>)
    requires |b| > 2 && Decode(Encode(b[3..])) == Some(b[3..])
    ensures Decode(Encode(b)) == Some([b[0], b[1], b[2]] + b[3..])
  {
    EncodeFront(b);
    DecodeGroupFront(b[0], b[1], b[2], Encode(b[3..]), b[3..]);
  }

  lemma SplitFront<T>(b: seq<T>)
    requires |b| > 2
    ensures [b[0], b[1], b[2]] + b[3..] == b
  {
  }

  /** The encoder writes the first full group in front of the encoding of the rest. */
  lemma EncodeFront(b: seq<byte>)
    requires |b| > 2
    ensures Encode(b) == EncodeGroup(b[0], b[1], b[2]) + Encode(b[3..])
  {
  }

  /** The characters of a full group in front of a string that decodes to `rest` decode to the
      group's three octets in front of `rest`. */
  lemma DecodeGroupFront(b0: byte, b1: byte, b2: byte, t: string, rest: seq<byte>)
    requires Decode(t) == Some(rest)
    ensures Decode(EncodeGroup(b0, b1, b2) + t) == Some([b0, b1, b2] + rest)
  {
    GroupRoundTrip(b0, b1, b2);
    DecodeFullGroup(EncodeGroup(b0, b1, b2), t);
  }

  /** A full group of alphabet characters in front of a string decodes to its three octets
      in front of what the string decodes to. */
  lemma DecodeFullGroup(g: string, t: string)
    requires |g| == 4 && InAlphabet(g[0]) && InAlphabet(g[1]) && InAlphabet(g[2]) && InAlphabet(g[3])
    ensures Decode(g + t) ==
              match Decode(t)
              case None => None
              case Some(rest) => Some([FirstByte(g[0], g[1]), SecondByte(g[1], g[2]), ThirdByte(g[2], g[3])] + rest)
  {
    assert (g + t)[4..] == t;
  }

  /** Re-encoding what was decoded from the encoder's output reproduces that output: a string
      that went through `setX(getX())` is unchanged when it was written by the encoder. */
  lemma EncodeDecodeEncode(b: seq<byte>)
    ensures Decode(Encode(b)).Some? && Encode(Decode(Encode(b)).value) == Encode(b)
  {
    DecodeEncode(b);
  }

  /** The decoder is not injective: the unused low bits of a padded unit are ignored, so two
      different strings decode to the same octets and only one of them is the encoder's. */
  lemma DecoderIgnoresLeftoverBits()
    ensures Decode("QQ==") == Decode("QR==") == Some([65])
    ensures Encode([65]) == "QQ=="
  {
    assert "QQ=="[2..] == "==";
    assert "QR=="[2..] == "==";
  }
}
