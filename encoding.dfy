/** The byte encodings behind the password header: `str.encode()` (UTF-8,
    RFC 3629) and `base64.b64encode` (the standard alphabet of section 4 of
    RFC 4648, with `=` padding). Each encoder comes with its decoder and a
    proof that decoding undoes encoding. */
module Encoding {

  import opened Common

  type byte = x: int | 0 <= x < 256

  // ---------------------------------------------------------------------
  // UTF-8

  /** The UTF-8 bytes of one character: 1, 2, 3 or 4 bytes by code point range. */
  function EncodeChar(c: char): (bs: seq<byte>)
    ensures 1 <= |bs| <= 4
    ensures |bs| == 1 <==> c as int < 0x80
  {
    var n := c as int;
    if n < 0x80 then [n]
    else if n < 0x800 then [0xC0 + n / 64, 0x80 + n % 64]
    else if n < 0x10000 then [0xE0 + n / 4096, 0x80 + (n / 64) % 64, 0x80 + n % 64]
    else [0xF0 + n / 262144, 0x80 + (n / 4096) % 64, 0x80 + (n / 64) % 64, 0x80 + n % 64]
  }

  /** Python's `s.encode()`. */
  function Utf8Encode(s: string): (bs: seq<byte>)
    ensures |bs| >= |s|
  {
    if s == [] then [] else EncodeChar(s[0]) + Utf8Encode(s[1..])
  }

  predicate IsContinuation(b: byte) {
    0x80 <= b < 0xC0
  }

  /** A code point that is a character (not a surrogate, not past U+10FFFF). */
  function AsChar(n: int): Option<char> {
    if 0 <= n < 0xD800 || 0xE000 <= n < 0x110000 then Some(n as char) else None
  }

  /** Reads one character off the front of bs: the character and how many bytes it took. */
  function DecodeChar(bs: seq<byte>): (r: Option<(char, nat)>)
    ensures r.Some? ==> 1 <= r.value.1 <= |bs|
  {
    if |bs| == 0 then None
    else if bs[0] < 0x80 then Some((bs[0] as char, 1))
    else if 0xC0 <= bs[0] < 0xE0 && |bs| >= 2 && IsContinuation(bs[1]) then
      var c := AsChar((bs[0] as int - 0xC0) * 64 + (bs[1] as int - 0x80));
      if c.Some? then Some((c.value, 2)) else None
    else if 0xE0 <= bs[0] < 0xF0 && |bs| >= 3 && IsContinuation(bs[1]) && IsContinuation(bs[2]) then
      var c := AsChar((bs[0] as int - 0xE0) * 4096 + (bs[1] as int - 0x80) * 64 + (bs[2] as int - 0x80));
      if c.Some? then Some((c.value, 3)) else None
    else if 0xF0 <= bs[0] < 0xF8 && |bs| >= 4 && IsContinuation(bs[1]) && IsContinuation(bs[2])
            && IsContinuation(bs[3]) then
      var c := AsChar((bs[0] as int - 0xF0) * 262144 + (bs[1] as int - 0x80) * 4096 + (bs[2] as int - 0x80) * 64 + (bs[3] as int - 0x80));
      if c.Some? then Some((c.value, 4)) else None
    else None
  }

  /** The inverse of Utf8Encode (used only to state what the encoding keeps). */
  function Utf8Decode(bs: seq<byte>): Option<string>
    decreases |bs|
  {
    if bs == [] then Some([])
    else
      match DecodeChar(bs)
      case None => None
      case Some((c, k)) =>
        match Utf8Decode(bs[k..])
        case None => None
        case Some(rest) => Some([c] + rest)
  }

  /** Decoding the bytes of one character gives that character back. */
  lemma DecodeEncodeChar(c: char, rest: seq<byte>)
    ensures DecodeChar(EncodeChar(c) + rest) == Some((c, |EncodeChar(c)|))
  {
    var n := c as int;
    if n < 0x80 {
    } else if n < 0x800 {
      DecodeTwoBytes(c, rest);
    } else if n < 0x10000 {
      DecodeThreeBytes(c, rest);
    } else {
      DecodeFourBytes(c, rest);
    }
  }

  lemma DecodeTwoBytes(c: char, rest: seq<byte>)
    requires 0x80 <= c as int < 0x800
    ensures DecodeChar(EncodeChar(c) + rest) == Some((c, 2))
  {
    var n := c as int;
    var bs := EncodeChar(c) + rest;
    assert bs[0] == 0xC0 + n / 64 && bs[1] == 0x80 + n % 64;
    assert (bs[0] as int - 0xC0) * 64 + (bs[1] as int - 0x80) == n;
  }

  lemma DecodeThreeBytes(c: char, rest: seq<byte>)
    requires 0x800 <= c as int < 0x10000
    ensures DecodeChar(EncodeChar(c) + rest) == Some((c, 3))
  {
    var n := c as int;
    var bs := EncodeChar(c) + rest;
    assert bs[0] == 0xE0 + n / 4096 && bs[1] == 0x80 + (n / 64) % 64 && bs[2] == 0x80 + n % 64;
    assert n == (n / 4096) * 4096 + ((n / 64) % 64) * 64 + n % 64;
  }

  lemma DecodeFourBytes(c: char, rest: seq<byte>)
    requires 0x10000 <= c as int
    ensures DecodeChar(EncodeChar(c) + rest) == Some((c, 4))
  {
    var n := c as int;
    var bs := EncodeChar(c) + rest;
    assert bs[0] == 0xF0 + n / 262144 && bs[1] == 0x80 + (n / 4096) % 64;
    assert bs[2] == 0x80 + (n / 64) % 64 && bs[3] == 0x80 + n % 64;
    FourByteDigits(n);
  }

  /** The four base-64 digits of a supplementary code point recombine to it. */
  lemma FourByteDigits(n: int)
    requires 0x10000 <= n < 0x110000
    ensures n / 262144 < 8
    ensures n == (n / 262144) * 262144 + ((n / 4096) % 64) * 4096 + ((n / 64) % 64) * 64 + n % 64
  {
  }

  /** Decoding the UTF-8 encoding of a string gives the string back. */
  lemma {:induction false} Utf8RoundTrip(s: string)
    ensures Utf8Decode(Utf8Encode(s)) == Some(s)
  {
    if s != [] {
      var e := EncodeChar(s[0]);
      var rest := Utf8Encode(s[1..]);
      DecodeEncodeChar(s[0], rest);
      assert (e + rest)[|e|..] == rest;
      Utf8RoundTrip(s[1..]);
      assert [s[0]] + s[1..] == s;
    }
  }

  // ---------------------------------------------------------------------
  // Base64, section 4 of RFC 4648

  /** The character for a 6-bit value: A-Z, a-z, 0-9, '+', '/'. */
  function B64Char(i: nat): (c: char)
    requires i < 64
    ensures c != '='
  {
    if i < 26 then ('A' as int + i) as char
    else if i < 52 then ('a' as int + i - 26) as char
    else if i < 62 then ('0' as int + i - 52) as char
    else if i == 62 then '+'
    else '/'
  }

  /** The 6-bit value of an alphabet character, or None for any other character. */
  function B64Index(c: char): (r: Option<nat>)
    ensures r.Some? ==> r.value < 64 && B64Char(r.value) == c
  {
    if 'A' <= c <= 'Z' then Some(c as int - 'A' as int)
    else if 'a' <= c <= 'z' then Some(c as int - 'a' as int + 26)
    else if '0' <= c <= '9' then Some(c as int - '0' as int + 52)
    else if c == '+' then Some(62)
    else if c == '/' then Some(63)
    else None
  }

  lemma B64IndexOfChar(i: nat)
    requires i < 64
    ensures B64Index(B64Char(i)) == Some(i)
  {
  }

  predicate IsB64Text(s: string) {
    forall k :: 0 <= k < |s| ==> B64Index(s[k]).Some? || s[k] == '='
  }

  /** base64.b64encode: each 3 bytes become 4 characters; a final group of 1
      or 2 bytes is padded with "==" or "=". */
  function Base64Encode(bs: seq<byte>): (s: string)
    ensures |s| % 4 == 0 && (|s| == 0 <==> |bs| == 0)
    decreases |bs|, 1
  {
    if |bs| == 0 then []
    else if |bs| == 1 then
      [B64Char(bs[0] / 4), B64Char((bs[0] % 4) * 16), '=', '=']
    else if |bs| == 2 then
      [B64Char(bs[0] / 4), B64Char((bs[0] % 4) * 16 + bs[1] / 16), B64Char((bs[1] % 16) * 4), '=']
    else
      EncodeGroups(bs)
  }

  /** The four characters Base64Encode writes for three bytes. */
  function EncodedGroup(b0: byte, b1: byte, b2: byte): (s: string)
    ensures |s| == 4
  {
    [B64Char(b0 / 4), B64Char((b0 % 4) * 16 + b1 / 16), B64Char((b1 % 16) * 4 + b2 / 64), B64Char(b2 % 64)]
  }

  /** Base64Encode of three or more bytes: the first group's four characters,
      then the encoding of the rest. */
  function EncodeGroups(bs: seq<byte>): (s: string)
    requires |bs| >= 3
    ensures |s| % 4 == 0 && |s| > 0
    decreases |bs|, 0
  {
    EncodedGroup(bs[0], bs[1], bs[2]) + Base64Encode(bs[3..])
  }

  /** Base64Encode writes only alphabet characters and '='. */
  lemma {:induction false} Base64EncodeAlphabet(bs: seq<byte>)
    ensures IsB64Text(Base64Encode(bs))
    decreases |bs|
  {
    if |bs| >= 3 {
      var g, t := EncodedGroup(bs[0], bs[1], bs[2]), Base64Encode(bs[3..]);
      EncodeFirstGroup(bs);
      Base64EncodeAlphabet(bs[3..]);
      assert forall k :: 4 <= k < |g + t| ==> (g + t)[k] == t[k - 4];
    }
  }

  /** The inverse of Base64Encode: None on text that is not padded Base64. */
  function Base64Decode(s: string): Option<seq<byte>>
    decreases |s|, 1
  {
    if |s| == 0 then Some([])
    else if |s| < 4 then None
    else
      var i0, i1, i2, i3 := B64Index(s[0]), B64Index(s[1]), B64Index(s[2]), B64Index(s[3]);
      if i0.None? || i1.None? then None
      else if |s| == 4 && s[2] == '=' && s[3] == '=' then
        Some([i0.value * 4 + i1.value / 16])
      else if i2.None? then None
      else if |s| == 4 && s[3] == '=' then
        Some([i0.value * 4 + i1.value / 16, (i1.value % 16) * 16 + i2.value / 4])
      else if i3.None? then None
      else DecodeGroups(s)
  }

  /** Base64Decode of text that starts with four alphabet characters: their
      three bytes, then the decoding of the rest. */
  function DecodeGroups(s: string): Option<seq<byte>>
    requires |s| >= 4
    requires B64Index(s[0]).Some? && B64Index(s[1]).Some? && B64Index(s[2]).Some? && B64Index(s[3]).Some?
    decreases |s|, 0
  {
    var i0, i1, i2, i3 := B64Index(s[0]).value, B64Index(s[1]).value, B64Index(s[2]).value, B64Index(s[3]).value;
    match Base64Decode(s[4..])
    case None => None
    case Some(rest) => Some([i0 * 4 + i1 / 16, (i1 % 16) * 16 + i2 / 4, (i2 % 4) * 64 + i3] + rest)
  }

  /** The arithmetic of one group: the 6-bit values of three bytes give the bytes back. */
  lemma GroupArithmetic(b0: byte, b1: byte, b2: byte)
    ensures (b0 / 4) * 4 + ((b0 % 4) * 16 + b1 / 16) / 16 == b0
    ensures (((b0 % 4) * 16 + b1 / 16) % 16) * 16 + ((b1 % 16) * 4 + b2 / 64) / 4 == b1
    ensures (((b1 % 16) * 4 + b2 / 64) % 4) * 64 + b2 % 64 == b2
  {
  }

  lemma RoundTripOne(b0: byte)
    ensures Base64Decode(Base64Encode([b0])) == Some([b0])
  {
    GroupArithmetic(b0, 0, 0);
    B64IndexOfChar(b0 / 4);
    B64IndexOfChar((b0 % 4) * 16);
  }

  lemma RoundTripTwo(b0: byte, b1: byte)
    ensures Base64Decode(Base64Encode([b0, b1])) == Some([b0, b1])
  {
    var i0, i1, i2 := b0 / 4, (b0 % 4) * 16 + b1 / 16, (b1 % 16) * 4;
    var s := Base64Encode([b0, b1]);
    assert s == [B64Char(i0), B64Char(i1), B64Char(i2), '='];
    B64IndexOfChar(i0);
    B64IndexOfChar(i1);
    B64IndexOfChar(i2);
    assert Base64Decode(s) == Some([i0 * 4 + i1 / 16, (i1 % 16) * 16 + i2 / 4]);
    GroupArithmetic(b0, b1, 0);
  }

  /** Text that starts with four alphabet characters decodes group by group. */
  lemma DecodeFullGroup(s: string, rest: seq<byte>)
    requires |s| >= 4
    requires B64Index(s[0]).Some? && B64Index(s[1]).Some? && B64Index(s[2]).Some? && B64Index(s[3]).Some?
    requires Base64Decode(s[4..]) == Some(rest)
    ensures Base64Decode(s) == Some([B64Index(s[0]).value * 4 + B64Index(s[1]).value / 16,
                                     (B64Index(s[1]).value % 16) * 16 + B64Index(s[2]).value / 4,
                                     (B64Index(s[2]).value % 4) * 64 + B64Index(s[3]).value] + rest)
  {
    assert Base64Decode(s) == DecodeGroups(s);
  }

  lemma EncodeFirstGroup(bs: seq<byte>)
    requires |bs| >= 3
    ensures Base64Encode(bs) == EncodedGroup(bs[0], bs[1], bs[2]) + Base64Encode(bs[3..])
  {
    var g, t := EncodedGroup(bs[0], bs[1], bs[2]), Base64Encode(bs[3..]);
    assert EncodeGroups(bs) == g + t;
  }

  lemma DecodeEncodedGroup(b0: byte, b1: byte, b2: byte, t: string, rest: seq<byte>)
    requires Base64Decode(t) == Some(rest)
    ensures Base64Decode(EncodedGroup(b0, b1, b2) + t) == Some([b0, b1, b2] + rest)
  {
    var i0, i1 := b0 / 4, (b0 % 4) * 16 + b1 / 16;
    var i2, i3 := (b1 % 16) * 4 + b2 / 64, b2 % 64;
    var s := EncodedGroup(b0, b1, b2) + t;
    assert s[4..] == t;
    B64IndexOfChar(i0);
    B64IndexOfChar(i1);
    B64IndexOfChar(i2);
    B64IndexOfChar(i3);
    DecodeFullGroup(s, rest);
    GroupArithmetic(b0, b1, b2);
  }

  /** A full group in front of more text decodes to its three bytes in front of the rest. */
  lemma RoundTripGroup(bs: seq<byte>, rest: seq<byte>)
    requires |bs| >= 3
    requires Base64Decode(Base64Encode(bs[3..])) == Some(rest)
    ensures Base64Decode(Base64Encode(bs)) == Some([bs[0], bs[1], bs[2]] + rest)
  {
    var t := Base64Encode(bs[3..]);
    EncodeFirstGroup(bs);
    DecodeEncodedGroup(bs[0], bs[1], bs[2], t, rest);
  }

  /** Decoding the Base64 text of a byte string gives the bytes back. */
  lemma {:induction false} Base64RoundTrip(bs: seq<byte>)
    ensures Base64Decode(Base64Encode(bs)) == Some(bs)
  {
    if |bs| == 1 {
      assert bs == [bs[0]];
      RoundTripOne(bs[0]);
    } else if |bs| == 2 {
      assert bs == [bs[0], bs[1]];
      RoundTripTwo(bs[0], bs[1]);
    } else if |bs| >= 3 {
      assert bs == [bs[0], bs[1], bs[2]] + bs[3..];
      Base64RoundTrip(bs[3..]);
      RoundTripGroup(bs, bs[3..]);
    }
  }
}
