/**
 * The host functions `encodeURIComponent` and `decodeURIComponent` that the
 * URL composer calls. They are not part of the repository; this module
 * gives them the definition of ECMAScript's percent-encoding: every
 * character outside the unreserved set is written as the UTF-8 bytes of
 * its code point, each as `%` and two upper-case hexadecimal digits.
 */
module UriComponent {
  import opened Wrappers

  /** The characters `encodeURIComponent` leaves as they are. */
  predicate Unreserved(c: char)
  {
    ('A' <= c <= 'Z') || ('a' <= c <= 'z') || ('0' <= c <= '9') ||
    c == '-' || c == '_' || c == '.' || c == '!' || c == '~' ||
    c == '*' || c == '\'' || c == '(' || c == ')'
  }

  function HexDigit(d: nat): (c: char)
    requires d < 16
    ensures Unreserved(c)
  {
    if d < 10 then ('0' as int + d) as char else ('A' as int + d - 10) as char
  }

  /** The value of a hexadecimal digit of either case. */
  function HexValue(c: char): Option<nat>
  {
    if '0' <= c <= '9' then Some(c as int - '0' as int)
    else if 'A' <= c <= 'F' then Some(c as int - 'A' as int + 10)
    else if 'a' <= c <= 'f' then Some(c as int - 'a' as int + 10)
    else None
  }

  lemma HexRoundTrip(d: nat)
    requires d < 16
    ensures HexValue(HexDigit(d)) == Some(d)
  {
  }

  predicate IsScalar(cp: int)
  {
    (0 <= cp < 0xD800) || (0xE000 <= cp < 0x11_0000)
  }

  /** The UTF-8 encoding of a code point. */
  function Utf8(cp: nat): (bytes: seq<nat>)
    requires cp < 0x11_0000
    ensures 1 <= |bytes| <= 4
    ensures forall k :: 0 <= k < |bytes| ==> bytes[k] < 256
  {
    if cp < 0x80 then [cp]
    else if cp < 0x800 then [0xC0 + cp / 64, 0x80 + cp % 64]
    else if cp < 0x1_0000 then [0xE0 + cp / 64 / 64, 0x80 + cp / 64 % 64, 0x80 + cp % 64]
    else [0xF0 + cp / 64 / 64 / 64, 0x80 + cp / 64 / 64 % 64, 0x80 + cp / 64 % 64, 0x80 + cp % 64]
  }

  function EscapeBytes(bytes: seq<nat>): (s: string)
    requires forall k :: 0 <= k < |bytes| ==> bytes[k] < 256
    ensures |s| == 3 * |bytes|
  {
    if |bytes| == 0 then ""
    else ['%', HexDigit(bytes[0] / 16), HexDigit(bytes[0] % 16)] + EscapeBytes(bytes[1..])
  }

  function EncodeChar(c: char): string
  {
    if Unreserved(c) then [c] else EscapeBytes(Utf8(c as int))
  }

  /** `encodeURIComponent(s)`. */
  function Encode(s: string): (r: string)
    ensures |r| == 0 <==> |s| == 0
  {
    if |s| == 0 then "" else EncodeChar(s[0]) + Encode(s[1..])
  }

  /** The byte written as `%XX` at position `i` of `s`, if there is one. */
  function ByteAt(s: string, i: nat): (b: Option<nat>)
    ensures b.Some? ==> b.value < 256
  {
    if i + 3 <= |s| && s[i] == '%' && HexValue(s[i + 1]).Some? && HexValue(s[i + 2]).Some?
    then Some(16 * HexValue(s[i + 1]).value + HexValue(s[i + 2]).value)
    else None
  }

  /** A UTF-8 continuation byte, `10xxxxxx`; gives its six payload bits. */
  function Continuation(s: string, i: nat): (v: Option<nat>)
    ensures v.Some? ==> v.value < 64
  {
    match ByteAt(s, i)
    case Some(b) => if 0x80 <= b < 0xC0 then Some(b - 0x80) else None
    case None => None
  }

  /**
   * The escape sequence at the start of `s`: the character its UTF-8 bytes
   * spell and the number of characters of `s` they take, or None when `s`
   * does not start with a well-formed sequence (overlong forms, surrogates
   * and code points above U+10FFFF are not well-formed).
   */
  function DecodeEscape(s: string): (r: Option<(char, nat)>)
    ensures r.Some? ==> 3 <= r.value.1 <= |s|
  {
    match ByteAt(s, 0)
    case None => None
    case Some(b0) =>
      if b0 < 0x80 then Some((b0 as char, 3))
      else if 0xC0 <= b0 < 0xE0 then
        match Continuation(s, 3)
        case None => None
        case Some(c1) =>
          var cp := (b0 - 0xC0) * 64 + c1;
          if 0x80 <= cp then Some((cp as char, 6)) else None
      else if 0xE0 <= b0 < 0xF0 then
        match (Continuation(s, 3), Continuation(s, 6))
        case (Some(c1), Some(c2)) =>
          var cp := (b0 - 0xE0) * 4096 + c1 * 64 + c2;
          if 0x800 <= cp && IsScalar(cp) then Some((cp as char, 9)) else None
        case _ => None
      else if 0xF0 <= b0 < 0xF8 then
        match (Continuation(s, 3), Continuation(s, 6), Continuation(s, 9))
        case (Some(c1), Some(c2), Some(c3)) =>
          var cp := (b0 - 0xF0) * 262144 + c1 * 4096 + c2 * 64 + c3;
          if 0x1_0000 <= cp < 0x11_0000 then Some((cp as char, 12)) else None
        case _ => None
      else None
  }

  /** `decodeURIComponent(s)`; a `%` that starts no well-formed sequence is kept as it is. */
  function Decode(s: string): string
  {
    if |s| == 0 then ""
    else match DecodeEscape(s)
      case Some((c, n)) => [c] + Decode(s[n..])
      case None => [s[0]] + Decode(s[1..])
  }

  lemma {:induction false} ByteAtEscaped(bytes: seq<nat>, rest: string, j: nat)
    requires forall k :: 0 <= k < |bytes| ==> bytes[k] < 256
    requires j < |bytes|
    ensures ByteAt(EscapeBytes(bytes) + rest, 3 * j) == Some(bytes[j])
  {
    var s := EscapeBytes(bytes) + rest;
    if j == 0 {
      HexRoundTrip(bytes[0] / 16);
      HexRoundTrip(bytes[0] % 16);
    } else {
      ByteAtEscaped(bytes[1..], rest, j - 1);
      assert s == ['%', HexDigit(bytes[0] / 16), HexDigit(bytes[0] % 16)] + (EscapeBytes(bytes[1..]) + rest);
    }
  }

  /** The escapes of a code point's UTF-8 bytes decode to that code point. */
  lemma DecodeEscapedChar(c: char, rest: string)
    requires !Unreserved(c)
    ensures DecodeEscape(EncodeChar(c) + rest) == Some((c, |EncodeChar(c)|))
  {
    var cp := c as int;
    var bytes := Utf8(cp);
    assert EncodeChar(c) + rest == EscapeBytes(bytes) + rest;
    assert |EncodeChar(c)| == 3 * |bytes|;
    DecodeEscapedBytes(cp, rest);
  }

  /** The escaped UTF-8 bytes of a scalar value, followed by anything, decode to it. */
  lemma DecodeEscapedBytes(cp: int, rest: string)
    requires IsScalar(cp)
    ensures DecodeEscape(EscapeBytes(Utf8(cp)) + rest) == Some((cp as char, 3 * |Utf8(cp)|))
  {
    var bytes := Utf8(cp);
    var s := EscapeBytes(bytes) + rest;
    ByteAtEscaped(bytes, rest, 0);
    if cp < 0x80 {
    } else if cp < 0x800 {
      ByteAtEscaped(bytes, rest, 1);
      DecodeTwoBytes(s, cp);
    } else if cp < 0x1_0000 {
      ByteAtEscaped(bytes, rest, 1);
      ByteAtEscaped(bytes, rest, 2);
      DecodeThreeBytes(s, cp);
    } else {
      ByteAtEscaped(bytes, rest, 1);
      ByteAtEscaped(bytes, rest, 2);
      ByteAtEscaped(bytes, rest, 3);
      DecodeFourBytes(s, cp);
    }
  }

  lemma DecodeTwoBytes(s: string, cp: int)
    requires 0x80 <= cp < 0x800
    requires ByteAt(s, 0) == Some(0xC0 + cp / 64) && ByteAt(s, 3) == Some(0x80 + cp % 64)
    ensures DecodeEscape(s) == Some((cp as char, 6))
  {
    assert Continuation(s, 3) == Some(cp % 64);
  }

  lemma DecodeThreeBytes(s: string, cp: int)
    requires 0x800 <= cp < 0x1_0000 && IsScalar(cp)
    requires ByteAt(s, 0) == Some(0xE0 + cp / 64 / 64)
    requires ByteAt(s, 3) == Some(0x80 + cp / 64 % 64) && ByteAt(s, 6) == Some(0x80 + cp % 64)
    ensures DecodeEscape(s) == Some((cp as char, 9))
  {
    var q1 := cp / 64;
    assert cp == 64 * q1 + cp % 64;
    assert q1 == 64 * (q1 / 64) + q1 % 64;
    assert Continuation(s, 3) == Some(q1 % 64);
    assert Continuation(s, 6) == Some(cp % 64);
  }

  lemma DecodeFourBytes(s: string, cp: int)
    requires 0x1_0000 <= cp < 0x11_0000
    requires ByteAt(s, 0) == Some(0xF0 + cp / 64 / 64 / 64)
    requires ByteAt(s, 3) == Some(0x80 + cp / 64 / 64 % 64)
    requires ByteAt(s, 6) == Some(0x80 + cp / 64 % 64) && ByteAt(s, 9) == Some(0x80 + cp % 64)
    ensures DecodeEscape(s) == Some((cp as char, 12))
  {
    var q1 := cp / 64;
    var q2 := q1 / 64;
    assert cp == 64 * q1 + cp % 64;
    assert q1 == 64 * q2 + q1 % 64;
    assert q2 == 64 * (q2 / 64) + q2 % 64;
    assert q2 / 64 < 8;
    assert Continuation(s, 3) == Some(q2 % 64);
    assert Continuation(s, 6) == Some(q1 % 64);
    assert Continuation(s, 9) == Some(cp % 64);
  }

  lemma DecodeEncodedChar(c: char, rest: string)
    ensures Decode(EncodeChar(c) + rest) == [c] + Decode(rest)
  {
    var s := EncodeChar(c) + rest;
    if Unreserved(c) {
      assert s[1..] == rest;
    } else {
      DecodeEscapedChar(c, rest);
      assert s[|EncodeChar(c)|..] == rest;
    }
  }

  /** `decodeURIComponent(encodeURIComponent(s)) === s`. */
  lemma {:induction false} DecodeEncode(s: string)
    ensures Decode(Encode(s)) == s
  {
    if |s| > 0 {
      DecodeEncodedChar(s[0], Encode(s[1..]));
      DecodeEncode(s[1..]);
      assert [s[0]] + s[1..] == s;
    }
  }

  /** Encoding is injective: distinct strings have distinct encodings. */
  lemma EncodeInjective(s: string, t: string)
    ensures Encode(s) == Encode(t) ==> s == t
  {
    DecodeEncode(s);
    DecodeEncode(t);
  }

  /** Every character of an encoding is unreserved or the escape mark `%`. */
  lemma {:induction false} EncodeAlphabet(s: string)
    ensures forall k :: 0 <= k < |Encode(s)| ==> Unreserved(Encode(s)[k]) || Encode(s)[k] == '%'
  {
    if |s| > 0 {
      EncodeAlphabet(s[1..]);
      var h := EncodeChar(s[0]);
      if !Unreserved(s[0]) {
        EscapeAlphabet(Utf8(s[0] as int));
      }
    }
  }

  lemma {:induction false} EscapeAlphabet(bytes: seq<nat>)
    requires forall k :: 0 <= k < |bytes| ==> bytes[k] < 256
    ensures forall k :: 0 <= k < |EscapeBytes(bytes)| ==>
      Unreserved(EscapeBytes(bytes)[k]) || EscapeBytes(bytes)[k] == '%'
  {
    if |bytes| > 0 {
      EscapeAlphabet(bytes[1..]);
    }
  }

  /**
   * An encoding contains none of the characters that delimit a query:
   * `?`, `&`, `=` and `#`.
   */
  lemma EncodeHasNoDelimiters(s: string)
    ensures '?' !in Encode(s) && '&' !in Encode(s) && '=' !in Encode(s) && '#' !in Encode(s)
  {
    EncodeAlphabet(s);
  }
}
