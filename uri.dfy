/**
 * `encodeURIComponent` (section 19.2.6.5 of ECMA-262), used for the
 * search links, and its inverse `decodeURIComponent` as the reference
 * that says the encoding loses nothing.
 */
module UriComponent {
  import opened Wrappers

  /** The characters encodeURIComponent leaves alone: letters, digits and - _ . ! ~ * ' ( ) */
  predicate IsUriUnreserved(c: char) {
    || ('A' <= c <= 'Z') || ('a' <= c <= 'z') || ('0' <= c <= '9')
    || c == '-' || c == '_' || c == '.' || c == '!' || c == '~' || c == '*'
    || c == '\'' || c == '(' || c == ')'
  }

  /** Every character is unreserved or the `%` of an escape. */
  predicate UriSafe(s: string) {
    forall i :: 0 <= i < |s| ==> IsUriUnreserved(s[i]) || s[i] == '%'
  }

  predicate ByteValues(bs: seq<nat>) {
    forall i :: 0 <= i < |bs| ==> bs[i] < 256
  }

  /** UTF-8 encoding of one code point (RFC 3629). */
  function Utf8(c: char): (bs: seq<nat>)
    ensures 1 <= |bs| <= 4 && ByteValues(bs)
  {
    var cp := c as int;
    var q1 := cp / 64;
    var q2 := q1 / 64;
    var q3 := q2 / 64;
    if cp < 0x80 then [cp]
    else if cp < 0x800 then [0xC0 + q1, 0x80 + cp % 64]
    else if cp < 0x10000 then [0xE0 + q2, 0x80 + q1 % 64, 0x80 + cp % 64]
    else [0xF0 + q3, 0x80 + q2 % 64, 0x80 + q1 % 64, 0x80 + cp % 64]
  }

  /** Upper-case hexadecimal digit. */
  function HexDigit(d: nat): (c: char)
    requires d < 16
    ensures IsUriUnreserved(c)
  {
    if d < 10 then (48 + d) as char else (55 + d) as char
  }

  function HexValue(c: char): (r: Option<nat>)
    ensures r.Some? ==> r.value < 16
  {
    if '0' <= c <= '9' then Some(c as int - '0' as int)
    else if 'A' <= c <= 'F' then Some(c as int - 'A' as int + 10)
    else if 'a' <= c <= 'f' then Some(c as int - 'a' as int + 10)
    else None
  }

  /** `%XY` for one byte. */
  function PercentByte(b: nat): string
    requires b < 256
  {
    ['%', HexDigit(b / 16), HexDigit(b % 16)]
  }

  function PercentBytes(bs: seq<nat>): (r: string)
    requires ByteValues(bs)
    ensures |r| == 3 * |bs|
  {
    if bs == [] then [] else PercentByte(bs[0]) + PercentBytes(bs[1..])
  }

  function EncodeChar(c: char): string {
    if IsUriUnreserved(c) then [c] else PercentBytes(Utf8(c))
  }

  /** `encodeURIComponent(s)`: each character kept or replaced by the escapes of its UTF-8 bytes. */
  function EncodeUriComponent(s: string): string {
    if s == [] then [] else EncodeChar(s[0]) + EncodeUriComponent(s[1..])
  }

  lemma SafeAppend(a: string, b: string)
    requires UriSafe(a) && UriSafe(b)
    ensures UriSafe(a + b)
  {
    assert forall i :: |a| <= i < |a + b| ==> (a + b)[i] == b[i - |a|];
  }

  lemma {:induction false} PercentBytesSafe(bs: seq<nat>)
    requires ByteValues(bs)
    ensures UriSafe(PercentBytes(bs))
  {
    if bs != [] {
      PercentBytesSafe(bs[1..]);
      SafeAppend(PercentByte(bs[0]), PercentBytes(bs[1..]));
    }
  }

  /** The encoded text holds only unreserved characters and `%` escapes, so it cannot end a URL's query. */
  lemma {:induction false} EncodedIsSafe(s: string)
    ensures UriSafe(EncodeUriComponent(s))
  {
    if s != [] {
      EncodedIsSafe(s[1..]);
      PercentBytesSafe(Utf8(s[0]));
      SafeAppend(EncodeChar(s[0]), EncodeUriComponent(s[1..]));
    }
  }

  /** Text made only of unreserved characters is returned unchanged. */
  lemma {:induction false} UnreservedUnchanged(s: string)
    requires forall i :: 0 <= i < |s| ==> IsUriUnreserved(s[i])
    ensures EncodeUriComponent(s) == s
  {
    if s != [] {
      UnreservedUnchanged(s[1..]);
      assert [s[0]] + s[1..] == s;
    }
  }

  // ---------------------------------------------------------------------
  // decodeURIComponent

  /** The byte written as `%XY` at position `i`, if there is one. */
  function ByteAt(s: string, i: nat): (r: Option<nat>)
    ensures r.Some? ==> i + 3 <= |s| && r.value < 256
  {
    if i + 3 <= |s| && s[i] == '%' && HexValue(s[i + 1]).Some? && HexValue(s[i + 2]).Some? then
      Some(16 * HexValue(s[i + 1]).value + HexValue(s[i + 2]).value)
    else None
  }

  /** The low six bits of a UTF-8 continuation byte written at position `i`. */
  function ContinuationAt(s: string, i: nat): (r: Option<nat>)
    ensures r.Some? ==> i + 3 <= |s| && r.value < 64
  {
    match ByteAt(s, i)
    case Some(b) => if 0x80 <= b < 0xC0 then Some(b - 0x80) else None
    case None => None
  }

  /** Turns a code point into a character when it is a Unicode scalar value. */
  function ScalarChar(cp: int): Option<char> {
    if 0 <= cp < 0xD800 || 0xE000 <= cp < 0x11_0000 then Some(cp as char) else None
  }

  /** The character escaped at the start of `s` and the number of text characters it took. */
  function ReadEscaped(s: string): (r: Option<(char, nat)>)
    ensures r.Some? ==> 3 <= r.value.1 <= |s|
  {
    match ByteAt(s, 0)
    case None => None
    case Some(b0) =>
      if b0 < 0x80 then Some((b0 as char, 3))
      else if 0xC0 <= b0 < 0xE0 then
        match ContinuationAt(s, 3)
        case None => None
        case Some(b1) =>
          match ScalarChar((b0 - 0xC0) * 64 + b1)
          case None => None
          case Some(c) => Some((c, 6))
      else if 0xE0 <= b0 < 0xF0 then
        match (ContinuationAt(s, 3), ContinuationAt(s, 6))
        case (Some(b1), Some(b2)) =>
          (match ScalarChar(((b0 - 0xE0) * 64 + b1) * 64 + b2)
           case None => None
           case Some(c) => Some((c, 9)))
        case _ => None
      else if 0xF0 <= b0 < 0xF8 then
        match (ContinuationAt(s, 3), ContinuationAt(s, 6), ContinuationAt(s, 9))
        case (Some(b1), Some(b2), Some(b3)) =>
          (match ScalarChar((((b0 - 0xF0) * 64 + b1) * 64 + b2) * 64 + b3)
           case None => None
           case Some(c) => Some((c, 12)))
        case _ => None
      else None
  }

  function DecodeUriComponent(s: string): Option<string>
    decreases |s|
  {
    if s == [] then Some([])
    else if s[0] != '%' then
      match DecodeUriComponent(s[1..])
      case None => None
      case Some(t) => Some([s[0]] + t)
    else
      match ReadEscaped(s)
      case None => None
      case Some(p) =>
        match DecodeUriComponent(s[p.1..])
        case None => None
        case Some(t) => Some([p.0] + t)
  }

  lemma {:induction false} PercentBytesAt(bs: seq<nat>, rest: string, k: nat)
    requires ByteValues(bs) && k < |bs|
    ensures ByteAt(PercentBytes(bs) + rest, 3 * k) == Some(bs[k])
  {
    var s := PercentBytes(bs) + rest;
    if k == 0 {
      assert s[..3] == PercentByte(bs[0]);
    } else {
      PercentBytesAt(bs[1..], rest, k - 1);
      assert s == PercentByte(bs[0]) + (PercentBytes(bs[1..]) + rest);
      var t := PercentBytes(bs[1..]) + rest;
      assert s[3 * k] == t[3 * (k - 1)];
      assert s[3 * k + 1] == t[3 * (k - 1) + 1];
      assert s[3 * k + 2] == t[3 * (k - 1) + 2];
    }
  }

  lemma ContinuationOf(bs: seq<nat>, rest: string, k: nat, v: nat)
    requires ByteValues(bs) && k < |bs| && v < 64 && bs[k] == 0x80 + v
    ensures ContinuationAt(PercentBytes(bs) + rest, 3 * k) == Some(v)
  {
    PercentBytesAt(bs, rest, k);
  }

  lemma ScalarOfChar(c: char)
    ensures ScalarChar(c as int) == Some(c)
  {
  }

  lemma ReadTwoBytes(c: char, rest: string)
    requires 0x80 <= c as int < 0x800
    ensures ReadEscaped(PercentBytes(Utf8(c)) + rest) == Some((c, 6))
  {
    var bs, cp := Utf8(c), c as int;
    var q1 := cp / 64;
    PercentBytesAt(bs, rest, 0);
    ContinuationOf(bs, rest, 1, cp % 64);
    assert q1 * 64 + cp % 64 == cp;
    ScalarOfChar(c);
  }

  lemma ReadThreeBytes(c: char, rest: string)
    requires 0x800 <= c as int < 0x10000
    ensures ReadEscaped(PercentBytes(Utf8(c)) + rest) == Some((c, 9))
  {
    var bs, cp := Utf8(c), c as int;
    var q1 := cp / 64;
    var q2 := q1 / 64;
    PercentBytesAt(bs, rest, 0);
    ContinuationOf(bs, rest, 1, q1 % 64);
    ContinuationOf(bs, rest, 2, cp % 64);
    Horner3(cp);
    ScalarOfChar(c);
  }

  lemma Horner3(cp: nat)
    ensures ((cp / 64 / 64) * 64 + (cp / 64) % 64) * 64 + cp % 64 == cp
  {
    var q1 := cp / 64;
    assert (q1 / 64) * 64 + q1 % 64 == q1;
    assert q1 * 64 + cp % 64 == cp;
  }

  lemma Horner4(cp: nat)
    ensures (((cp / 64 / 64 / 64) * 64 + (cp / 64 / 64) % 64) * 64 + (cp / 64) % 64) * 64 + cp % 64 == cp
  {
    var q1 := cp / 64;
    var q2 := q1 / 64;
    assert (q2 / 64) * 64 + q2 % 64 == q2;
    Horner3(cp);
  }

  /** Reading the escapes of four bytes, given the lead byte and the six bits each continuation holds. */
  lemma ReadFour(bs: seq<nat>, rest: string, v1: nat, v2: nat, v3: nat, c: char)
    requires ByteValues(bs) && |bs| == 4 && 0xF0 <= bs[0] < 0xF8
    requires v1 < 64 && v2 < 64 && v3 < 64
    requires bs[1] == 0x80 + v1 && bs[2] == 0x80 + v2 && bs[3] == 0x80 + v3
    requires ScalarChar((((bs[0] - 0xF0) * 64 + v1) * 64 + v2) * 64 + v3) == Some(c)
    ensures ReadEscaped(PercentBytes(bs) + rest) == Some((c, 12))
  {
    PercentBytesAt(bs, rest, 0);
    ContinuationOf(bs, rest, 1, v1);
    ContinuationOf(bs, rest, 2, v2);
    ContinuationOf(bs, rest, 3, v3);
  }

  lemma ReadFourBytes(c: char, rest: string)
    requires 0x10000 <= c as int
    ensures ReadEscaped(PercentBytes(Utf8(c)) + rest) == Some((c, 12))
  {
    var cp := c as int;
    var q1 := cp / 64;
    var q2 := q1 / 64;
    var q3 := q2 / 64;
    Horner4(cp);
    ScalarOfChar(c);
    ReadFour(Utf8(c), rest, q2 % 64, q1 % 64, cp % 64, c);
  }

  /** An escaped character reads back as itself, using up exactly its escape. */
  lemma ReadEncodedChar(c: char, rest: string)
    requires !IsUriUnreserved(c)
    ensures ReadEscaped(EncodeChar(c) + rest) == Some((c, |EncodeChar(c)|))
  {
    PercentBytesAt(Utf8(c), rest, 0);
    var cp := c as int;
    if cp < 0x80 {
    } else if cp < 0x800 {
      ReadTwoBytes(c, rest);
    } else if cp < 0x10000 {
      ReadThreeBytes(c, rest);
    } else {
      ReadFourBytes(c, rest);
    }
  }

  lemma DecodeEncodedChar(c: char, rest: string)
    ensures DecodeUriComponent(EncodeChar(c) + rest) ==
      match DecodeUriComponent(rest)
      case None => None
      case Some(t) => Some([c] + t)
  {
    var e := EncodeChar(c);
    var s := e + rest;
    if IsUriUnreserved(c) {
      assert s[0] == c && s[1..] == rest;
    } else {
      ReadEncodedChar(c, rest);
      PercentBytesAt(Utf8(c), rest, 0);
      assert s[|e|..] == rest;
    }
  }

  /** decodeURIComponent undoes encodeURIComponent: the encoded text names the original exactly. */
  lemma {:induction false} UriRoundTrip(s: string)
    ensures DecodeUriComponent(EncodeUriComponent(s)) == Some(s)
  {
    if s != [] {
      UriRoundTrip(s[1..]);
      DecodeEncodedChar(s[0], EncodeUriComponent(s[1..]));
      assert [s[0]] + s[1..] == s;
    }
  }
}
