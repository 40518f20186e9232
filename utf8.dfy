/** UTF-8 as the standard library implements it (RFC 3629): strict validation
    (`str::from_utf8`, `CStr::to_str`) and lossy conversion (`to_string_lossy`),
    both driven by one decoding step over "units": a well-formed character, or a
    maximal ill-formed subpart, which lossy conversion replaces by one U+FFFD. */
module Utf8 {
  import opened Bytes
  import opened Wrappers

  /** `utf8_char_width`: the sequence length announced by a lead byte, 0 if it cannot lead. */
  function CharWidth(b0: byte): nat
  {
    if b0 < 0x80 then 1
    else if b0 < 0xC2 then 0
    else if b0 < 0xE0 then 2
    else if b0 < 0xF0 then 3
    else if b0 < 0xF5 then 4
    else 0
  }

  predicate IsCont(b: byte) { 0x80 <= b <= 0xBF }

  /** The second byte allowed after a 3- or 4-byte lead: no overlong forms, no
      surrogates, nothing above U+10FFFF. */
  predicate SecondOk(b0: byte, b1: byte)
  {
    if b0 == 0xE0 then 0xA0 <= b1 <= 0xBF
    else if b0 == 0xED then 0x80 <= b1 <= 0x9F
    else if b0 == 0xF0 then 0x90 <= b1 <= 0xBF
    else if b0 == 0xF4 then 0x80 <= b1 <= 0x8F
    else IsCont(b1)
  }

  /** The unit at the front of a byte string: its length and, when well formed, its character. */
  datatype Unit = Unit(len: nat, ch: Option<char>)

  function Next(b: seq<byte>): (u: Unit)
    requires b != []
    ensures 1 <= u.len <= |b| && u.len <= 4
    ensures b[0] < 0x80 <==> u == Unit(1, Some(b[0] as char))
  {
    var b0: int := b[0];
    var w := CharWidth(b0);
    if w == 1 then Unit(1, Some(b0 as char))
    else if w == 0 then Unit(1, None)
    else if w == 2 then
      if |b| > 1 && IsCont(b[1]) then Unit(2, Some(((b0 - 0xC0) * 64 + (b[1] as int - 0x80)) as char))
      else Unit(1, None)
    else if |b| < 2 || !SecondOk(b0, b[1]) then Unit(1, None)
    else if |b| < 3 || !IsCont(b[2]) then Unit(2, None)
    else if w == 3 then
      Unit(3, Some(((b0 - 0xE0) * 4096 + (b[1] as int - 0x80) * 64 + (b[2] as int - 0x80)) as char))
    else if |b| < 4 || !IsCont(b[3]) then Unit(3, None)
    else
      Unit(4, Some(((b0 - 0xF0) * 262144 + (b[1] as int - 0x80) * 4096
                    + (b[2] as int - 0x80) * 64 + (b[3] as int - 0x80)) as char))
  }

  /** `str::from_utf8`: the text, or None at the first ill-formed unit. */
  function FromUtf8(b: seq<byte>): (r: Option<string>)
    ensures r.Some? ==> |r.value| <= |b|
    decreases |b|
  {
    if b == [] then Some("")
    else
      var u := Next(b);
      match (u.ch, FromUtf8(b[u.len..]))
      case (Some(c), Some(rest)) => Some([c] + rest)
      case _ => None
  }

  const Replacement: char := '\U{FFFD}'

  /** `String::from_utf8_lossy`: every ill-formed unit becomes one U+FFFD; never fails. */
  function Lossy(b: seq<byte>): (s: string)
    ensures |s| <= |b|
    decreases |b|
  {
    if b == [] then ""
    else
      var u := Next(b);
      [if u.ch.Some? then u.ch.value else Replacement] + Lossy(b[u.len..])
  }

  predicate IsAscii(b: seq<byte>) { forall i :: 0 <= i < |b| ==> b[i] < 0x80 }

  function AsciiText(b: seq<byte>): (s: string)
    requires IsAscii(b)
    ensures |s| == |b| && forall i :: 0 <= i < |b| ==> s[i] as int == b[i]
  {
    seq(|b|, i requires 0 <= i < |b| => b[i] as char)
  }

  /** On well-formed input the lossy conversion is the strict one. */
  lemma {:induction false} LossyAgreesWhenValid(b: seq<byte>)
    requires FromUtf8(b).Some?
    ensures Lossy(b) == FromUtf8(b).value
    decreases |b|
  {
    if b != [] {
      LossyAgreesWhenValid(b[Next(b).len..]);
    }
  }

  /** ASCII bytes are valid UTF-8 and decode one character per byte, under both conversions. */
  lemma {:induction false} AsciiIdentity(b: seq<byte>)
    requires IsAscii(b)
    ensures FromUtf8(b) == Some(AsciiText(b))
    ensures Lossy(b) == AsciiText(b)
    decreases |b|
  {
    if b != [] {
      AsciiIdentity(b[1..]);
      assert AsciiText(b) == [b[0] as char] + AsciiText(b[1..]);
    }
  }

  /** The UTF-8 encoding of one character: 1 to 4 bytes. */
  function EncodeChar(c: char): (b: seq<byte>)
    ensures 1 <= |b| <= 4
  {
    var cp := c as int;
    var q1 := cp / 64;
    var q2 := q1 / 64;
    if cp < 0x80 then [cp]
    else if cp < 0x800 then [0xC0 + q1, 0x80 + cp % 64]
    else if cp < 0x10000 then [0xE0 + q2, 0x80 + q1 % 64, 0x80 + cp % 64]
    else [0xF0 + q2 / 64, 0x80 + q2 % 64, 0x80 + q1 % 64, 0x80 + cp % 64]
  }

  function Encode(s: string): seq<byte>
  {
    if s == "" then [] else EncodeChar(s[0]) + Encode(s[1..])
  }

  lemma NextEncodeChar(c: char, rest: seq<byte>)
    ensures Next(EncodeChar(c) + rest) == Unit(|EncodeChar(c)|, Some(c))
  {
    var cp := c as int;
    if cp < 0x80 {
    } else if cp < 0x800 {
      NextEncode2(c, rest);
    } else if cp < 0x10000 {
      NextEncode3(c, rest);
    } else {
      NextEncode4(c, rest);
    }
  }

  lemma NextEncode2(c: char, rest: seq<byte>)
    requires 0x80 <= c as int < 0x800
    ensures Next(EncodeChar(c) + rest) == Unit(2, Some(c))
  {
    var cp := c as int;
    var b := EncodeChar(c) + rest;
    assert b[0] == 0xC0 + cp / 64 && b[1] == 0x80 + cp % 64;
    assert (b[0] as int - 0xC0) * 64 + (b[1] as int - 0x80) == cp;
  }

  lemma NextEncode3(c: char, rest: seq<byte>)
    requires 0x800 <= c as int < 0x10000
    ensures Next(EncodeChar(c) + rest) == Unit(3, Some(c))
  {
    var cp := c as int;
    var b := EncodeChar(c) + rest;
    var q1 := cp / 64;
    var hi, mid, lo := q1 / 64, q1 % 64, cp % 64;
    assert cp == q1 * 64 + lo;
    assert q1 == hi * 64 + mid;
    assert b[0] == 0xE0 + hi && b[1] == 0x80 + mid && b[2] == 0x80 + lo;
    assert SecondOk(b[0], b[1]);
  }

  lemma NextEncode4(c: char, rest: seq<byte>)
    requires 0x10000 <= c as int
    ensures Next(EncodeChar(c) + rest) == Unit(4, Some(c))
  {
    var cp := c as int;
    var b := EncodeChar(c) + rest;
    var q1 := cp / 64;
    var q2 := q1 / 64;
    var top, hi, mid, lo := q2 / 64, q2 % 64, q1 % 64, cp % 64;
    assert cp == q1 * 64 + lo;
    assert q1 == q2 * 64 + mid;
    assert q2 == top * 64 + hi;
    assert b[0] == 0xF0 + top && b[1] == 0x80 + hi && b[2] == 0x80 + mid && b[3] == 0x80 + lo;
    assert SecondOk(b[0], b[1]);
  }

  /** The validator accepts every encoded string and gives the string back. */
  lemma {:induction false} DecodeEncode(s: string)
    ensures FromUtf8(Encode(s)) == Some(s)
  {
    if s != "" {
      var e := EncodeChar(s[0]);
      NextEncodeChar(s[0], Encode(s[1..]));
      DecodeEncode(s[1..]);
      assert Encode(s) == e + Encode(s[1..]);
      assert Encode(s)[|e|..] == Encode(s[1..]);
      assert [s[0]] + s[1..] == s;
    }
  }
}
