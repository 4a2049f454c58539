/**
  UTF-8, as in RFC 3629: a Rust `&str` is stored as its UTF-8 octets, and
  `str::as_bytes` exposes them. Dafny's `char` is a Unicode scalar value, so
  every `string` has exactly one encoding.
 */
module Utf8 {
  import opened Prelude

  predicate IsContinuation(b: byte) { 0x80 <= b < 0xC0 }

  /** The one to four octets RFC 3629 section 3 assigns to a scalar value. */
  function EncodeChar(c: char): (r: seq<byte>)
    ensures 1 <= |r| <= 4
    ensures |r| == 1 <==> c as int < 0x80
    ensures forall i :: 1 <= i < |r| ==> IsContinuation(r[i])
  {
    var n := c as int;
    if n < 0x80 then [n as byte]
    else if n < 0x800 then [(0xC0 + n / 64) as byte, (0x80 + n % 64) as byte]
    else if n < 0x1_0000 then
      [(0xE0 + n / 4096) as byte, (0x80 + n / 64 % 64) as byte, (0x80 + n % 64) as byte]
    else
      [(0xF0 + n / 262144) as byte, (0x80 + n / 4096 % 64) as byte,
       (0x80 + n / 64 % 64) as byte, (0x80 + n % 64) as byte]
  }

  /** The octets of a string, character after character (`str::as_bytes`). */
  function Encode(s: string): (r: seq<byte>)
    ensures |s| <= |r| <= 4 * |s|
  {
    if s == [] then [] else EncodeChar(s[0]) + Encode(s[1..])
  }

  predicate IsScalar(n: int) { 0 <= n < 0xD800 || 0xE000 <= n < 0x11_0000 }

  /** The scalar value and length of the well-formed sequence at the front of `b`, if there is one. */
  function DecodeFirst(b: seq<byte>): (r: Option<(char, nat)>)
    requires |b| > 0
    ensures r.Some? ==> 1 <= r.value.1 <= |b| && r.value.1 <= 4
  {
    var b0 := b[0] as int;
    if b0 < 0x80 then Some((b0 as char, 1))
    else if 0xC0 <= b0 < 0xE0 && |b| >= 2 && IsContinuation(b[1]) then
      var n := (b0 - 0xC0) * 64 + (b[1] as int - 0x80);
      if 0x80 <= n then Some((n as char, 2)) else None
    else if 0xE0 <= b0 < 0xF0 && |b| >= 3 && IsContinuation(b[1]) && IsContinuation(b[2]) then
      var n := (b0 - 0xE0) * 4096 + (b[1] as int - 0x80) * 64 + (b[2] as int - 0x80);
      if 0x800 <= n && IsScalar(n) then Some((n as char, 3)) else None
    else if 0xF0 <= b0 < 0xF8 && |b| >= 4 && IsContinuation(b[1]) && IsContinuation(b[2]) && IsContinuation(b[3]) then
      var n := (b0 - 0xF0) * 262144 + (b[1] as int - 0x80) * 4096 + (b[2] as int - 0x80) * 64 + (b[3] as int - 0x80);
      if 0x1_0000 <= n && IsScalar(n) then Some((n as char, 4)) else None
    else None
  }

  /** The string whose encoding `b` is, or None if `b` is not well-formed UTF-8. */
  function Decode(b: seq<byte>): (r: Option<string>)
    decreases |b|
  {
    if b == [] then Some([])
    else
      match DecodeFirst(b)
      case None => None
      case Some((c, k)) =>
        match Decode(b[k..])
        case None => None
        case Some(rest) => Some([c] + rest)
  }

  lemma DecodeFirstTwo(c: char, t: seq<byte>)
    requires 0x80 <= c as int < 0x800
    ensures DecodeFirst(EncodeChar(c) + t) == Some((c, 2))
  {
    var n := c as int;
    var b := EncodeChar(c) + t;
    assert b[0] as int == 0xC0 + n / 64 && b[1] as int == 0x80 + n % 64;
    assert (b[0] as int - 0xC0) * 64 + (b[1] as int - 0x80) == n;
  }

  lemma DecodeFirstThree(c: char, t: seq<byte>)
    requires 0x800 <= c as int < 0x1_0000
    ensures DecodeFirst(EncodeChar(c) + t) == Some((c, 3))
  {
    var n := c as int;
    var b := EncodeChar(c) + t;
    var x0, x1, x2 := n / 4096, n / 64 % 64, n % 64;
    assert x0 * 4096 + x1 * 64 + x2 == n;
    assert b[0] as int == 0xE0 + x0 && b[1] as int == 0x80 + x1 && b[2] as int == 0x80 + x2;
  }

  lemma FourOctetDigits(n: int)
    requires 0x1_0000 <= n < 0x11_0000
    ensures n / 262144 < 8
    ensures n / 262144 * 262144 + n / 4096 % 64 * 4096 + n / 64 % 64 * 64 + n % 64 == n
  {
  }

  lemma DecodeFirstFour(c: char, t: seq<byte>)
    requires 0x1_0000 <= c as int
    ensures DecodeFirst(EncodeChar(c) + t) == Some((c, 4))
  {
    var n := c as int;
    var x0, x1, x2, x3 := n / 262144, n / 4096 % 64, n / 64 % 64, n % 64;
    FourOctetDigits(n);
    var e := EncodeChar(c);
    assert e == [(0xF0 + x0) as byte, (0x80 + x1) as byte, (0x80 + x2) as byte, (0x80 + x3) as byte];
    var b := e + t;
    assert b[0] == e[0] && b[1] == e[1] && b[2] == e[2] && b[3] == e[3];
    assert 0xF0 <= b[0] < 0xF8 && IsContinuation(b[1]) && IsContinuation(b[2]) && IsContinuation(b[3]);
    assert (b[0] as int - 0xF0) * 262144 + (b[1] as int - 0x80) * 4096 + (b[2] as int - 0x80) * 64 + (b[3] as int - 0x80) == n;
  }

  /** The encoding of a character is recognised at the front of any octets. */
  lemma DecodeFirstEncodeChar(c: char, t: seq<byte>)
    ensures DecodeFirst(EncodeChar(c) + t) == Some((c, |EncodeChar(c)|))
  {
    var n := c as int;
    if n < 0x80 {
    } else if n < 0x800 {
      DecodeFirstTwo(c, t);
    } else if n < 0x1_0000 {
      DecodeFirstThree(c, t);
    } else {
      DecodeFirstFour(c, t);
    }
  }

  /** Decoding undoes encoding, for every string. */
  lemma {:induction false} DecodeEncode(s: string)
    ensures Decode(Encode(s)) == Some(s)
  {
    if s != [] {
      var head, t := EncodeChar(s[0]), Encode(s[1..]);
      DecodeFirstEncodeChar(s[0], t);
      assert (head + t)[|head|..] == t;
      DecodeEncode(s[1..]);
      assert s == [s[0]] + s[1..];
    }
  }

  /** Distinct strings have distinct octets. */
  lemma EncodeInjective(s1: string, s2: string)
    ensures Encode(s1) == Encode(s2) ==> s1 == s2
  {
    DecodeEncode(s1);
    DecodeEncode(s2);
  }
}
