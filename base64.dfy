/**
  Base64 with the standard alphabet and `=` padding, as in section 4 of
  RFC 4648 (the `STANDARD` engine of the `base64` crate). `Encode` is what
  the account code uses; `Decode` is its inverse, used to state what an
  encoded credential carries.
 */
module Base64 {
  import opened Prelude

  type Sextet = x: int | 0 <= x < 64

  predicate IsAlphabetChar(c: char) {
    'A' <= c <= 'Z' || 'a' <= c <= 'z' || '0' <= c <= '9' || c == '+' || c == '/'
  }

  /** The character Table 1 of RFC 4648 assigns to a 6-bit value. */
  function SextetChar(v: Sextet): (c: char)
    ensures IsAlphabetChar(c) && c != '='
  {
    if v < 26 then ('A' as int + v) as char
    else if v < 52 then ('a' as int + (v - 26)) as char
    else if v < 62 then ('0' as int + (v - 52)) as char
    else if v == 62 then '+'
    else '/'
  }

  /** The 6-bit value of an alphabet character. */
  function CharSextet(c: char): (v: Sextet)
    requires IsAlphabetChar(c)
    ensures SextetChar(v) == c
  {
    if 'A' <= c <= 'Z' then c as int - 'A' as int
    else if 'a' <= c <= 'z' then c as int - 'a' as int + 26
    else if '0' <= c <= '9' then c as int - '0' as int + 52
    else if c == '+' then 62
    else 63
  }

  lemma SextetCharInverse(v: Sextet)
    ensures CharSextet(SextetChar(v)) == v
  {
  }

  /** Three octets as four characters (one 24-bit group). */
  function EncodeGroup(a: byte, b: byte, c: byte): (s: string)
    ensures |s| == 4 && forall i :: 0 <= i < 4 ==> IsAlphabetChar(s[i])
  {
    [SextetChar(a as int / 4),
     SextetChar((a as int % 4) * 16 + b as int / 16),
     SextetChar((b as int % 16) * 4 + c as int / 64),
     SextetChar(c as int % 64)]
  }

  /** The encoding of `data`: one group per three octets, a final group padded with `=`. */
  function Encode(data: seq<byte>): (s: string)
    ensures |s| == 4 * ((|data| + 2) / 3)
    ensures |data| % 3 == 0 ==> forall i :: 0 <= i < |s| ==> IsAlphabetChar(s[i])
    decreases |data|
  {
    if |data| == 0 then ""
    else if |data| == 1 then
      [SextetChar(data[0] as int / 4), SextetChar((data[0] as int % 4) * 16), '=', '=']
    else if |data| == 2 then
      [SextetChar(data[0] as int / 4),
       SextetChar((data[0] as int % 4) * 16 + data[1] as int / 16),
       SextetChar((data[1] as int % 16) * 4), '=']
    else
      EncodeGroup(data[0], data[1], data[2]) + Encode(data[3..])
  }

  /** The first octet carried by two sextets. */
  function Octet0(w: Sextet, x: Sextet): byte { (w * 4 + x / 16) as byte }

  /** The second octet carried by two sextets. */
  function Octet1(x: Sextet, y: Sextet): byte { ((x % 16) * 16 + y / 4) as byte }

  /** The third octet carried by two sextets. */
  function Octet2(y: Sextet, z: Sextet): byte { ((y % 4) * 64 + z) as byte }

  /** The octets a padded or unpadded string of groups stands for, or None if it is not such a string. */
  function Decode(s: string): (r: Option<seq<byte>>)
    decreases |s|
  {
    if |s| == 0 then Some([])
    else if |s| < 4 || !IsAlphabetChar(s[0]) || !IsAlphabetChar(s[1]) then None
    else
      var w, x := CharSextet(s[0]), CharSextet(s[1]);
      if |s| == 4 && s[2] == '=' && s[3] == '=' then Some([Octet0(w, x)])
      else if !IsAlphabetChar(s[2]) then None
      else
        var y := CharSextet(s[2]);
        if |s| == 4 && s[3] == '=' then Some([Octet0(w, x), Octet1(x, y)])
        else if !IsAlphabetChar(s[3]) then None
        else
          match Decode(s[4..])
          case None => None
          case Some(rest) => Some([Octet0(w, x), Octet1(x, y), Octet2(y, CharSextet(s[3]))] + rest)
  }

  /** Splitting octets into sextets and joining them back gives the octets. */
  lemma GroupArithmetic(a: byte, b: byte, c: byte)
    ensures Octet0(a as int / 4, (a as int % 4) * 16 + b as int / 16) == a
    ensures Octet1((a as int % 4) * 16 + b as int / 16, (b as int % 16) * 4 + c as int / 64) == b
    ensures Octet2((b as int % 16) * 4 + c as int / 64, c as int % 64) == c
    ensures Octet0(a as int / 4, (a as int % 4) * 16) == a
    ensures Octet1((a as int % 4) * 16 + b as int / 16, (b as int % 16) * 4) == b
  {
  }

  /** A full group in front of any string decodes to its three octets in front of what the rest decodes to. */
  lemma DecodeGroup(a: byte, b: byte, c: byte, t: string, rest: seq<byte>)
    requires Decode(t) == Some(rest)
    ensures Decode(EncodeGroup(a, b, c) + t) == Some([a, b, c] + rest)
  {
    var s := EncodeGroup(a, b, c) + t;
    assert s[4..] == t;
    SextetCharInverse(a as int / 4);
    SextetCharInverse((a as int % 4) * 16 + b as int / 16);
    SextetCharInverse((b as int % 16) * 4 + c as int / 64);
    SextetCharInverse(c as int % 64);
    GroupArithmetic(a, b, c);
  }

  /** The padded encoding of one octet decodes to it. */
  lemma DecodeOneOctet(a: byte)
    ensures Decode(Encode([a])) == Some([a])
  {
    var w, x := a as int / 4, (a as int % 4) * 16;
    SextetCharInverse(w);
    SextetCharInverse(x);
    assert Encode([a]) == [SextetChar(w), SextetChar(x), '=', '='];
    assert Octet0(w, x) == a;
  }

  /** The padded encoding of two octets decodes to them. */
  lemma DecodeTwoOctets(a: byte, b: byte)
    ensures Decode(Encode([a, b])) == Some([a, b])
  {
    var w, x, y := a as int / 4, (a as int % 4) * 16 + b as int / 16, (b as int % 16) * 4;
    SextetCharInverse(w);
    SextetCharInverse(x);
    SextetCharInverse(y);
    var s := [SextetChar(w), SextetChar(x), SextetChar(y), '='];
    assert Encode([a, b]) == s;
    assert Octet0(w, x) == a && Octet1(x, y) == b;
    assert Decode(s) == Some([Octet0(w, x), Octet1(x, y)]);
  }

  lemma SplitGroup(data: seq<byte>)
    requires |data| >= 3
    ensures data == [data[0], data[1], data[2]] + data[3..]
  {
    assert data == data[..3] + data[3..];
    assert data[..3] == [data[0], data[1], data[2]];
  }

  /** One step of the induction: a group in front of a sequence that round-trips. */
  lemma DecodeEncodeStep(data: seq<byte>)
    requires |data| >= 3
    requires Decode(Encode(data[3..])) == Some(data[3..])
    ensures Decode(Encode(data)) == Some(data)
  {
    var a, b, c, rest := data[0], data[1], data[2], data[3..];
    var t := Encode(rest);
    assert Encode(data) == EncodeGroup(a, b, c) + t;
    DecodeGroup(a, b, c, t, rest);
    SplitGroup(data);
  }

  /** Decoding undoes encoding, for every octet sequence. */
  lemma {:induction false} DecodeEncode(data: seq<byte>)
    ensures Decode(Encode(data)) == Some(data)
    decreases |data|
  {
    if |data| == 0 {
    } else if |data| == 1 {
      DecodeOneOctet(data[0]);
      assert data == [data[0]];
    } else if |data| == 2 {
      DecodeTwoOctets(data[0], data[1]);
      assert data == [data[0], data[1]];
    } else {
      DecodeEncode(data[3..]);
      DecodeEncodeStep(data);
    }
  }

  /** Encoding loses nothing: distinct octet sequences have distinct encodings. */
  lemma EncodeInjective(d1: seq<byte>, d2: seq<byte>)
    ensures Encode(d1) == Encode(d2) ==> d1 == d2
  {
    DecodeEncode(d1);
    DecodeEncode(d2);
  }
}
