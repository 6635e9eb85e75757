/**
  * Base 64 encoding as defined in section 4 of RFC 4648: every three octets
  * become four characters of the 64-character alphabet of Table 1, and a
  * final group of one or two octets is padded with `=`. The decoder is the
  * strict inverse: length a multiple of four, padding only at the end, and
  * the unused bits of a padded group zero.
  */
module Base64 {
  import opened Wrappers
  import Utf8

  type Byte = Utf8.Byte

  predicate InAlphabet(c: char)
  {
    'A' <= c <= 'Z' || 'a' <= c <= 'z' || '0' <= c <= '9' || c == '+' || c == '/'
  }

  /** The character of Table 1 that encodes the 6-bit value `v`. */
  function Digit(v: nat): (c: char)
    requires v < 64
    ensures InAlphabet(c)
  {
    if v < 26 then ('A' as int + v) as char
    else if v < 52 then ('a' as int + (v - 26)) as char
    else if v < 62 then ('0' as int + (v - 52)) as char
    else if v == 62 then '+'
    else '/'
  }

  /** The 6-bit value a character of Table 1 encodes. */
  function Value(c: char): (r: Option<nat>)
    ensures r.Some? ==> r.value < 64
    ensures r.Some? <==> InAlphabet(c)
  {
    if 'A' <= c <= 'Z' then Some(c as int - 'A' as int)
    else if 'a' <= c <= 'z' then Some(c as int - 'a' as int + 26)
    else if '0' <= c <= '9' then Some(c as int - '0' as int + 52)
    else if c == '+' then Some(62)
    else if c == '/' then Some(63)
    else None
  }

  lemma ValueDigit(v: nat)
    requires v < 64
    ensures Value(Digit(v)) == Some(v)
  {
  }

  /** The four characters of three octets; `n` of them (1, 2 or 3) are real and the rest padding. */
  function EncodeGroup(x: Byte, y: Byte, z: Byte, n: nat): (r: string)
    requires 1 <= n <= 3
    ensures |r| == 4
  {
    var v0, v1, v2, v3 := x / 4, (x % 4) * 16 + y / 16, (y % 16) * 4 + z / 64, z % 64;
    if n == 1 then [Digit(v0), Digit(v1), '=', '=']
    else if n == 2 then [Digit(v0), Digit(v1), Digit(v2), '=']
    else [Digit(v0), Digit(v1), Digit(v2), Digit(v3)]
  }

  function Encode(b: seq<Byte>): (r: string)
    ensures |r| == 4 * ((|b| + 2) / 3)
  {
    if |b| == 0 then ""
    else if |b| == 1 then EncodeGroup(b[0], 0, 0, 1)
    else if |b| == 2 then EncodeGroup(b[0], b[1], 0, 2)
    else EncodeGroup(b[0], b[1], b[2], 3) + Encode(b[3..])
  }

  /** The octets of one group of four characters. */
  function DecodeGroup(q: string): Option<seq<Byte>>
    requires |q| == 4
  {
    var v0, v1, v2, v3 := Value(q[0]), Value(q[1]), Value(q[2]), Value(q[3]);
    if v0.None? || v1.None? then None
    else if q[2] == '=' && q[3] == '=' then
      if v1.value % 16 == 0 then Some([v0.value * 4 + v1.value / 16]) else None
    else if v2.None? then None
    else if q[3] == '=' then
      if v2.value % 4 == 0 then
        Some([v0.value * 4 + v1.value / 16, (v1.value % 16) * 16 + v2.value / 4])
      else None
    else if v3.None? then None
    else
      Some([v0.value * 4 + v1.value / 16, (v1.value % 16) * 16 + v2.value / 4, (v2.value % 4) * 64 + v3.value])
  }

  function Decode(s: string): Option<seq<Byte>>
  {
    if |s| == 0 then Some([])
    else if |s| < 4 then None
    else
      match DecodeGroup(s[..4])
      case None => None
      case Some(g) =>
        if |g| < 3 && |s| > 4 then None
        else
          match Decode(s[4..])
          case None => None
          case Some(t) => Some(g + t)
  }

  /** Splitting `a * 16 + r` back into `a` and `r`. */
  lemma Unpack16(a: nat, r: nat)
    requires r < 16
    ensures (a * 16 + r) / 16 == a && (a * 16 + r) % 16 == r
  {
  }

  /** Splitting `a * 4 + r` back into `a` and `r`. */
  lemma Unpack4(a: nat, r: nat)
    requires r < 4
    ensures (a * 4 + r) / 4 == a && (a * 4 + r) % 4 == r
  {
  }

  lemma DecodeDigits3(v0: nat, v1: nat, v2: nat, v3: nat)
    requires v0 < 64 && v1 < 64 && v2 < 64 && v3 < 64
    ensures DecodeGroup([Digit(v0), Digit(v1), Digit(v2), Digit(v3)])
         == Some([v0 * 4 + v1 / 16, (v1 % 16) * 16 + v2 / 4, (v2 % 4) * 64 + v3])
  {
    ValueDigit(v0);
    ValueDigit(v1);
    ValueDigit(v2);
    ValueDigit(v3);
  }

  lemma DecodeDigits2(v0: nat, v1: nat, v2: nat)
    requires v0 < 64 && v1 < 64 && v2 < 64 && v2 % 4 == 0
    ensures DecodeGroup([Digit(v0), Digit(v1), Digit(v2), '=']) == Some([v0 * 4 + v1 / 16, (v1 % 16) * 16 + v2 / 4])
  {
    ValueDigit(v0);
    ValueDigit(v1);
    ValueDigit(v2);
    var q := [Digit(v0), Digit(v1), Digit(v2), '='];
    assert q[2] != '=';
    assert Value(q[3]).None?;
  }

  lemma DecodeDigits1(v0: nat, v1: nat)
    requires v0 < 64 && v1 < 64 && v1 % 16 == 0
    ensures DecodeGroup([Digit(v0), Digit(v1), '=', '=']) == Some([v0 * 4 + v1 / 16])
  {
    ValueDigit(v0);
    ValueDigit(v1);
  }

  /** The 6-bit values of three octets put the octets back together. */
  lemma Regroup(x: nat, y: nat, z: nat)
    requires x < 256 && y < 256 && z < 256
    ensures (x / 4) * 4 + ((x % 4) * 16 + y / 16) / 16 == x
    ensures (((x % 4) * 16 + y / 16) % 16) * 16 + ((y % 16) * 4 + z / 64) / 4 == y
    ensures (((y % 16) * 4 + z / 64) % 4) * 64 + z % 64 == z
  {
    Unpack16(x % 4, y / 16);
    Unpack4(y % 16, z / 64);
  }

  lemma DecodeEncodeGroup1(x: Byte)
    ensures DecodeGroup(EncodeGroup(x, 0, 0, 1)) == Some([x])
  {
    Regroup(x, 0, 0);
    Unpack16(x % 4, 0);
    DecodeDigits1(x / 4, (x % 4) * 16);
  }

  lemma DecodeEncodeGroup2(x: Byte, y: Byte)
    ensures DecodeGroup(EncodeGroup(x, y, 0, 2)) == Some([x, y])
  {
    var v0, v1, v2 := x / 4, (x % 4) * 16 + y / 16, (y % 16) * 4 + 0 / 64;
    assert EncodeGroup(x, y, 0, 2) == [Digit(v0), Digit(v1), Digit(v2), '='];
    Unpack4(y % 16, 0);
    assert v2 % 4 == 0;
    DecodeDigits2(v0, v1, v2);
    Regroup(x, y, 0);
  }

  lemma Triple(a: int, b: int, c: int, x: Byte, y: Byte, z: Byte)
    requires a == x && b == y && c == z
    ensures Some([a, b, c]) == Some([x, y, z])
  {
  }

  lemma DecodeEncodeGroup3(x: Byte, y: Byte, z: Byte)
    ensures DecodeGroup(EncodeGroup(x, y, z, 3)) == Some([x, y, z])
  {
    var v0, v1, v2, v3 := x / 4, (x % 4) * 16 + y / 16, (y % 16) * 4 + z / 64, z % 64;
    assert EncodeGroup(x, y, z, 3) == [Digit(v0), Digit(v1), Digit(v2), Digit(v3)];
    DecodeDigits3(v0, v1, v2, v3);
    Regroup(x, y, z);
    Triple(v0 * 4 + v1 / 16, (v1 % 16) * 16 + v2 / 4, (v2 % 4) * 64 + v3, x, y, z);
  }

  lemma DecodeOneGroup(q: string, g: seq<Byte>)
    requires |q| == 4 && DecodeGroup(q) == Some(g)
    ensures Decode(q) == Some(g)
  {
    assert q[..4] == q && q[4..] == [];
    assert g + [] == g;
  }

  lemma DecodeGroups(q: string, rest: string, g: seq<Byte>, t: seq<Byte>)
    requires |q| == 4 && DecodeGroup(q) == Some(g) && |g| == 3 && Decode(rest) == Some(t)
    ensures Decode(q + rest) == Some(g + t)
  {
    assert (q + rest)[..4] == q && (q + rest)[4..] == rest;
  }

  lemma DecodeEncodeOne(b: seq<Byte>)
    requires |b| == 1
    ensures Decode(Encode(b)) == Some(b)
  {
    assert Encode(b) == EncodeGroup(b[0], 0, 0, 1);
    DecodeEncodeGroup1(b[0]);
    assert [b[0]] == b;
    DecodeOneGroup(Encode(b), b);
  }

  lemma DecodeEncodeTwo(b: seq<Byte>)
    requires |b| == 2
    ensures Decode(Encode(b)) == Some(b)
  {
    var q := EncodeGroup(b[0], b[1], 0, 2);
    assert Encode(b) == q;
    DecodeEncodeGroup2(b[0], b[1]);
    DecodeOneGroup(q, [b[0], b[1]]);
    assert [b[0], b[1]] == b;
  }

  lemma EncodeStep(b: seq<Byte>)
    requires |b| >= 3
    ensures Encode(b) == EncodeGroup(b[0], b[1], b[2], 3) + Encode(b[3..])
  {
  }

  lemma DecodeEncodeStep(b: seq<Byte>)
    requires |b| >= 3 && Decode(Encode(b[3..])) == Some(b[3..])
    ensures Decode(Encode(b)) == Some(b)
  {
    var x, y, z := b[0], b[1], b[2];
    var q, rest := EncodeGroup(x, y, z, 3), Encode(b[3..]);
    EncodeStep(b);
    DecodeEncodeGroup3(x, y, z);
    DecodeGroups(q, rest, [x, y, z], b[3..]);
    Reassemble(b);
  }

  lemma Reassemble(b: seq<Byte>)
    requires |b| >= 3
    ensures [b[0], b[1], b[2]] + b[3..] == b
  {
  }

  /** Decoding an encoding gives the octets back. */
  lemma {:induction false} DecodeEncode(b: seq<Byte>)
    ensures Decode(Encode(b)) == Some(b)
  {
    if |b| == 1 {
      DecodeEncodeOne(b);
    } else if |b| == 2 {
      DecodeEncodeTwo(b);
    } else if |b| >= 3 {
      DecodeEncode(b[3..]);
      DecodeEncodeStep(b);
    }
  }

  /** Only Table 1 characters and the pad character `=` appear, and `=` only in the last group. */
  lemma {:induction false} EncodeAlphabet(b: seq<Byte>)
    ensures forall i :: 0 <= i < |Encode(b)| ==> InAlphabet(Encode(b)[i]) || Encode(b)[i] == '='
    ensures forall i :: 0 <= i < |Encode(b)| - 4 ==> InAlphabet(Encode(b)[i])
  {
    if |b| >= 3 {
      EncodeAlphabet(b[3..]);
    }
  }
}
