/**
  * UTF-8 as defined by RFC 3629: the encoding of scalar values into one to
  * four octets (section 3) and a strict decoder that accepts exactly the
  * octet sequences of the syntax in section 4.
  */
module Utf8 {
  import opened Wrappers

  type Byte = x: int | 0 <= x < 256

  predicate IsTail(b: Byte) { 0x80 <= b < 0xC0 }

  /** The octets of one scalar value (section 3 of RFC 3629). */
  function EncodeScalar(c: char): (r: seq<Byte>)
    ensures 1 <= |r| <= 4
    ensures (|r| == 1) == (c as int < 0x80)
    ensures |r| == 1 ==> r[0] == c as int
  {
    var n := c as int;
    if n < 0x80 then [n]
    else if n < 0x800 then [0xC0 + n / 0x40, 0x80 + n % 0x40]
    else if n < 0x1_0000 then [0xE0 + n / 0x1000, 0x80 + (n / 0x40) % 0x40, 0x80 + n % 0x40]
    else [0xF0 + n / 0x4_0000, 0x80 + (n / 0x1000) % 0x40, 0x80 + (n / 0x40) % 0x40, 0x80 + n % 0x40]
  }

  function Encode(s: string): seq<Byte>
  {
    if s == [] then [] else EncodeScalar(s[0]) + Encode(s[1..])
  }

  /**
    * The first scalar value of `b` and the number of octets it takes, when
    * `b` starts with one of the sequences UTF8-1 .. UTF8-4 of section 4.
    */
  function DecodeScalar(b: seq<Byte>): (r: Option<(char, nat)>)
    ensures r.Some? ==> 1 <= r.value.1 <= |b| && r.value.1 <= 4
  {
    if |b| == 0 then None
    else
      var b0: int := b[0];
      if b0 < 0x80 then Some((b0 as char, 1))
      else if 0xC2 <= b0 < 0xE0 then
        if |b| >= 2 && IsTail(b[1]) then
          Some((((b0 - 0xC0) * 0x40 + (b[1] as int - 0x80)) as char, 2))
        else None
      else if 0xE0 <= b0 < 0xF0 then
        if |b| >= 3 && IsTail(b[1]) && IsTail(b[2])
           && (b0 != 0xE0 || 0xA0 <= b[1]) && (b0 != 0xED || b[1] < 0xA0) then
          var n := (b0 - 0xE0) * 0x1000 + (b[1] as int - 0x80) * 0x40 + (b[2] as int - 0x80);
          Some((n as char, 3))
        else None
      else if 0xF0 <= b0 < 0xF5 then
        if |b| >= 4 && IsTail(b[1]) && IsTail(b[2]) && IsTail(b[3])
           && (b0 != 0xF0 || 0x90 <= b[1]) && (b0 != 0xF4 || b[1] < 0x90) then
          var n := (b0 - 0xF0) * 0x4_0000 + (b[1] as int - 0x80) * 0x1000
                   + (b[2] as int - 0x80) * 0x40 + (b[3] as int - 0x80);
          Some((n as char, 4))
        else None
      else None
  }

  function Decode(b: seq<Byte>): Option<string>
    decreases |b|
  {
    if b == [] then Some([])
    else
      match DecodeScalar(b)
      case None => None
      case Some((c, k)) =>
        match Decode(b[k..])
        case None => None
        case Some(t) => Some([c] + t)
  }

  lemma DivMod64(n: nat)
    ensures n == (n / 0x40) * 0x40 + n % 0x40
  {
  }

  lemma {:induction false} DecodeEncodeScalar(c: char, rest: seq<Byte>)
    ensures DecodeScalar(EncodeScalar(c) + rest) == Some((c, |EncodeScalar(c)|))
  {
    var n := c as int;
    if n < 0x80 {
    } else if n < 0x800 {
      DecodeTwo(c, rest);
    } else if n < 0x1_0000 {
      DecodeThree(c, rest);
    } else {
      DecodeFour(c, rest);
    }
  }

  lemma DecodeTwo(c: char, rest: seq<Byte>)
    requires 0x80 <= c as int < 0x800
    ensures DecodeScalar(EncodeScalar(c) + rest) == Some((c, 2))
  {
    var n := c as int;
    var b := EncodeScalar(c) + rest;
    DivMod64(n);
    assert b[0] == 0xC0 + n / 0x40 && b[1] == 0x80 + n % 0x40;
    assert (b[0] as int - 0xC0) * 0x40 + (b[1] as int - 0x80) == n;
  }

  lemma DecodeThree(c: char, rest: seq<Byte>)
    requires 0x800 <= c as int < 0x1_0000
    ensures DecodeScalar(EncodeScalar(c) + rest) == Some((c, 3))
  {
    var n := c as int;
    var b := EncodeScalar(c) + rest;
    var q := n / 0x40;
    DivMod64(n);
    DivMod64(q);
    assert q / 0x40 == n / 0x1000;
    var d0, d1, d2 := n / 0x1000, q % 0x40, n % 0x40;
    assert n == d0 * 0x1000 + d1 * 0x40 + d2;
    assert b[0] == 0xE0 + d0 && b[1] == 0x80 + d1 && b[2] == 0x80 + d2;
    assert d0 == 0 ==> d1 >= 0x20;
    assert d0 == 0xD ==> d1 < 0x20;
  }

  lemma DecodeFour(c: char, rest: seq<Byte>)
    requires 0x1_0000 <= c as int
    ensures DecodeScalar(EncodeScalar(c) + rest) == Some((c, 4))
  {
    var n := c as int;
    var b := EncodeScalar(c) + rest;
    var q := n / 0x40;
    var p := n / 0x1000;
    DivMod64(n);
    DivMod64(q);
    DivMod64(p);
    assert q / 0x40 == p;
    assert p / 0x40 == n / 0x4_0000;
    var d0, d1, d2, d3 := n / 0x4_0000, p % 0x40, q % 0x40, n % 0x40;
    assert n == d0 * 0x4_0000 + d1 * 0x1000 + d2 * 0x40 + d3;
    assert b[0] == 0xF0 + d0 && b[1] == 0x80 + d1 && b[2] == 0x80 + d2 && b[3] == 0x80 + d3;
    assert d0 == 0 ==> d1 >= 0x10;
    assert d0 == 4 ==> d1 < 0x10;
  }

  /** Decoding the octets of a string gives the string back. */
  lemma {:induction false} DecodeEncode(s: string)
    ensures Decode(Encode(s)) == Some(s)
  {
    if s != [] {
      var e := EncodeScalar(s[0]);
      var b := Encode(s);
      assert b == e + Encode(s[1..]);
      DecodeEncodeScalar(s[0], Encode(s[1..]));
      assert b[|e|..] == Encode(s[1..]);
      DecodeEncode(s[1..]);
      assert [s[0]] + s[1..] == s;
    }
  }
}
