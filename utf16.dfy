/**
  * JavaScript strings are sequences of UTF-16 code units. A well-formed one
  * encodes a sequence of Unicode scalar values (Dafny's `char`); a surrogate
  * that is not part of a high/low pair makes it ill-formed.
  */
module Utf16 {
  import opened Wrappers

  type CodeUnit = x: int | 0 <= x < 0x1_0000

  predicate IsHigh(u: int) { 0xD800 <= u < 0xDC00 }
  predicate IsLow(u: int) { 0xDC00 <= u < 0xE000 }
  predicate IsSurrogate(u: int) { 0xD800 <= u < 0xE000 }

  /** The scalar value a high/low surrogate pair stands for. */
  function Combine(hi: CodeUnit, lo: CodeUnit): (c: char)
    requires IsHigh(hi) && IsLow(lo)
    ensures 0x1_0000 <= c as int
  {
    (0x1_0000 + (hi - 0xD800) * 0x400 + (lo - 0xDC00)) as char
  }

  /** The one or two code units of a scalar value. */
  function EncodeChar(c: char): (r: seq<CodeUnit>)
    ensures |r| == 1 ==> !IsSurrogate(r[0]) && r[0] == c as int
    ensures |r| == 2 ==> IsHigh(r[0]) && IsLow(r[1]) && Combine(r[0], r[1]) == c
    ensures |r| == 1 || |r| == 2
  {
    var n := c as int;
    if n < 0x1_0000 then [n]
    else
      var v := n - 0x1_0000;
      [0xD800 + v / 0x400, 0xDC00 + v % 0x400]
  }

  /** The JavaScript string holding the Dafny string `s`. */
  function FromString(s: string): seq<CodeUnit>
  {
    if s == [] then [] else EncodeChar(s[0]) + FromString(s[1..])
  }

  /** The scalar values of a code-unit sequence, or None when a surrogate is unpaired. */
  function ToScalars(u: seq<CodeUnit>): Option<string>
  {
    if u == [] then Some([])
    else if !IsSurrogate(u[0]) then
      match ToScalars(u[1..])
      case None => None
      case Some(t) => Some([u[0] as char] + t)
    else if IsLow(u[0]) || |u| == 1 || !IsLow(u[1]) then None
    else
      match ToScalars(u[2..])
      case None => None
      case Some(t) => Some([Combine(u[0], u[1])] + t)
  }

  /** Every Dafny string is a well-formed JavaScript string and decodes to itself. */
  lemma {:induction false} ToScalarsFromString(s: string)
    ensures ToScalars(FromString(s)) == Some(s)
  {
    if s != [] {
      var e := EncodeChar(s[0]);
      var u := FromString(s);
      assert u == e + FromString(s[1..]);
      ToScalarsFromString(s[1..]);
      if |e| == 1 {
        assert u[1..] == FromString(s[1..]);
      } else {
        assert u[2..] == FromString(s[1..]);
      }
      assert [s[0]] + s[1..] == s;
    }
  }

  /** Conversely a well-formed code-unit sequence is the encoding of what it decodes to. */
  lemma {:induction false} FromStringToScalars(u: seq<CodeUnit>)
    requires ToScalars(u).Some?
    ensures FromString(ToScalars(u).value) == u
  {
    if u != [] {
      var t := ToScalars(u).value;
      if !IsSurrogate(u[0]) {
        FromStringToScalars(u[1..]);
        assert t[1..] == ToScalars(u[1..]).value;
        assert [u[0]] + u[1..] == u;
      } else {
        FromStringToScalars(u[2..]);
        assert t[1..] == ToScalars(u[2..]).value;
        var c := Combine(u[0], u[1]);
        var e := EncodeChar(c);
        assert |e| == 2;
        CombineInjective(e[0], e[1], u[0], u[1]);
        assert [u[0], u[1]] + u[2..] == u;
      }
    }
  }

  lemma CombineInjective(h1: CodeUnit, l1: CodeUnit, h2: CodeUnit, l2: CodeUnit)
    requires IsHigh(h1) && IsLow(l1) && IsHigh(h2) && IsLow(l2)
    requires Combine(h1, l1) == Combine(h2, l2)
    ensures h1 == h2 && l1 == l2
  {
  }
}
