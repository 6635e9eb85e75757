/**
  * `toBase64(str)` of src/index.js is `btoa(unescape(encodeURIComponent(str)))`.
  * The three built-ins are modelled on JavaScript strings (UTF-16 code units):
  * `encodeURIComponent` (section 19.2.6.5 of ECMA-262, with the Encode
  * operation of 19.2.6.6), `unescape` (section B.2.1.2 of ECMA-262) and
  * `btoa` (HTML's forgiving-base64 encode). The main result is that the
  * composition is UTF-8 (RFC 3629) followed by Base 64 (section 4 of RFC
  * 4648), and that it throws exactly when the string holds an unpaired
  * surrogate.
  */
module UriCodec {
  import opened Wrappers
  import opened Utf16
  import Text
  import Utf8
  import Base64

  datatype JsError = URIError | InvalidCharacterError

  function Unit(c: char): CodeUnit
    requires c as int < 0x80
  {
    c as int
  }

  /** The code units `encodeURIComponent` leaves as they are (uriUnreserved). */
  predicate IsUnreserved(u: CodeUnit)
  {
    || Unit('A') <= u <= Unit('Z')
    || Unit('a') <= u <= Unit('z')
    || Unit('0') <= u <= Unit('9')
    || u == Unit('-') || u == Unit('_') || u == Unit('.') || u == Unit('!')
    || u == Unit('~') || u == Unit('*') || u == Unit('\'') || u == Unit('(') || u == Unit(')')
  }

  /** An uppercase hexadecimal digit, as Encode writes them. */
  function HexDigit(d: nat): CodeUnit
    requires d < 16
  {
    if d < 10 then Unit('0') + d else Unit('A') + (d - 10)
  }

  /** `%XY` for every octet. */
  function Percent(octets: seq<Utf8.Byte>): seq<CodeUnit>
  {
    if octets == [] then []
    else [Unit('%'), HexDigit(octets[0] / 16), HexDigit(octets[0] % 16)] + Percent(octets[1..])
  }

  function Prepend(p: seq<CodeUnit>, r: Result<seq<CodeUnit>, JsError>): Result<seq<CodeUnit>, JsError>
  {
    match r
    case Ok(t) => Ok(p + t)
    case Err(e) => Err(e)
  }

  /** `encodeURIComponent(s)`; an unpaired surrogate throws a URIError. */
  function EncodeUriComponent(s: seq<CodeUnit>): Result<seq<CodeUnit>, JsError>
  {
    if s == [] then Ok([])
    else if IsUnreserved(s[0]) then Prepend([s[0]], EncodeUriComponent(s[1..]))
    else if IsLow(s[0]) then Err(URIError)
    else if !IsHigh(s[0]) then Prepend(Percent(Utf8.EncodeScalar(s[0] as char)), EncodeUriComponent(s[1..]))
    else if |s| == 1 || !IsLow(s[1]) then Err(URIError)
    else Prepend(Percent(Utf8.EncodeScalar(Combine(s[0], s[1]))), EncodeUriComponent(s[2..]))
  }

  /** The value of a hexadecimal digit of either case. */
  function HexValue(u: CodeUnit): (r: Option<nat>)
    ensures r.Some? ==> r.value < 16
  {
    if Unit('0') <= u <= Unit('9') then Some(u - Unit('0'))
    else if Unit('A') <= u <= Unit('F') then Some(u - Unit('A') + 10)
    else if Unit('a') <= u <= Unit('f') then Some(u - Unit('a') + 10)
    else None
  }

  /** `unescape(s)`: `%uXXXX` and `%XY` become the code unit they name; everything else stays. */
  function Unescape(s: seq<CodeUnit>): seq<CodeUnit>
  {
    if s == [] then []
    else if s[0] == Unit('%') && |s| >= 6 && s[1] == Unit('u')
            && HexValue(s[2]).Some? && HexValue(s[3]).Some? && HexValue(s[4]).Some? && HexValue(s[5]).Some? then
      [HexValue(s[2]).value * 0x1000 + HexValue(s[3]).value * 0x100 + HexValue(s[4]).value * 0x10 + HexValue(s[5]).value]
      + Unescape(s[6..])
    else if s[0] == Unit('%') && |s| >= 3 && HexValue(s[1]).Some? && HexValue(s[2]).Some? then
      [HexValue(s[1]).value * 0x10 + HexValue(s[2]).value] + Unescape(s[3..])
    else [s[0]] + Unescape(s[1..])
  }

  /** `btoa(s)`: Base 64 of the code units as octets; a code unit above 0xFF throws. */
  function Btoa(s: seq<CodeUnit>): Result<string, JsError>
  {
    if forall i :: 0 <= i < |s| ==> s[i] < 256 then
      Ok(Base64.Encode(seq(|s|, i requires 0 <= i < |s| => s[i] as Utf8.Byte)))
    else Err(InvalidCharacterError)
  }

  /** `toBase64(str)` of src/index.js. */
  function ToBase64(s: seq<CodeUnit>): Result<string, JsError>
  {
    match EncodeUriComponent(s)
    case Err(e) => Err(e)
    case Ok(escaped) => Btoa(Unescape(escaped))
  }

  /** Base 64 of the UTF-8 octets of a string. */
  function Utf8Base64(s: string): string
  {
    Base64.Encode(Utf8.Encode(s))
  }

  lemma HexDigitValue(d: nat)
    requires d < 16
    ensures HexValue(HexDigit(d)) == Some(d)
  {
  }

  /** `unescape` turns one `%XY` into the code unit `0xXY`. */
  lemma UnescapeTriple(d1: nat, d2: nat, tail: seq<CodeUnit>)
    requires d1 < 16 && d2 < 16
    ensures Unescape([Unit('%'), HexDigit(d1), HexDigit(d2)] + tail) == [d1 * 16 + d2] + Unescape(tail)
  {
    var s := [Unit('%'), HexDigit(d1), HexDigit(d2)] + tail;
    HexDigitValue(d1);
    HexDigitValue(d2);
    assert s[0] == Unit('%') && s[1] == HexDigit(d1) && s[2] == HexDigit(d2);
    assert s[1] != Unit('u');
    assert s[3..] == tail;
  }

  lemma {:induction false} UnescapePercent(octets: seq<Utf8.Byte>, rest: seq<CodeUnit>)
    ensures Unescape(Percent(octets) + rest) == octets + Unescape(rest)
  {
    if octets != [] {
      var b := octets[0];
      var head := [Unit('%'), HexDigit(b / 16), HexDigit(b % 16)];
      var more := Percent(octets[1..]);
      assert Percent(octets) == head + more;
      Text.ConcatAssoc(head, more, rest);
      assert Percent(octets) + rest == head + (more + rest);
      UnescapeTriple(b / 16, b % 16, more + rest);
      assert b / 16 * 16 + b % 16 == b;
      assert Unescape(Percent(octets) + rest) == [b] + Unescape(more + rest);
      UnescapePercent(octets[1..], rest);
      Text.ConcatAssoc([b], octets[1..], Unescape(rest));
      assert [b] + octets[1..] == octets;
    } else {
      assert Percent(octets) + rest == rest;
    }
  }

  /**
    * `encodeURIComponent` succeeds exactly on well-formed strings, and
    * `unescape` turns its output into the UTF-8 octets of the string.
    */
  lemma {:induction false} UnescapeEncodeUriComponent(s: seq<CodeUnit>)
    ensures EncodeUriComponent(s).Ok? <==> ToScalars(s).Some?
    ensures EncodeUriComponent(s).Ok? ==>
      Unescape(EncodeUriComponent(s).value) == Utf8.Encode(ToScalars(s).value)
  {
    if s != [] {
      if IsUnreserved(s[0]) || !IsSurrogate(s[0]) {
        UnescapeEncodeUriComponent(s[1..]);
        var c := s[0] as char;
        if EncodeUriComponent(s).Ok? {
          var t := ToScalars(s).value;
          var rest := EncodeUriComponent(s[1..]).value;
          assert t == [c] + ToScalars(s[1..]).value;
          assert t[1..] == ToScalars(s[1..]).value;
          if IsUnreserved(s[0]) {
            assert Utf8.EncodeScalar(c) == [s[0]];
            assert EncodeUriComponent(s).value == [s[0]] + rest;
          } else {
            UnescapePercent(Utf8.EncodeScalar(c), rest);
          }
        }
      } else if !IsLow(s[0]) && |s| > 1 && IsLow(s[1]) {
        UnescapeEncodeUriComponent(s[2..]);
        var c := Combine(s[0], s[1]);
        if EncodeUriComponent(s).Ok? {
          var t := ToScalars(s).value;
          assert t[1..] == ToScalars(s[2..]).value;
          UnescapePercent(Utf8.EncodeScalar(c), EncodeUriComponent(s[2..]).value);
        }
      }
    }
  }

  lemma BtoaOctets(octets: seq<Utf8.Byte>)
    ensures Btoa(octets) == Ok(Base64.Encode(octets))
  {
    var s: seq<CodeUnit> := octets;
    assert seq(|s|, i requires 0 <= i < |s| => s[i] as Utf8.Byte) == octets;
  }

  /**
    * `toBase64` is Base 64 of UTF-8: it throws a URIError exactly when the
    * string holds an unpaired surrogate, and otherwise returns the Base 64
    * text of the UTF-8 octets of the scalar values the string stands for.
    */
  lemma ToBase64IsUtf8Base64(s: seq<CodeUnit>)
    ensures ToScalars(s).None? ==> ToBase64(s) == Err(URIError)
    ensures ToScalars(s).Some? ==> ToBase64(s) == Ok(Utf8Base64(ToScalars(s).value))
  {
    UnescapeEncodeUriComponent(s);
    if ToScalars(s).Some? {
      BtoaOctets(Utf8.Encode(ToScalars(s).value));
    } else {
      UriErrorOnly(s);
    }
  }

  /** The only error `encodeURIComponent` throws is a URIError. */
  lemma {:induction false} UriErrorOnly(s: seq<CodeUnit>)
    ensures EncodeUriComponent(s).Err? ==> EncodeUriComponent(s).error == URIError
  {
    if s != [] {
      UriErrorOnly(s[1..]);
      if |s| > 1 {
        UriErrorOnly(s[2..]);
      }
    }
  }

  /** The JavaScript string of a Dafny string never makes `toBase64` throw. */
  lemma ToBase64OfString(s: string)
    ensures ToBase64(FromString(s)) == Ok(Utf8Base64(s))
  {
    ToScalarsFromString(s);
    ToBase64IsUtf8Base64(FromString(s));
  }

  /** `toBase64` of a well-formed string: it never throws, and gives the base 64 of the UTF-8. */
  function ToBase64Text(s: string): (r: string)
    ensures ToBase64(FromString(s)) == Ok(r)
    ensures r == Utf8Base64(s)
  {
    ToBase64OfString(s);
    ToBase64(FromString(s)).value
  }

  /** The result has the length and alphabet of section 4 of RFC 4648. */
  lemma ToBase64Shape(s: seq<CodeUnit>)
    requires ToBase64(s).Ok?
    ensures ToScalars(s).Some?
    ensures |ToBase64(s).value| == 4 * ((|Utf8.Encode(ToScalars(s).value)| + 2) / 3)
    ensures forall i :: 0 <= i < |ToBase64(s).value| ==>
      Base64.InAlphabet(ToBase64(s).value[i]) || ToBase64(s).value[i] == '='
  {
    ToBase64IsUtf8Base64(s);
    Base64.EncodeAlphabet(Utf8.Encode(ToScalars(s).value));
  }

  /** Decoding the base 64 and then the UTF-8 gives the string back. */
  lemma Utf8Base64RoundTrip(s: string)
    ensures Base64.Decode(Utf8Base64(s)) == Some(Utf8.Encode(s))
    ensures Utf8.Decode(Utf8.Encode(s)) == Some(s)
  {
    Base64.DecodeEncode(Utf8.Encode(s));
    Utf8.DecodeEncode(s);
  }

  /**
    * Base 64 text holds no line break, quote or backslash, so it can sit
    * inside a quoted JavaScript string and on one line of a module.
    */
  lemma Utf8Base64Inert(s: string)
    ensures forall i :: 0 <= i < |Utf8Base64(s)| ==>
      Utf8Base64(s)[i] != '\n' && Utf8Base64(s)[i] != '\'' && Utf8Base64(s)[i] != '"' && Utf8Base64(s)[i] != '\\'
  {
    Base64.EncodeAlphabet(Utf8.Encode(s));
  }
}
