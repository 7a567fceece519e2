/** The two text-to-number conversions the integer decoder relies on:
    the direct parse of a fixed-width integer type (an optional sign and
    decimal digits), and the fallback that reads the text as a JSON number
    and keeps it only when its value is an exact integer. Widths are given
    by `IntType`; `Int` and `UInt` are the 64-bit platform widths. */
module Numerals {
  import opened Coding

  datatype IntType = Int8 | Int16 | Int32 | Int64 | Int | UInt8 | UInt16 | UInt32 | UInt64 | UInt

  function MinValue(ty: IntType): int
  {
    match ty
    case Int8 => -0x80
    case Int16 => -0x8000
    case Int32 => -0x8000_0000
    case Int64 | Int => -0x8000_0000_0000_0000
    case UInt8 | UInt16 | UInt32 | UInt64 | UInt => 0
  }

  function MaxValue(ty: IntType): int
  {
    match ty
    case Int8 => 0x7F
    case Int16 => 0x7FFF
    case Int32 => 0x7FFF_FFFF
    case Int64 | Int => 0x7FFF_FFFF_FFFF_FFFF
    case UInt8 => 0xFF
    case UInt16 => 0xFFFF
    case UInt32 => 0xFFFF_FFFF
    case UInt64 | UInt => 0xFFFF_FFFF_FFFF_FFFF
  }

  /** `v` is a value of the fixed-width type `ty`. */
  predicate InRange(ty: IntType, v: int)
  {
    MinValue(ty) <= v <= MaxValue(ty)
  }

  /** Decimal rendering of an integer, with a leading '-' when negative. */
  function IntToString(v: int): string
  {
    if v < 0 then "-" + NatToString(-v) else NatToString(v)
  }

  // ---------------------------------------------------------------------
  // Direct parse: Swift's `FixedWidthInteger.init?(_ text:)`, radix 10
  // ---------------------------------------------------------------------

  /** The integer written as an optional '+' or '-' followed by one or more
      decimal digits, or None for any other text. The range check against a
      particular width is made by the caller. */
  function ParseInteger(s: string): (r: Option<int>)
    ensures r.Some? ==> s != [] && '.' !in s
    ensures r.Some? && r.value < 0 ==> s[0] == '-'
    ensures s != [] && AllDigits(s) ==> r == Some(DigitsValue(s))
  {
    if |s| > 0 && (s[0] == '-' || s[0] == '+') then
      if |s| > 1 && AllDigits(s[1..]) then
        Some(if s[0] == '-' then -(DigitsValue(s[1..]) as int) else DigitsValue(s[1..]))
      else None
    else if |s| > 0 && AllDigits(s) then Some(DigitsValue(s))
    else None
  }

  /** The direct parse reads back every integer's decimal rendering. */
  lemma ParseIntegerRoundTrip(v: int)
    ensures ParseInteger(IntToString(v)) == Some(v)
  {
    var s := IntToString(v);
    if v < 0 {
      var digits := NatToString(-v);
      assert s == "-" + digits;
      assert s[1..] == digits;
      NatToStringValue(-v);
    } else {
      var digits := NatToString(v);
      assert IsDigit(digits[0]);
      NatToStringValue(v);
    }
  }

  // ---------------------------------------------------------------------
  // Fallback parse: a number in the JSON grammar (RFC 8259, section 6)
  // ---------------------------------------------------------------------

  /** The exact value (-1)^negative * mantissa * 10^exponent of a JSON number. */
  datatype JSONNumber = JSONNumber(negative: bool, mantissa: nat, exponent: int)

  /** Number of leading decimal digits of `s`. */
  function LeadingDigits(s: string): (n: nat)
    ensures n <= |s| && AllDigits(s[..n])
    ensures n < |s| ==> !IsDigit(s[n])
  {
    if s == [] || !IsDigit(s[0]) then 0 else 1 + LeadingDigits(s[1..])
  }

  /** The optional exponent part `[eE][+-]?digits`, which must end the text. */
  function ParseExponent(s: string): Option<int>
  {
    if s == [] then Some(0)
    else if s[0] != 'e' && s[0] != 'E' then None
    else
      var t := s[1..];
      var digits := if |t| > 0 && (t[0] == '-' || t[0] == '+') then t[1..] else t;
      if |digits| > 0 && AllDigits(digits) then
        Some(if |t| > 0 && t[0] == '-' then -(DigitsValue(digits) as int) else DigitsValue(digits))
      else None
  }

  /** `-? (0 | [1-9][0-9]*) (. [0-9]+)? ([eE] [+-]? [0-9]+)?` with its exact value. */
  function ParseJSONNumber(s: string): Option<JSONNumber>
  {
    var negative := |s| > 0 && s[0] == '-';
    match ParseUnsignedNumber(if negative then s[1..] else s)
    case None => None
    case Some(m) => Some(JSONNumber(negative, m.0, m.1))
  }

  /** The part of a JSON number after its optional '-', as a mantissa and a
      power of ten. */
  function ParseUnsignedNumber(body: string): Option<(nat, int)>
  {
    var n := LeadingDigits(body);
    if n == 0 || (body[0] == '0' && n > 1) then None
    else
      var intPart := body[..n];
      var rest := body[n..];
      var hasPoint := |rest| > 0 && rest[0] == '.';
      var m := if hasPoint then LeadingDigits(rest[1..]) else 0;
      if hasPoint && m == 0 then None
      else
        var fracPart := if hasPoint then rest[1..][..m] else [];
        var tail := if hasPoint then rest[1..][m..] else rest;
        assert AllDigits(intPart + fracPart) by {
          forall i | 0 <= i < |intPart + fracPart| ensures IsDigit((intPart + fracPart)[i]) {
            if i < |intPart| { assert (intPart + fracPart)[i] == intPart[i]; }
            else { assert (intPart + fracPart)[i] == fracPart[i - |intPart|]; }
          }
        }
        match ParseExponent(tail)
        case None => None
        case Some(e) => Some((DigitsValue(intPart + fracPart), e - |fracPart|))
  }

  function Pow10(k: nat): (p: nat)
    ensures p >= 1
  {
    if k == 0 then 1 else 10 * Pow10(k - 1)
  }

  function SignedMantissa(x: JSONNumber): int
  {
    if x.negative then -(x.mantissa as int) else x.mantissa
  }

  /** The integer a JSON number denotes, when it denotes one exactly
      ("34.0" denotes 34, "34.5" denotes none). */
  function IntegralValue(x: JSONNumber): (r: Option<int>)
    ensures x.exponent >= 0 ==> r == Some(SignedMantissa(x) * Pow10(x.exponent))
    ensures x.exponent < 0 ==> (r.Some? <==> x.mantissa % Pow10(-x.exponent) == 0)
    ensures x.exponent < 0 && r.Some? ==> r.value * Pow10(-x.exponent) == SignedMantissa(x)
  {
    if x.exponent >= 0 then
      Some(SignedMantissa(x) * Pow10(x.exponent))
    else
      var p := Pow10(-x.exponent);
      if x.mantissa % p == 0 then
        var q := x.mantissa / p;
        assert q * p == x.mantissa;
        Some(if x.negative then -q else q)
      else None
  }

  /** A run of digits followed by text that does not start with a digit. */
  lemma {:induction false} LeadingDigitsOfNumeral(s: string, rest: string)
    requires AllDigits(s)
    requires rest == [] || !IsDigit(rest[0])
    ensures LeadingDigits(s + rest) == |s|
  {
    if s != [] {
      assert (s + rest)[1..] == s[1..] + rest;
      LeadingDigitsOfNumeral(s[1..], rest);
    }
  }

  lemma DigitsValueAppend(s: string, d: nat)
    requires AllDigits(s) && d < 10
    ensures AllDigits(s + [DigitChar(d)])
    ensures DigitsValue(s + [DigitChar(d)]) == DigitsValue(s) * 10 + d
  {
    var t := s + [DigitChar(d)];
    assert t[..|t| - 1] == s;
  }

  lemma UnsignedOneDecimal(n: nat, d: nat)
    requires d < 10
    ensures ParseUnsignedNumber(NatToString(n) + "." + [DigitChar(d)]) == Some((n * 10 + d, -1))
  {
    var digits := NatToString(n);
    var body := digits + ("." + [DigitChar(d)]);
    assert body == digits + "." + [DigitChar(d)];
    LeadingDigitsOfNumeral(digits, "." + [DigitChar(d)]);
    assert body[..|digits|] == digits;
    var rest := body[|digits|..];
    assert rest == "." + [DigitChar(d)];
    assert rest[1..] == [DigitChar(d)];
    assert LeadingDigits(rest[1..]) == 1;
    assert rest[1..][..1] == [DigitChar(d)];
    assert rest[1..][1..] == [];
    NatToStringValue(n);
    DigitsValueAppend(digits, d);
  }

  /** The fallback reads the rendering of `v` followed by one fractional digit
      `d` as the exact value v + d/10 (sign applied to both). */
  lemma ParseJSONNumberOneDecimal(v: int, d: nat)
    requires d < 10
    ensures ParseJSONNumber(IntToString(v) + "." + [DigitChar(d)])
         == Some(JSONNumber(v < 0, (if v < 0 then -v else v) * 10 + d, -1))
  {
    var n: nat := if v < 0 then -v else v;
    var body := NatToString(n) + "." + [DigitChar(d)];
    var s := IntToString(v) + "." + [DigitChar(d)];
    UnsignedOneDecimal(n, d);
    if v < 0 {
      assert s == "-" + body;
      assert s[1..] == body;
    } else {
      assert s == body;
      assert IsDigit(s[0]);
    }
  }

  /** `v` is exactly the value of the JSON number `x`. */
  predicate Denotes(x: JSONNumber, v: int)
  {
    if x.exponent >= 0 then v == SignedMantissa(x) * Pow10(x.exponent)
    else v * Pow10(-x.exponent) == SignedMantissa(x)
  }

  /** The integer a text denotes when read as a JSON number, if that number
      is an integer exactly. */
  function ExactInteger(s: string): (r: Option<int>)
    ensures ParseJSONNumber(s).None? ==> r.None?
    ensures r.Some? ==> ParseJSONNumber(s).Some? && Denotes(ParseJSONNumber(s).value, r.value)
    ensures ParseJSONNumber(s).Some? && ParseJSONNumber(s).value.exponent >= 0 ==> r.Some?
  {
    match ParseJSONNumber(s)
    case None => None
    case Some(x) => IntegralValue(x)
  }

  lemma UnsignedInteger(n: nat)
    ensures ParseUnsignedNumber(NatToString(n)) == Some((n, 0))
  {
    var digits := NatToString(n);
    assert digits + [] == digits;
    LeadingDigitsOfNumeral(digits, []);
    assert digits[..|digits|] == digits;
    assert digits[|digits|..] == [];
    NatToStringValue(n);
  }

  /** Every integer's decimal rendering is a JSON number denoting it. */
  lemma ExactIntegerOfRendering(v: int)
    ensures ExactInteger(IntToString(v)) == Some(v)
  {
    var n: nat := if v < 0 then -v else v;
    var s := IntToString(v);
    UnsignedInteger(n);
    if v < 0 {
      assert s[1..] == NatToString(n);
    } else {
      assert IsDigit(s[0]);
    }
    assert ParseJSONNumber(s) == Some(JSONNumber(v < 0, n, 0));
  }

  /** A zero fractional digit does not change the integer denoted: "34.0" is 34. */
  lemma ExactIntegerZeroFraction(v: int)
    ensures ExactInteger(IntToString(v) + ".0") == Some(v)
  {
    var n: nat := if v < 0 then -v else v;
    assert DigitChar(0) == '0';
    assert IntToString(v) + ".0" == IntToString(v) + "." + [DigitChar(0)];
    ParseJSONNumberOneDecimal(v, 0);
    assert Pow10(1) == 10;
  }

  /** A non-zero fractional digit makes the number non-integral: "34.5" denotes
      no integer. */
  lemma ExactIntegerRejectsFraction(v: int, d: nat)
    requires 0 < d < 10
    ensures ExactInteger(IntToString(v) + "." + [DigitChar(d)]) == None
  {
    var n: nat := if v < 0 then -v else v;
    ParseJSONNumberOneDecimal(v, d);
    assert Pow10(1) == 10;
    assert (n * 10 + d) % 10 == d;
  }
}
