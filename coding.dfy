/** Shared vocabulary of the decoder: optional values, results, coding keys
    and the three kinds of decoding error the engine raises. */
module Coding {

  datatype Option<+T> = None | Some(value: T)

  /** The error kinds the engine raises. Each carries the coding path that was
      reported with it; `KeyNotFound` also carries the key that was missing. */
  datatype DecodingError =
    | ValueNotFound(codingPath: seq<CodingKey>)
    | KeyNotFound(key: CodingKey, codingPath: seq<CodingKey>)
    | DataCorrupted(codingPath: seq<CodingKey>)

  /** A computation that either returns a value or throws a `DecodingError`. */
  datatype Result<+T> = Ok(value: T) | Err(error: DecodingError)

  /** A coding key: the string a field is looked up by, and the position when
      it stands for an index into an unkeyed container. */
  datatype CodingKey = CodingKey(stringValue: string, intValue: Option<int>)

  /** A key named by a field of a record. */
  function StringKey(s: string): (k: CodingKey)
    ensures k.stringValue == s && k.intValue.None?
  {
    CodingKey(s, None)
  }

  // ---------------------------------------------------------------------
  // Decimal rendering of natural numbers (string interpolation "\(n)")
  // ---------------------------------------------------------------------

  predicate IsDigit(c: char) { '0' <= c <= '9' }

  function DigitChar(d: nat): (c: char)
    requires d < 10
    ensures IsDigit(c) && c as int - '0' as int == d
  {
    (d + '0' as int) as char
  }

  function DigitValue(c: char): (d: nat)
    requires IsDigit(c)
    ensures d < 10
  {
    c as int - '0' as int
  }

  predicate AllDigits(s: string) { forall i :: 0 <= i < |s| ==> IsDigit(s[i]) }

  /** The value of a string of decimal digits, most significant first. */
  function DigitsValue(s: string): nat
    requires AllDigits(s)
  {
    if s == [] then 0 else DigitsValue(s[..|s| - 1]) * 10 + DigitValue(s[|s| - 1])
  }

  /** The shortest decimal numeral for `n`. */
  function NatToString(n: nat): (s: string)
    ensures |s| > 0 && AllDigits(s)
    ensures s[0] == '0' ==> n == 0 && |s| == 1
  {
    if n < 10 then [DigitChar(n)] else NatToString(n / 10) + [DigitChar(n % 10)]
  }

  /** Reading back the numeral gives the number: `NatToString` is injective. */
  lemma {:induction false} NatToStringValue(n: nat)
    ensures DigitsValue(NatToString(n)) == n
  {
    var s := NatToString(n);
    if n >= 10 {
      NatToStringValue(n / 10);
      assert s[..|s| - 1] == NatToString(n / 10);
    }
  }

  lemma NatToStringInjective(m: nat, n: nat)
    requires NatToString(m) == NatToString(n)
    ensures m == n
  {
    NatToStringValue(m);
    NatToStringValue(n);
  }

  /** `_XMLKey(index:)`: the key of the element at position `i` of an unkeyed
      container, rendered "[i]". */
  function IndexKey(i: nat): (k: CodingKey)
    ensures k.intValue == Some(i)
    ensures |k.stringValue| >= 3 && k.stringValue[0] == '[' && k.stringValue[|k.stringValue| - 1] == ']'
    ensures var digits := k.stringValue[1..|k.stringValue| - 1];
      AllDigits(digits) && DigitsValue(digits) == i && (digits[0] == '0' ==> |digits| == 1)
  {
    NatToStringValue(i);
    assert ("[" + NatToString(i) + "]")[1..|NatToString(i)| + 1] == NatToString(i);
    CodingKey("[" + NatToString(i) + "]", Some(i))
  }

  /** Distinct positions get distinct rendered keys. */
  lemma IndexKeyInjective(i: nat, j: nat)
    requires IndexKey(i).stringValue == IndexKey(j).stringValue
    ensures i == j
  {
    var s, t := IndexKey(i).stringValue, IndexKey(j).stringValue;
    assert s[1..|s| - 1] == NatToString(i);
    assert t[1..|t| - 1] == NatToString(j);
    NatToStringInjective(i, j);
  }
}
