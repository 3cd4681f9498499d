/**
 * Conversions between numbers and text: `String(Int)`, `Int(String)` and `Double(String)`.
 * Swift's `Int` is the 64-bit integer `Int64`; `Double` values are modelled as exact reals.
 */
module Numbers {
  import opened Wrappers
  import opened Text

  const IntMin: int := -0x8000_0000_0000_0000
  const IntMax: int := 0x7FFF_FFFF_FFFF_FFFF

  /** Swift's `Int` on a 64-bit platform. */
  type Int64 = n: int | IntMin <= n <= IntMax

  predicate AllDigits(s: string) {
    forall i :: 0 <= i < |s| ==> IsAsciiDigit(s[i])
  }

  function DigitValue(c: char): nat
    requires IsAsciiDigit(c)
  {
    c as int - '0' as int
  }

  function DigitChar(d: nat): (c: char)
    requires d < 10
    ensures IsAsciiDigit(c) && DigitValue(c) == d
  {
    (d + '0' as int) as char
  }

  /** The value of a string of decimal digits, read left to right. */
  function DigitsValue(s: string): nat
    requires AllDigits(s)
    decreases |s|
  {
    if s == [] then 0 else DigitsValue(s[..|s| - 1]) * 10 + DigitValue(s[|s| - 1])
  }

  /** The decimal digits of `n`, without leading zeros. */
  function NatDigits(n: nat): (r: string)
    ensures r != [] && AllDigits(r)
    ensures DigitsValue(r) == n
  {
    if n < 10 then [DigitChar(n)]
    else
      var r := NatDigits(n / 10) + [DigitChar(n % 10)];
      assert r[..|r| - 1] == NatDigits(n / 10);
      r
  }

  /** `String(n)` for an `Int`: a minus sign for negative values, then the digits. */
  function FormatInt(n: int): string {
    if n < 0 then "-" + NatDigits(-n) else NatDigits(n)
  }

  /** The text after an optional leading `+` or `-`. */
  function Unsigned(text: string): (r: string)
    ensures r == text || (text != [] && r == text[1..])
  {
    if |text| > 0 && (text[0] == '-' || text[0] == '+') then text[1..] else text
  }

  predicate IsNegated(text: string) {
    |text| > 0 && text[0] == '-'
  }

  /**
   * `Int(text)`: an optional sign followed by one or more ASCII digits whose value fits
   * in 64 bits; anything else (blank, spaces, a lone sign, an overflow) is `nil`.
   */
  function ParseInt(text: string): Option<Int64> {
    var digits := Unsigned(text);
    if digits == [] || !AllDigits(digits) then None
    else
      var magnitude: int := DigitsValue(digits);
      var value: int := if IsNegated(text) then -magnitude else magnitude;
      if IntMin <= value <= IntMax then Some(value) else None
  }

  /** Every `Int` survives being written out and read back. */
  lemma ParseFormatInt(n: Int64)
    ensures ParseInt(FormatInt(n)) == Some(n)
  {
    if n < 0 {
      assert FormatInt(n)[1..] == NatDigits(-(n as int));
    } else {
      var d := NatDigits(n);
      assert IsAsciiDigit(d[0]);
    }
  }

  function Pow10(k: nat): (p: nat)
    ensures p >= 1
  {
    if k == 0 then 1 else 10 * Pow10(k - 1)
  }

  /** The value of the decimal numeral `whole.fraction`. */
  function DecimalValue(whole: string, fraction: string): real
    requires AllDigits(whole) && AllDigits(fraction)
  {
    DigitsValue(whole) as real + DigitsValue(fraction) as real / Pow10(|fraction|) as real
  }

  /** The digits before the first `.` of the unsigned text. */
  function WholePart(text: string): string {
    var body := Unsigned(text);
    body[..IndexOf(body, '.')]
  }

  /** The text after the first `.` of the unsigned text, empty when there is no `.`. */
  function FractionPart(text: string): string {
    var body := Unsigned(text);
    var k := IndexOf(body, '.');
    if k < |body| then body[k + 1..] else []
  }

  /**
   * `Double(text)` on plain decimal notation: an optional sign, digits, and at most one
   * `.`, with at least one digit somewhere (`5`, `5.`, `.5`, `-1.25`); anything else is `nil`.
   */
  function ParseDouble(text: string): Option<real> {
    var whole := WholePart(text);
    var fraction := FractionPart(text);
    if !AllDigits(whole) || !AllDigits(fraction) || (whole == [] && fraction == []) then None
    else
      var v := DecimalValue(whole, fraction);
      Some(if IsNegated(text) then -v else v)
  }
}
