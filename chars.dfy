/** Character classes and decimal-digit arithmetic shared by both evaluators (ASCII only). */
module Chars {

  /** `Character.isDigit`, and the regex class `\d`, restricted to ASCII. */
  predicate IsDigit(c: char) {
    '0' <= c <= '9'
  }

  /** `c - '0'` in Java: the value of a digit character. */
  function DigitValue(c: char): (d: int)
    ensures IsDigit(c) ==> 0 <= d <= 9
  {
    c as int - '0' as int
  }

  /** `Character.isWhitespace` on ASCII characters: tab to carriage return, the four
      separator controls U+001C..U+001F, and the space. */
  predicate IsJavaWhitespace(c: char) {
    9 <= c as int <= 13 || 28 <= c as int <= 32
  }

  /** The regex class `\s`: space, tab, newline, vertical tab, form feed, carriage return. */
  predicate IsRegexSpace(c: char) {
    9 <= c as int <= 13 || c as int == 32
  }

  /** One of the four arithmetic operators. */
  predicate IsArithOperator(c: char) {
    c == '+' || c == '-' || c == '*' || c == '/'
  }

  /** The value `a op b` for one of the four operators, as both evaluators compute it. */
  function Arith(op: char, a: real, b: real): real
    requires IsArithOperator(op) && (op == '/' ==> b != 0.0)
  {
    match op
    case '+' => a + b
    case '-' => a - b
    case '*' => a * b
    case '/' => a / b
  }

  predicate AllDigits(s: string) {
    forall k :: 0 <= k < |s| ==> IsDigit(s[k])
  }

  /** 10 to the power n, exactly (`Math.pow(10, n)` without rounding). */
  function Pow10(n: nat): (p: real)
    ensures p >= 1.0
  {
    if n == 0 then 1.0 else 10.0 * Pow10(n - 1)
  }

  /** The base-10 value of a digit string, most significant digit first. */
  function DigitsValue(s: string): (v: real)
    ensures AllDigits(s) ==> 0.0 <= v
  {
    if |s| == 0 then 0.0 else 10.0 * DigitsValue(s[..|s| - 1]) + DigitValue(s[|s| - 1]) as real
  }

  /** Appending one digit multiplies the value so far by ten and adds the digit. */
  lemma DigitsValueSnoc(s: string, c: char)
    ensures DigitsValue(s + [c]) == 10.0 * DigitsValue(s) + DigitValue(c) as real
  {
    assert (s + [c])[..|s|] == s;
  }

  /** The same, for a slice: its last digit is the digit before its end. */
  lemma DigitsValueLast(s: string, i: nat, j: nat)
    requires i < j <= |s|
    ensures DigitsValue(s[i..j]) == 10.0 * DigitsValue(s[i..j - 1]) + DigitValue(s[j - 1]) as real
  {
    assert s[i..j][..j - 1 - i] == s[i..j - 1];
    assert s[i..j][j - 1 - i] == s[j - 1];
  }

  /** A run of digits stays one when its last character is dropped. */
  lemma AllDigitsShorter(s: string, i: nat, j: nat)
    requires i < j <= |s| && AllDigits(s[i..j])
    ensures AllDigits(s[i..j - 1])
  {
    var t, u := s[i..j], s[i..j - 1];
    forall k | 0 <= k < |u|
      ensures IsDigit(u[k])
    {
      assert u[k] == t[k];
    }
  }
}
