/** The decimal text JavaScript produces when a non-negative integer Number is
    concatenated to a string, as in 'Layer ' + 3. */
module JsNumber {

  predicate IsDigit(c: char) {
    '0' <= c <= '9'
  }

  function DigitChar(d: nat): (c: char)
    requires d < 10
    ensures IsDigit(c) && c as int - '0' as int == d
  {
    ('0' as int + d) as char
  }

  function DigitValue(c: char): (d: nat)
    requires IsDigit(c)
    ensures d < 10
  {
    c as int - '0' as int
  }

  /** The value of a string of decimal digits, most significant first. */
  function DecimalValue(s: string): nat
    requires forall i :: 0 <= i < |s| ==> IsDigit(s[i])
  {
    if s == [] then 0
    else 10 * DecimalValue(s[..|s| - 1]) + DigitValue(s[|s| - 1])
  }

  /** The shortest decimal numeral of `n`: digits only, and no leading zero
      except for zero itself. */
  function NumberToString(n: nat): (s: string)
    ensures |s| >= 1
    ensures forall i :: 0 <= i < |s| ==> IsDigit(s[i])
    ensures |s| > 1 ==> s[0] != '0'
    ensures n < 10 <==> |s| == 1
  {
    if n < 10 then [DigitChar(n)]
    else NumberToString(n / 10) + [DigitChar(n % 10)]
  }

  /** Reading the numeral back gives the number it was made from. */
  lemma {:induction false} NumberToStringValue(n: nat)
    ensures DecimalValue(NumberToString(n)) == n
  {
    var s := NumberToString(n);
    if n >= 10 {
      NumberToStringValue(n / 10);
      assert s[..|s| - 1] == NumberToString(n / 10);
    }
  }

  /** Different numbers get different numerals. */
  lemma NumberToStringInjective(m: nat, n: nat)
    requires NumberToString(m) == NumberToString(n)
    ensures m == n
  {
    NumberToStringValue(m);
    NumberToStringValue(n);
  }
}
