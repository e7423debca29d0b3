/** The few JavaScript value rules the pages depend on: truthiness of strings and
    numbers, `Number(text)` on the query-string values, and the decimal text of
    a number as produced by a template literal or `String(n)`. */
module JsValues {
  import opened Wrappers

  /** A JavaScript number as the model sees it: an integer, or NaN. */
  datatype JsNumber = Num(n: int) | NaN

  /** `if (x)` on a number: 0 and NaN are falsy. */
  predicate TruthyNumber(x: JsNumber) {
    x.Num? && x.n != 0
  }

  /** `if (o)` on an optional string: undefined and '' are falsy. */
  predicate TruthyText(o: Option<string>) {
    o.Some? && o.value != ""
  }

  /** `if (o)` on an optional number: undefined, 0 and NaN are falsy. */
  predicate TruthyOptNumber(o: Option<JsNumber>) {
    o.Some? && TruthyNumber(o.value)
  }

  predicate IsDigit(c: char) {
    '0' <= c <= '9'
  }

  function DigitChar(d: nat): (c: char)
    requires d < 10
    ensures IsDigit(c) && c as int - '0' as int == d
  {
    (d + '0' as int) as char
  }

  /** The decimal text of a non-negative integer, without leading zeros. */
  function Decimal(n: nat): (s: string)
    ensures |s| >= 1
    ensures forall i :: 0 <= i < |s| ==> IsDigit(s[i])
    ensures |s| > 1 ==> s[0] != '0'
  {
    if n < 10 then [DigitChar(n)] else Decimal(n / 10) + [DigitChar(n % 10)]
  }

  /** `String(i)` for an integer. */
  function IntToString(i: int): string {
    if i < 0 then "-" + Decimal(-i) else Decimal(i)
  }

  /** The value of a string of decimal digits. */
  function DigitsValue(s: string): nat
    requires forall i :: 0 <= i < |s| ==> IsDigit(s[i])
  {
    if s == [] then 0
    else
      assert IsDigit(s[|s| - 1]);
      DigitsValue(s[..|s| - 1]) * 10 + (s[|s| - 1] as int - '0' as int)
  }

  /** `Number(s)`: the empty string is 0, a string of decimal digits is its value,
      and every other string is NaN. */
  function ParseNumber(s: string): (x: JsNumber)
    ensures x.Num? ==> x.n >= 0
  {
    if forall i :: 0 <= i < |s| ==> IsDigit(s[i]) then Num(DigitsValue(s)) else NaN
  }

  /** Reading back the decimal text of `n` gives `n`. */
  lemma {:induction false} DecimalRoundTrip(n: nat)
    ensures DigitsValue(Decimal(n)) == n
  {
    if n >= 10 {
      DecimalRoundTrip(n / 10);
      var s := Decimal(n);
      assert s[..|s| - 1] == Decimal(n / 10);
    }
  }

  lemma ParseDecimal(n: nat)
    ensures ParseNumber(Decimal(n)) == Num(n)
  {
    DecimalRoundTrip(n);
  }

  /** Distinct numbers have distinct decimal texts. */
  lemma DecimalInjective(a: nat, b: nat)
    requires Decimal(a) == Decimal(b)
    ensures a == b
  {
    DecimalRoundTrip(a);
    DecimalRoundTrip(b);
  }
}
