/** Integers as decimal text. */
module Decimals {

  predicate AllDigits(text: string) {
    forall i | 0 <= i < |text| :: '0' <= text[i] <= '9'
  }

  function Value(digits: string): nat
    requires AllDigits(digits)
  {
    if digits == "" then 0
    else
      var last := |digits| - 1;
      10 * Value(digits[..last]) + (digits[last] as int - '0' as int)
  }

  function Digits(n: nat): (text: string)
    ensures AllDigits(text) && text != "" && Value(text) == n
  {
    var last := [('0' as int + n % 10) as char];
    if n < 10 then
      assert last[..0] == "";
      last
    else
      var front := Digits(n / 10);
      assert (front + last)[..|front|] == front;
      front + last
  }

  /** `i64::to_string`. */
  function Decimal(n: int): string {
    if n < 0 then "-" + Digits(-n) else Digits(n)
  }

  lemma NoBar(n: int)
    ensures '|' !in Decimal(n)
  {
  }

  /** Different integers have different texts. */
  lemma DecimalInjective(a: int, b: int)
    requires Decimal(a) == Decimal(b)
    ensures a == b
  {
    assert Decimal(a)[0] == '-' <==> a < 0;
    assert Decimal(b)[0] == '-' <==> b < 0;
    if a < 0 {
      assert Digits(-a) == Decimal(a)[1..] == Digits(-b);
    }
  }
}
