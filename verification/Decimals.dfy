/** Decimal digits, as formatting writes them and as parsing reads them. */
module Decimals {

  function Decimal(n: nat): string {
    var digit := [(n % 10) as char + '0'];
    if n < 10 then digit else Decimal(n / 10) + digit
  }

  lemma DecimalEnd(n: nat)
    ensures var text := Decimal(n);
            && |text| >= 1 && text[|text| - 1] == (n % 10) as char + '0'
            && (|text| == 1 <==> n < 10)
            && (n >= 10 ==> text[..|text| - 1] == Decimal(n / 10))
  {
  }

  lemma {:induction false} DecimalInjective(m: nat, n: nat)
    requires Decimal(m) == Decimal(n)
    ensures m == n
  {
    DecimalEnd(m);
    DecimalEnd(n);
    if m >= 10 {
      DecimalInjective(m / 10, n / 10);
    }
  }

  predicate Digit(c: char) {
    '0' <= c <= '9'
  }

  function ValueOf(digits: string): nat
    requires forall i | 0 <= i < |digits| :: Digit(digits[i])
  {
    if digits == "" then 0
    else
      assert Digit(digits[|digits| - 1]);
      10 * ValueOf(digits[..|digits| - 1]) + (digits[|digits| - 1] as int - '0' as int)
  }

  lemma {:induction false} DecimalDigits(n: nat)
    ensures |Decimal(n)| >= 1 && forall i | 0 <= i < |Decimal(n)| :: Digit(Decimal(n)[i])
  {
    if n >= 10 {
      DecimalDigits(n / 10);
    }
  }

  lemma {:induction false} ValueOfDecimal(n: nat)
    requires forall i | 0 <= i < |Decimal(n)| :: Digit(Decimal(n)[i])
    ensures ValueOf(Decimal(n)) == n
  {
    var text := Decimal(n);
    assert text[|text| - 1] == (n % 10) as char + '0';
    if n >= 10 {
      DecimalDigits(n / 10);
      ValueOfDecimal(n / 10);
      assert text[..|text| - 1] == Decimal(n / 10);
    } else {
      assert text[..|text| - 1] == "";
    }
  }
}
