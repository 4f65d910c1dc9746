/** Decimal digits of a natural number, most significant first. */
module Decimal {

  type digit = x: int | 0 <= x < 10

  function Digits(n: nat): (d: seq<digit>)
    ensures d != []
  {
    if n < 10 then [n] else Digits(n / 10) + [n % 10]
  }

  function Pow10(k: nat): nat {
    if k == 0 then 1 else 10 * Pow10(k - 1)
  }

  lemma {:induction false} DigitsBound(n: nat)
    ensures n < Pow10(|Digits(n)|)
  {
    if n < 10 {
      assert Pow10(1) == 10;
    } else {
      DigitsBound(n / 10);
    }
  }

  lemma PowersUpTo7(k: nat)
    requires k <= 7
    ensures Pow10(k) <= 10000000
  {
    assert Pow10(0) == 1 && Pow10(1) == 10 && Pow10(2) == 100 && Pow10(3) == 1000;
    assert Pow10(4) == 10000 && Pow10(5) == 100000 && Pow10(6) == 1000000;
  }
}
