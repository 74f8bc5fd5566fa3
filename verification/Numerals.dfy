/** Decimal digits and the numbers they stand for. */
module Numerals {
  function Digit(d: nat): char
    requires d < 10
  {
    '0' + d as char
  }

  function DecNat(n: nat): (t: string)
    ensures |t| > 0
  {
    if n < 10 then [Digit(n)] else DecNat(n / 10) + [Digit(n % 10)]
  }

  predicate Digits(t: string) {
    |t| > 0 && forall i :: 0 <= i < |t| ==> '0' <= t[i] <= '9'
  }

  function DigitsValue(t: string): nat
    requires forall i :: 0 <= i < |t| ==> '0' <= t[i] <= '9'
  {
    if t == "" then 0 else DigitsValue(t[..|t| - 1]) * 10 + (t[|t| - 1] - '0') as int
  }

  lemma {:induction false} DecNatReads(n: nat)
    ensures Digits(DecNat(n)) && DigitsValue(DecNat(n)) == n
  {
    if n >= 10 {
      DecNatReads(n / 10);
      var t := DecNat(n);
      assert t[..|t| - 1] == DecNat(n / 10);
    } else {
      assert DecNat(n)[..0] == "";
    }
  }
}
