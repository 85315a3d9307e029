/** Facts about quotients and remainders. */
module Arithmetic {
  lemma DivisionIs(x: nat, d: nat, m: nat, q: nat)
    requires q >= 1 && m < q && x == d * q + m
    ensures x % q == m && x / q == d
  {
    var e := x / q - d;
    assert x == (x / q) * q + x % q;
    assert (x / q) * q - d * q == e * q;
    assert e * q == m - x % q;
    TimesAtLeast(e, q);
    assert e == 0;
  }

  lemma TimesAtLeast(e: int, q: nat)
    ensures e >= 1 ==> e * q >= q
    ensures e <= -1 ==> e * q <= 0 - q
  {
    assert e * q == (e - 1) * q + q;
    assert e * q == (e + 1) * q - q;
  }
}
