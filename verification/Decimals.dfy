/** Integers as Go prints them. */
module Decimals {
  function Decimal(n: nat): string {
    if n < 10 then [Digit(n)] else Decimal(n / 10) + [Digit(n % 10)]
  }

  function Digit(n: nat): char
    requires n < 10
  {
    "0123456789"[n]
  }

  /** fmt.Sprintf("%d", n). */
  function Signed(n: int): string {
    if n < 0 then "-" + Decimal(-n) else Decimal(n)
  }

  lemma DecimalLength(n: nat)
    ensures if n < 10 then |Decimal(n)| == 1 else |Decimal(n)| >= 2
  {
    if n >= 10 { DecimalLength(n / 10); }
  }

  lemma {:induction false} DecimalStartsWithDigit(n: nat)
    ensures |Decimal(n)| > 0 && Decimal(n)[0] != '-'
  {
    if n >= 10 { DecimalStartsWithDigit(n / 10); }
  }

  lemma SignedInjective(m: int, n: int)
    requires Signed(m) == Signed(n)
    ensures m == n
  {
    DecimalStartsWithDigit(if m < 0 then -m else m);
    DecimalStartsWithDigit(if n < 0 then -n else n);
    assert m < 0 <==> Signed(m)[0] == '-';
    assert n < 0 <==> Signed(n)[0] == '-';
    if m < 0 {
      assert Signed(m)[1..] == Decimal(-m) && Signed(n)[1..] == Decimal(-n);
      DecimalInjective(-m, -n);
    } else {
      DecimalInjective(m, n);
    }
  }

  lemma {:induction false} DecimalInjective(m: nat, n: nat)
    requires Decimal(m) == Decimal(n)
    ensures m == n
  {
    DecimalLength(m);
    DecimalLength(n);
    var a, b := Decimal(m), Decimal(n);
    if m >= 10 {
      assert a[..|a| - 1] == Decimal(m / 10) && b[..|b| - 1] == Decimal(n / 10);
      DecimalInjective(m / 10, n / 10);
      assert a[|a| - 1] == Digit(m % 10) && b[|b| - 1] == Digit(n % 10);
    } else {
      assert a[0] == Digit(m) && b[0] == Digit(n);
    }
  }
}
