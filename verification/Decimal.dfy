/** Decimal printing of integers, as the source's format strings print them. */
module Decimal {

  function Digit(d: nat): char
    requires d < 10
  {
    "0123456789"[d]
  }

  predicate IsDigit(c: char) { '0' <= c <= '9' }

  function Nat(n: nat): (s: string)
    ensures |s| > 0 && forall c :: c in s ==> IsDigit(c)
  {
    if n < 10 then [Digit(n)] else Nat(n / 10) + [Digit(n % 10)]
  }

  function Int(n: int): string {
    if n < 0 then "-" + Nat(-n) else Nat(n)
  }

  /** The number these decimal digits write, most significant first. */
  function Value(s: string): int { if s == "" then 0 else 10 * Value(s[..|s|-1]) + (s[|s|-1] as int - '0' as int) }

  /** A number is printed in decimal, without leading zeros. */
  lemma {:induction false} NatReadsBack(n: nat)
    ensures Value(Nat(n)) == n && (n > 0 ==> Nat(n)[0] != '0')
  {
    var s := Nat(n);
    if n < 10 {
      assert s[..0] == "" && Value("") == 0;
    } else {
      NatReadsBack(n / 10);
      assert s[..|s|-1] == Nat(n / 10);
    }
  }

  /** The printed number determines the number. */
  lemma {:induction false} NatInjective(m: nat, n: nat)
    requires Nat(m) == Nat(n)
    ensures m == n
  {
    var s, t := Nat(m), Nat(n);
    assert s[|s|-1] == Digit(m % 10) && t[|t|-1] == Digit(n % 10);
    if m >= 10 && n >= 10 {
      assert Nat(m / 10) == s[..|s|-1] && Nat(n / 10) == t[..|t|-1];
      NatInjective(m / 10, n / 10);
    }
  }
}
