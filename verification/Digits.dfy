/** Decimal notation of integers, as strconv.Itoa and FormatInt print it. */
module Digits {

  function Digit(d: nat): (c: char)
    requires d < 10
    ensures '0' <= c <= '9' && c as int - '0' as int == d
  {
    ('0' as int + d) as char
  }

  function Natural(n: nat): (s: string)
    ensures |s| >= 1 && forall i :: 0 <= i < |s| ==> '0' <= s[i] <= '9'
  {
    if n < 10 then [Digit(n)] else Natural(n / 10) + [Digit(n % 10)]
  }

  function Decimal(n: int): string {
    if n < 0 then "-" + Natural(-n) else Natural(n)
  }

  function Value(s: string): nat
    requires forall i :: 0 <= i < |s| ==> '0' <= s[i] <= '9'
  {
    if s == "" then 0 else 10 * Value(s[..|s| - 1]) + (s[|s| - 1] as int - '0' as int)
  }

  /** The digits are read back as the number, and there is no zero in front of it. */
  lemma {:induction false} NaturalReadsBack(n: nat)
    ensures Value(Natural(n)) == n && (Natural(n)[0] == '0' ==> n == 0)
  {
    if n < 10 {
      assert Natural(n)[..0] == "";
    } else {
      NaturalReadsBack(n / 10);
      assert Natural(n)[..|Natural(n)| - 1] == Natural(n / 10);
    }
  }

  lemma {:induction false} NaturalIsInjective(m: nat, n: nat)
    requires Natural(m) == Natural(n)
    ensures m == n
  {
    var s, t := Natural(m), Natural(n);
    assert s[|s| - 1] == Digit(m % 10) && t[|t| - 1] == Digit(n % 10);
    if m >= 10 && n >= 10 {
      assert s[..|s| - 1] == Natural(m / 10) && t[..|t| - 1] == Natural(n / 10);
      NaturalIsInjective(m / 10, n / 10);
    }
  }

  lemma DecimalSign(n: int)
    ensures |Decimal(n)| >= 1 && (Decimal(n)[0] == '-' <==> n < 0)
  {
    if n >= 0 {
      assert '0' <= Natural(n)[0] <= '9';
    }
  }

  lemma DecimalIsInjective(m: int, n: int)
    requires Decimal(m) == Decimal(n)
    ensures m == n
  {
    DecimalSign(m);
    DecimalSign(n);
    if m < 0 {
      assert Decimal(m)[1..] == Natural(-m) && Decimal(n)[1..] == Natural(-n);
      NaturalIsInjective(-m, -n);
    } else {
      NaturalIsInjective(m, n);
    }
  }

  function Power(k: nat): (p: nat)
    ensures p >= 1
  {
    if k == 0 then 1 else 10 * Power(k - 1)
  }

  /** A number below ten to the k has at most k digits. */
  lemma {:induction false} NaturalIsShort(n: nat, k: nat)
    requires k >= 1 && n < Power(k)
    ensures |Natural(n)| <= k
  {
    if n >= 10 {
      NaturalIsShort(n / 10, k - 1);
    }
  }

  lemma NineteenDigits()
    ensures Power(19) == 10_000_000_000_000_000_000
  {
    assert Power(6) == 1_000_000;
    assert Power(12) == 1_000_000_000_000;
    assert Power(18) == 1_000_000_000_000_000_000;
  }
}
