/** Decimal notation and reading it back. */
module Digits {
  import opened Base

  /** `str(n)`. */
  function Decimal(n: nat): string {
    (if n < 10 then "" else Decimal(n / 10)) + ["0123456789"[n % 10]]
  }

  /** Zero-padded to a minimal width. */
  function Padded(n: nat, width: nat): string {
    seq(if |Decimal(n)| < width then width - |Decimal(n)| else 0, _ => '0') + Decimal(n)
  }

  predicate IsDigit(ch: char) {
    '0' <= ch <= '9'
  }

  predicate AllDigits(s: string) {
    forall i :: 0 <= i < |s| ==> IsDigit(s[i])
  }

  /** The number a digit string denotes. */
  function ValueOf(s: string): nat
    requires AllDigits(s)
  {
    if s == [] then 0 else 10 * ValueOf(Front(s)) + (Last(s) - '0') as int
  }

  lemma {:induction false} DecimalValue(n: nat)
    ensures AllDigits(Decimal(n)) && ValueOf(Decimal(n)) == n
  {
    var digit := "0123456789"[n % 10];
    assert (digit - '0') as int == n % 10;
    if n >= 10 {
      DecimalValue(n / 10);
      assert Front(Decimal(n)) == Decimal(n / 10);
    } else {
      assert Front(Decimal(n)) == [];
    }
  }

  lemma {:induction false} LeadingZeros(k: nat, s: string)
    requires AllDigits(s)
    ensures var padded := seq(k, _ => '0') + s; AllDigits(padded) && ValueOf(padded) == ValueOf(s)
  {
    var zeros := seq(k, _ => '0');
    if s == [] {
      assert zeros + s == zeros;
      if k > 0 {
        LeadingZeros(k - 1, s);
        assert Front(zeros) == seq(k - 1, _ => '0') + s;
      }
    } else {
      LeadingZeros(k, Front(s));
      assert Front(zeros + s) == zeros + Front(s);
    }
  }

  lemma {:induction false} PaddedValue(n: nat, width: nat)
    ensures AllDigits(Padded(n, width)) && ValueOf(Padded(n, width)) == n
  {
    DecimalValue(n);
    LeadingZeros(if |Decimal(n)| < width then width - |Decimal(n)| else 0, Decimal(n));
  }
}
