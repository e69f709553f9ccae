/** Decimal numerals: printing and reading them, for handover numbers and group identities. */
module Decimal {

  function Digit(d: nat): char
    requires d < 10
  {
    '0' + d as char
  }

  predicate IsDigit(c: char) {
    '0' <= c <= '9'
  }

  predicate AllDigits(s: string) {
    forall i :: 0 <= i < |s| ==> IsDigit(s[i])
  }

  function DigitValue(c: char): nat
    requires IsDigit(c)
  {
    (c - '0') as nat
  }

  /** What atoi() makes of a string of digits that fits an int. */
  function Value(s: string): nat
    requires AllDigits(s)
  {
    if s == "" then 0 else 10 * Value(s[..|s| - 1]) + DigitValue(s[|s| - 1])
  }

  /** What printf() makes of a number. */
  function Print(n: nat): (s: string)
    ensures |s| > 0 && AllDigits(s)
  {
    if n < 10 then [Digit(n)] else Print(n / 10) + [Digit(n % 10)]
  }

  function Pow10(k: nat): (p: nat)
    ensures p > 0
  {
    if k == 0 then 1 else 10 * Pow10(k - 1)
  }

  /** The last k digits of a number, padded with zeros. */
  function Padded(n: nat, k: nat): (s: string)
    ensures |s| == k && AllDigits(s)
  {
    if k == 0 then "" else Padded(n / 10, k - 1) + [Digit(n % 10)]
  }

  lemma {:induction false} PrintValue(n: nat)
    ensures Value(Print(n)) == n
  {
    if n >= 10 {
      PrintValue(n / 10);
      var s := Print(n / 10);
      assert (s + [Digit(n % 10)])[..|s|] == s;
    }
  }

  /** Different numbers print differently. */
  lemma PrintInjective(a: nat, b: nat)
    requires Print(a) == Print(b)
    ensures a == b
  {
    PrintValue(a);
    PrintValue(b);
  }

  /** How long a number is in print. */
  lemma {:induction false} PrintLength(n: nat, k: nat)
    requires k > 0
    ensures |Print(n)| <= k <==> n < Pow10(k)
  {
    if k == 1 {
      assert Pow10(1) == 10 * Pow10(0);
    } else if n < 10 {
      PowGrows(k);
    } else {
      PrintLength(n / 10, k - 1);
      assert n < 10 * Pow10(k - 1) <==> n / 10 < Pow10(k - 1);
    }
  }

  lemma {:induction false} PowGrows(k: nat)
    requires k > 0
    ensures Pow10(k) >= 10
  {
    if k > 1 {
      PowGrows(k - 1);
    }
  }

  lemma {:induction false} PaddedValue(n: nat, k: nat)
    ensures Value(Padded(n, k)) == n % Pow10(k)
  {
    if k > 0 {
      PaddedValue(n / 10, k - 1);
      var s := Padded(n / 10, k - 1);
      assert (s + [Digit(n % 10)])[..|s|] == s;
      RemainderStep(n, Pow10(k - 1));
    }
  }

  lemma RemainderStep(n: nat, p: nat)
    requires p > 0
    ensures n % (10 * p) == 10 * ((n / 10) % p) + n % 10
  {
    var q := n / 10 / p;
    var r := (n / 10) % p;
    assert n / 10 == q * p + r;
    assert n == (10 * p) * q + (10 * r + n % 10) by {
      assert n == 10 * (q * p + r) + n % 10;
    }
    Remainder(n, 10 * p, q, 10 * r + n % 10);
  }

  lemma Product(d: nat, k: int)
    requires k >= 1
    ensures d * k >= d
  {
    assert d * k == d * (k - 1) + d;
  }

  lemma SmallMultiple(d: nat, k: int, x: int)
    requires d * k == x && 0 - d < x < d
    ensures k == 0
  {
    if k >= 1 {
      Product(d, k);
    } else if k <= -1 {
      Product(d, -k);
    }
  }

  lemma Remainder(n: nat, d: nat, q: nat, r: nat)
    requires d > 0 && n == d * q + r && r < d
    ensures n % d == r
  {
    var q', r' := n / d, n % d;
    assert n == d * q' + r';
    assert d * (q - q') == d * q - d * q';
    SmallMultiple(d, q - q', r' - r);
  }

  /** A string of digits is the padded print of its value. */
  lemma {:induction false} ValuePadded(s: string)
    requires AllDigits(s)
    ensures Padded(Value(s), |s|) == s
  {
    if s != "" {
      ValuePadded(s[..|s| - 1]);
      assert s == s[..|s| - 1] + [s[|s| - 1]];
    }
  }

  /** The last digits of a padded number are the number padded to that many digits. */
  lemma {:induction false} PaddedSuffix(n: nat, k: nat, l: nat)
    requires l <= k
    ensures Padded(n, k)[k - l..] == Padded(n, l)
  {
    if l > 0 {
      PaddedSuffix(n / 10, k - 1, l - 1);
      assert Padded(n, k)[k - l..] == Padded(n / 10, k - 1)[k - l..] + [Digit(n % 10)];
    }
  }
}
