/**
 Decimal rendering and reading of natural numbers: the unpadded form that
 Swift string interpolation produces (`"\(n)"`) and the fixed-width,
 zero-padded form of the date-pattern fields `yyyy`, `MM`, `dd`, `HH`, `mm`
 and `ss`.
 */
module Digits {

  predicate IsDigit(c: char) {
    '0' <= c <= '9'
  }

  predicate AllDigits(s: string) {
    forall i :: 0 <= i < |s| ==> IsDigit(s[i])
  }

  function DigitChar(d: nat): (c: char)
    requires d < 10
    ensures IsDigit(c)
  {
    ('0' as int + d) as char
  }

  function DigitValue(c: char): (d: nat)
    requires IsDigit(c)
    ensures d < 10 && DigitChar(d) == c
  {
    c as int - '0' as int
  }

  function Pow10(n: nat): (p: nat)
    ensures p >= 1
  {
    if n == 0 then 1 else 10 * Pow10(n - 1)
  }

  /** The number a string of decimal digits denotes (most significant first). */
  function Value(s: string): nat
    requires AllDigits(s)
  {
    if |s| == 0 then 0 else 10 * Value(s[..|s| - 1]) + DigitValue(s[|s| - 1])
  }

  /** `n` written in exactly `w` digits: zero-padded on the left, and for
      `n >= 10^w` only its `w` lowest digits. */
  function Padded(n: nat, w: nat): (r: string)
    ensures |r| == w
    ensures AllDigits(r)
  {
    if w == 0 then [] else Padded(n / 10, w - 1) + [DigitChar(n % 10)]
  }

  /** `n` in decimal without leading zeros, as string interpolation prints it. */
  function Decimal(n: nat): (r: string)
    ensures 1 <= |r|
    ensures AllDigits(r)
    ensures |r| == 1 || r[0] != '0'
  {
    if n < 10 then [DigitChar(n)] else Decimal(n / 10) + [DigitChar(n % 10)]
  }

  /** A digit string as `Decimal` writes it: non-empty, no leading zero. */
  predicate Canonical(s: string) {
    1 <= |s| && AllDigits(s) && (|s| == 1 || s[0] != '0')
  }

  /** Reading back a padded field gives the number, provided it fits. */
  lemma {:induction false} ValueOfPadded(n: nat, w: nat)
    requires n < Pow10(w)
    ensures Value(Padded(n, w)) == n
  {
    if w > 0 {
      var r := Padded(n, w);
      assert r[..|r| - 1] == Padded(n / 10, w - 1);
      assert n == 10 * (n / 10) + n % 10;
      assert Pow10(w) == 10 * Pow10(w - 1);
      assert n / 10 < Pow10(w - 1);
      ValueOfPadded(n / 10, w - 1);
      assert DigitValue(r[|r| - 1]) == n % 10;
    }
  }

  /** Every digit string is the padded rendering of the number it denotes. */
  lemma {:induction false} PaddedOfValue(s: string)
    requires AllDigits(s)
    ensures Value(s) < Pow10(|s|)
    ensures Padded(Value(s), |s|) == s
  {
    if |s| > 0 {
      var init := s[..|s| - 1];
      PaddedOfValue(init);
      var v := Value(s);
      assert v / 10 == Value(init) && v % 10 == DigitValue(s[|s| - 1]);
      assert s == init + [s[|s| - 1]];
    }
  }

  /** Reading back an unpadded rendering gives the number. */
  lemma {:induction false} ValueOfDecimal(n: nat)
    ensures Value(Decimal(n)) == n
  {
    if n >= 10 {
      var r := Decimal(n);
      assert r[..|r| - 1] == Decimal(n / 10);
      ValueOfDecimal(n / 10);
    }
  }

  /** Distinct numbers render to distinct strings. */
  lemma DecimalInjective(m: nat, n: nat)
    requires Decimal(m) == Decimal(n)
    ensures m == n
  {
    ValueOfDecimal(m);
    ValueOfDecimal(n);
  }
}
