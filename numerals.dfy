/** Decimal numerals: the digits Python's `str(int)` produces and the
    digit runs Django's `<int:...>` path converter accepts. */
module Numerals {

  /** The character of the decimal digit d. */
  function DigitChar(d: nat): (c: char)
    requires d < 10
    ensures '0' <= c <= '9'
  {
    ['0', '1', '2', '3', '4', '5', '6', '7', '8', '9'][d]
  }

  /** The value of a decimal digit character. */
  function DigitValue(c: char): (d: nat)
    requires IsDigit(c)
    ensures d < 10 && DigitChar(d) == c
  {
    (c as int - '0' as int) as nat
  }

  predicate IsDigit(c: char) {
    '0' <= c <= '9'
  }

  /** A non-empty run of ASCII decimal digits (the `[0-9]+` of Django's int converter). */
  predicate IsDigits(s: string) {
    |s| > 0 && forall i :: 0 <= i < |s| ==> IsDigit(s[i])
  }

  /** The decimal digits of n without leading zeros, as `str(n)` writes them. */
  function Digits(n: nat): (s: string)
    ensures IsDigits(s)
    ensures s[0] != '0' || n == 0
  {
    if n < 10 then [DigitChar(n)] else Digits(n / 10) + [DigitChar(n % 10)]
  }

  /** The value of a run of decimal digits (leading zeros allowed, as in `int("007")`). */
  function ParseDigits(s: string): (n: nat)
    requires forall i :: 0 <= i < |s| ==> IsDigit(s[i])
  {
    if s == [] then 0 else 10 * ParseDigits(s[..|s| - 1]) + DigitValue(s[|s| - 1])
  }

  lemma {:induction false} DigitValueOfChar(d: nat)
    requires d < 10
    ensures DigitValue(DigitChar(d)) == d
  {
  }

  /** Reading back the digits of n gives n. */
  lemma {:induction false} ParseDigitsOfDigits(n: nat)
    ensures ParseDigits(Digits(n)) == n
  {
    var s := Digits(n);
    if n < 10 {
      DigitValueOfChar(n);
      assert s[..0] == [];
    } else {
      assert s[..|s| - 1] == Digits(n / 10);
      ParseDigitsOfDigits(n / 10);
      DigitValueOfChar(n % 10);
    }
  }

  /** Digits distinguishes numbers: equal numerals mean equal numbers. */
  lemma DigitsInjective(m: nat, n: nat)
    requires Digits(m) == Digits(n)
    ensures m == n
  {
    ParseDigitsOfDigits(m);
    ParseDigitsOfDigits(n);
  }

  /** A digit run that starts with a non-zero digit has a positive value. */
  lemma {:induction false} LeadingNonzeroPositive(s: string)
    requires IsDigits(s) && s[0] != '0'
    ensures ParseDigits(s) >= 1
  {
    if |s| > 1 {
      var t := s[..|s| - 1];
      assert t[0] == s[0];
      LeadingNonzeroPositive(t);
    }
  }

  /** A digit run without leading zeros is exactly the numeral `str` writes
      for its value: no other spelling of a number has that shape. */
  lemma {:induction false} CanonicalIsDigits(s: string)
    requires IsDigits(s) && (s[0] != '0' || |s| == 1)
    ensures s == Digits(ParseDigits(s))
  {
    var last := s[|s| - 1];
    var t := s[..|s| - 1];
    if |s| == 1 {
      assert t == [];
      assert ParseDigits(s) == DigitValue(last);
    } else {
      assert t[0] == s[0];
      LeadingNonzeroPositive(t);
      CanonicalIsDigits(t);
      DigitsAppend(ParseDigits(t), DigitValue(last), ParseDigits(s));
      assert s == t + [last];
    }
  }

  /** Appending one digit to the numeral of a positive number. */
  lemma {:induction false} DigitsAppend(a: nat, c: nat, n: nat)
    requires a >= 1 && c < 10 && n == 10 * a + c
    ensures Digits(n) == Digits(a) + [DigitChar(c)]
  {
    assert n / 10 == a && n % 10 == c;
  }
}
