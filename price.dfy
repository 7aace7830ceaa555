/** `format_price` (shop/utils.py): Python's `f"{price:,} ₽".replace(',', ' ')`
    on a whole-rouble price. The same expression is repeated verbatim in
    shop/models.py and shop/views.py; those copies call FormatPrice. */
module Price {
  import opened Wrappers
  import opened Numerals

  /** The text appended after the number: a space and the rouble sign U+20BD. */
  const Suffix: string := " \U{20BD}"

  /** The three digits of a group after the first, zero-padded (`,` format). */
  function Pad3(b: nat): (r: string)
    requires b < 1000
    ensures |r| == 3 && forall i :: 0 <= i < 3 ==> IsDigit(r[i])
  {
    [DigitChar(b / 100), DigitChar(b / 10 % 10), DigitChar(b % 10)]
  }

  /** Python's `format(n, ',')` for n >= 0: digits grouped by threes with commas. */
  function Thousands(n: nat): string
  {
    if n < 1000 then Digits(n) else Thousands(n / 1000) + "," + Pad3(n % 1000)
  }

  /** `f"{n:,}"` for any integer: a minus sign, then the grouped magnitude. */
  function WithCommas(n: int): string
  {
    if n < 0 then "-" + Thousands(-n) else Thousands(n)
  }

  /** Python's `str.replace(a, b)` for single characters. */
  function ReplaceChar(s: string, a: char, b: char): (r: string)
    ensures |r| == |s|
    ensures forall i :: 0 <= i < |s| ==> r[i] == (if s[i] == a then b else s[i])
  {
    seq(|s|, i requires 0 <= i < |s| => if s[i] == a then b else s[i])
  }

  /** `format_price(price)`. */
  function FormatPrice(n: int): string
  {
    ReplaceChar(WithCommas(n) + Suffix, ',', ' ')
  }

  /** Digits grouped by threes from the right with single spaces: position i
      is a space exactly when the distance from i to the end is a multiple
      of four (three digits and their separator), every other position is a
      digit, and the first position is a digit. */
  predicate Grouped(r: string)
  {
    && |r| > 0 && IsDigit(r[0])
    && (forall i :: 0 <= i < |r| ==> (r[i] == ' ' <==> (|r| - i) % 4 == 0))
    && (forall i :: 0 <= i < |r| && r[i] != ' ' ==> IsDigit(r[i]))
  }

  /** The magnitude n written as `format_price` writes it, before the suffix. */
  function Spaced(n: nat): (r: string)
    ensures Grouped(r)
  {
    if n < 1000 then
      SmallGrouped(n);
      Digits(n)
    else
      GroupedAppend(Spaced(n / 1000), Pad3(n % 1000));
      Spaced(n / 1000) + " " + Pad3(n % 1000)
  }

  lemma SmallGrouped(n: nat)
    requires n < 1000
    ensures Grouped(Digits(n))
  {
    var r := Digits(n);
    DigitsBelowThousand(n);
    forall i | 0 <= i < |r|
      ensures r[i] == ' ' <==> (|r| - i) % 4 == 0
    {
      assert IsDigit(r[i]);
      assert 1 <= |r| - i <= 3;
    }
  }

  lemma DigitsBelowThousand(n: nat)
    requires n < 1000
    ensures |Digits(n)| <= 3
  {
    if n >= 10 {
      DigitsAppend(n / 10, n % 10, n);
      if n >= 100 {
        DigitsAppend(n / 100, n / 10 % 10, n / 10);
      }
    }
  }

  lemma GroupedAppend(head: string, group: string)
    requires Grouped(head)
    requires |group| == 3 && forall i :: 0 <= i < 3 ==> IsDigit(group[i])
    ensures Grouped(head + " " + group)
  {
    var r := head + " " + group;
    forall i | 0 <= i < |r|
      ensures r[i] == ' ' <==> (|r| - i) % 4 == 0
      ensures r[i] != ' ' ==> IsDigit(r[i])
    {
      if i < |head| {
        assert r[i] == head[i];
        assert (|r| - i) % 4 == (|head| - i) % 4;
      } else if i > |head| {
        assert r[i] == group[i - |head| - 1];
      }
    }
  }

  /** Drops every space (what a reader does to recover the digits). */
  function RemoveSpaces(s: string): (r: string)
  {
    if s == [] then []
    else RemoveSpaces(s[..|s| - 1]) + (if s[|s| - 1] == ' ' then [] else [s[|s| - 1]])
  }

  /** The inverse of FormatPrice: strip the suffix, an optional minus sign
      and the group separators, then read the digits. */
  function ParsePrice(s: string): (r: Option<int>)
  {
    if |s| < |Suffix| || s[|s| - |Suffix|..] != Suffix then None
    else ParseAmount(s[..|s| - |Suffix|])
  }

  /** Reads an optional minus sign and space-separated digits. */
  function ParseAmount(body: string): (r: Option<int>)
  {
    var negative := |body| > 0 && body[0] == '-';
    var digits := RemoveSpaces(if negative then body[1..] else body);
    if !IsDigits(digits) then None
    else
      var magnitude: int := ParseDigits(digits);
      Some(if negative then -magnitude else magnitude)
  }

  lemma ReplaceConcat(s: string, t: string, a: char, b: char)
    ensures ReplaceChar(s + t, a, b) == ReplaceChar(s, a, b) + ReplaceChar(t, a, b)
  {
  }

  lemma ReplaceAbsent(s: string, a: char, b: char)
    requires forall i :: 0 <= i < |s| ==> s[i] != a
    ensures ReplaceChar(s, a, b) == s
  {
  }

  lemma {:induction false} RemoveSpacesConcat(s: string, t: string)
    ensures RemoveSpaces(s + t) == RemoveSpaces(s) + RemoveSpaces(t)
  {
    if t == [] {
      assert s + t == s;
    } else {
      assert (s + t)[..|s + t| - 1] == s + t[..|t| - 1];
      RemoveSpacesConcat(s, t[..|t| - 1]);
    }
  }

  lemma {:induction false} RemoveSpacesAbsent(s: string)
    requires forall i :: 0 <= i < |s| ==> s[i] != ' '
    ensures RemoveSpaces(s) == s
  {
    if s != [] {
      RemoveSpacesAbsent(s[..|s| - 1]);
    }
  }

  /** The numeral of 1000a + b is the numeral of a followed by b's three digits. */
  lemma DigitsGroup(a: nat, b: nat, n: nat)
    requires a >= 1 && b < 1000 && n == 1000 * a + b
    ensures Digits(n) == Digits(a) + Pad3(b)
  {
    ThreeDigitSplit(a, b);
    AppendThreeDigits(a, 10 * a + b / 100, 100 * a + b / 10, n, b / 100, b / 10 % 10, b % 10);
  }

  /** Three digit appends in a row, with the arithmetic given. */
  lemma AppendThreeDigits(a: nat, x: nat, y: nat, n: nat, d1: nat, d2: nat, d3: nat)
    requires a >= 1 && d1 < 10 && d2 < 10 && d3 < 10
    requires x == 10 * a + d1 && y == 10 * x + d2 && n == 10 * y + d3
    ensures Digits(n) == Digits(a) + [DigitChar(d1), DigitChar(d2), DigitChar(d3)]
  {
    var c1, c2, c3 := DigitChar(d1), DigitChar(d2), DigitChar(d3);
    DigitsAppend(a, d1, x);
    DigitsAppend(x, d2, y);
    DigitsAppend(y, d3, n);
    AppendThree(Digits(a), c1, c2, c3);
  }

  lemma AppendThree<T>(s: seq<T>, p: T, q: T, r: T)
    ensures s + [p] + [q] + [r] == s + [p, q, r]
  {
  }

  /** The arithmetic behind DigitsGroup: peeling the three low digits. */
  lemma ThreeDigitSplit(a: nat, b: nat)
    requires b < 1000
    ensures b / 100 < 10 && b / 10 % 10 < 10
    ensures 1000 * a + b == 10 * (100 * a + b / 10) + b % 10
    ensures 100 * a + b / 10 == 10 * (10 * a + b / 100) + b / 10 % 10
    ensures Pad3(b) == [DigitChar(b / 100), DigitChar(b / 10 % 10), DigitChar(b % 10)]
  {
    assert b / 10 == 10 * (b / 100) + b / 10 % 10;
    assert b == 10 * (b / 10) + b % 10;
  }

  /** Replacing the commas of `format(n, ',')` by spaces gives Spaced(n). */
  lemma {:induction false} ReplaceThousands(n: nat)
    ensures ReplaceChar(Thousands(n), ',', ' ') == Spaced(n)
  {
    if n < 1000 {
      ReplaceAbsent(Digits(n), ',', ' ');
    } else {
      ReplaceThousands(n / 1000);
      ReplaceConcat(Thousands(n / 1000) + ",", Pad3(n % 1000), ',', ' ');
      ReplaceConcat(Thousands(n / 1000), ",", ',', ' ');
      ReplaceAbsent(Pad3(n % 1000), ',', ' ');
    }
  }

  /** Removing the separators of Spaced(n) gives back the decimal digits of n. */
  lemma {:induction false} SpacedDigits(n: nat)
    ensures RemoveSpaces(Spaced(n)) == Digits(n)
  {
    if n < 1000 {
      RemoveSpacesAbsent(Digits(n));
    } else {
      SpacedDigits(n / 1000);
      SpacedDigitsStep(n);
    }
  }

  lemma SpacedDigitsStep(n: nat)
    requires n >= 1000
    requires RemoveSpaces(Spaced(n / 1000)) == Digits(n / 1000)
    ensures RemoveSpaces(Spaced(n)) == Digits(n)
  {
    var a, b := n / 1000, n % 1000;
    SpacedUnfold(n);
    RemoveSpacesJoin(Spaced(a), Pad3(b));
    DigitsGroup(a, b, n);
  }

  lemma SpacedUnfold(n: nat)
    requires n >= 1000
    ensures Spaced(n) == Spaced(n / 1000) + " " + Pad3(n % 1000)
    ensures n / 1000 >= 1 && n % 1000 < 1000 && n == 1000 * (n / 1000) + n % 1000
  {
  }

  /** Removing the spaces of head, a space and a digit group. */
  lemma RemoveSpacesJoin(head: string, group: string)
    requires forall i :: 0 <= i < |group| ==> IsDigit(group[i])
    ensures RemoveSpaces(head + " " + group) == RemoveSpaces(head) + group
  {
    var spaced := head + " ";
    RemoveSpacesConcat(spaced, group);
    RemoveSpacesConcat(head, " ");
    RemoveSpacesOfSpace();
    assert forall i :: 0 <= i < |group| ==> group[i] != ' ';
    RemoveSpacesAbsent(group);
    assert RemoveSpaces(spaced) == RemoveSpaces(head);
  }

  lemma RemoveSpacesOfSpace()
    ensures RemoveSpaces(" ") == []
  {
    assert " "[..0] == [];
  }

  /** What `format_price` produces: an optional minus sign, the magnitude
      grouped by threes with single spaces, then " ₽". */
  lemma FormatPriceShape(n: int)
    ensures FormatPrice(n) == (if n < 0 then "-" else "") + Spaced(if n < 0 then -n else n) + Suffix
  {
    var m := if n < 0 then -n else n;
    ReplaceThousands(m);
    ReplaceConcat(WithCommas(n), Suffix, ',', ' ');
    ReplaceAbsent(Suffix, ',', ' ');
    if n < 0 {
      ReplaceConcat("-", Thousands(m), ',', ' ');
      ReplaceAbsent("-", ',', ' ');
    }
  }

  /** Round trip: every formatted price reads back as the price it came from. */
  lemma ParseFormatPrice(n: int)
    ensures ParsePrice(FormatPrice(n)) == Some(n)
  {
    var m := if n < 0 then -n else n;
    var s := FormatPrice(n);
    FormatPriceShape(n);
    var body := (if n < 0 then "-" else "") + Spaced(m);
    assert s == body + Suffix;
    assert s[|s| - |Suffix|..] == Suffix;
    assert s[..|s| - |Suffix|] == body;
    ParseAmountSpaced(n);
  }

  lemma ParseAmountSpaced(n: int)
    ensures ParseAmount((if n < 0 then "-" else "") + Spaced(if n < 0 then -n else n)) == Some(n)
  {
    if n < 0 {
      ParseAmountNegative(-n);
      assert -((-n) as int) == n;
    } else {
      assert "" + Spaced(n) == Spaced(n);
      ParseAmountMagnitude(n);
    }
  }

  lemma ParseAmountMagnitude(m: nat)
    ensures ParseAmount(Spaced(m)) == Some(m)
  {
    SpacedDigits(m);
    ReadMagnitude(Spaced(m), m);
  }

  lemma ParseAmountNegative(m: nat)
    requires m > 0
    ensures ParseAmount("-" + Spaced(m)) == Some(-(m as int))
  {
    var body := "-" + Spaced(m);
    assert body[1..] == Spaced(m);
    SpacedDigits(m);
    ReadNegative(body, m);
  }

  lemma ReadMagnitude(body: string, m: nat)
    requires |body| > 0 && IsDigit(body[0]) && RemoveSpaces(body) == Digits(m)
    ensures ParseAmount(body) == Some(m)
  {
    ParseDigitsOfDigits(m);
  }

  lemma ReadNegative(body: string, m: nat)
    requires |body| > 0 && body[0] == '-' && RemoveSpaces(body[1..]) == Digits(m)
    ensures ParseAmount(body) == Some(-(m as int))
  {
    ParseDigitsOfDigits(m);
  }

  /** Every formatted price ends with " ₽". */
  lemma FormatPriceSuffix(n: int)
    ensures |FormatPrice(n)| > |Suffix|
    ensures FormatPrice(n)[|FormatPrice(n)| - |Suffix|..] == Suffix
  {
    FormatPriceShape(n);
  }

  /** Distinct prices are never formatted alike. */
  lemma FormatPriceInjective(m: int, n: int)
    requires FormatPrice(m) == FormatPrice(n)
    ensures m == n
  {
    ParseFormatPrice(m);
    ParseFormatPrice(n);
  }
}
