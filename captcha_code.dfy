/** What both copies of captcha-fix.js agree on: the code alphabet, the
    length of a code, and how typed input is compared with the code. */
module CaptchaCode {
  /** The 32 symbols a code is drawn from; I, O, 0 and 1 are left out
      because they look alike. */
  const Alphabet: string := Letters + Digits
  const Letters: string := "ABCDEFGHJKLMNPQRSTUVWXYZ"
  const Digits: string := "23456789"
  const CodeLength: nat := 6

  predicate IsCode(s: string)
  {
    |s| == CodeLength && forall k :: 0 <= k < |s| ==> s[k] in Alphabet
  }

  /** `toUpperCase` on ASCII. */
  function UpperChar(c: char): (r: char)
    ensures 'a' <= c <= 'z' ==> 'A' <= r <= 'Z' && r as int == c as int - 32
    ensures !('a' <= c <= 'z') ==> r == c
  {
    if 'a' <= c <= 'z' then (c as int - 32) as char else c
  }

  /** `toLowerCase` on ASCII. */
  function LowerChar(c: char): (r: char)
    ensures 'A' <= c <= 'Z' ==> 'a' <= r <= 'z' && r as int == c as int + 32
    ensures !('A' <= c <= 'Z') ==> r == c
  {
    if 'A' <= c <= 'Z' then (c as int + 32) as char else c
  }

  function Upper(s: string): (r: string)
    ensures |r| == |s| && forall k :: 0 <= k < |s| ==> r[k] == UpperChar(s[k])
  {
    seq(|s|, k requires 0 <= k < |s| => UpperChar(s[k]))
  }

  function Lower(s: string): (r: string)
    ensures |r| == |s| && forall k :: 0 <= k < |s| ==> r[k] == LowerChar(s[k])
  {
    seq(|s|, k requires 0 <= k < |s| => LowerChar(s[k]))
  }

  /** `validate(userInput)`: the upper-cased input equals the code. */
  predicate Accepts(userInput: string, code: string)
  {
    Upper(userInput) == code
  }

  /** Each symbol of s has a higher code point than the one before. */
  predicate Ascending(s: string)
  {
    forall k :: 0 <= k < |s| - 1 ==> s[k] < s[k + 1]
  }

  lemma {:induction false} AscendingDistinct(s: string)
    requires Ascending(s)
    ensures forall j, k :: 0 <= j < k < |s| ==> s[j] < s[k]
    decreases |s|
  {
    if |s| > 1 {
      AscendingDistinct(s[1..]);
      forall j, k | 0 <= j < k < |s| ensures s[j] < s[k] {
        if j > 0 {
          assert s[j] == s[1..][j - 1] && s[k] == s[1..][k - 1];
        } else if k > 1 {
          assert s[1] == s[1..][0] && s[k] == s[1..][k - 1];
        }
      }
    }
  }

  lemma LettersShape()
    ensures |Letters| == 24 && Ascending(Letters)
    ensures forall k :: 0 <= k < |Letters| ==> 'A' <= Letters[k] <= 'Z'
    ensures 'I' !in Letters && 'O' !in Letters
  {
    LettersAscending();
    LettersOmitLookAlikes();
  }

  lemma LettersAscending()
    ensures |Letters| == 24 && Ascending(Letters)
  {
  }

  lemma LettersOmitLookAlikes()
    ensures 'I' !in Letters && 'O' !in Letters
  {
  }

  lemma DigitsShape()
    ensures |Digits| == 8 && Ascending(Digits)
    ensures forall k :: 0 <= k < |Digits| ==> '2' <= Digits[k] <= '9'
  {
  }

  /** The alphabet is the 24 letters, in order, followed by the 8 digits,
      in order: 32 distinct symbols, all letters upper case, none of the
      look-alikes. */
  lemma AlphabetShape()
    ensures |Alphabet| == 32
    ensures forall j, k :: 0 <= j < k < |Alphabet| ==> Alphabet[j] != Alphabet[k]
    ensures 'I' !in Alphabet && 'O' !in Alphabet && '0' !in Alphabet && '1' !in Alphabet
    ensures forall k :: 0 <= k < |Alphabet| ==> ('A' <= Alphabet[k] <= 'Z' || '2' <= Alphabet[k] <= '9')
  {
    LettersShape();
    DigitsShape();
    AscendingDistinct(Letters);
    AscendingDistinct(Digits);
    forall k | 0 <= k < |Alphabet|
      ensures if k < 24 then Alphabet[k] == Letters[k] else Alphabet[k] == Digits[k - 24]
    {
    }
  }

  /** Every symbol of the alphabet is its own upper case. */
  lemma AlphabetIsUpper(c: char)
    requires c in Alphabet
    ensures UpperChar(c) == c && UpperChar(LowerChar(c)) == c
  {
    AlphabetShape();
  }

  /** A code is accepted as shown and in lower case. */
  lemma CodeAcceptedInEitherCase(code: string)
    requires IsCode(code)
    ensures Accepts(code, code)
    ensures Accepts(Lower(code), code)
  {
    forall k | 0 <= k < |code| ensures UpperChar(code[k]) == code[k] && UpperChar(LowerChar(code[k])) == code[k] {
      AlphabetIsUpper(code[k]);
    }
    assert Upper(code) == code;
    assert Upper(Lower(code)) == code;
  }

  /** Accepted input has the code's length, so an empty or short input
      never passes against a generated code. */
  lemma AcceptedInputHasCodeLength(userInput: string, code: string)
    requires IsCode(code) && Accepts(userInput, code)
    ensures |userInput| == CodeLength
  {
  }
}
