/**
 * `isValidCreditCard` (src/lib/utils/validation.js): strip whitespace and
 * dashes, demand one or more decimal digits, then the Luhn checksum.
 */
module Luhn {
  import opened Text
  import Seqs

  predicate IsSeparator(c: char)
  {
    IsSpace(c) || c == '-'
  }

  /** `number.replace(/[\s-]/g, '')`. */
  function Strip(s: string): (r: string)
    ensures forall i :: 0 <= i < |r| ==> !IsSeparator(r[i])
    ensures forall i :: 0 <= i < |s| && !IsSeparator(s[i]) ==> s[i] in r
    ensures Seqs.IsSubsequence(r, s)
    ensures forall c :: Seqs.Count(r, c) == if IsSeparator(c) then 0 else Seqs.Count(s, c)
  {
    Seqs.FilterIsSubsequence(s, (c: char) => !IsSeparator(c));
    Seqs.FilterCounts(s, (c: char) => !IsSeparator(c));
    Seqs.Filter(s, (c: char) => !IsSeparator(c))
  }

  /** `/^\d+$/`: one or more decimal digits and nothing else. */
  predicate AllDigits(s: string)
  {
    |s| > 0 && DigitsOnly(s)
  }

  predicate DigitsOnly(s: string)
  {
    forall i :: 0 <= i < |s| ==> IsDigit(s[i])
  }

  /** `parseInt` of one decimal digit. */
  function DigitValue(c: char): (d: int)
    requires IsDigit(c)
    ensures 0 <= d <= 9
  {
    c as int - '0' as int
  }

  /** A digit's contribution: doubled, with 9 taken off a two-digit product, at every second place. */
  function LuhnTerm(d: int, doubled: bool): int
  {
    if doubled then (if 2 * d > 9 then 2 * d - 9 else 2 * d) else d
  }

  /**
   * The Luhn sum, read from the left: the digit at index i stands
   * `|s| - 1 - i` places from the check digit and is doubled when that
   * distance is odd.
   */
  function LuhnSum(s: string): int
    requires DigitsOnly(s)
    decreases |s|
  {
    if |s| == 0 then 0
    else LuhnTerm(DigitValue(s[0]), (|s| - 1) % 2 == 1) + LuhnSum(s[1..])
  }

  /** What the function accepts. */
  predicate CardAccepted(number: string)
  {
    var digits := Strip(number);
    AllDigits(digits) && LuhnSum(digits) % 10 == 0
  }

  /** `isValidCreditCard(number)`: strip, demand digits, then test the checksum. */
  method IsValidCreditCard(number: string) returns (valid: bool)
    ensures valid == CardAccepted(number)
  {
    var digits := Strip(number);
    if !AllDigits(digits) {
      return false;
    }
    var sum := Checksum(digits);
    valid := sum % 10 == 0;
  }

  /** The loop of `isValidCreditCard`: from the check digit leftwards, flipping `isEven`. */
  method Checksum(digits: string) returns (sum: int)
    requires DigitsOnly(digits)
    ensures sum == LuhnSum(digits)
  {
    sum := 0;
    var isEven := false;
    var i := |digits| - 1;
    while i >= 0
      invariant -1 <= i < |digits|
      invariant sum == LuhnSum(digits[i + 1..])
      invariant isEven == ((|digits| - 1 - i) % 2 == 1)
      decreases i
    {
      var digit := DigitValue(digits[i]);
      ghost var d := digit;
      if isEven {
        digit := digit * 2;
        if digit > 9 {
          digit := digit - 9;
        }
      }
      assert digit == LuhnTerm(d, isEven);
      LuhnSumAt(digits, i);
      sum := sum + digit;
      ParityStep(|digits| - 1 - i);
      isEven := !isEven;
      i := i - 1;
    }
    assert digits[0..] == digits;
  }

  /** Doubling permutes the digits 0..9, so each place keeps distinct digits distinct. */
  lemma LuhnTermInjective(d: int, e: int, doubled: bool)
    requires 0 <= d <= 9 && 0 <= e <= 9 && d != e
    ensures LuhnTerm(d, doubled) != LuhnTerm(e, doubled)
    ensures 0 <= LuhnTerm(d, doubled) <= 9
  {
  }

  /** Replacing one digit changes the sum by exactly the difference of that place's terms. */
  lemma {:induction false} LuhnSumUpdate(s: string, i: nat, c: char)
    requires DigitsOnly(s)
    requires i < |s| && IsDigit(c)
    ensures DigitsOnly(s[i := c])
    ensures LuhnSum(s[i := c]) == LuhnSum(s) - LuhnTerm(DigitValue(s[i]), (|s| - 1 - i) % 2 == 1)
                                               + LuhnTerm(DigitValue(c), (|s| - 1 - i) % 2 == 1)
    decreases |s|
  {
    if i == 0 {
      assert s[i := c][1..] == s[1..];
    } else {
      assert s[i := c][1..] == s[1..][i - 1 := c];
      LuhnSumUpdate(s[1..], i - 1, c);
    }
  }

  /** The checksum catches every single mistyped digit. */
  lemma DetectsSingleDigitError(s: string, i: nat, c: char)
    requires AllDigits(s) && LuhnSum(s) % 10 == 0
    requires i < |s| && IsDigit(c) && c != s[i]
    ensures AllDigits(s[i := c])
    ensures LuhnSum(s[i := c]) % 10 != 0
  {
    LuhnSumUpdate(s, i, c);
    var doubled := (|s| - 1 - i) % 2 == 1;
    LuhnTermInjective(DigitValue(s[i]), DigitValue(c), doubled);
    var delta := LuhnTerm(DigitValue(c), doubled) - LuhnTerm(DigitValue(s[i]), doubled);
    NonzeroShiftBreaksMultiple(LuhnSum(s), delta);
  }

  /** Adding a non-zero amount under 10 to a multiple of 10 leaves a non-multiple. */
  lemma NonzeroShiftBreaksMultiple(x: int, delta: int)
    requires x % 10 == 0 && -9 <= delta <= 9 && delta != 0
    ensures (x + delta) % 10 != 0
  {
    var k := x / 10;
    assert x == 10 * k;
    assert 10 * k - 10 < x + delta < 10 * k + 10;
  }

  /** Stripping works piecewise, so a separator anywhere does not change the stripped text. */
  lemma StripSkipsSeparator(a: string, sep: char, b: string)
    requires IsSeparator(sep)
    ensures Strip(a + [sep] + b) == Strip(a + b)
  {
    var p := (c: char) => !IsSeparator(c);
    Seqs.FilterAppend(a + [sep], b, p);
    Seqs.FilterAppend(a, [sep], p);
    Seqs.FilterAppend(a, b, p);
  }

  /** Hence separators anywhere do not change the verdict. */
  lemma SeparatorsIgnored(a: string, sep: char, b: string)
    requires IsSeparator(sep)
    ensures CardAccepted(a + [sep] + b) == CardAccepted(a + b)
  {
    StripSkipsSeparator(a, sep, b);
  }

  /** Nothing but separators (or nothing at all) is rejected: `\d+` needs a digit. */
  lemma OnlySeparatorsRejected(s: string)
    requires forall i :: 0 <= i < |s| ==> IsSeparator(s[i])
    ensures !CardAccepted(s)
  {
  }

  /** One place further from the check digit flips whether the digit is doubled. */
  lemma ParityStep(n: int)
    ensures ((n + 1) % 2 == 1) == !(n % 2 == 1)
  {
  }

  /** One step of the sum over a suffix. */
  lemma LuhnSumAt(s: string, k: nat)
    requires DigitsOnly(s) && k < |s|
    ensures LuhnSum(s[k..]) == LuhnTerm(DigitValue(s[k]), (|s| - 1 - k) % 2 == 1) + LuhnSum(s[k + 1..])
  {
    assert s[k..][1..] == s[k + 1..];
  }

  /**
   * The textbook test number has a checksum divisible by 10; changing its
   * check digit to 0 breaks it. With `PlainDigits`, the first is accepted
   * and the second rejected.
   */
  lemma KnownNumber()
    ensures AllDigits("79927398713") && LuhnSum("79927398713") % 10 == 0
    ensures AllDigits("79927398710") && LuhnSum("79927398710") % 10 != 0
  {
    KnownSum();
    DetectsSingleDigitError("79927398713", 10, '0');
    assert "79927398710" == "79927398713"[10 := '0'];
  }

  /** Without separators, the verdict is the checksum of the text itself. */
  lemma PlainDigits(s: string)
    requires AllDigits(s)
    ensures CardAccepted(s) <==> LuhnSum(s) % 10 == 0
  {
    Seqs.FilterKeepsAll(s, (c: char) => !IsSeparator(c));
  }

  lemma KnownDigits()
    ensures DigitsOnly("79927398713")
  {
  }

  lemma KnownSum()
    ensures DigitsOnly("79927398713") && LuhnSum("79927398713") == 70
  {
    KnownSumMiddle();
    KnownSumHead("79927398713");
  }

  lemma KnownSumHead(s: string)
    requires DigitsOnly(s) && |s| == 11 && s[0] == '7' && s[1] == '9' && s[2] == '9' && LuhnSum(s[3..]) == 45
    ensures LuhnSum(s) == 70
  {
    LuhnSumAt(s, 2);
    LuhnSumAt(s, 1);
    LuhnSumAt(s, 0);
    WholeSuffix(s);
  }

  lemma WholeSuffix(s: string)
    requires DigitsOnly(s)
    ensures LuhnSum(s[0..]) == LuhnSum(s)
  {
    assert s[0..] == s;
  }

  lemma KnownSumMiddle()
    ensures DigitsOnly("79927398713") && LuhnSum("79927398713"[3..]) == 45
  {
    var s := "79927398713";
    KnownSumUpper();
    LuhnSumAt(s, 5);
    LuhnSumAt(s, 4);
    LuhnSumAt(s, 3);
  }

  lemma KnownSumUpper()
    ensures DigitsOnly("79927398713") && LuhnSum("79927398713"[6..]) == 28
  {
    var s := "79927398713";
    KnownSumTail();
    LuhnSumAt(s, 8);
    LuhnSumAt(s, 7);
    LuhnSumAt(s, 6);
  }

  lemma KnownSumTail()
    ensures DigitsOnly("79927398713") && LuhnSum("79927398713"[9..]) == 5
  {
    var s := "79927398713";
    KnownDigits();
    assert LuhnSum(s[11..]) == 0 by { assert s[11..] == []; }
    LuhnSumAt(s, 10);
    LuhnSumAt(s, 9);
  }
}
