/** The card-number check: a 16-character Luhn test over Java's numeric value of
    each character, and the ISO/IEC 7812-1 (Annex B) Luhn formula it is meant to be. */
module CardValidator {
  import opened Wrappers
  import opened Digits

  /** `Character.getNumericValue` on ASCII: digits give 0..9, Latin letters of
      either case 10..35, every other character -1. */
  function NumericValue(c: char): (n: int)
    ensures -1 <= n <= 35
    ensures IsDigit(c) ==> n == DigitValue(c)
    ensures n == -1 <==> !(IsDigit(c) || 'a' <= c <= 'z' || 'A' <= c <= 'Z')
    ensures 'a' <= c <= 'z' ==> NumericValue(c - 'a' as char + 'A' as char) == n
  {
    if IsDigit(c) then c as int - '0' as int
    else if 'a' <= c <= 'z' then c as int - 'a' as int + 10
    else if 'A' <= c <= 'Z' then c as int - 'A' as int + 10
    else -1
  }

  /** What the loop adds for the character at 1-based position `i` from the left:
      odd positions are doubled, and any value above 9 has 9 subtracted. */
  function Contribution(c: char, i: nat): int
  {
    var n := if i % 2 == 1 then 2 * NumericValue(c) else NumericValue(c);
    if n > 9 then n - 9 else n
  }

  /** The loop's running sum over positions 1..i (the loop visits them right to
      left; addition does not care). */
  function PositionSum(s: string, i: nat): int
    requires i <= |s|
  {
    if i == 0 then 0 else PositionSum(s, i - 1) + Contribution(s[i - 1], i)
  }

  /** `isNonValid` as written. A null number is invalid, so is any length but 16;
      otherwise the number is invalid when the sum is not a multiple of ten (Java's
      `%` truncates, but a remainder is zero under either convention). */
  function IsNonValid(cardNumber: Option<string>): (invalid: bool)
    // Only a present number of sixteen characters can pass.
    ensures !invalid ==> cardNumber.Some? && |cardNumber.value| == 16
    // For sixteen decimal digits the loop doubles exactly the digits ISO/IEC
    // 7812-1 doubles: the rightmost never, and every second one leftwards from it.
    ensures cardNumber.Some? && |cardNumber.value| == 16 && AllDigits(cardNumber.value) ==>
      (!invalid <==> LuhnValid(cardNumber.value))
  {
    match cardNumber
    case None => true
    case Some(s) =>
      if |s| == 16 && AllDigits(s) then
        PositionSumIsLuhnSum(s, 16);
        assert s[..16] == s;
        PositionSum(s, |s|) % 10 != 0
      else |s| != 16 || PositionSum(s, |s|) % 10 != 0
  }

  // ---------------------------------------------------------------------------
  // The Luhn formula of ISO/IEC 7812-1, Annex B, as an independent reference.

  /** A digit's Luhn weight: doubled digits above 9 lose 9 (the sum of their digits). */
  function LuhnWeight(d: nat, doubled: bool): nat
    requires d <= 9
  {
    if doubled then (if 2 * d > 9 then 2 * d - 9 else 2 * d) else d
  }

  /** Sum from the rightmost digit leftwards; `doubleLast` says whether the
      rightmost digit of `s` is doubled, and the flag alternates leftwards. */
  function LuhnSum(s: string, doubleLast: bool): nat
    requires AllDigits(s)
  {
    if s == [] then 0
    else LuhnWeight(DigitValue(s[|s| - 1]), doubleLast) + LuhnSum(s[..|s| - 1], !doubleLast)
  }

  /** The check digit (rightmost) is not doubled, the digit to its left is, and
      so on; the number passes when the weighted sum is a multiple of ten. */
  predicate LuhnValid(s: string)
  {
    AllDigits(s) && LuhnSum(s, false) % 10 == 0
  }

  /** On digit strings the loop's position sum over 1..i is the Luhn sum of the
      first i digits whose last digit is doubled exactly when i is odd. */
  lemma {:induction false} PositionSumIsLuhnSum(s: string, i: nat)
    requires AllDigits(s) && i <= |s|
    ensures PositionSum(s, i) == LuhnSum(s[..i], i % 2 == 1)
  {
    if i > 0 {
      PositionSumIsLuhnSum(s, i - 1);
      assert s[..i][..i - 1] == s[..i - 1];
      assert s[..i][i - 1] == s[i - 1];
    }
  }

  /** On digits every position adds 0..9, so sixteen digits sum to 0..144. */
  lemma {:induction false} DigitSumBounds(s: string, i: nat)
    requires AllDigits(s) && i <= |s|
    ensures 0 <= PositionSum(s, i) <= 9 * i
  {
    if i > 0 {
      DigitSumBounds(s, i - 1);
    }
  }

  // ---------------------------------------------------------------------------
  // Finding: the check as written accepts letters.

  /** "00000000000000a9": 'a' has numeric value 10, at the odd position 15 it is
      doubled to 20 and reduced to 11, and 11 + 9 = 20 is a multiple of ten. */
  lemma AsWrittenAcceptsLetters()
    ensures !IsNonValid(Some("00000000000000a9"))
    ensures !AllDigits("00000000000000a9")
  {
    var s := "00000000000000a9";
    assert !IsDigit(s[14]);
    assert forall k :: 0 <= k < 14 ==> s[k] == '0';
    assert PositionSum(s, 14) == 0 by {
      ZeroPrefix(s, 14);
    }
    assert Contribution(s[14], 15) == 11;
    assert Contribution(s[15], 16) == 9;
  }

  lemma {:induction false} ZeroPrefix(s: string, i: nat)
    requires i <= |s| && forall k :: 0 <= k < i ==> s[k] == '0'
    ensures PositionSum(s, i) == 0
  {
    if i > 0 {
      ZeroPrefix(s, i - 1);
    }
  }

  /** The check as evidently intended: a null number, a length other than 16 or a
      non-digit character is invalid, and so is a failed Luhn sum. */
  function IsNonValidStrict(cardNumber: Option<string>): (invalid: bool)
    ensures !invalid <==> cardNumber.Some? && |cardNumber.value| == 16 && LuhnValid(cardNumber.value)
    ensures !invalid ==> !IsNonValid(cardNumber)
  {
    match cardNumber
    case None => true
    case Some(s) =>
      if |s| == 16 && AllDigits(s) then IsNonValid(cardNumber)
      else true
  }
}
