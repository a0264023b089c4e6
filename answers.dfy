/** The content test of check_msg: a reply counts as a choice when it is all digits and its
    value lies in 1..MAX_NUMBER; the choice is that value. Characters are ASCII here. */
module Answers {
  import opened Types

  predicate IsDigit(c: char) {
    '0' <= c <= '9'
  }

  /** The value of one digit character. */
  function DigitValue(c: char): (v: int)
    requires IsDigit(c)
    ensures 0 <= v <= 9
  {
    c as int - '0' as int
  }

  /** Every character is a digit (the empty string included). */
  predicate AllDigits(s: string) {
    forall i :: 0 <= i < |s| ==> IsDigit(s[i])
  }

  /** str.isdigit: non-empty and every character a digit. */
  predicate IsDigitString(s: string) {
    |s| > 0 && AllDigits(s)
  }

  /** int() of a digit string: its decimal value, leading zeros allowed. */
  function DigitsValue(s: string): (v: nat)
    requires AllDigits(s)
    decreases |s|
  {
    if s == [] then 0 else DigitsValue(s[..|s| - 1]) * 10 + DigitValue(s[|s| - 1])
  }

  /** The content part of check_msg. */
  predicate IsAnswer(s: string) {
    IsDigitString(s) && 1 <= DigitsValue(s) <= MaxNumber
  }

  /** The choice a valid reply stands for: int(content). */
  function AnswerValue(s: string): (v: int)
    requires IsAnswer(s)
    ensures 1 <= v <= MaxNumber
  {
    DigitsValue(s)
  }

  /** The digit character of a value 0..9. */
  function DigitChar(n: int): (c: char)
    requires 0 <= n <= 9
    ensures IsDigit(c) && DigitValue(c) == n
  {
    ('0' as int + n) as char
  }

  /** The decimal spelling of a number, as str() writes it: no leading zero. */
  function Decimal(n: nat): (s: string)
    ensures IsDigitString(s)
    ensures DigitsValue(s) == n
    ensures s[0] == '0' ==> n == 0
    decreases n
  {
    if n < 10 then [DigitChar(n)]
    else
      var prefix := Decimal(n / 10);
      var s := prefix + [DigitChar(n % 10)];
      assert s[..|s| - 1] == prefix;
      s
  }

  /** Every number 1..MAX_NUMBER, written out, is accepted and read back as itself. */
  lemma DecimalIsAnswer(n: nat)
    requires 1 <= n <= MaxNumber
    ensures IsAnswer(Decimal(n)) && AnswerValue(Decimal(n)) == n
  {
  }

  /** Leading zeros do not change the value int() reads. */
  lemma {:induction false} LeadingZeroValue(s: string)
    requires AllDigits(s)
    ensures AllDigits("0" + s) && DigitsValue("0" + s) == DigitsValue(s)
    decreases |s|
  {
    var z := "0" + s;
    if s == [] {
      assert z[..|z| - 1] == [];
    } else {
      var init := s[..|s| - 1];
      assert AllDigits(init);
      LeadingZeroValue(init);
      assert z[..|z| - 1] == "0" + init;
      assert z[|z| - 1] == s[|s| - 1];
    }
  }

  /** So a reply padded with a leading zero is accepted exactly when the reply is, with the
      same choice ("007" stands for 7). */
  lemma LeadingZeroAnswer(s: string)
    requires IsDigitString(s)
    ensures IsAnswer("0" + s) <==> IsAnswer(s)
    ensures IsAnswer(s) ==> AnswerValue("0" + s) == AnswerValue(s)
  {
    LeadingZeroValue(s);
  }

  /** A reply with any non-digit character is never accepted, whatever its value would be. */
  lemma NonDigitRejected(s: string, i: int)
    requires 0 <= i < |s| && !IsDigit(s[i])
    ensures !IsAnswer(s)
  {
  }

  /** Spelled-out instances of the rule: the bounds and the empty and signed replies. */
  lemma AnswerExamples()
    ensures IsAnswer("1") && IsAnswer("60") && IsAnswer("007")
    ensures !IsAnswer("") && !IsAnswer("0") && !IsAnswer("61") && !IsAnswer("-5") && !IsAnswer("4 ")
  {
    assert DigitsValue("1") == 1;
    assert "60"[..1] == "6";
    assert DigitsValue("60") == 60;
    assert "007"[..2] == "00" && "00"[..1] == "0";
    assert DigitsValue("007") == 7;
    assert DigitsValue("0") == 0;
    assert "61"[..1] == "6";
    assert DigitsValue("61") == 61;
    assert !IsDigit("-5"[0]);
    assert !IsDigit("4 "[1]);
  }
}
