/** Message numbers in print: what `sprintf("%ld")` writes and what `atoi` makes of a text. */
module Numbers {

  function Digit(d: nat): (c: char)
    requires d < 10
  {
    "0123456789"[d]
  }

  predicate IsDigit(c: char) {
    '0' <= c <= '9'
  }

  function DigitValue(c: char): nat
    requires IsDigit(c)
  {
    (c as int) - ('0' as int)
  }

  predicate IsSpace(c: char) {
    c == ' ' || 9 <= c as int <= 13
  }

  function Print(n: nat): (s: string)
    ensures |s| >= 1 && forall j :: 0 <= j < |s| ==> IsDigit(s[j])
  {
    if n < 10 then [Digit(n)] else Print(n / 10) + [Digit(n % 10)]
  }

  /** The value of the digits of `s` from `i` on, read behind digits of value `acc`. */
  function DigitsValue(s: string, i: nat, acc: nat): nat
    requires i <= |s|
    decreases |s| - i
  {
    if i < |s| && IsDigit(s[i]) then DigitsValue(s, i + 1, 10 * acc + DigitValue(s[i])) else acc
  }

  function SpaceEnd(s: string, i: nat): (e: nat)
    requires i <= |s|
    ensures i <= e <= |s|
    decreases |s| - i
  {
    if i < |s| && IsSpace(s[i]) then SpaceEnd(s, i + 1) else i
  }

  /** White space, an optional sign, and the digits up to the first other character; no digits are zero. */
  function Atoi(s: string): int {
    var i := SpaceEnd(s, 0);
    if i < |s| && s[i] == '-' then 0 - DigitsValue(s, i + 1, 0)
    else if i < |s| && s[i] == '+' then DigitsValue(s, i + 1, 0)
    else DigitsValue(s, i, 0)
  }

  lemma OneDigit(s: string, i: nat, d: nat, acc: nat)
    requires i < |s| && d < 10 && s[i] == Digit(d)
    ensures DigitsValue(s, i, acc) == DigitsValue(s, i + 1, 10 * acc + d)
  {
  }

  lemma {:induction false} DigitsOfPrint(n: nat, rest: string, s: string)
    requires s == Print(n) + rest
    ensures DigitsValue(s, 0, 0) == DigitsValue(s, |Print(n)|, n)
    decreases n
  {
    if n >= 10 {
      assert s == Print(n / 10) + ([Digit(n % 10)] + rest);
      DigitsOfPrint(n / 10, [Digit(n % 10)] + rest, s);
      OneDigit(s, |Print(n / 10)|, n % 10, n / 10);
    } else {
      OneDigit(s, 0, n, 0);
    }
  }

  /** `atoi` inverts the printing of message numbers. */
  lemma AtoiPrint(n: nat)
    ensures Atoi(Print(n)) == n
  {
    DigitsOfPrint(n, "", Print(n));
    assert IsDigit(Print(n)[0]);
  }

  /** A text in front of which there is no digit is no number. */
  lemma NoNumber(s: string)
    requires forall j :: 0 <= j < |s| ==> !IsDigit(s[j])
    ensures Atoi(s) == 0
  {
  }

  /** The digits are decimal ones; white space, a sign and whatever follows the digits are as `atoi` takes them. */
  lemma NumberExamples()
    ensures Print(0) == "0" && Print(907) == "907"
    ensures Atoi(" \t-12x3") == -12 && Atoi("+7") == 7 && Atoi("x7") == 0 && Atoi("- 7") == 0
  {
    assert Print(907) == Print(90) + ['7'] && Print(90) == Print(9) + ['0'] && Print(9) == ['9'];
    var s := " \t-12x3";
    assert SpaceEnd(s, 0) == SpaceEnd(s, 1) == SpaceEnd(s, 2) == 2;
    assert DigitsValue(s, 3, 0) == DigitsValue(s, 4, 1) == DigitsValue(s, 5, 12) == 12;
    assert DigitsValue("+7", 1, 0) == DigitsValue("+7", 2, 7) == 7;
  }
}
