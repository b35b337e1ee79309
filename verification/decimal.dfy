/**
  Decimal text of an `int`, as `sprintf(buf, "%d", n)` writes it, and the
  strict parse that reads it back.
*/
module Decimal {
  import opened Wrappers

  predicate IsDigit(c: char)
  {
    '0' <= c <= '9'
  }

  predicate AllDigits(s: string)
  {
    forall i :: 0 <= i < |s| ==> IsDigit(s[i])
  }

  function DigitChar(d: nat): (c: char)
    requires d < 10
    ensures IsDigit(c)
    ensures c as int - '0' as int == d
  {
    ('0' as int + d) as char
  }

  /** The digits of `n`, most significant first, with no leading zero. */
  function Digits(n: nat): (s: string)
    ensures 1 <= |s|
    ensures AllDigits(s)
    ensures 1 < |s| ==> s[0] != '0'
    decreases n
  {
    if n < 10 then [DigitChar(n)] else Digits(n / 10) + [DigitChar(n % 10)]
  }

  /** The number a digit string denotes (0 for the empty string). */
  function ValueOf(s: string): nat
    requires AllDigits(s)
  {
    if s == [] then 0 else ValueOf(s[..|s| - 1]) * 10 + (s[|s| - 1] as int - '0' as int)
  }

  /** `"%d"`: an optional minus sign followed by the digits of the magnitude. */
  function Text(n: int): string
  {
    if n < 0 then ['-'] + Digits(-n) else Digits(n)
  }

  /** Strict decimal parse: an optional minus sign and at least one digit, nothing else. */
  function Parse(s: string): Option<int>
  {
    if |s| > 1 && s[0] == '-' && AllDigits(s[1..]) then Option<int>.Some(-(ValueOf(s[1..]) as int))
    else if |s| > 0 && AllDigits(s) then Some(ValueOf(s))
    else None
  }

  lemma {:induction false} DigitsRoundTrip(n: nat)
    ensures ValueOf(Digits(n)) == n
  {
    if n >= 10 {
      var s := Digits(n);
      assert s[..|s| - 1] == Digits(n / 10);
      DigitsRoundTrip(n / 10);
    }
  }

  /** A digit string parses as the number it denotes. */
  lemma ParseDigits(d: string)
    requires 1 <= |d| && AllDigits(d)
    ensures Parse(d) == Some(ValueOf(d))
  {
    assert IsDigit(d[0]);
  }

  /** A minus sign followed by a digit string parses as the negated number. */
  lemma ParseNegative(d: string)
    requires 1 <= |d| && AllDigits(d)
    ensures Parse(['-'] + d) == Some(-(ValueOf(d) as int))
  {
    var s := ['-'] + d;
    assert s[1..] == d;
  }

  /** Reading back the text of any `int` gives that `int`. */
  lemma TextRoundTrip(n: int)
    ensures Parse(Text(n)) == Some(n)
  {
    if n < 0 {
      assert Text(n) == ['-'] + Digits(-n);
      DigitsRoundTrip(-n);
      ParseNegative(Digits(-n));
    } else {
      assert Text(n) == Digits(n);
      DigitsRoundTrip(n);
      ParseDigits(Digits(n));
    }
  }

  /** The two line levels print as one character each. */
  lemma BitText()
    ensures Text(0) == "0" && Text(1) == "1"
  {
  }
}
