/** Decimal digit strings: reading them (`int("0121")`, the `%Y%m%d` fields) and
    writing integers (`str(n)` inside an f-string). */
module Decimal {

  predicate IsAsciiDigit(c: char) {
    '0' <= c <= '9'
  }

  predicate IsDigitString(s: string) {
    forall i :: 0 <= i < |s| ==> IsAsciiDigit(s[i])
  }

  function DigitChar(d: nat): (c: char)
    requires d < 10
    ensures IsAsciiDigit(c)
  {
    ('0' as int + d) as char
  }

  function Pow10(n: nat): (p: nat)
    ensures p >= 1
  {
    if n == 0 then 1 else 10 * Pow10(n - 1)
  }

  /** The number a string of decimal digits denotes (leading zeros allowed). */
  function DigitsValue(s: string): (v: nat)
    requires IsDigitString(s)
    ensures v < Pow10(|s|)
  {
    if s == [] then 0
    else DigitsValue(s[..|s| - 1]) * 10 + (s[|s| - 1] as int - '0' as int)
  }

  /** `n` written with exactly `width` digits, zero-padded (`%04d`); only the last
      `width` digits of `n` are kept. */
  function FixedDigits(n: nat, width: nat): (s: string)
    ensures |s| == width && IsDigitString(s)
  {
    if width == 0 then "" else FixedDigits(n / 10, width - 1) + [DigitChar(n % 10)]
  }

  /** `str(n)` for a non-negative integer: no sign, no leading zero. */
  function NatToString(n: nat): (s: string)
    ensures |s| >= 1 && IsDigitString(s)
    ensures |s| > 1 ==> s[0] != '0'
  {
    if n < 10 then [DigitChar(n)] else NatToString(n / 10) + [DigitChar(n % 10)]
  }

  /** `str(i)` for any integer. */
  function IntToString(i: int): (s: string)
    ensures |s| >= 1
    ensures i >= 0 <==> s[0] != '-'
    ensures i >= 0 ==> IsDigitString(s) && DigitsValue(s) == i
    ensures i < 0 ==> IsDigitString(s[1..]) && DigitsValue(s[1..]) == -i
  {
    if i < 0 then
      NatToStringRoundTrip(-i);
      assert ("-" + NatToString(-i))[1..] == NatToString(-i);
      "-" + NatToString(-i)
    else
      NatToStringRoundTrip(i);
      NatToString(i)
  }

  /** Reading back a zero-padded number that fits in its width gives the number. */
  lemma {:induction false} FixedDigitsRoundTrip(n: nat, width: nat)
    requires n < Pow10(width)
    ensures DigitsValue(FixedDigits(n, width)) == n
  {
    if width > 0 {
      var s := FixedDigits(n, width);
      FixedDigitsRoundTrip(n / 10, width - 1);
      assert s[..|s| - 1] == FixedDigits(n / 10, width - 1);
    }
  }

  /** Writing back the value of a digit string at its own width gives the string. */
  lemma {:induction false} DigitsValueRoundTrip(s: string)
    requires IsDigitString(s)
    ensures FixedDigits(DigitsValue(s), |s|) == s
  {
    if s != [] {
      var init, last := s[..|s| - 1], s[|s| - 1];
      var d := last as int - '0' as int;
      var v := DigitsValue(init) * 10 + d;
      assert IsDigitString(init);
      calc {
        FixedDigits(DigitsValue(s), |s|);
      ==
        FixedDigits(v / 10, |s| - 1) + [DigitChar(v % 10)];
      == { assert v / 10 == DigitsValue(init) && v % 10 == d; }
        FixedDigits(DigitsValue(init), |init|) + [DigitChar(d)];
      == { DigitsValueRoundTrip(init); assert DigitChar(d) == last; }
        init + [last];
      == { assert s == init + [last]; }
        s;
      }
    }
  }

  /** `int(str(n)) == n`. */
  lemma {:induction false} NatToStringRoundTrip(n: nat)
    ensures DigitsValue(NatToString(n)) == n
  {
    if n >= 10 {
      var s := NatToString(n);
      NatToStringRoundTrip(n / 10);
      assert s[..|s| - 1] == NatToString(n / 10);
    }
  }
}
