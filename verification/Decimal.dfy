/** Decimal numerals, as `strconv.FormatInt(v, 10)` and the `%d` verb print them. */
module Decimal {

  function Digit(d: nat): char
    requires d < 10
  {
    '0' + d as char
  }

  function FormatNat(n: nat): (s: string)
    ensures |s| > 0
    ensures forall c :: c in s ==> '0' <= c <= '9'
  {
    if n < 10 then [Digit(n)] else FormatNat(n / 10) + [Digit(n % 10)]
  }

  function FormatInt(n: int): (s: string)
    ensures |s| > 0
    ensures forall c :: c in s ==> c == '-' || '0' <= c <= '9'
  {
    if n < 0 then "-" + FormatNat(-n) else FormatNat(n)
  }

  function DigitsValue(s: string): int {
    if s == "" then 0
    else DigitsValue(s[..|s| - 1]) * 10 + (s[|s| - 1] as int - '0' as int)
  }

  /** The integer a numeral denotes: the left inverse of FormatInt. */
  function IntValue(s: string): int {
    if s != "" && s[0] == '-' then -DigitsValue(s[1..]) else DigitsValue(s)
  }

  lemma {:induction false} DigitsValueOfFormat(n: nat)
    ensures DigitsValue(FormatNat(n)) == n
  {
    var s := FormatNat(n);
    if n < 10 {
      assert s[..|s| - 1] == "";
    } else {
      DigitsValueOfFormat(n / 10);
      assert s[..|s| - 1] == FormatNat(n / 10);
    }
  }

  /** Printing an integer loses nothing. */
  lemma FormatRoundTrip(n: int)
    ensures IntValue(FormatInt(n)) == n
  {
    if n < 0 {
      DigitsValueOfFormat(-n);
      assert FormatInt(n)[1..] == FormatNat(-n);
    } else {
      DigitsValueOfFormat(n);
      assert FormatInt(n)[0] in FormatNat(n);
    }
  }

  lemma FormatInjective(a: int, b: int)
    requires FormatInt(a) == FormatInt(b)
    ensures a == b
  {
    FormatRoundTrip(a);
    FormatRoundTrip(b);
  }

  const DIGITS := "0123456789"

  lemma DigitText(d: nat)
    requires d < 10
    ensures Digit(d) == DIGITS[d]
  {
  }

  /** Numerals have the usual digits, the most significant first, and a sign only below zero. */
  lemma NumeralText(n: int)
    ensures 0 <= n < 10 ==> FormatInt(n) == [DIGITS[n]]
    ensures n >= 10 ==> FormatInt(n) == FormatInt(n / 10) + [DIGITS[n % 10]]
    ensures n < 0 ==> FormatInt(n) == "-" + FormatInt(-n)
  {
    if 0 <= n < 10 {
      DigitText(n);
    } else if n >= 10 {
      DigitText(n % 10);
    }
  }
}
