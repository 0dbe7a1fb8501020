/**
 * Decimal rendering of an `int`, as Java's `%d` conversion prints it, and the
 * parse that inverts it. The round trip is what makes a snapshot path name
 * exactly one version.
 */
module Decimal {

  import opened Model

  predicate IsDigit(c: char)
  {
    '0' <= c <= '9'
  }

  function DigitChar(d: nat): (c: char)
    requires d < 10
    ensures IsDigit(c) && c as int - '0' as int == d
  {
    ('0' as int + d) as char
  }

  /** The digits of `n`, most significant first, without leading zeros. */
  function Digits(n: nat): (s: string)
    ensures |s| > 0
    ensures forall i :: 0 <= i < |s| ==> IsDigit(s[i])
    ensures s[0] == '0' ==> n == 0
    decreases n
  {
    if n < 10 then [DigitChar(n)] else Digits(n / 10) + [DigitChar(n % 10)]
  }

  /** The value of a string of digits, read most significant first. */
  function DigitsValue(s: string): nat
    requires forall i :: 0 <= i < |s| ==> IsDigit(s[i])
    decreases |s|
  {
    if s == [] then 0
    else
      assert IsDigit(s[|s| - 1]);
      DigitsValue(s[..|s| - 1]) * 10 + (s[|s| - 1] as int - '0' as int)
  }

  lemma {:induction false} DigitsRoundTrip(n: nat)
    ensures DigitsValue(Digits(n)) == n
    decreases n
  {
    var s := Digits(n);
    if n >= 10 {
      DigitsRoundTrip(n / 10);
      assert s[..|s| - 1] == Digits(n / 10);
    }
  }

  /**
   * `String.format("%d", x)` under a locale whose zero digit is `'0'`: a
   * minus sign exactly for negatives, then the ASCII digits, with no leading
   * zero unless `x` is 0.
   */
  function Format(x: int): (s: string)
    ensures |s| > 0
    ensures forall i :: 0 <= i < |s| ==> s[i] == '-' || IsDigit(s[i])
    ensures (s[0] == '-') == (x < 0)
    ensures s[0] == '0' ==> x == 0
    ensures x < 0 ==> |s| >= 2 && s[1] != '0'
  {
    if x < 0 then "-" + Digits(-x) else Digits(x)
  }

  /** Reads back what `Format` printed. */
  function Parse(s: string): Option<int>
  {
    if |s| > 0 && s[0] == '-' then
      if forall i :: 1 <= i < |s| ==> IsDigit(s[i]) then Some(0 - DigitsValue(s[1..]) as int) else None
    else if forall i :: 0 <= i < |s| ==> IsDigit(s[i]) then Some(DigitsValue(s))
    else None
  }

  lemma {:induction false} FormatRoundTrip(x: int)
    ensures Parse(Format(x)) == Some(x)
  {
    if x < 0 {
      DigitsRoundTrip(-x);
      assert Format(x)[1..] == Digits(-x);
    } else {
      DigitsRoundTrip(x);
    }
  }

  /** Distinct numbers print differently. */
  lemma FormatInjective(x: int, y: int)
    requires Format(x) == Format(y)
    ensures x == y
  {
    FormatRoundTrip(x);
    FormatRoundTrip(y);
  }
}
