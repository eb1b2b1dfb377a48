/**
 * C# `int` values, their decimal rendering (`int.ToString()`, string interpolation)
 * and the `int.TryParse` predicate used on response tokens.
 */
module Numbers {
  import opened Wrappers

  const MinInt32: int := -0x8000_0000
  const MaxInt32: int := 0x7FFF_FFFF

  /** The C# `int` type. */
  type Int32 = x: int | MinInt32 <= x <= MaxInt32

  predicate IsDigit(c: char) {
    '0' <= c <= '9'
  }

  predicate AllDigits(s: string) {
    forall i :: 0 <= i < |s| ==> IsDigit(s[i])
  }

  function DigitChar(d: nat): (c: char)
    requires d < 10
    ensures IsDigit(c)
  {
    ('0' as int + d) as char
  }

  function DigitValue(c: char): (d: nat)
    requires IsDigit(c)
    ensures d < 10 && DigitChar(d) == c
  {
    c as int - '0' as int
  }

  /** Decimal digits of `n`, most significant first, without leading zeros. */
  function NatToDecimal(n: nat): (s: string)
    ensures |s| > 0 && AllDigits(s)
    ensures s[0] == '0' ==> s == "0"
  {
    if n < 10 then [DigitChar(n)] else NatToDecimal(n / 10) + [DigitChar(n % 10)]
  }

  /** How a C# `int` is rendered in an interpolated string: an optional `-`, then the digits. */
  function IntToDecimal(n: int): (s: string)
    ensures |s| > 0
    ensures forall i :: 0 <= i < |s| ==> IsDigit(s[i]) || (i == 0 && s[i] == '-')
    ensures s[0] == '0' ==> s == "0"
    ensures s[0] == '-' ==> |s| > 1 && s[1] != '0'
  {
    if n < 0 then "-" + NatToDecimal(-n) else NatToDecimal(n)
  }

  /** The value of a string of decimal digits, read left to right. */
  function DigitsValue(s: string): nat
    requires AllDigits(s)
  {
    if s == [] then 0 else DigitsValue(s[..|s| - 1]) * 10 + DigitValue(s[|s| - 1])
  }

  /**
   * `int.TryParse(s, out n)` restricted to the invariant format: an optional `+` or `-`
   * followed by one or more ASCII digits, whose value lies in the `int` range.
   */
  function ParseInt32(s: string): (r: Option<Int32>)
    ensures r.Some? ==> |s| > 0 && IsDigit(s[|s| - 1])
    ensures r.Some? && r.value < 0 ==> s[0] == '-'
  {
    var signed := |s| > 0 && (s[0] == '-' || s[0] == '+');
    var digits := if signed then s[1..] else s;
    if |digits| == 0 || !AllDigits(digits) then None
    else
      var magnitude: int := DigitsValue(digits);
      var v: int := if signed && s[0] == '-' then -magnitude else magnitude;
      if MinInt32 <= v <= MaxInt32 then Some(v) else None
  }

  /** Reading back the decimal digits of `n` gives `n`. */
  lemma {:induction false} DigitsValueOfDecimal(n: nat)
    ensures DigitsValue(NatToDecimal(n)) == n
  {
    if n >= 10 {
      var s := NatToDecimal(n);
      assert s[..|s| - 1] == NatToDecimal(n / 10);
      DigitsValueOfDecimal(n / 10);
    }
  }

  /** `int.TryParse` accepts what `ToString` renders and returns the rendered value. */
  lemma ParseRenderedInt32(n: Int32)
    ensures ParseInt32(IntToDecimal(n)) == Some(n)
  {
    var s := IntToDecimal(n);
    if n < 0 {
      var m: nat := -(n as int);
      var digits := NatToDecimal(m);
      assert s == "-" + digits && s[1..] == digits;
      DigitsValueOfDecimal(m);
    } else {
      assert s == NatToDecimal(n);
      assert s[0] != '-' && s[0] != '+';
      DigitsValueOfDecimal(n);
    }
  }

  /**
   * Any non-empty run of digits, bare or after a `+` or `-`, parses to its value (leading
   * zeros included) exactly when that value lies in the `int` range, and fails otherwise.
   */
  lemma ParseDigits(d: string)
    requires |d| > 0 && AllDigits(d)
    ensures ParseInt32(d) == if DigitsValue(d) <= MaxInt32 then Some(DigitsValue(d)) else None
    ensures ParseInt32("+" + d) == if DigitsValue(d) <= MaxInt32 then Some(DigitsValue(d)) else None
    ensures ParseInt32("-" + d) == if DigitsValue(d) <= -MinInt32 then Some(-(DigitsValue(d) as int)) else None
  {
    ParseBare(d);
    ParsePlus(d);
    ParseMinus(d);
  }

  /** A plus sign and leading zeros are accepted: `+7` and `-07` parse. */
  lemma ParseNonCanonical()
    ensures ParseInt32("+7") == Some(7)
    ensures ParseInt32("-07") == Some(-7)
  {
    assert DigitsValue("7") == 7 by { assert "7"[..0] == []; }
    assert DigitsValue("07") == 7 by { assert "07"[..1] == "0" && "0"[..0] == []; }
    ParsePlus("7");
    ParseMinus("07");
  }

  /** After `-` the digits are read as the magnitude of a negative value. */
  lemma ParseMinus(d: string)
    requires |d| > 0 && AllDigits(d)
    ensures ParseInt32("-" + d) == if DigitsValue(d) <= -MinInt32 then Some(-(DigitsValue(d) as int)) else None
  {
    var s := "-" + d;
    assert s[0] == '-' && s[1..] == d;
  }

  /** After `+` the digits are read as a non-negative value. */
  lemma ParsePlus(d: string)
    requires |d| > 0 && AllDigits(d)
    ensures ParseInt32("+" + d) == if DigitsValue(d) <= MaxInt32 then Some(DigitsValue(d)) else None
  {
    var s := "+" + d;
    assert s[0] == '+' && s[1..] == d;
  }

  /** Digits without a sign are read as a non-negative value. */
  lemma ParseBare(d: string)
    requires |d| > 0 && AllDigits(d)
    ensures ParseInt32(d) == if DigitsValue(d) <= MaxInt32 then Some(DigitsValue(d)) else None
  {
    assert IsDigit(d[0]);
  }

  /** A token holding a character that is neither a digit nor a leading sign never parses. */
  lemma ParseRejectsNonDigit(s: string, i: nat)
    requires i < |s| && !IsDigit(s[i])
    requires i == 0 ==> s[0] != '-' && s[0] != '+'
    ensures ParseInt32(s) == None
  {
    var signed := |s| > 0 && (s[0] == '-' || s[0] == '+');
    if signed {
      assert s[1..][i - 1] == s[i];
    }
  }
}
