/**
 * Bias labels: the text drawn beside a constraint for the share of the
 * free space on its side, with the four common shares written as
 * vulgar fractions. A small label reader gives each label its value so
 * that the labels' meaning can be stated.
 */
module PercentLabel {
  import opened Wrappers

  predicate IsDigit(c: char) { '0' <= c <= '9' }

  predicate AllDigits(s: string) { forall i :: 0 <= i < |s| ==> IsDigit(s[i]) }

  function DigitChar(d: nat): (c: char)
    requires d < 10
    ensures IsDigit(c)
  {
    (48 + d) as char
  }

  function DigitValue(c: char): (d: nat)
    requires IsDigit(c)
    ensures d < 10
  {
    (c as int) - 48
  }

  /** Decimal digits of n, most significant first, as Java prints an int. */
  function NatToString(n: nat): (s: string)
    ensures |s| > 0 && AllDigits(s)
    decreases n
  {
    if n < 10 then [DigitChar(n)] else NatToString(n / 10) + [DigitChar(n % 10)]
  }

  /** Java's `"" + n`: a minus sign before the digits of a negative number. */
  function IntToString(n: int): (s: string)
    ensures |s| > 0
    ensures forall i :: 0 <= i < |s| ==> IsDigit(s[i]) || s[i] == '-'
  {
    if n < 0 then "-" + NatToString(-n) else NatToString(n)
  }

  function DigitsValue(s: string): nat
    requires AllDigits(s)
  {
    if |s| == 0 then 0 else DigitsValue(s[..|s| - 1]) * 10 + DigitValue(s[|s| - 1])
  }

  function ParseNat(s: string): Option<nat>
  {
    if |s| == 0 || !AllDigits(s) then None else Some(DigitsValue(s))
  }

  function ParseInt(s: string): Option<int>
  {
    if |s| > 0 && s[0] == '-' then
      match ParseNat(s[1..])
      case Some(v) => Some(-(v as int))
      case None => None
    else ParseNat(s)
  }

  lemma {:induction false} NatToStringRoundTrip(n: nat)
    ensures DigitsValue(NatToString(n)) == n
    decreases n
  {
    var s := NatToString(n);
    if n >= 10 {
      NatToStringRoundTrip(n / 10);
      assert s[..|s| - 1] == NatToString(n / 10);
    }
  }

  /** Reading back a printed integer gives the integer. */
  lemma IntToStringRoundTrip(n: int)
    ensures ParseInt(IntToString(n)) == Some(n)
  {
    if n < 0 {
      NatToStringRoundTrip(-n);
      assert IntToString(n)[1..] == NatToString(-n);
    } else {
      NatToStringRoundTrip(n);
    }
  }

  const INT32_MIN: int := -0x8000_0000
  const INT32_MAX: int := 0x7fff_ffff

  /** The range of a Java `int`. */
  predicate IsInt32(n: int) { INT32_MIN <= n <= INT32_MAX }

  /** A Java `int` result: the exact value brought back into range by two's-complement wrap-around. */
  function WrapInt32(n: int): (r: int)
    ensures IsInt32(r)
    ensures IsInt32(n) ==> r == n
    ensures (r - n) % 0x1_0000_0000 == 0
  {
    (n - INT32_MIN) % 0x1_0000_0000 + INT32_MIN
  }

  /**
   * formatPercent: the label for the start (left or top) side when `begin`,
   * else for the end side. `100 - percent` is `int` arithmetic and wraps.
   */
  function FormatPercent(percent: int, begin: bool): (message: string)
    requires IsInt32(percent)
    ensures |message| >= 2
    ensures message[|message| - 1] == '%' <==> percent !in {25, 33, 66, 75}
  {
    if begin then
      if percent == 25 then "1/4"
      else if percent == 33 then "1/3"
      else if percent == 66 then "2/3"
      else if percent == 75 then "3/4"
      else IntToString(percent) + "%"
    else
      if percent == 25 then "3/4"
      else if percent == 33 then "2/3"
      else if percent == 66 then "1/3"
      else if percent == 75 then "1/4"
      else IntToString(WrapInt32(100 - percent)) + "%"
  }

  /** The value a reader sees in a label: a one-digit fraction "a/b", or a whole percentage "n%". */
  function LabelValue(s: string): Option<real>
  {
    if |s| == 3 && s[1] == '/' && IsDigit(s[0]) && IsDigit(s[2]) && DigitValue(s[2]) != 0 then
      Some(DigitValue(s[0]) as real / DigitValue(s[2]) as real)
    else if |s| >= 2 && s[|s| - 1] == '%' then
      match ParseInt(s[..|s| - 1])
      case Some(v) => Some(v as real / 100.0)
      case None => None
    else None
  }

  lemma PercentLabelValue(n: int)
    ensures LabelValue(IntToString(n) + "%") == Some(n as real / 100.0)
  {
    var s := IntToString(n) + "%";
    IntToStringRoundTrip(n);
    assert s[..|s| - 1] == IntToString(n);
    if |s| == 3 {
      assert s[1] == IntToString(n)[1];
    }
  }

  /** The two labels of one bias always read as complementary shares: they add up to one. */
  lemma LabelsAreComplements(percent: int)
    requires IsInt32(percent) && IsInt32(100 - percent)
    ensures LabelValue(FormatPercent(percent, true)).Some?
    ensures LabelValue(FormatPercent(percent, false)).Some?
    ensures LabelValue(FormatPercent(percent, true)).value
          + LabelValue(FormatPercent(percent, false)).value == 1.0
  {
    if percent !in {25, 33, 66, 75} {
      PercentLabelValue(percent);
      PercentLabelValue(100 - percent);
    }
  }

  /**
   * The start-side label reads as the bias itself, exactly for a plain
   * percentage and within a hundredth for the fractions.
   */
  lemma BeginLabelApproximatesBias(percent: int)
    requires IsInt32(percent)
    ensures LabelValue(FormatPercent(percent, true)).Some?
    ensures var v := LabelValue(FormatPercent(percent, true)).value;
      -0.01 < v - percent as real / 100.0 < 0.01
    ensures percent !in {33, 66} ==>
      LabelValue(FormatPercent(percent, true)).value == percent as real / 100.0
  {
    PercentLabelValue(percent);
  }

  /**
   * The end label of a bias is the start label of the complementary bias
   * except around the thirds, where the fraction is chosen from the same
   * percentage: 33 and 66 give fractions on both sides, 67 and 34 do not.
   */
  lemma EndLabelIsComplementBegin(percent: int)
    requires IsInt32(percent) && IsInt32(100 - percent)
    ensures FormatPercent(percent, false) == FormatPercent(100 - percent, true)
        <==> percent !in {33, 34, 66, 67}
  {
    if percent in {33, 66} {
      var t := IntToString(100 - percent) + "%";
      assert t[|t| - 1] != FormatPercent(percent, false)[2];
    } else if percent in {34, 67} {
      var t := IntToString(100 - percent) + "%";
      assert t[|t| - 1] != FormatPercent(100 - percent, true)[2];
      assert FormatPercent(percent, false) == t;
    }
  }

  /**
   * At the bottom of the `int` range `100 - percent` overflows: the end
   * label of INT32_MIN reads as INT32_MIN + 100, and the two labels no
   * longer add up to one.
   */
  lemma EndLabelWrapsAtIntMin()
    ensures LabelValue(FormatPercent(INT32_MIN, false)) == Some((INT32_MIN + 100) as real / 100.0)
    ensures LabelValue(FormatPercent(INT32_MIN, true)).value
          + LabelValue(FormatPercent(INT32_MIN, false)).value != 1.0
  {
    assert WrapInt32(100 - INT32_MIN) == INT32_MIN + 100;
    PercentLabelValue(INT32_MIN + 100);
    PercentLabelValue(INT32_MIN);
  }

  /** The labels drawn for a few biases. */
  lemma FormatPercentExamples()
    ensures FormatPercent(33, true) == "1/3" && FormatPercent(33, false) == "2/3"
    ensures FormatPercent(67, false) == "33%"
    ensures FormatPercent(50, true) == "50%" && FormatPercent(50, false) == "50%"
    ensures FormatPercent(90, true) == "90%" && FormatPercent(90, false) == "10%"
  {
    assert NatToString(33) == "33";
    assert NatToString(50) == "50";
    assert NatToString(90) == "90";
    assert NatToString(10) == "10";
  }
}
