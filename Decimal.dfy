/** ASCII decimal numerals: reading a run of digits as a number (Python's `int()` on a
    regex match) and writing an integer out (Python's f-string interpolation of an `int`). */
module Decimal {
  import opened Wrappers

  predicate IsDigit(c: char) { '0' <= c <= '9' }

  predicate AllDigits(s: string) { forall i :: 0 <= i < |s| ==> IsDigit(s[i]) }

  function DigitValue(c: char): (d: nat)
    requires IsDigit(c)
    ensures d < 10
  {
    c as int - '0' as int
  }

  function DigitChar(d: nat): (c: char)
    requires d < 10
    ensures IsDigit(c) && DigitValue(c) == d
  {
    (d + '0' as int) as char
  }

  function Pow10(n: nat): (r: nat)
    ensures r >= 1
  {
    if n == 0 then 1 else 10 * Pow10(n - 1)
  }

  /** The number a run of digits denotes in base 10; leading zeros are allowed. */
  function DecimalValue(s: string): nat
    requires AllDigits(s)
  {
    if s == [] then 0 else DecimalValue(s[..|s| - 1]) * 10 + DigitValue(s[|s| - 1])
  }

  /** A run of n digits denotes a number below 10^n. */
  lemma {:induction false} DecimalValueBound(s: string)
    requires AllDigits(s)
    ensures DecimalValue(s) < Pow10(|s|)
  {
    if s != [] {
      DecimalValueBound(s[..|s| - 1]);
    }
  }

  /** The shortest numeral of `n`: no leading zero except for `0` itself. */
  function NatToString(n: nat): (s: string)
    ensures |s| >= 1 && AllDigits(s)
    ensures |s| > 1 ==> s[0] != '0'
  {
    if n < 10 then [DigitChar(n)] else NatToString(n / 10) + [DigitChar(n % 10)]
  }

  /** `str(i)` for a Python `int`: a minus sign, then the numeral of the magnitude. */
  function IntToString(i: int): (s: string)
    ensures |s| >= 1 && (s[0] == '-' <==> i < 0)
    ensures AllDigits(if i < 0 then s[1..] else s)
  {
    if i < 0 then "-" + NatToString(-i) else NatToString(i)
  }

  lemma {:induction false} NatToStringRoundTrip(n: nat)
    ensures DecimalValue(NatToString(n)) == n
  {
    if n >= 10 {
      NatToStringRoundTrip(n / 10);
      var s := NatToString(n);
      assert s[..|s| - 1] == NatToString(n / 10);
    }
  }

  /** A run of digits ending just before the last character, extended by that character. */
  lemma {:induction false} AllDigitsSnoc(s: string, m: nat)
    requires m < |s| && AllDigits(s[..|s| - 1][|s| - 1 - m..]) && IsDigit(s[|s| - 1])
    ensures AllDigits(s[|s| - 1 - m..])
  {
    var run := s[|s| - 1 - m..];
    forall j | 0 <= j < |run|
      ensures IsDigit(run[j])
    {
      if j < m {
        assert run[j] == s[..|s| - 1][|s| - 1 - m..][j];
      }
    }
  }

  /** A number below 10^k is written with at most k digits. */
  lemma {:induction false} NatToStringLength(n: nat, k: nat)
    requires 1 <= k && n < Pow10(k)
    ensures |NatToString(n)| <= k
  {
    if n >= 10 {
      assert Pow10(1) == 10;
      assert n / 10 < Pow10(k - 1);
      NatToStringLength(n / 10, k - 1);
    }
  }

  /** A leading zero changes nothing about the number a numeral denotes. */
  lemma {:induction false} LeadingZero(s: string)
    requires AllDigits(s)
    ensures AllDigits("0" + s) && DecimalValue("0" + s) == DecimalValue(s)
    decreases |s|
  {
    if s != [] {
      var t := "0" + s;
      assert t[..|t| - 1] == "0" + s[..|s| - 1];
      LeadingZero(s[..|s| - 1]);
    }
  }

  /** How many digits `s` ends with. */
  function TrailingDigits(s: string): (n: nat)
    ensures n <= |s|
    ensures AllDigits(s[|s| - n..])
    ensures n < |s| ==> !IsDigit(s[|s| - n - 1])
  {
    if s == [] || !IsDigit(s[|s| - 1]) then 0
    else
      var m := TrailingDigits(s[..|s| - 1]);
      AllDigitsSnoc(s, m);
      m + 1
  }

  /** Reads back an integer written at the end of `s`: the trailing digits, with a
      minus sign in front of them when there is one. Gives the text before it too. */
  function SplitTrailingInt(s: string): Option<(string, int)>
  {
    var n := TrailingDigits(s);
    if n == 0 then None
    else
      var before := s[..|s| - n];
      var v: int := DecimalValue(s[|s| - n..]);
      if before != [] && before[|before| - 1] == '-' then Some((before[..|before| - 1], -v))
      else Some((before, v))
  }

  lemma {:induction false} TrailingDigitsAppend(p: string, d: string)
    requires AllDigits(d)
    requires p == [] || !IsDigit(p[|p| - 1])
    ensures TrailingDigits(p + d) == |d|
    decreases |d|
  {
    if d != [] {
      var s := p + d;
      assert s[..|s| - 1] == p + d[..|d| - 1];
      TrailingDigitsAppend(p, d[..|d| - 1]);
    } else {
      assert p + d == p;
    }
  }

  /** `SplitTrailingInt` on text whose trailing digit run starts at `k`. */
  lemma {:induction false} SplitTrailingIntAt(s: string, k: nat)
    requires k < |s| && AllDigits(s[k..])
    requires k == 0 || !IsDigit(s[k - 1])
    ensures k > 0 && s[k - 1] == '-' ==>
      SplitTrailingInt(s) == Some((s[..k - 1], -(DecimalValue(s[k..]) as int)))
    ensures !(k > 0 && s[k - 1] == '-') ==>
      SplitTrailingInt(s) == Some((s[..k], DecimalValue(s[k..]) as int))
  {
    assert s[..k] + s[k..] == s;
    TrailingDigitsAppend(s[..k], s[k..]);
    if k > 0 {
      assert s[..k][..k - 1] == s[..k - 1];
    }
  }

  lemma {:induction false} UnsignedParts(p: string, digits: string)
    ensures (p + digits)[..|p|] == p && (p + digits)[|p|..] == digits
  {
  }

  lemma {:induction false} SignedParts(p: string, digits: string)
    ensures (p + ("-" + digits))[..|p|] == p
    ensures (p + ("-" + digits))[|p|] == '-'
    ensures (p + ("-" + digits))[|p| + 1..] == digits
  {
    var s := p + ("-" + digits);
    assert s[..|p|] == p;
    assert s[|p| + 1..] == digits;
  }

  /** A run of digits after a character that is neither a digit nor a minus sign reads
      back as that run's value, with the text before it. */
  lemma {:induction false} SplitUnsigned(p: string, digits: string)
    requires AllDigits(digits) && |digits| >= 1
    requires p == [] || (!IsDigit(p[|p| - 1]) && p[|p| - 1] != '-')
    ensures SplitTrailingInt(p + digits).Some?
    ensures SplitTrailingInt(p + digits).value.0 == p
    ensures SplitTrailingInt(p + digits).value.1 == DecimalValue(digits)
  {
    UnsignedParts(p, digits);
    SplitTrailingIntAt(p + digits, |p|);
  }

  /** The same run after a minus sign reads back as its negated value. */
  lemma {:induction false} SplitSigned(p: string, digits: string)
    requires AllDigits(digits) && |digits| >= 1
    requires p == [] || (!IsDigit(p[|p| - 1]) && p[|p| - 1] != '-')
    ensures SplitTrailingInt(p + ("-" + digits)).Some?
    ensures SplitTrailingInt(p + ("-" + digits)).value.0 == p
    ensures SplitTrailingInt(p + ("-" + digits)).value.1 == -(DecimalValue(digits) as int)
  {
    SignedParts(p, digits);
    SplitTrailingIntAt(p + ("-" + digits), |p| + 1);
  }

  lemma {:induction false} SplitNatRoundTrip(p: string, n: nat)
    requires p == [] || (!IsDigit(p[|p| - 1]) && p[|p| - 1] != '-')
    ensures SplitTrailingInt(p + NatToString(n)).Some?
    ensures SplitTrailingInt(p + NatToString(n)).value.0 == p
    ensures SplitTrailingInt(p + NatToString(n)).value.1 == n
  {
    SplitUnsigned(p, NatToString(n));
    NatToStringRoundTrip(n);
  }

  lemma {:induction false} SplitNegatedNatRoundTrip(p: string, n: nat)
    requires p == [] || (!IsDigit(p[|p| - 1]) && p[|p| - 1] != '-')
    ensures SplitTrailingInt(p + ("-" + NatToString(n))).Some?
    ensures SplitTrailingInt(p + ("-" + NatToString(n))).value.0 == p
    ensures SplitTrailingInt(p + ("-" + NatToString(n))).value.1 == -(n as int)
  {
    SplitSigned(p, NatToString(n));
    NatToStringRoundTrip(n);
  }

  /** Writing an integer after a separator and reading it back gives both parts again. */
  lemma {:induction false} SplitTrailingIntRoundTrip(p: string, i: int)
    requires p == [] || (!IsDigit(p[|p| - 1]) && p[|p| - 1] != '-')
    ensures SplitTrailingInt(p + IntToString(i)).Some?
    ensures SplitTrailingInt(p + IntToString(i)).value.0 == p
    ensures SplitTrailingInt(p + IntToString(i)).value.1 == i
  {
    if i < 0 {
      SplitNegatedNatRoundTrip(p, -i);
    } else {
      SplitNatRoundTrip(p, i);
    }
  }
}
