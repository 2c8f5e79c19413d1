/**
 * Number.prototype.toFixed(2) and parseFloat, on exact reals. toFixed
 * writes a minus sign for a negative value, then the nearest multiple of
 * 1/100 (ties go up) with exactly two decimals; parseFloat reads the
 * longest decimal prefix of a string. Exponent notation, used by toFixed
 * from 10^21 on and accepted by parseFloat, is not modelled, nor is the
 * "Infinity" parseFloat accepts.
 */
module NumberText {
  import opened Wrappers
  import opened Text
  import opened JsNumber

  /** The hundredths toFixed(2) writes for a non-negative x: the nearest, the larger on a tie. */
  function Hundredths(x: real): (n: nat)
    requires x >= 0.0
    ensures x * 100.0 - 0.5 < n as real <= x * 100.0 + 0.5
  {
    Round(x * 100.0)
  }

  /** The digits of n hundredths: the whole part, a point, two decimals. */
  function FixedDigits(n: nat): (r: string)
    ensures |r| >= 4 && IsDigit(r[0])
  {
    NatToString(n / 100) + "." + [DigitChar(n / 10 % 10), DigitChar(n % 10)]
  }

  /** `x.toFixed(2)` */
  function ToFixed2(x: real): (r: string)
    ensures |r| >= 4
    ensures x < 0.0 <==> r[0] == '-'
  {
    if x < 0.0 then "-" + FixedDigits(Hundredths(-x)) else FixedDigits(Hundredths(x))
  }

  /** x rounded to hundredths the way toFixed(2) rounds it: half away from zero. */
  function FixedValue(x: real): (v: real)
    ensures x - 0.005 <= v <= x + 0.005
  {
    if x < 0.0 then -(Hundredths(-x) as real / 100.0) else Hundredths(x) as real / 100.0
  }

  function DigitValue(ch: char): (d: nat)
    requires IsDigit(ch)
    ensures d < 10
  {
    ch as int - '0' as int
  }

  /**
   * `parseFloat(s)`: leading white space and a sign are skipped, then the
   * longest `digits[.digits]` prefix is read; no digit at all is NaN (None).
   */
  function ParseFloat(s: string): (r: Option<real>)
    decreases |s|
  {
    if |s| > 0 && IsWhiteSpace(s[0]) then ParseFloat(s[1..])
    else if |s| > 0 && s[0] == '-' then Negated(ReadWhole(s[1..], 0, false))
    else if |s| > 0 && s[0] == '+' then ReadWhole(s[1..], 0, false)
    else ReadWhole(s, 0, false)
  }

  function Negated(r: Option<real>): (n: Option<real>)
    ensures n.Some? <==> r.Some?
    ensures n.Some? ==> n.value == -r.value
  {
    match r
    case None => None
    case Some(v) => Some(-v)
  }

  /** Reads the whole part; `acc` is its value so far and `any` says a digit was seen. */
  function ReadWhole(s: string, acc: nat, any: bool): (r: Option<real>)
    ensures r.Some? ==> r.value >= 0.0
    decreases |s|
  {
    if |s| > 0 && IsDigit(s[0]) then ReadWhole(s[1..], acc * 10 + DigitValue(s[0]), true)
    else if |s| > 0 && s[0] == '.' then ReadFraction(s[1..], acc, 0, 0, any)
    else if any then Some(acc as real)
    else None
  }

  /** Reads the decimals after the point: num is the value of the k decimals read so far. */
  function ReadFraction(s: string, whole: nat, num: nat, k: nat, any: bool): (r: Option<real>)
    ensures r.Some? ==> r.value >= 0.0
    decreases |s|
  {
    if |s| > 0 && IsDigit(s[0]) then ReadFraction(s[1..], whole, num * 10 + DigitValue(s[0]), k + 1, true)
    else if any then Some(whole as real + Shifted(num, k))
    else None
  }

  /** num / 10^k */
  function Shifted(num: nat, k: nat): (v: real)
    ensures v >= 0.0
  {
    if k == 0 then num as real else Shifted(num, k - 1) / 10.0
  }

  /** Reading the decimal form of m adds it to nothing read so far. */
  lemma {:induction false} ReadWholeOfNat(m: nat, rest: string)
    ensures ReadWhole(NatToString(m) + rest, 0, false) == ReadWhole(rest, m, true)
    decreases m
  {
    var c := DigitChar(m % 10);
    if m < 10 {
      assert NatToString(m) + rest == [c] + rest;
      assert ([c] + rest)[1..] == rest;
    } else {
      assert NatToString(m) + rest == NatToString(m / 10) + ([c] + rest);
      ReadWholeOfNat(m / 10, [c] + rest);
      assert ([c] + rest)[1..] == rest;
      assert (m / 10) * 10 + m % 10 == m;
    }
  }

  /** Reading two decimals ahead of something that is not a digit. */
  lemma {:induction false} ReadTwoDecimals(w: nat, a: nat, b: nat, tail: string)
    requires a < 10 && b < 10
    requires |tail| > 0 ==> !IsDigit(tail[0])
    ensures ReadWhole("." + [DigitChar(a), DigitChar(b)] + tail, w, true)
      == Some(w as real + (a * 10 + b) as real / 100.0)
  {
    var s := "." + [DigitChar(a), DigitChar(b)] + tail;
    assert s[1..] == [DigitChar(a), DigitChar(b)] + tail;
    assert s[1..][1..] == [DigitChar(b)] + tail;
    assert s[1..][1..][1..] == tail;
    assert ReadWhole(s, w, true) == ReadFraction(s[1..], w, 0, 0, true);
    assert ReadFraction(s[1..], w, 0, 0, true) == ReadFraction(s[1..][1..], w, a, 1, true);
    assert ReadFraction(s[1..][1..], w, a, 1, true) == ReadFraction(tail, w, a * 10 + b, 2, true);
    assert Shifted(a * 10 + b, 1) == (a * 10 + b) as real / 10.0;
    assert Shifted(a * 10 + b, 2) == (a * 10 + b) as real / 100.0;
  }

  /** Reading back the digits of n hundredths, followed by anything that is not a digit. */
  lemma {:induction false} ReadFixedDigits(n: nat, tail: string)
    requires |tail| > 0 ==> !IsDigit(tail[0])
    ensures ReadWhole(FixedDigits(n) + tail, 0, false) == Some(n as real / 100.0)
  {
    var a, b := n / 10 % 10, n % 10;
    var after := "." + [DigitChar(a), DigitChar(b)] + tail;
    assert FixedDigits(n) + tail == NatToString(n / 100) + after;
    ReadWholeOfNat(n / 100, after);
    ReadTwoDecimals(n / 100, a, b, tail);
    Hundreds(n);
  }

  /** n is its hundreds, then its tens digit, then its units digit. */
  lemma {:induction false} Hundreds(n: nat)
    ensures (n / 100) as real + ((n / 10 % 10) * 10 + n % 10) as real / 100.0 == n as real / 100.0
  {
    var q, r := n / 10, n % 10;
    assert n == 10 * q + r;
    assert q == 10 * (q / 10) + q % 10;
    assert n == 100 * (q / 10) + 10 * (q % 10) + r;
    assert 0 <= 10 * (q % 10) + r < 100;
    assert n / 100 == q / 10;
  }

  lemma {:induction false} ParseNegativeFixed(x: real, tail: string)
    requires x < 0.0
    requires |tail| > 0 ==> !IsDigit(tail[0])
    ensures ParseFloat("-" + (FixedDigits(Hundredths(-x)) + tail)) == Some(FixedValue(x))
  {
    FixedValueNegative(x);
    ParseNegativeDigits(Hundredths(-x), tail);
  }

  /** A minus sign before the digits of n hundredths reads as minus n hundredths. */
  lemma {:induction false} ParseNegativeDigits(n: nat, tail: string)
    requires |tail| > 0 ==> !IsDigit(tail[0])
    ensures ParseFloat("-" + (FixedDigits(n) + tail)) == Some(-(n as real / 100.0))
  {
    ReadFixedDigits(n, tail);
    ParseMinus(FixedDigits(n) + tail, n as real / 100.0);
  }

  lemma {:induction false} FixedValueNegative(x: real)
    requires x < 0.0
    ensures FixedValue(x) == -(Hundredths(-x) as real / 100.0)
  {
  }

  /** A minus sign before a number that reads as v reads as -v. */
  lemma {:induction false} ParseMinus(u: string, v: real)
    requires ReadWhole(u, 0, false) == Some(v)
    ensures ParseFloat("-" + u) == Some(-v)
  {
    assert ("-" + u)[0] == '-' && !IsWhiteSpace('-');
    assert ("-" + u)[1..] == u;
  }

  lemma {:induction false} ParsePositiveFixed(x: real, tail: string)
    requires x >= 0.0
    requires |tail| > 0 ==> !IsDigit(tail[0])
    ensures ParseFloat(FixedDigits(Hundredths(x)) + tail) == Some(FixedValue(x))
  {
    assert (FixedDigits(Hundredths(x)) + tail)[0] == FixedDigits(Hundredths(x))[0];
    ReadFixedDigits(Hundredths(x), tail);
  }

  lemma {:induction false} FixedTextNegative(x: real, tail: string)
    requires x < 0.0
    ensures ParseFloat(ToFixed2(x) + tail) == ParseFloat("-" + (FixedDigits(Hundredths(-x)) + tail))
  {
    assert ToFixed2(x) + tail == "-" + (FixedDigits(Hundredths(-x)) + tail);
  }

  lemma {:induction false} FixedTextPositive(x: real, tail: string)
    requires x >= 0.0
    ensures ParseFloat(ToFixed2(x) + tail) == ParseFloat(FixedDigits(Hundredths(x)) + tail)
  {
  }

  /**
   * parseFloat(x.toFixed(2) + tail) is x rounded to hundredths, when the
   * tail does not continue the number.
   */
  lemma {:induction false} ParseFloatOfFixed(x: real, tail: string)
    requires |tail| > 0 ==> !IsDigit(tail[0])
    ensures ParseFloat(ToFixed2(x) + tail) == Some(FixedValue(x))
  {
    if x < 0.0 {
      FixedTextNegative(x, tail);
      ParseNegativeFixed(x, tail);
    } else {
      FixedTextPositive(x, tail);
      ParsePositiveFixed(x, tail);
    }
  }
}
