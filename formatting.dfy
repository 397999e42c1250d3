/**
 * How scores become text inside meta-prompts: `str(int)`, `round(x)`,
 * `f"{x:.2f}"`, `f"{x:.2%}"` and `"%.2f" % x`, computed exactly on reals
 * (rounding half to even, as Python's `round` and format specifications do).
 */
module Formatting {
  import opened Text

  function DigitChar(d: nat): (c: char)
    requires d < 10
    ensures IsDigit(c) && c as int - '0' as int == d
  {
    ('0' as int + d) as char
  }

  /** Python's `str(n)` for a non-negative integer. */
  function NatToString(n: nat): (r: string)
    ensures |r| > 0 && forall i :: 0 <= i < |r| ==> IsDigit(r[i])
    ensures r[0] == '0' ==> n == 0
  {
    if n < 10 then [DigitChar(n)] else NatToString(n / 10) + [DigitChar(n % 10)]
  }

  /** Python's `int(s)` for a string of decimal digits. */
  function DigitsValue(s: string): nat
    requires forall i :: 0 <= i < |s| ==> IsDigit(s[i])
  {
    if |s| == 0 then 0
    else
      assert IsDigit(s[|s| - 1]);
      10 * DigitsValue(s[..|s| - 1]) + (s[|s| - 1] as int - '0' as int)
  }

  /** Reading the decimal text of `n` gives `n` back. */
  lemma {:induction false} NatToStringRoundTrip(n: nat)
    ensures DigitsValue(NatToString(n)) == n
  {
    if n >= 10 {
      var r := NatToString(n);
      assert r[..|r| - 1] == NatToString(n / 10);
      NatToStringRoundTrip(n / 10);
    }
  }

  /** Distinct numbers have distinct decimal texts. */
  lemma NatToStringInjective(m: nat, n: nat)
    requires NatToString(m) == NatToString(n)
    ensures m == n
  {
    NatToStringRoundTrip(m);
    NatToStringRoundTrip(n);
  }

  /** Python's `str(i)` for any integer. */
  function IntToString(i: int): (r: string)
    ensures |r| > 0
    ensures (r[0] == '-') == (i < 0)
  {
    if i < 0 then "-" + NatToString(-i) else NatToString(i)
  }

  /** Python's `round(x)`: the nearest integer, ties to the even one. */
  function RoundHalfEven(x: real): (n: int)
    ensures (n as real) - 0.5 <= x <= (n as real) + 0.5
    ensures x - (x.Floor as real) == 0.5 ==> n % 2 == 0
  {
    var f := x.Floor;
    var frac := x - f as real;
    if frac < 0.5 then f
    else if frac > 0.5 then f + 1
    else if f % 2 == 0 then f
    else f + 1
  }

  function Abs(n: int): nat { if n < 0 then -n else n }

  /** Python's `f"{x:.2f}"`: `x` rounded to hundredths, with two decimals. */
  function Fixed2(x: real): string
  {
    var n := Abs(RoundHalfEven(x * 100.0));
    (if x < 0.0 then "-" else "") + NatToString(n / 100) + "." + [DigitChar(n % 100 / 10), DigitChar(n % 10)]
  }

  /** The two-decimal text spells out the hundredths nearest to `x`. */
  lemma Fixed2Meaning(x: real)
    ensures var n := RoundHalfEven(x * 100.0);
      var t := Fixed2(x);
      var q := DigitsValue(t[|t| - 2..]);
      |t| >= 4 && t[|t| - 3] == '.'
      && (forall i :: |t| - 2 <= i < |t| ==> IsDigit(t[i]))
      && Abs(n) % 100 == q
      && x * 100.0 - 0.5 <= n as real <= x * 100.0 + 0.5
  {
    var n := Abs(RoundHalfEven(x * 100.0));
    var t := Fixed2(x);
    var d := [DigitChar(n % 100 / 10), DigitChar(n % 10)];
    assert t[|t| - 2..] == d;
    assert d[..1] == [DigitChar(n % 100 / 10)];
    assert d[..1][..0] == [];
    assert DigitsValue(d[..1]) == n % 100 / 10;
    assert DigitsValue(d) == 10 * (n % 100 / 10) + n % 10;
  }

  /** Python's `f"{x:.2%}"`: `x * 100` with two decimals and a percent sign. */
  function Percent2(x: real): (r: string)
    ensures EndsWith(r, "%")
  {
    Fixed2(x * 100.0) + "%"
  }

  /** Python's `"{:.2f}%".format(x)`: two decimals of `x` itself, then a percent sign. */
  function Fixed2Percent(x: real): (r: string)
    ensures EndsWith(r, "%")
  {
    Fixed2(x) + "%"
  }

  /** The score `x` in `"{:.2f}%"` reads as a hundredth of what `f"{x:.2%}"` shows. */
  lemma Fixed2PercentIsUnscaled(x: real)
    ensures Fixed2Percent(x) == Percent2(x / 100.0)
  {
    assert x / 100.0 * 100.0 == x;
  }

  /**
   * A score as it reaches a meta-prompt: a float (a metric result or a
   * `FloatDict`), an int, or the text a metric's `get_description` produced.
   */
  datatype Rating = FloatScore(x: real) | IntScore(n: int) | StrScore(s: string)
  {
    /** The numeric value of a float or int score. */
    function Number(): real
      requires !StrScore?
    {
      if FloatScore? then x else n as real
    }
  }

  /** An optional minus sign followed by decimal digits. */
  predicate IsIntegerText(t: string)
  {
    var d := if |t| > 0 && t[0] == '-' then t[1..] else t;
    |d| > 0 && forall i :: 0 <= i < |d| ==> IsDigit(d[i])
  }

  /** `round(score * 100)` for a float and `str(score)` for an int or string. */
  function RoundOrVerbatim(r: Rating): (t: string)
    ensures r.StrScore? ==> t == r.s
    ensures !r.StrScore? ==> IsIntegerText(t)
  {
    match r
    case FloatScore(x) => IntToString(RoundHalfEven(x * 100.0))
    case IntScore(n) => IntToString(n)
    case StrScore(s) => s
  }

  /** A string score verbatim, any other score as `f"{score:.2%}"`. */
  function PercentUnlessStr(r: Rating): (t: string)
    ensures r.StrScore? ==> t == r.s
    ensures !r.StrScore? ==> EndsWith(t, "%")
  {
    if r.StrScore? then r.s else Percent2(r.Number())
  }

  /** A string score verbatim, any other score as `"{:.2f}%".format(score)`. */
  function Fixed2PercentUnlessStr(r: Rating): (t: string)
    ensures r.StrScore? ==> t == r.s
    ensures !r.StrScore? ==> EndsWith(t, "%")
  {
    if r.StrScore? then r.s else Fixed2Percent(r.Number())
  }
}
