/**
 * The ECMAScript number built-ins the components rely on, over mathematical
 * integers and reals: `parseInt(s, 10)` (section 18.2.5 of ECMA-262, 6th
 * edition), `parseFloat(s)` (section 18.2.4), `Math.round(v * 10) / 10`
 * (section 20.2.2.28) and the decimal text of a non-negative integer.
 * `NaN` is `None`.
 */
module JsNumber {
  import opened Wrappers
  import opened JsText

  predicate IsDigit(c: char)
  {
    '0' <= c <= '9'
  }

  function DigitValue(c: char): nat
    requires IsDigit(c)
  {
    c as int - '0' as int
  }

  predicate AllDigits(s: string)
  {
    forall i :: 0 <= i < |s| ==> IsDigit(s[i])
  }

  function Pow10(n: nat): (p: nat)
    ensures p >= 1
  {
    if n == 0 then 1 else 10 * Pow10(n - 1)
  }

  /** Length of the longest prefix of `s` made of decimal digits. */
  function DigitRun(s: string): (n: nat)
    ensures n <= |s|
    ensures forall i :: 0 <= i < n ==> IsDigit(s[i])
    ensures n == |s| || !IsDigit(s[n])
  {
    if s != [] && IsDigit(s[0]) then 1 + DigitRun(s[1..]) else 0
  }

  /** The value of a string of decimal digits (most significant first). */
  function DigitsValue(d: string): nat
    requires AllDigits(d)
  {
    if d == [] then 0 else 10 * DigitsValue(d[..|d| - 1]) + DigitValue(d[|d| - 1])
  }

  function DigitChar(k: nat): (c: char)
    requires k < 10
    ensures IsDigit(c) && DigitValue(c) == k
  {
    ('0' as int + k) as char
  }

  /** `String(n)` for a non-negative integer below 10^21: its decimal digits, with no leading zero. */
  function DecimalText(n: nat): (r: string)
    ensures |r| >= 1 && AllDigits(r)
    ensures DigitsValue(r) == n
    ensures r[0] == '0' ==> n == 0
    ensures r[0] == '0' ==> r == "0"
  {
    if n < 10 then [DigitChar(n)]
    else
      var r := DecimalText(n / 10) + [DigitChar(n % 10)];
      assert r[..|r| - 1] == DecimalText(n / 10);
      assert r[0] == DecimalText(n / 10)[0];
      r
  }

  /** An optional leading sign: whether it is `-`, and the text after it. */
  function SplitSign(t: string): (bool, string)
  {
    if t != [] && (t[0] == '-' || t[0] == '+') then (t[0] == '-', t[1..]) else (false, t)
  }

  /**
   * `parseInt(s, 10)`: leading white space is skipped, then an optional sign,
   * then the longest run of decimal digits is read; no digit at all is `NaN`.
   */
  function ParseInt(s: string): (r: Option<int>)
    ensures r.None? <==> var body := SplitSign(TrimStart(s)).1; body == [] || !IsDigit(body[0])
  {
    var split := SplitSign(TrimStart(s));
    match LeadingValue(split.1)
    case None => None
    case Some(v) => Some(if split.0 then -(v as int) else v)
  }

  /** The value of the longest leading run of digits, `None` when there is no digit. */
  function LeadingValue(body: string): (r: Option<nat>)
    ensures r.None? <==> body == [] || !IsDigit(body[0])
  {
    var n := DigitRun(body);
    if n == 0 then None else Some(DigitsValue(body[..n]))
  }

  /** A run of digits followed by anything but a digit is read whole. */
  lemma {:induction false} DigitRunOfDigits(d: string, rest: string)
    requires AllDigits(d)
    requires rest == [] || !IsDigit(rest[0])
    ensures DigitRun(d + rest) == |d|
  {
    if d != [] {
      assert (d + rest)[1..] == d[1..] + rest;
      DigitRunOfDigits(d[1..], rest);
    } else {
      assert d + rest == rest;
    }
  }

  /**
   * `parseInt` reads exactly the longest leading run of digits: after an
   * optional `-`, a non-empty run of digits followed by anything that does
   * not start with a digit gives the run's value, negated after a `-`.
   */
  lemma {:induction false} ParseIntReadsDigits(s: string, negative: bool, d: string, rest: string)
    requires d != [] && AllDigits(d)
    requires rest == [] || !IsDigit(rest[0])
    requires s == (if negative then "-" else "") + d + rest
    ensures ParseInt(s) == Some(if negative then -(DigitsValue(d) as int) else DigitsValue(d))
  {
    var body := d + rest;
    SignThenDigit(s, negative, body);
    DigitRunOfDigits(d, rest);
    assert body[..|d|] == d;
    ParseIntOfSigned(s, negative, body, |d|);
  }

  /** A sign followed by a digit: nothing to trim, and the sign is split off. */
  lemma SignThenDigit(s: string, negative: bool, body: string)
    requires body != [] && IsDigit(body[0])
    requires s == (if negative then "-" else "") + body
    ensures TrimStart(s) == s && SplitSign(s) == (negative, body)
  {
    if negative {
      assert s[0] == '-' && s[1..] == body;
    } else {
      assert s[0] != '-' && s[0] != '+';
    }
    NothingToTrim(s);
  }

  /** `parseInt` of a string with no leading white space whose sign is followed by `k` digits. */
  lemma ParseIntOfSigned(s: string, negative: bool, body: string, k: nat)
    requires TrimStart(s) == s && SplitSign(s) == (negative, body)
    requires 0 < k == DigitRun(body)
    ensures ParseInt(s) == Some(if negative then -(DigitsValue(body[..k]) as int) else DigitsValue(body[..k]))
  {
    var split := SplitSign(TrimStart(s));
    assert split.0 == negative && split.1 == body;
  }

  /** A string that starts with a digit or a sign has no white space to skip. */
  lemma NothingToTrim(s: string)
    requires s != [] && (IsDigit(s[0]) || s[0] == '-' || s[0] == '+' || s[0] == '.')
    ensures TrimStart(s) == s
  {
    assert !IsSpace(s[0]);
  }

  /** The exponent part of a StrDecimalLiteral at the start of `t`, 0 when there is none. */
  function ExponentOf(t: string): int
  {
    if t != [] && (t[0] == 'e' || t[0] == 'E') then
      var split := SplitSign(t[1..]);
      var negative, body := split.0, split.1;
      var n := DigitRun(body);
      if n == 0 then 0
      else
        var v: int := DigitsValue(body[..n]);
        if negative then -v else v
    else 0
  }

  /** `m * 10^e` for an integer `e` of either sign. */
  function ScaleByPow10(m: real, e: int): real
  {
    if e >= 0 then m * Pow10(e) as real else m / Pow10(-e) as real
  }

  /**
   * `parseFloat(s)`: leading white space is skipped, then the longest prefix
   * that is a StrDecimalLiteral (sign, digits, an optional point with more
   * digits, an optional exponent) is read; neither integer nor fraction
   * digits is `NaN`.
   */
  function ParseFloat(s: string): Option<real>
  {
    var split := SplitSign(TrimStart(s));
    match UnsignedDecimal(split.1)
    case None => None
    case Some(v) => Some(if split.0 then -v else v)
  }

  /** The digits after a point: how many, their value as a fraction, and the text after them. */
  datatype Fraction = Fraction(digits: nat, value: real, rest: string)

  /** The optional `.digits` part at the start of `t`. */
  function FractionPart(t: string): Fraction
  {
    if t != [] && t[0] == '.' then
      var f := DigitRun(t[1..]);
      Fraction(f, DigitsValue(t[1..][..f]) as real / Pow10(f) as real, t[1 + f..])
    else Fraction(0, 0.0, t)
  }

  /** The unsigned part of the literal: integer digits, fraction, exponent. */
  function UnsignedDecimal(body: string): Option<real>
  {
    var i := DigitRun(body);
    var frac := FractionPart(body[i..]);
    if i == 0 && frac.digits == 0 then None
    else Some(ScaleByPow10(DigitsValue(body[..i]) as real + frac.value, ExponentOf(frac.rest)))
  }

  /** `parseFloat` of the decimal text of `n` gives `n` back. */
  lemma {:induction false} ParseFloatOfDecimal(n: nat)
    ensures ParseFloat(DecimalText(n)) == Some(n as real)
  {
    ParseFloatOfDigits(DecimalText(n));
  }

  /** `parseFloat` of a non-empty run of digits is the run's value. */
  lemma {:induction false} ParseFloatOfDigits(d: string)
    requires d != [] && AllDigits(d)
    ensures ParseFloat(d) == Some(DigitsValue(d) as real)
  {
    SignThenDigit(d, false, d);
    DigitRunOfDigits(d, "");
    assert d + "" == d;
    assert d[..|d|] == d && d[|d|..] == [];
    assert FractionPart([]) == Fraction(0, 0.0, []);
    assert ExponentOf([]) == 0;
  }

  /**
   * `parseFloat` of digits, a point and more digits, the text the money
   * editor holds: the integer digits plus the fraction digits scaled down;
   * a lone point is `NaN`.
   */
  lemma {:induction false} ParseFloatOfPointed(s: string, d: string, e: string)
    requires AllDigits(d) && AllDigits(e)
    requires s == d + "." + e
    ensures ParseFloat(s) ==
      if d == [] && e == [] then None
      else Some(DigitsValue(d) as real + DigitsValue(e) as real / Pow10(|e|) as real)
  {
    PointedShape(s, d, e);
    FractionOfDigits(e);
    assert ExponentOf([]) == 0;
  }

  /** A point followed by digits and nothing else is a fraction of all those digits. */
  lemma FractionOfDigits(e: string)
    requires AllDigits(e)
    ensures FractionPart("." + e) == Fraction(|e|, DigitsValue(e) as real / Pow10(|e|) as real, [])
  {
    var t := "." + e;
    assert t[1..] == e;
    DigitRunOfDigits(e, "");
    assert e + "" == e;
    assert e[..|e|] == e;
    assert t[1 + |e|..] == [];
  }

  /** How the first steps of `parseFloat` take digits, a point and more digits apart. */
  lemma PointedShape(s: string, d: string, e: string)
    requires AllDigits(d) && AllDigits(e)
    requires s == d + "." + e
    ensures TrimStart(s) == s && SplitSign(s) == (false, s)
    ensures DigitRun(s) == |d| && s[..|d|] == d && s[|d|..] == "." + e
  {
    NothingToTrim(s);
    DigitRunOfDigits(d, "." + e);
    assert s == d + ("." + e);
  }

  /**
   * `Math.round(v * 10) / 10`. `Math.round` gives the closest integer and,
   * between two equally close ones, the one nearer to +infinity, that is
   * floor(x + 1/2).
   */
  function RoundToTenth(v: real): (r: real)
    ensures (r * 10.0).Floor as real == r * 10.0
    ensures -0.05 < r - v <= 0.05
    ensures v >= 0.0 ==> r >= 0.0
  {
    ((v * 10.0 + 0.5).Floor as real) / 10.0
  }

  /** Rounding to one decimal twice is rounding once. */
  lemma RoundToTenthIdempotent(v: real)
    ensures RoundToTenth(RoundToTenth(v)) == RoundToTenth(v)
  {
    var r := RoundToTenth(v);
    var k := (r * 10.0).Floor;
    assert r * 10.0 == k as real;
    assert (r * 10.0 + 0.5).Floor == k;
  }
}
