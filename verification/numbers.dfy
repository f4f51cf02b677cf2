/** JavaScript number parsing and rounding on exact rationals:
    `parseFloat` on decimal text, `parseInt` on digit text, `Math.round`. */
module Numbers {
  import opened Outcomes
  import opened Text

  function Pow10(n: nat): (r: nat)
    ensures r >= 1
  {
    if n == 0 then 1 else 10 * Pow10(n - 1)
  }

  /** The longest prefix of `s` made of digits. */
  function DigitRun(s: string): (r: string)
    ensures AllDigits(r)
    ensures StartsWith(s, r)
    ensures |r| < |s| ==> !IsDigit(s[|r|])
  {
    if |s| > 0 && IsDigit(s[0]) then [s[0]] + DigitRun(s[1..]) else ""
  }

  lemma {:induction false} DigitRunOfDigits(a: string, rest: string)
    requires AllDigits(a)
    requires |rest| > 0 ==> !IsDigit(rest[0])
    ensures DigitRun(a + rest) == a
  {
    if |a| > 0 {
      assert (a + rest)[1..] == a[1..] + rest;
      DigitRunOfDigits(a[1..], rest);
    } else {
      assert a + rest == rest;
    }
  }

  /** The value of `intPart.fracPart` written in decimal. */
  function DecimalValue(intPart: string, fracPart: string): real
    requires AllDigits(intPart) && AllDigits(fracPart)
  {
    ParseDigits(intPart) as real + ParseDigits(fracPart) as real / Pow10(|fracPart|) as real
  }

  /** `x` times `10^e`, for a whole exponent of either sign. */
  function Scaled(x: real, e: int): real
  {
    if e >= 0 then x * Pow10(e) as real else x / Pow10(-e) as real
  }

  /** The exponent part `[eE][+-]digits` at the start of `t`; 0 when `t`
      does not start with one (an `e` without digits is not read). */
  function Exponent(t: string): int
  {
    if |t| >= 2 && (t[0] == 'e' || t[0] == 'E') then
      var signed := t[1] == '-' || t[1] == '+';
      var ds := DigitRun(if signed then t[2..] else t[1..]);
      if t[1] == '-' then -(ParseDigits(ds) as int) else ParseDigits(ds)
    else 0
  }

  /** The leading `digits[.digits]` of `u` (at least one digit): its value
      and the text after it. */
  function Mantissa(u: string): (r: Option<(real, string)>)
    ensures r.Some? ==> |u| > 0 && (IsDigit(u[0]) || (|u| > 1 && u[0] == '.' && IsDigit(u[1])))
  {
    var ip := DigitRun(u);
    var rest := u[|ip|..];
    var dot := |rest| > 0 && rest[0] == '.';
    var fp := if dot then DigitRun(rest[1..]) else "";
    if |ip| == 0 && |fp| == 0 then None
    else Some((DecimalValue(ip, fp), if dot then rest[1 + |fp|..] else rest))
  }

  /** The leading `digits[.digits][exponent]` of `u` (at least one mantissa
      digit), or `None`. */
  function UnsignedDecimal(u: string): (r: Option<real>)
    ensures r.Some? ==> |u| > 0 && (IsDigit(u[0]) || (|u| > 1 && u[0] == '.' && IsDigit(u[1])))
  {
    match Mantissa(u)
    case None => None
    case Some(m) => Some(Scaled(m.0, Exponent(m.1)))
  }

  /** `parseFloat(s)` on finite decimal notation: leading whitespace, an
      optional sign, then the longest prefix of the form
      `digits[.digits][exponent]` with at least one mantissa digit; `None`
      stands for NaN. The text `Infinity` also gives `None`. */
  function ParseFloat(s: string): (r: Option<real>)
  {
    var t := TrimStart(s);
    var signed := |t| > 0 && (t[0] == '-' || t[0] == '+');
    var u := if signed then t[1..] else t;
    match UnsignedDecimal(u)
    case None => None
    case Some(v) => Some(if signed && t[0] == '-' then -v else v)
  }

  /** NaN whenever the text holds no digit at all. */
  lemma ParseFloatNeedsDigit(s: string)
    requires forall i :: 0 <= i < |s| ==> !IsDigit(s[i])
    ensures ParseFloat(s) == None
  {
    TrimStartSuffix(s);
  }

  lemma {:induction false} TrimStartSuffix(s: string)
    ensures |TrimStart(s)| <= |s|
    ensures TrimStart(s) == s[|s| - |TrimStart(s)|..]
    decreases |s|
  {
    if |s| > 0 && IsSpace(s[0]) {
      TrimStartSuffix(s[1..]);
    }
  }

  /** `parseFloat(s) || 0`: NaN becomes 0. */
  function ParseFloatOrZero(s: string): real
  {
    ParseFloat(s).GetOr(0.0)
  }

  /** A plain digit string parses to its decimal value. */
  lemma ParseFloatInteger(a: string)
    requires |a| > 0 && AllDigits(a)
    ensures ParseFloat(a) == Some(ParseDigits(a) as real)
  {
    ParseFloatUnsigned(a);
    UnsignedInteger(a);
  }

  /** Text starting with a digit is read without trimming or sign. */
  lemma ParseFloatUnsigned(u: string)
    requires |u| > 0 && IsDigit(u[0])
    ensures ParseFloat(u) == UnsignedDecimal(u)
  {
    assert !IsSpace(u[0]) && u[0] != '-' && u[0] != '+';
    assert TrimStart(u) == u;
  }

  lemma UnsignedInteger(a: string)
    requires |a| > 0 && AllDigits(a)
    ensures UnsignedDecimal(a) == Some(ParseDigits(a) as real)
  {
    MantissaDigits(a, "");
    assert a + "" == a;
    assert Exponent("") == 0 && Pow10(0) == 1;
  }

  /** `digits.digits` parses to the decimal value it denotes. */
  lemma ParseFloatDecimal(a: string, b: string)
    requires |a| > 0 && AllDigits(a) && AllDigits(b)
    ensures ParseFloat(a + "." + b) == Some(DecimalValue(a, b))
  {
    var s := a + "." + b;
    assert s[0] == a[0];
    ParseFloatUnsigned(s);
    UnsignedDecimalParts(a, b);
  }

  lemma UnsignedDecimalParts(a: string, b: string)
    requires |a| > 0 && AllDigits(a) && AllDigits(b)
    ensures UnsignedDecimal(a + "." + b) == Some(DecimalValue(a, b))
  {
    var s := a + "." + b;
    DigitRunOfDigits(a, "." + b);
    assert s == a + ("." + b);
    assert s[|a|..] == "." + b;
    assert ("." + b)[1..] == b;
    DigitRunOfDigits(b, "");
    assert b + "" == b;
    assert ("." + b)[1 + |b|..] == "";
    assert Exponent("") == 0 && Pow10(0) == 1;
  }

  /** `digits e digits`, with an optional sign on the exponent, reads as
      the mantissa times ten to the signed exponent (`"1e3"` is 1000). */
  lemma ParseFloatExponent(a: string, sign: string, e: string)
    requires |a| > 0 && AllDigits(a) && |e| > 0 && AllDigits(e)
    requires sign == "" || sign == "-" || sign == "+"
    ensures ParseFloat(a + "e" + sign + e)
         == Some(Scaled(ParseDigits(a) as real, if sign == "-" then -(ParseDigits(e) as int) else ParseDigits(e)))
  {
    var t := "e" + sign + e;
    assert a + "e" + sign + e == a + t;
    assert (a + t)[0] == a[0];
    ParseFloatUnsigned(a + t);
    UnsignedExponent(a, t);
    ExponentDigits(sign, e);
  }

  /** A digit run followed by an `e` is the mantissa scaled by the
      exponent. */
  lemma UnsignedExponent(a: string, t: string)
    requires |a| > 0 && AllDigits(a) && |t| > 0 && t[0] == 'e'
    ensures UnsignedDecimal(a + t) == Some(Scaled(ParseDigits(a) as real, Exponent(t)))
  {
    MantissaDigits(a, t);
  }

  lemma MantissaDigits(a: string, t: string)
    requires |a| > 0 && AllDigits(a) && (|t| > 0 ==> !IsDigit(t[0]) && t[0] != '.')
    ensures Mantissa(a + t) == Some((ParseDigits(a) as real, t))
  {
    DigitRunOfDigits(a, t);
    assert (a + t)[|a|..] == t;
    assert ParseDigits("") == 0 && Pow10(0) == 1;
    assert DecimalValue(a, "") == ParseDigits(a) as real;
  }

  lemma ExponentDigits(sign: string, e: string)
    requires |e| > 0 && AllDigits(e)
    requires sign == "" || sign == "-" || sign == "+"
    ensures Exponent("e" + sign + e) == if sign == "-" then -(ParseDigits(e) as int) else ParseDigits(e)
  {
    if sign == "" {
      assert "e" + sign + e == "e" + e;
      ExponentPlain(e);
    } else {
      var c := sign[0];
      assert sign == [c];
      assert sign == "-" <==> c == '-';
      assert "e" + sign + e == "e" + [c] + e;
      ExponentSigned(c, e);
    }
  }

  lemma ExponentPlain(e: string)
    requires |e| > 0 && AllDigits(e)
    ensures Exponent("e" + e) == ParseDigits(e)
  {
    var t := "e" + e;
    DigitRunAll(e);
    assert t[1..] == e && t[1] == e[0] && IsDigit(e[0]);
  }

  lemma ExponentSigned(c: char, e: string)
    requires |e| > 0 && AllDigits(e) && (c == '-' || c == '+')
    ensures Exponent("e" + [c] + e) == if c == '-' then -(ParseDigits(e) as int) else ParseDigits(e)
  {
    var t := "e" + [c] + e;
    DigitRunAll(e);
    assert t[1] == c && t[2..] == e;
  }

  lemma DigitRunAll(e: string)
    requires AllDigits(e)
    ensures DigitRun(e) == e
  {
    DigitRunOfDigits(e, "");
    assert e + "" == e;
  }

  /** `parseInt(s) || 0` on text that holds only digits (the sanitised
      allocation inputs): the leading digit run's value. */
  function ParseIntOrZero(s: string): nat
  {
    ParseDigits(DigitRun(s))
  }

  /** `Math.round(x)`: the nearest integer, halves rounded up. */
  function Round(x: real): (r: int)
    ensures x - 0.5 < r as real <= x + 0.5
  {
    (x + 0.5).Floor
  }

  lemma RoundMonotone(x: real, y: real)
    requires x <= y
    ensures Round(x) <= Round(y)
  {
  }
}
