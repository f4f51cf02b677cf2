/** Indonesian number text on the client: dots group thousands, a comma is
    the decimal mark. Parsing (`parseBalance`, `parseRupiah`) and formatting
    (`formatRupiah`, the `formatRupiahValue` variants, `formatInputNumber`). */
module Rupiah {
  import opened Outcomes
  import opened Text
  import opened Numbers

  /** A JavaScript value handed to the parsers and formatters: a number,
      a string, or `null`/`undefined`. */
  datatype Value = Num(x: real) | Str(s: string) | Null

  function CountChar(s: string, c: char): (n: nat)
    ensures n == 0 <==> c !in s
    ensures n <= |s|
  {
    if |s| == 0 then 0 else (if s[0] == c then 1 else 0) + CountChar(s[1..], c)
  }

  lemma {:induction false} CountCharConcat(a: string, b: string, c: char)
    ensures CountChar(a + b, c) == CountChar(a, c) + CountChar(b, c)
  {
    if |a| > 0 {
      assert (a + b)[1..] == a[1..] + b;
      CountCharConcat(a[1..], b, c);
    } else {
      assert a + b == b;
    }
  }

  /** `s.replace(c, d)`: only the first occurrence is replaced. */
  function ReplaceFirst(s: string, c: char, d: char): (r: string)
    ensures |r| == |s|
    ensures c !in s ==> r == s
  {
    if |s| == 0 then ""
    else if s[0] == c then [d] + s[1..]
    else [s[0]] + ReplaceFirst(s[1..], c, d)
  }

  /** `replace(/Rp|\s/g, '')`: every `Rp` and every whitespace character
      is deleted, scanning left to right. */
  function StripRpSpace(s: string): (r: string)
    ensures |r| <= |s|
    ensures forall i :: 0 <= i < |r| ==> !IsSpace(r[i])
    decreases |s|
  {
    if |s| == 0 then ""
    else if |s| >= 2 && s[0] == 'R' && s[1] == 'p' then StripRpSpace(s[2..])
    else if IsSpace(s[0]) then StripRpSpace(s[1..])
    else [s[0]] + StripRpSpace(s[1..])
  }

  lemma {:induction false} StripRpSpaceKeeps(s: string)
    requires forall i :: 0 <= i < |s| ==> s[i] != 'R' && !IsSpace(s[i])
    ensures StripRpSpace(s) == s
  {
    if |s| > 0 {
      StripRpSpaceKeeps(s[1..]);
    }
  }

  /** The separator normalisation of `parseBalance`: with a comma, dots are
      dropped and the first comma becomes the decimal point; with several
      dots they are all dropped; a single dot is dropped only when exactly
      three characters follow it. */
  function NormalizeBalance(str: string): string
  {
    if ',' in str then ReplaceFirst(Remove(str, '.'), ',', '.')
    else
      var dots := CountChar(str, '.');
      if dots > 1 then Remove(str, '.')
      else if dots == 1 then
        var parts := Split(str, '.');
        if |parts| > 1 && |parts[1]| == 3 then Remove(str, '.') else str
      else str
  }

  /** `parseBalance`: numbers pass through, missing or empty input and
      unparseable text give 0. */
  function ParseBalance(v: Value): (r: real)
    ensures v == Null || v == Str("") ==> r == 0.0
    ensures v.Num? ==> r == v.x
  {
    match v
    case Num(x) => x
    case Null => 0.0
    case Str(s) => if s == "" then 0.0 else ParseFloatOrZero(NormalizeBalance(StripRpSpace(Trim(s))))
  }

  lemma TrimKeeps(s: string)
    requires forall i :: 0 <= i < |s| ==> !IsSpace(s[i])
    ensures Trim(s) == s
  {
  }

  /** Text with no `R` and no whitespace: the clean-up step leaves it as is. */
  predicate Clean(s: string)
  {
    forall i :: 0 <= i < |s| ==> s[i] != 'R' && !IsSpace(s[i])
  }

  lemma CleanJoin(x: string, y: string)
    requires Clean(x) && Clean(y)
    ensures Clean(x + y)
  {
    forall i | 0 <= i < |x + y| ensures (x + y)[i] != 'R' && !IsSpace((x + y)[i]) {
      if i < |x| { assert (x + y)[i] == x[i]; } else { assert (x + y)[i] == y[i - |x|]; }
    }
  }

  lemma CleanDotted(s: string)
    requires forall i :: 0 <= i < |s| ==> IsDigit(s[i]) || s[i] == '.'
    ensures Clean(s)
  {
  }

  /** On clean, non-empty text `parseBalance` is `parseFloat` of the
      normalised text. */
  lemma ParseBalanceClean(s: string)
    requires s != "" && Clean(s)
    ensures ParseBalance(Str(s)) == ParseFloatOrZero(NormalizeBalance(s))
  {
    TrimKeeps(s);
    StripRpSpaceKeeps(s);
  }

  /** A grouped digit string of one to three groups and its dots. */
  lemma {:induction false} GroupedDots(d: string)
    requires AllDigits(d) && |d| > 3
    ensures CountChar(GroupThousands(d), '.') >= 1
    ensures |d| > 6 ==> CountChar(GroupThousands(d), '.') >= 2
    ensures |d| <= 6 ==> Split(GroupThousands(d), '.') == [d[..|d| - 3], d[|d| - 3..]]
  {
    var p := d[..|d| - 3];
    var t := d[|d| - 3..];
    var g := GroupThousands(d);
    assert g == GroupThousands(p) + "." + t;
    CountCharConcat(GroupThousands(p) + ".", t, '.');
    CountCharConcat(GroupThousands(p), ".", '.');
    if |p| > 3 {
      GroupedDots(p);
    } else {
      assert GroupThousands(p) == p;
      assert '.' !in t;
      SplitAtSep(p, t, '.');
      SplitNoSep(t, '.');
    }
  }

  lemma GroupedNotEmpty(d: string)
    requires |d| > 0
    ensures GroupThousands(d) != ""
  {
    if |d| <= 3 {
      assert GroupThousands(d) == d;
    }
  }

  /** The normalisation turns a grouped digit string back into its digits. */
  lemma NormalizeGrouped(d: string)
    requires AllDigits(d)
    ensures NormalizeBalance(GroupThousands(d)) == d
  {
    var g := GroupThousands(d);
    GroupThousandsChars(d);
    assert ',' !in g;
    UngroupThousands(d);
    if |d| <= 3 {
      RemoveAbsent(d, '.');
    } else {
      GroupedDots(d);
    }
  }

  /** Grouped digits parse back to their value: the thousands dots are
      never taken for a decimal point. */
  lemma ParseBalanceGrouped(n: nat)
    ensures ParseBalance(Str(GroupThousands(NatToString(n)))) == n as real
  {
    var d := NatToString(n);
    var g := GroupThousands(d);
    GroupThousandsChars(d);
    CleanDotted(g);
    GroupedNotEmpty(d);
    ParseBalanceClean(g);
    NormalizeGrouped(d);
    ParseFloatInteger(d);
    ParseNatToString(n);
  }

  lemma NormalizeComma(a: string, b: string)
    requires |a| > 0 && AllDigits(a) && AllDigits(b)
    ensures NormalizeBalance(GroupThousands(a) + "," + b) == a + "." + b
  {
    var g := GroupThousands(a);
    var s := g + "," + b;
    assert s[|g|] == ',';
    UngroupThousands(a);
    RemoveConcat(g + ",", b, '.');
    RemoveConcat(g, ",", '.');
    RemoveAbsent(b, '.');
    assert Remove(",", '.') == ",";
    assert Remove(s, '.') == a + "," + b;
    ReplaceAfterDigits(a, b);
  }

  /** With a comma, the dots before it group thousands and the comma is the
      decimal mark. */
  lemma ParseBalanceComma(a: string, b: string)
    requires |a| > 0 && AllDigits(a) && AllDigits(b)
    ensures ParseBalance(Str(GroupThousands(a) + "," + b)) == DecimalValue(a, b)
  {
    var g := GroupThousands(a);
    GroupThousandsChars(a);
    CleanDotted(g);
    CleanJoin(g, ",");
    CleanJoin(g + ",", b);
    GroupedNotEmpty(a);
    ParseBalanceClean(g + "," + b);
    NormalizeComma(a, b);
    ParseFloatDecimal(a, b);
  }

  lemma {:induction false} ReplaceAfterDigits(a: string, b: string)
    requires AllDigits(a)
    ensures ReplaceFirst(a + "," + b, ',', '.') == a + "." + b
    decreases |a|
  {
    var s := a + "," + b;
    if |a| == 0 {
      assert s == "," + b;
    } else {
      assert s[0] == a[0] && s[1..] == a[1..] + "," + b;
      ReplaceAfterDigits(a[1..], b);
    }
  }

  lemma NormalizeDecimal(a: string, b: string)
    requires AllDigits(a) && AllDigits(b) && |b| != 3
    ensures NormalizeBalance(a + "." + b) == a + "." + b
  {
    var s := a + "." + b;
    assert s == a + ['.'] + b;
    assert ',' !in s;
    CountCharConcat(a + ".", b, '.');
    CountCharConcat(a, ".", '.');
    assert '.' !in a && '.' !in b;
    SplitAtSep(a, b, '.');
    SplitNoSep(b, '.');
  }

  /** A single dot followed by anything but three digits is a decimal point. */
  lemma ParseBalanceDecimal(a: string, b: string)
    requires |a| > 0 && AllDigits(a) && AllDigits(b) && |b| != 3
    ensures ParseBalance(Str(a + "." + b)) == DecimalValue(a, b)
  {
    CleanDotted(a);
    CleanDotted(b);
    CleanJoin(a, ".");
    CleanJoin(a + ".", b);
    ParseBalanceClean(a + "." + b);
    NormalizeDecimal(a, b);
    ParseFloatDecimal(a, b);
  }

  lemma ParseDigitsSnoc(s: string, c: char)
    requires AllDigits(s) && IsDigit(c)
    ensures AllDigits(s + [c]) && ParseDigits(s + [c]) == 10 * ParseDigits(s) + DigitValue(c)
  {
    assert (s + [c])[..|s|] == s;
  }

  lemma DigitsThousand()
    ensures ParseDigits("1000") == 1000 && Pow10(2) == 100
  {
    ParseDigitsSnoc("1", '0');
    assert "1" + ['0'] == "10";
    ParseDigitsSnoc("10", '0');
    assert "10" + ['0'] == "100";
    ParseDigitsSnoc("100", '0');
    assert "100" + ['0'] == "1000";
  }

  lemma DigitsFifty()
    ensures ParseDigits("50") == 50 && ParseDigits("00") == 0 && Pow10(2) == 100
  {
    ParseDigitsSnoc("5", '0');
    assert "5" + ['0'] == "50";
    ParseDigitsSnoc("0", '0');
    assert "0" + ['0'] == "00";
  }

  lemma DigitsPair()
    ensures ParseDigits("1234") == 1234 && ParseDigits("56") == 56 && Pow10(2) == 100
  {
    ParseDigitsSnoc("1", '2');
    assert "1" + ['2'] == "12";
    ParseDigitsSnoc("12", '3');
    assert "12" + ['3'] == "123";
    ParseDigitsSnoc("123", '4');
    assert "123" + ['4'] == "1234";
    ParseDigitsSnoc("5", '6');
    assert "5" + ['6'] == "56";
  }

  lemma GroupedSample(n: nat, d: string, g: string)
    requires NatToString(n) == d && GroupThousands(d) == g
    ensures ParseBalance(Str(g)) == n as real
  {
    ParseBalanceGrouped(n);
  }

  lemma NatSamples()
    ensures NatToString(1000) == "1000" && NatToString(1500) == "1500"
    ensures NatToString(1000000) == "1000000" && NatToString(50) == "50"
  {
    assert NatToString(1) == "1";
    assert NatToString(10) == "10";
    assert NatToString(100) == "100";
    assert NatToString(15) == "15";
    assert NatToString(150) == "150";
    assert NatToString(10000) == "10000";
    assert NatToString(100000) == "100000";
    assert NatToString(5) == "5";
  }

  lemma GroupSamples()
    ensures GroupThousands("1000") == "1.000" && GroupThousands("1500") == "1.500"
    ensures GroupThousands("5000") == "5.000" && GroupThousands("50") == "50"
    ensures GroupThousands("1000000") == "1.000.000"
  {
    GroupFour("1000");
    GroupFour("1500");
    GroupFour("5000");
    GroupMillion();
  }

  /** A four-digit string gets one dot after its first digit. */
  lemma GroupFour(s: string)
    requires |s| == 4
    ensures GroupThousands(s) == [s[0]] + "." + s[1..]
  {
    assert s[..1] == [s[0]];
  }

  lemma GroupMillion()
    ensures GroupThousands("1000000") == "1.000.000"
  {
    var s := "1000000";
    GroupFour(s[..4]);
    assert s[..4] == "1000" && s[4..] == "000";
  }

  /** The documented samples of `parseBalance`: dots group thousands, a
      comma is the decimal mark, a dot followed by two or four digits is a
      decimal point. */
  lemma ParseBalanceSamples()
    ensures ParseBalance(Str("1.000")) == 1000.0
    ensures ParseBalance(Str("1.000.000")) == 1000000.0
    ensures ParseBalance(Str("1.000,50")) == 1000.5
    ensures ParseBalance(Str("1000.50")) == 1000.5
    ensures ParseBalance(Str("1234.56")) == 1234.56
    ensures ParseBalance(Num(5000.0)) == 5000.0
    ensures ParseBalance(Str("")) == 0.0 && ParseBalance(Null) == 0.0
  {
    SampleThousand();
    SampleMillion();
    SampleComma();
    SampleDecimals();
  }

  lemma SampleThousand()
    ensures ParseBalance(Str("1.000")) == 1000.0
  {
    NatSamples();
    GroupSamples();
    GroupedSample(1000, "1000", "1.000");
  }

  lemma SampleMillion()
    ensures ParseBalance(Str("1.000.000")) == 1000000.0
  {
    NatSamples();
    GroupSamples();
    GroupedSample(1000000, "1000000", "1.000.000");
  }

  lemma SampleComma()
    ensures ParseBalance(Str("1.000,50")) == 1000.5
  {
    GroupSamples();
    DigitsThousand();
    DigitsFifty();
    ParseBalanceComma("1000", "50");
    assert "1.000" + "," + "50" == "1.000,50";
  }

  lemma SampleDecimals()
    ensures ParseBalance(Str("1000.50")) == 1000.5
    ensures ParseBalance(Str("1234.56")) == 1234.56
  {
    SampleDecimalA();
    SampleDecimalB();
  }

  lemma SampleDecimalA()
    ensures ParseBalance(Str("1000.50")) == 1000.5
  {
    DigitsThousand();
    DigitsFifty();
    DecimalSample("1000", "50", "1000.50", 1000.5);
  }

  lemma SampleDecimalB()
    ensures ParseBalance(Str("1234.56")) == 1234.56
  {
    DigitsPair();
    DecimalSample("1234", "56", "1234.56", 1234.56);
  }

  lemma DecimalSample(a: string, b: string, s: string, x: real)
    requires |a| > 0 && AllDigits(a) && AllDigits(b) && |b| != 3
    requires s == a + "." + b && DecimalValue(a, b) == x
    ensures ParseBalance(Str(s)) == x
  {
    ParseBalanceDecimal(a, b);
  }

  /** The `Rp` prefix and spaces are ignored: `Rp 1.500` reads as 1500. */
  lemma ParseBalanceRpSample()
    ensures ParseBalance(Str("Rp 1.500")) == 1500.0
  {
    NatSamples();
    GroupSamples();
    RpSample(1500, "Rp 1.500");
  }

  lemma RpSample(n: nat, s: string)
    requires s == "Rp " + GroupThousands(NatToString(n))
    ensures ParseBalance(Str(s)) == n as real
  {
    ParseBalanceRp(n);
  }

  /** A leading `Rp ` is ignored. */
  lemma ParseBalanceRp(n: nat)
    ensures ParseBalance(Str("Rp " + GroupThousands(NatToString(n)))) == n as real
  {
    var d := NatToString(n);
    RpStripped(d);
    NormalizeGrouped(d);
    ParseFloatInteger(d);
    ParseNatToString(n);
  }

  /** Trimming and the clean-up step reduce `Rp ` before grouped digits to
      the grouped digits. */
  lemma RpStripped(d: string)
    requires AllDigits(d) && |d| > 0
    ensures StripRpSpace(Trim("Rp " + GroupThousands(d))) == GroupThousands(d)
  {
    var g := GroupThousands(d);
    GroupThousandsChars(d);
    GroupedNotEmpty(d);
    CleanDotted(g);
    RpTrim(g);
    RpStrip(g);
  }

  lemma RpTrim(g: string)
    requires |g| > 0 && !IsSpace(g[|g| - 1])
    ensures Trim("Rp " + g) == "Rp " + g
  {
    var s := "Rp " + g;
    assert s[0] == 'R' && s[|s| - 1] == g[|g| - 1];
    assert TrimStart(s) == s;
  }

  lemma RpStrip(g: string)
    requires Clean(g)
    ensures StripRpSpace("Rp " + g) == g
  {
    var s := "Rp " + g;
    StripRpSpaceKeeps(g);
    assert s[2..] == " " + g;
    assert (" " + g)[1..] == g;
  }

  /** `formatRupiah` (cash/bank amounts): the digits of the text grouped by
      thousands; no digits gives the empty string. */
  function FormatRupiah(s: string): (r: string)
    ensures r == "" <==> DigitsOf(s) == ""
    ensures Remove(r, '.') == DigitsOf(s)
  {
    var d := DigitsOf(s);
    UngroupThousands(d);
    if d == "" then "" else
      assert |d| <= 3 ==> GroupThousands(d) == d;
      GroupThousands(d)
  }

  /** `parseRupiah`: dots removed, then `parseFloat(..) || 0`. */
  function ParseRupiah(s: string): real
  {
    if s == "" then 0.0 else ParseFloatOrZero(Remove(s, '.'))
  }

  /** Parsing what was formatted gives the number back. */
  lemma ParseFormatRupiah(n: nat)
    ensures ParseRupiah(FormatRupiah(NatToString(n))) == n as real
  {
    var d := NatToString(n);
    DigitsOfDigits(d);
    ParseFloatInteger(d);
    ParseNatToString(n);
  }

  lemma {:induction false} DigitsOfDotted(s: string)
    requires forall i :: 0 <= i < |s| ==> IsDigit(s[i]) || s[i] == '.'
    ensures DigitsOf(s) == Remove(s, '.')
  {
    if |s| > 0 {
      DigitsOfDotted(s[1..]);
    }
  }

  /** Formatting is idempotent: a formatted amount stays as it is when the
      input handler formats it again. */
  lemma FormatRupiahIdempotent(s: string)
    ensures FormatRupiah(FormatRupiah(s)) == FormatRupiah(s)
  {
    var d := DigitsOf(s);
    if d != "" {
      GroupThousandsChars(d);
      DigitsOfDotted(GroupThousands(d));
      UngroupThousands(d);
    }
  }

  /** `formatRupiahValue` of the account modal: like `formatRupiah`, but a
      lone `0` also shows as empty. */
  function FormatRupiahValue(s: string): (r: string)
    ensures r == "" <==> DigitsOf(s) == "" || DigitsOf(s) == "0"
    ensures r != "" ==> Remove(r, '.') == DigitsOf(s)
  {
    var d := DigitsOf(s);
    UngroupThousands(d);
    if d == "" || d == "0" then "" else
      assert |d| <= 3 ==> GroupThousands(d) == d;
      GroupThousands(d)
  }

  /** The `digits.digits` shape (`/^\d+\.\d+$/`): the parts around the dot. */
  function DecimalParts(s: string): (r: Option<(string, string)>)
    ensures r.Some? ==>
      (&& AllDigits(r.value.0) && AllDigits(r.value.1)
       && |r.value.0| > 0 && |r.value.1| > 0 && s == r.value.0 + "." + r.value.1)
  {
    var parts := Split(s, '.');
    if |parts| == 2 && |parts[0]| > 0 && |parts[1]| > 0 && AllDigits(parts[0]) && AllDigits(parts[1]) then
      SplitJoin(s);
      Some((parts[0], parts[1]))
    else None
  }

  lemma {:induction false} SplitJoin(s: string)
    requires |Split(s, '.')| == 2
    ensures s == Split(s, '.')[0] + "." + Split(s, '.')[1]
    decreases |s|
  {
    if |s| > 0 && s[0] != '.' {
      SplitJoin(s[1..]);
    } else if |s| > 0 {
      SplitOneIsWhole(s[1..]);
    }
  }

  lemma {:induction false} SplitOneIsWhole(s: string)
    requires |Split(s, '.')| == 1
    ensures Split(s, '.') == [s]
    decreases |s|
  {
    if |s| > 0 && s[0] != '.' {
      SplitOneIsWhole(s[1..]);
      assert s == [s[0]] + s[1..];
    }
  }

  /** Decimal rendering of an integer (`String(n)` for a whole number). */
  function IntToString(i: int): string
  {
    if i < 0 then "-" + NatToString(-i) else NatToString(i)
  }

  /** Grouping of a signed decimal rendering: the sign is not a digit, so
      no dot goes after it. */
  function GroupSigned(s: string): string
  {
    if |s| > 0 && s[0] == '-' then "-" + GroupThousands(s[1..]) else GroupThousands(s)
  }

  /** The decimal-aware `formatRupiahValue`: numbers are rounded; text of
      the shape `digits.digits` is rounded unless exactly three digits follow
      the dot (then the dot is a thousands separator); any other text keeps
      only its digits. Empty, `null` and `0` show as empty. */
  function FormatRupiahValueDecimal(v: Value): (r: string)
    ensures v == Null || v == Str("") ==> r == ""
  {
    var numberString :=
      match v
      case Null => ""
      case Num(x) => IntToString(Round(x))
      case Str(s) =>
        if s == "" then ""
        else
          var str := Trim(s);
          match DecimalParts(str)
          case Some(parts) =>
            if |parts.1| != 3 then IntToString(Round(ParseFloatOrZero(str))) else DigitsOf(str)
          case None => DigitsOf(str);
    if numberString == "" || numberString == "0" then "" else GroupSigned(numberString)
  }

  /** Digit text without a dot and whole numbers are shown as their grouped
      digits, with no rounding. */
  lemma FormatDecimalWhole(n: nat)
    requires n > 0
    ensures FormatRupiahValueDecimal(Num(n as real)) == GroupThousands(NatToString(n))
    ensures FormatRupiahValueDecimal(Str(NatToString(n))) == GroupThousands(NatToString(n))
  {
    var d := NatToString(n);
    assert Round(n as real) == n;
    assert d[0] != '-';
    DigitsOfDigits(d);
    TrimKeeps(d);
    SplitNoSep(d, '.');
  }

  lemma DottedJoin(a: string, b: string)
    requires AllDigits(a) && AllDigits(b)
    ensures forall i :: 0 <= i < |a + "." + b| ==> IsDigit((a + "." + b)[i]) || (a + "." + b)[i] == '.'
  {
    var s := a + "." + b;
    forall i | 0 <= i < |s| ensures IsDigit(s[i]) || s[i] == '.' {
      if i < |a| { assert s[i] == a[i]; } else if i > |a| { assert s[i] == b[i - |a| - 1]; }
    }
  }

  lemma DottedDigits(a: string, b: string)
    requires AllDigits(a) && AllDigits(b)
    ensures DigitsOf(a + "." + b) == a + b
  {
    DigitsThenDot(a);
    FilterConcat(a + ".", b, IsDigit);
    FilterKeepsAll(b, IsDigit);
  }

  lemma DigitsThenDot(a: string)
    requires AllDigits(a)
    ensures Filter(a + ".", IsDigit) == a
  {
    FilterConcat(a, ".", IsDigit);
    FilterKeepsAll(a, IsDigit);
    assert Filter(".", IsDigit) == "";
    assert a + "" == a;
  }

  lemma DottedParts(a: string, b: string)
    requires |a| > 0 && |b| > 0 && AllDigits(a) && AllDigits(b)
    ensures DecimalParts(a + "." + b) == Some((a, b))
  {
    assert '.' !in a && '.' !in b;
    SplitAtSep(a, b, '.');
    SplitNoSep(b, '.');
    assert a + "." + b == a + ['.'] + b;
  }

  /** `a.b` is seen as the `digits.digits` shape with parts `a` and `b`. */
  lemma DecimalPartsOf(a: string, b: string)
    requires |a| > 0 && |b| > 0 && AllDigits(a) && AllDigits(b)
    ensures Trim(a + "." + b) == a + "." + b
    ensures DecimalParts(a + "." + b) == Some((a, b))
    ensures DigitsOf(a + "." + b) == a + b
  {
    DottedJoin(a, b);
    TrimKeeps(a + "." + b);
    DottedParts(a, b);
    DottedDigits(a, b);
  }

  /** `digits.d`, `digits.dd` and fractions longer than three digits are
      rounded to the nearest whole number. */
  lemma FormatDecimalRounded(a: string, b: string)
    requires |a| > 0 && |b| > 0 && AllDigits(a) && AllDigits(b) && |b| != 3
    ensures var ns := IntToString(Round(DecimalValue(a, b)));
      FormatRupiahValueDecimal(Str(a + "." + b)) == if ns == "0" then "" else GroupSigned(ns)
  {
    DecimalPartsOf(a, b);
    ParseFloatDecimal(a, b);
  }

  /** `digits.ddd`: the dot is a thousands separator and the digits stay. */
  lemma FormatDecimalThousands(a: string, b: string)
    requires |a| > 0 && |b| == 3 && AllDigits(a) && AllDigits(b)
    ensures FormatRupiahValueDecimal(Str(a + "." + b)) == if a + b == "0" then "" else GroupSigned(a + b)
  {
    DecimalPartsOf(a, b);
  }

  lemma RoundedSample(a: string, b: string, s: string, n: nat, out: string)
    requires |a| > 0 && |b| > 0 && AllDigits(a) && AllDigits(b) && |b| != 3
    requires s == a + "." + b && DecimalValue(a, b) == n as real && n > 0
    requires GroupThousands(NatToString(n)) == out
    ensures FormatRupiahValueDecimal(Str(s)) == out
  {
    FormatDecimalRounded(a, b);
    assert Round(n as real) == n;
  }

  /** The documented samples of the decimal-aware formatter. */
  lemma FormatDecimalSamples()
    ensures FormatRupiahValueDecimal(Str("50.00")) == "50"
    ensures FormatRupiahValueDecimal(Str("1000.00")) == "1.000"
    ensures FormatRupiahValueDecimal(Str("1.000")) == "1.000"
    ensures FormatRupiahValueDecimal(Num(50.0)) == "50"
    ensures FormatRupiahValueDecimal(Str("50")) == "50"
  {
    FormatSampleFifty();
    FormatSampleThousandZeros();
    FormatSampleThousand();
    FormatSampleWhole();
  }

  lemma FormatSampleFifty()
    ensures FormatRupiahValueDecimal(Str("50.00")) == "50"
  {
    DigitsFifty();
    NatSamples();
    GroupSamples();
    RoundedSample("50", "00", "50.00", 50, "50");
  }

  lemma FormatSampleThousandZeros()
    ensures FormatRupiahValueDecimal(Str("1000.00")) == "1.000"
  {
    DigitsThousand();
    DigitsFifty();
    NatSamples();
    GroupSamples();
    RoundedSample("1000", "00", "1000.00", 1000, "1.000");
  }

  lemma ThousandsSample(a: string, b: string, s: string, out: string)
    requires |a| > 0 && |b| == 3 && AllDigits(a) && AllDigits(b) && s == a + "." + b
    requires a + b != "0" && a[0] != '-' && GroupThousands(a + b) == out
    ensures FormatRupiahValueDecimal(Str(s)) == out
  {
    FormatDecimalThousands(a, b);
  }

  lemma FormatSampleThousand()
    ensures FormatRupiahValueDecimal(Str("1.000")) == "1.000"
  {
    GroupSamples();
    ThousandsSample("1", "000", "1.000", "1.000");
  }

  lemma FormatSampleWhole()
    ensures FormatRupiahValueDecimal(Num(50.0)) == "50"
    ensures FormatRupiahValueDecimal(Str("50")) == "50"
  {
    NatSamples();
    GroupSamples();
    WholeSample(50, "50", "50");
  }

  lemma WholeSample(n: nat, d: string, out: string)
    requires n > 0 && NatToString(n) == d && GroupThousands(d) == out
    ensures FormatRupiahValueDecimal(Num(n as real)) == out
    ensures FormatRupiahValueDecimal(Str(d)) == out
  {
    FormatDecimalWhole(n);
  }

  lemma DigitsOnlySample(s: string, d: string, out: string)
    requires Trim(s) == s && DecimalParts(s) == None && DigitsOf(s) == d
    requires d != "" && d != "0" && d[0] != '-' && GroupThousands(d) == out
    ensures FormatRupiahValueDecimal(Str(s)) == out
  {
  }

  /** Text with several dots or other characters keeps only its digits:
      `1.000.000` stays `1.000.000` and `Rp 5.000` becomes `5.000`. */
  lemma FormatDecimalOtherSamples()
    ensures FormatRupiahValueDecimal(Str("1.000.000")) == "1.000.000"
    ensures FormatRupiahValueDecimal(Str("Rp 5.000")) == "5.000"
  {
    FormatSampleMillion();
    FormatSampleRp();
  }

  lemma FormatSampleMillion()
    ensures FormatRupiahValueDecimal(Str("1.000.000")) == "1.000.000"
  {
    GroupSamples();
    MillionText();
    DigitsOnlySample("1.000.000", "1000000", "1.000.000");
  }

  lemma FormatSampleRp()
    ensures FormatRupiahValueDecimal(Str("Rp 5.000")) == "5.000"
  {
    GroupSamples();
    RupiahText();
    DigitsOnlySample("Rp 5.000", "5000", "5.000");
  }

  lemma MillionText()
    ensures Trim("1.000.000") == "1.000.000"
    ensures DecimalParts("1.000.000") == None
    ensures DigitsOf("1.000.000") == "1000000"
  {
    MillionTextTrim();
    MillionTextParts();
    MillionTextDigits();
  }

  lemma MillionTextTrim()
    ensures Trim("1.000.000") == "1.000.000"
  {
  }

  lemma MillionTextParts()
    ensures DecimalParts("1.000.000") == None
  {
    assert "1.000.000" == "1" + ['.'] + "000.000";
    assert "000.000" == "000" + ['.'] + "000";
    SplitAtSep("1", "000.000", '.');
    SplitAtSep("000", "000", '.');
  }

  lemma MillionTextDigits()
    ensures DigitsOf("1.000.000") == "1000000"
  {
  }

  lemma RupiahText()
    ensures Trim("Rp 5.000") == "Rp 5.000"
    ensures DecimalParts("Rp 5.000") == None
    ensures DigitsOf("Rp 5.000") == "5000"
  {
    RupiahTextTrim();
    RupiahTextParts();
    RupiahTextDigits();
  }

  lemma RupiahTextTrim()
    ensures Trim("Rp 5.000") == "Rp 5.000"
  {
  }

  lemma RupiahTextParts()
    ensures DecimalParts("Rp 5.000") == None
  {
    assert "Rp 5.000" == "Rp 5" + ['.'] + "000";
    SplitAtSep("Rp 5", "000", '.');
    assert !AllDigits("Rp 5");
  }

  lemma RupiahTextDigits()
    ensures DigitsOf("Rp 5.000") == "5000"
  {
  }

  /** `formatInputNumber` of the journal form: a number's decimal digits
      with thousands dots. */
  function FormatInputNumber(n: nat): (r: string)
    ensures Remove(r, '.') == NatToString(n)
    ensures r != ""
  {
    var d := NatToString(n);
    UngroupThousands(d);
    assert |d| <= 3 ==> GroupThousands(d) == d;
    GroupThousands(d)
  }
}
