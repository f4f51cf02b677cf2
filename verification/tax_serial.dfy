/** The tax-invoice serial number (`Nomor Seri Faktur Pajak`) as the
    purchase and sales forms format and check it while it is typed:
    16 digits shown as `XXX.BBB-YY.NNNNNNNN`. */
module TaxSerial {
  import opened Text

  /** The digits kept from what was typed: at most the first 16. */
  function SerialDigits(value: string): (r: string)
    ensures AllDigits(r) && |r| <= 16
    ensures |DigitsOf(value)| <= 16 ==> r == DigitsOf(value)
  {
    Slice(DigitsOf(value), 0, 16)
  }

  /** The layout of up to 16 digits: a separator only once a digit follows it. */
  function Layout(n: string): (r: string)
    requires |n| <= 16
  {
    (if |n| > 0 then Slice(n, 0, 3) else "")
    + (if |n| > 3 then "." + Slice(n, 3, 6) else "")
    + (if |n| > 6 then "-" + Slice(n, 6, 8) else "")
    + (if |n| > 8 then "." + Slice(n, 8, 16) else "")
  }

  /** `formatTaxNo`. */
  function FormatTaxNo(value: string): (r: string)
    ensures |r| <= 19
    ensures |r| >= 19 <==> |SerialDigits(value)| == 16
    ensures |r| >= 7 <==> |SerialDigits(value)| >= 6
  {
    LayoutLength(SerialDigits(value));
    Layout(SerialDigits(value))
  }

  lemma LayoutLength(n: string)
    requires |n| <= 16
    ensures |Layout(n)| == |n| + (if |n| > 3 then 1 else 0) + (if |n| > 6 then 1 else 0) + (if |n| > 8 then 1 else 0)
  {
  }

  lemma LayoutShort(n: string)
    requires AllDigits(n) && |n| <= 3
    ensures DigitsOf(Layout(n)) == n
  {
    assert Layout(n) == n;
    DigitsOfDigits(n);
  }

  lemma LayoutTwoGroups(n: string)
    requires AllDigits(n) && 3 < |n| <= 6
    ensures DigitsOf(Layout(n)) == n
  {
    assert Layout(n) == n[..3] + "." + n[3..];
    DigitsOfDigits(n[..3]);
    DigitsAppend(n[..3], ".", n[3..]);
    assert n == n[..3] + n[3..];
  }

  lemma LayoutThreeGroups(n: string)
    requires AllDigits(n) && 6 < |n| <= 8
    ensures DigitsOf(Layout(n)) == n
  {
    var a, b, c := n[..3], n[3..6], n[6..];
    assert Layout(n) == a + "." + b + "-" + c;
    ThreeGroupDigits(a, b, c);
    assert a + b + c == n;
  }

  lemma ThreeGroupDigits(a: string, b: string, c: string)
    requires AllDigits(a) && AllDigits(b) && AllDigits(c)
    ensures DigitsOf(a + "." + b + "-" + c) == a + b + c
  {
    DigitsOfDigits(a);
    DigitsAppend(a, ".", b);
    DigitsAppend(a + "." + b, "-", c);
  }

  lemma FourGroupDigits(a: string, b: string, c: string, d: string)
    requires AllDigits(a) && AllDigits(b) && AllDigits(c) && AllDigits(d)
    ensures DigitsOf(a + "." + b + "-" + c + "." + d) == a + b + c + d
  {
    DigitsOfDigits(a);
    DigitsAppend(a, ".", b);
    DigitsAppend(a + "." + b, "-", c);
    DigitsAppend(a + "." + b + "-" + c, ".", d);
  }

  lemma LayoutFourShape(n: string)
    requires 8 < |n| <= 16
    ensures Layout(n) == n[..3] + "." + n[3..6] + "-" + n[6..8] + "." + n[8..]
  {
  }

  lemma LayoutFourGroups(n: string)
    requires AllDigits(n) && 8 < |n| <= 16
    ensures DigitsOf(Layout(n)) == n
  {
    var a, b, c, d := n[..3], n[3..6], n[6..8], n[8..];
    LayoutFourShape(n);
    FourGroupDigits(a, b, c, d);
    FourGroupsJoin(n);
  }

  lemma FourGroupsJoin(n: string)
    requires 8 < |n|
    ensures n[..3] + n[3..6] + n[6..8] + n[8..] == n
  {
  }

  /** The digits of the layout are the digits laid out. */
  lemma LayoutDigits(n: string)
    requires AllDigits(n) && |n| <= 16
    ensures DigitsOf(Layout(n)) == n
  {
    if |n| <= 3 {
      LayoutShort(n);
    } else if |n| <= 6 {
      LayoutTwoGroups(n);
    } else if |n| <= 8 {
      LayoutThreeGroups(n);
    } else {
      LayoutFourGroups(n);
    }
  }

  /** The digit content of the formatted serial is the first 16 digits typed. */
  lemma FormatKeepsDigits(value: string)
    ensures DigitsOf(FormatTaxNo(value)) == SerialDigits(value)
  {
    LayoutDigits(SerialDigits(value));
  }

  /** Formatting a formatted serial changes nothing. */
  lemma FormatTaxNoIdempotent(value: string)
    ensures FormatTaxNo(FormatTaxNo(value)) == FormatTaxNo(value)
  {
    FormatKeepsDigits(value);
  }

  /** The transaction codes accepted in the first group. */
  const Series: set<string> := {"010", "020", "030", "040", "060", "070", "080", "090"}
  /** Branch codes accepted by the purchase form. */
  const PurchaseBranches: set<string> := {"000", "001", "002", "003"}
  /** Branch codes accepted by the sales form: `003` is not among them. */
  const SalesBranches: set<string> := {"000", "001", "002"}
  const CurrentYear: string := "26"

  /** The check of `handleTaxNoChange` on a formatted serial: from 7
      characters on, the series and branch must be allowed and a complete
      two-character year must be the current one; anything shorter passes. */
  predicate TaxNoValid(f: string, branches: set<string>)
  {
    |f| >= 7 ==>
      && Slice(f, 0, 3) in Series
      && Slice(f, 4, 7) in branches
      && (|Slice(f, 8, 10)| == 2 ==> Slice(f, 8, 10) == CurrentYear)
  }

  /** The three groups of a formatted serial are the digit groups typed. */
  lemma FormattedGroups(value: string)
    requires |SerialDigits(value)| >= 6
    ensures var n := SerialDigits(value);
      var f := FormatTaxNo(value);
      && Slice(f, 0, 3) == n[..3]
      && Slice(f, 4, 7) == n[3..6]
      && Slice(f, 8, 10) == (if |n| >= 8 then n[6..8] else n[6..])
  {
    LayoutGroups(SerialDigits(value));
  }

  lemma LayoutGroups(n: string)
    requires 6 <= |n| <= 16
    ensures var f := Layout(n);
      && Slice(f, 0, 3) == n[..3]
      && Slice(f, 4, 7) == n[3..6]
      && Slice(f, 8, 10) == (if |n| >= 8 then n[6..8] else n[6..])
  {
    var head := n[..3] + "." + n[3..6];
    var c := if |n| > 6 then "-" + Slice(n, 6, 8) else "";
    var d := if |n| > 8 then "." + Slice(n, 8, 16) else "";
    assert Layout(n) == head + (c + d);
    HeadGroups(head, c + d, n);
    if |n| > 6 {
      YearGroup(head, c, d, n);
    }
  }

  lemma HeadGroups(head: string, tail: string, n: string)
    requires |n| >= 6 && head == n[..3] + "." + n[3..6]
    ensures Slice(head + tail, 0, 3) == n[..3] && Slice(head + tail, 4, 7) == n[3..6]
  {
    assert (head + tail)[..3] == n[..3];
    assert (head + tail)[4..7] == n[3..6];
  }

  lemma YearGroup(head: string, c: string, d: string, n: string)
    requires 6 < |n| && |head| == 7 && c == "-" + Slice(n, 6, 8)
    requires |n| <= 8 ==> d == ""
    ensures Slice(head + (c + d), 8, 10) == (if |n| >= 8 then n[6..8] else n[6..])
  {
    var f := head + (c + d);
    if |n| >= 8 {
      assert f[8] == n[6] && f[9] == n[7];
      assert f[8..10] == n[6..8];
    } else {
      assert |f| == 9 && f[8] == n[6];
      assert f[8..9] == n[6..];
    }
  }

  /** The check in terms of the digits typed: short serials pass; longer
      ones need an allowed series and branch and, once the year's two
      digits are there, the current year. */
  lemma ValidityOnDigits(value: string, branches: set<string>)
    ensures var n := SerialDigits(value);
      TaxNoValid(FormatTaxNo(value), branches) <==>
        |n| < 6 || (n[..3] in Series && n[3..6] in branches && (|n| >= 8 ==> n[6..8] == CurrentYear))
  {
    if |SerialDigits(value)| >= 6 {
      FormattedGroups(value);
    }
  }

  /** The sales form is stricter than the purchase form, and exactly by the
      branch code `003`. */
  lemma SalesStricter(f: string)
    ensures TaxNoValid(f, SalesBranches) ==> TaxNoValid(f, PurchaseBranches)
    ensures TaxNoValid(f, PurchaseBranches) && !TaxNoValid(f, SalesBranches) ==> Slice(f, 4, 7) == "003"
  {
  }

  /** The parts sent with a purchase serial (`taxX`, `taxB`, `taxY`). */
  function Parts(f: string): (r: (string, string, string))
    ensures |r.0| <= 3 && |r.1| <= 3 && |r.2| <= 2
  {
    (Slice(f, 0, 3), Slice(f, 4, 7), Slice(f, 8, 10))
  }

  /** For a complete serial the parts are the first three digit groups. */
  lemma CompleteParts(value: string)
    requires |SerialDigits(value)| == 16
    ensures var n := SerialDigits(value);
      Parts(FormatTaxNo(value)) == (n[..3], n[3..6], n[6..8])
  {
    FormattedGroups(value);
  }
}
