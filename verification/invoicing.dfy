/** The sales-invoice list (`Invoicing`) and the date helpers of
    `formatUtils`: how far an invoice is from its due date, the two totals
    on the cards above the table, the search box, the order of the rows and
    the `dd/mm/yyyy` rendering of a date. */
module Invoicing {
  import opened Outcomes
  import opened Text
  import opened Numbers
  import opened Dates
  import Seqs

  /** The ageing shown under a due date. */
  datatype Aging = Aging(text: string, overdue: bool)

  function Late(n: nat): string { "Terlambat " + NatToString(n) + " hari" }

  const DueToday: string := "Jatuh tempo hari ini"

  function DueIn(n: nat): string { "Jatuh tempo " + NatToString(n) + " hari lagi" }

  /** The text for a due date that does not parse: the day count is NaN,
      no comparison holds and the last branch renders it. */
  const DueUnknown: string := "Jatuh tempo NaN hari lagi"

  function Abs(d: int): nat { if d < 0 then -d else d }

  /** `getAgingStatus` of the invoice page, from the whole days `d` from
      today to the due date (None when the due date does not parse). An
      invoice due today already counts as overdue. */
  function PageAging(d: Option<int>): (r: Aging)
    ensures r.overdue <==> d.Some? && d.value <= 0
  {
    match d
    case None => Aging(DueUnknown, false)
    case Some(d) =>
      if d < 0 then Aging(Late(Abs(d)), true)
      else if d == 0 then Aging(DueToday, true)
      else Aging(DueIn(d), false)
  }

  /** `getAgingStatus` of `formatUtils`, from the whole days `e` from the
      due date to today. An invoice due today is not overdue yet. */
  function UtilAging(e: Option<int>): (r: Aging)
    ensures r.overdue <==> e.Some? && e.value > 0
  {
    match e
    case None => Aging(DueUnknown, false)
    case Some(e) =>
      if e > 0 then Aging(Late(e), true)
      else if e == 0 then Aging(DueToday, false)
      else Aging(DueIn(Abs(e)), false)
  }

  function Negate(d: Option<int>): Option<int>
  {
    match d
    case None => None
    case Some(d) => Some(-d)
  }

  /** The two helpers show the same text for every due date and disagree
      about overdue on the due day and only there. */
  lemma AgingVariants(d: Option<int>)
    ensures PageAging(d).text == UtilAging(Negate(d)).text
    ensures PageAging(d).overdue != UtilAging(Negate(d)).overdue <==> d == Some(0)
  {
  }

  lemma LateDays(n: nat)
    ensures Late(n)[10..|Late(n)| - 5] == NatToString(n)
  {
  }

  lemma DueInDays(n: nat)
    ensures DueIn(n)[12..|DueIn(n)| - 10] == NatToString(n)
  {
  }

  /** The page's texts are all different: the text tells the number of days
      (and whether the due date parsed) back. */
  lemma AgingTextTellsDays(a: Option<int>, b: Option<int>)
    requires PageAging(a).text == PageAging(b).text
    ensures a == b
  {
    if a.Some? && b.Some? && a.value < 0 && b.value < 0 {
      LateDays(Abs(a.value));
      LateDays(Abs(b.value));
      NatToStringInjective(Abs(a.value), Abs(b.value));
    } else if a.Some? && b.Some? && a.value > 0 && b.value > 0 {
      DueInDays(a.value);
      DueInDays(b.value);
      NatToStringInjective(a.value, b.value);
    } else {
      AgingShape(a);
      AgingShape(b);
    }
  }

  /** How the texts start: `T` for late, otherwise `Jatuh tempo ` and then
      a digit only when a number of days follows. */
  lemma AgingShape(d: Option<int>)
    ensures var t := PageAging(d).text;
      && |t| > 12
      && (t[0] == 'T' <==> d.Some? && d.value < 0)
      && (d.None? || d.value >= 0 ==> (IsDigit(t[12]) <==> d.Some? && d.value > 0))
      && (d.None? ==> t[12] == 'N')
  {
    if d.Some? && d.value > 0 {
      assert DueIn(d.value)[12] == NatToString(d.value)[0];
    }
  }

  /** A row of `/api/sales/invoices`, amounts parsed. */
  datatype SalesInvoice = SalesInvoice(number: string, customer: string, due: string, total: real, paid: real)

  /** `total_amount - paid_amount`. */
  function Owed(inv: SalesInvoice): real { inv.total - inv.paid }

  /** The whole days from `today` to the due date; `dayOf` reads a date as a
      day number at local midnight and fails on text that is not a date. */
  function DaysLeft(inv: SalesInvoice, today: int, dayOf: string -> Option<int>): (r: Option<int>)
    ensures r.Some? <==> dayOf(inv.due).Some?
    ensures r.Some? ==> r.value + today == dayOf(inv.due).value
  {
    match dayOf(inv.due)
    case None => None
    case Some(n) => Some(n - today)
  }

  predicate IsOverdue(inv: SalesInvoice, today: int, dayOf: string -> Option<int>)
  {
    PageAging(DaysLeft(inv, today, dayOf)).overdue
  }

  /** Overdue on the page means: the due date parses and is today or earlier. */
  lemma OverdueMeans(inv: SalesInvoice, today: int, dayOf: string -> Option<int>)
    ensures IsOverdue(inv, today, dayOf) <==> dayOf(inv.due).Some? && dayOf(inv.due).value <= today
  {
  }

  /** Every invoice paid at most in full. */
  predicate NotOverpaid(rows: seq<SalesInvoice>)
  {
    forall i :: 0 <= i < |rows| ==> rows[i].paid <= rows[i].total
  }

  /** `totalPiutang`: everything still owed, rounded. */
  function TotalReceivable(rows: seq<SalesInvoice>): (r: int)
    ensures NotOverpaid(rows) ==> r >= 0
  {
    var r := Round(Seqs.Sum(rows, Owed));
    assert NotOverpaid(rows) ==> r >= 0 by {
      if NotOverpaid(rows) {
        Seqs.SumNonNegative(rows, Owed);
        RoundBetween(0.0, Seqs.Sum(rows, Owed));
      }
    }
    r
  }

  lemma RoundBetween(a: real, b: real)
    requires 0.0 <= a <= b
    ensures 0 <= Round(a) <= Round(b)
  {
    RoundMonotone(a, b);
    RoundMonotone(0.0, a);
  }

  /** `totalJatuhTempo`: what is owed on overdue invoices, rounded. */
  function TotalOverdue(rows: seq<SalesInvoice>, today: int, dayOf: string -> Option<int>): (r: int)
    ensures NotOverpaid(rows) ==> 0 <= r <= TotalReceivable(rows)
  {
    var late := (x: SalesInvoice) => IsOverdue(x, today, dayOf);
    var r := Round(Seqs.Sum(Seqs.Filter(rows, late), Owed));
    assert NotOverpaid(rows) ==> 0 <= r <= TotalReceivable(rows) by {
      if NotOverpaid(rows) {
        var kept := Seqs.Filter(rows, late);
        Seqs.SumFilterAtMost(rows, Owed, late);
        forall i | 0 <= i < |kept|
          ensures Owed(kept[i]) >= 0.0
        {
          assert kept[i] in rows;
        }
        Seqs.SumNonNegative(kept, Owed);
        RoundBetween(Seqs.Sum(Seqs.Filter(rows, late), Owed), Seqs.Sum(rows, Owed));
      }
    }
    r
  }

  predicate NotYetDue(inv: SalesInvoice, today: int, dayOf: string -> Option<int>)
  {
    !IsOverdue(inv, today, dayOf)
  }

  /** The receivable splits into the overdue part and the rest. */
  lemma ReceivableSplits(rows: seq<SalesInvoice>, today: int, dayOf: string -> Option<int>)
    ensures Seqs.Sum(rows, Owed)
      == Seqs.Sum(Seqs.Filter(rows, (x: SalesInvoice) => IsOverdue(x, today, dayOf)), Owed)
       + Seqs.Sum(Seqs.Filter(rows, (x: SalesInvoice) => NotYetDue(x, today, dayOf)), Owed)
  {
    Seqs.SumSplit(rows, Owed, (x: SalesInvoice) => IsOverdue(x, today, dayOf), (x: SalesInvoice) => NotYetDue(x, today, dayOf));
  }

  /** When nothing is due yet the overdue card shows zero, and when
      everything is due it shows the whole receivable. */
  lemma OverdueExtremes(rows: seq<SalesInvoice>, today: int, dayOf: string -> Option<int>)
    ensures (forall i :: 0 <= i < |rows| ==> !IsOverdue(rows[i], today, dayOf)) ==> TotalOverdue(rows, today, dayOf) == 0
    ensures (forall i :: 0 <= i < |rows| ==> IsOverdue(rows[i], today, dayOf)) ==> TotalOverdue(rows, today, dayOf) == TotalReceivable(rows)
  {
    var late := (x: SalesInvoice) => IsOverdue(x, today, dayOf);
    if forall i :: 0 <= i < |rows| ==> !IsOverdue(rows[i], today, dayOf) {
      Seqs.FilterNone(rows, late);
    }
    if forall i :: 0 <= i < |rows| ==> IsOverdue(rows[i], today, dayOf) {
      Seqs.FilterKeepsAll(rows, late);
    }
  }

  /** The search: the term, lower-cased, inside the lower-cased customer
      name or invoice number. */
  predicate Matches(inv: SalesInvoice, term: string)
  {
    Contains(ToLower(inv.customer), ToLower(term)) || Contains(ToLower(inv.number), ToLower(term))
  }

  /** `filteredInvoices`. */
  function Search(rows: seq<SalesInvoice>, term: string): (r: seq<SalesInvoice>)
    ensures forall x :: x in r <==> x in rows && Matches(x, term)
    ensures Seqs.IsSubsequence(r, rows)
  {
    Seqs.FilterIsSubsequence(rows, (x: SalesInvoice) => Matches(x, term));
    Seqs.Filter(rows, (x: SalesInvoice) => Matches(x, term))
  }

  /** An empty search box shows every invoice, in order. */
  lemma EmptySearchShowsAll(rows: seq<SalesInvoice>)
    ensures Search(rows, "") == rows
  {
    forall i | 0 <= i < |rows|
      ensures Matches(rows[i], "")
    {
      ContainsEmpty(ToLower(rows[i].customer));
    }
    Seqs.FilterKeepsAll(rows, (x: SalesInvoice) => Matches(x, ""));
  }

  lemma ToLowerTwice(s: string)
    ensures ToLower(ToLower(s)) == ToLower(s)
  {
  }

  /** Typing the term in capitals or not makes no difference. */
  lemma SearchIgnoresCase(rows: seq<SalesInvoice>, term: string)
    ensures Search(rows, ToLower(term)) == Search(rows, term)
  {
    ToLowerTwice(term);
    Seqs.FilterSame(rows, (x: SalesInvoice) => Matches(x, ToLower(term)), (x: SalesInvoice) => Matches(x, term));
  }

  /** The due date as a sort key; a due date that does not parse sorts as 0. */
  function DueKey(inv: SalesInvoice, dayOf: string -> Option<int>): int
  {
    DateKey(Some(inv.due), dayOf)
  }

  function EarlierDue(dayOf: string -> Option<int>): (SalesInvoice, SalesInvoice) -> bool
  {
    (a: SalesInvoice, b: SalesInvoice) => DueKey(a, dayOf) <= DueKey(b, dayOf)
  }

  /** `fetchInvoices`: the rows by due date, earliest first. */
  function Arrange(data: seq<SalesInvoice>, dayOf: string -> Option<int>): (r: seq<SalesInvoice>)
    ensures multiset(r) == multiset(data)
    ensures forall i, j :: 0 <= i < j < |r| ==> DueKey(r[i], dayOf) <= DueKey(r[j], dayOf)
  {
    Seqs.SortSorted(data, EarlierDue(dayOf));
    Seqs.Sort(data, EarlierDue(dayOf))
  }

  /** The table: the fetched rows, earliest due first, that match the
      search; searching never disturbs the order. */
  function Shown(data: seq<SalesInvoice>, term: string, dayOf: string -> Option<int>): (r: seq<SalesInvoice>)
    ensures forall x :: x in r <==> x in data && Matches(x, term)
    ensures forall i, j :: 0 <= i < j < |r| ==> DueKey(r[i], dayOf) <= DueKey(r[j], dayOf)
  {
    var sorted := Arrange(data, dayOf);
    assert Seqs.SortedBy(sorted, EarlierDue(dayOf));
    Seqs.FilterSorted(sorted, (x: SalesInvoice) => Matches(x, term), EarlierDue(dayOf));
    assert forall x :: x in sorted <==> x in multiset(sorted);
    assert forall x :: x in data <==> x in multiset(data);
    Search(sorted, term)
  }

  /** `formatDate`: `dd/mm/yyyy`, or `-` when there is no date or it does
      not parse; `parse` reads a date as (day, month, year). */
  function FormatDate(value: Option<string>, parse: string -> Option<(nat, nat, nat)>): (r: string)
    ensures r == "-" <==> value.None? || value.value == "" || parse(value.value).None?
  {
    if value.None? || value.value == "" then "-"
    else match parse(value.value)
      case None => "-"
      case Some((d, m, y)) =>
        PadStart(NatToString(d), 2, '0') + "/" + PadStart(NatToString(m), 2, '0') + "/" + NatToString(y)
  }

  lemma DigitsNoSlash(s: string)
    requires AllDigits(s)
    ensures '/' !in s
  {
  }

  /** The server's rewrite of `a/b/c` when no field holds a slash. */
  lemma DisplayOfThree(a: string, b: string, c: string)
    requires '/' !in a && '/' !in b && '/' !in c
    ensures DisplayToIso(a + "/" + b + "/" + c) == c + "-" + b + "-" + a
  {
    assert a + "/" + b + "/" + c == a + ['/'] + b + ['/'] + c;
    SplitThree(a, b, c, '/');
    assert (a + "/" + b + "/" + c)[|a|] == '/';
  }

  /** A rendered date goes back to `YYYY-MM-DD` through the server's date
      rewrite. */
  lemma FormatDateToIso(value: string, parse: string -> Option<(nat, nat, nat)>)
    requires value != "" && parse(value).Some?
    ensures var (d, m, y) := parse(value).value;
      DisplayToIso(FormatDate(Some(value), parse))
        == NatToString(y) + "-" + PadStart(NatToString(m), 2, '0') + "-" + PadStart(NatToString(d), 2, '0')
  {
    var (d, m, y) := parse(value).value;
    var dd := PadStart(NatToString(d), 2, '0');
    var mm := PadStart(NatToString(m), 2, '0');
    var yy := NatToString(y);
    DigitsNoSlash(dd);
    DigitsNoSlash(mm);
    DigitsNoSlash(yy);
    DisplayOfThree(dd, mm, yy);
  }
}
