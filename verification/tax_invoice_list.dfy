/** The sales tax-invoice list: search, the customer and status filters,
    the status filter's options, the status badge and the row action. */
module TaxInvoiceList {
  import opened Outcomes
  import opened Text
  import Seqs

  /** A tax invoice as the list receives it; serial and customer name may
      be missing. */
  datatype TaxRow = TaxRow(id: nat, taxNo: Option<string>, customer: Option<string>, status: string)

  /** `f && f.toLowerCase().includes(term.toLowerCase())`. */
  predicate FieldMatches(f: Option<string>, term: string)
  {
    f.Some? && f.value != "" && Contains(ToLower(f.value), ToLower(term))
  }

  /** The three conditions a row must meet: the search hits its serial or
      customer, and each filter is empty or equal to the row's value. */
  predicate Keep(x: TaxRow, term: string, customerFilter: string, statusFilter: string)
  {
    && (FieldMatches(x.taxNo, term) || FieldMatches(x.customer, term))
    && (customerFilter == "" || x.customer == Some(customerFilter))
    && (statusFilter == "" || x.status == statusFilter)
  }

  /** `filteredInvoices`: the kept rows, in their original order. */
  function Filtered(rows: seq<TaxRow>, term: string, customerFilter: string, statusFilter: string): (r: seq<TaxRow>)
    ensures forall x :: x in r <==> x in rows && Keep(x, term, customerFilter, statusFilter)
    ensures Seqs.IsSubsequence(r, rows)
  {
    var keep := (x: TaxRow) => Keep(x, term, customerFilter, statusFilter);
    Seqs.FilterIsSubsequence(rows, keep);
    Seqs.Filter(rows, keep)
  }

  /** With no search term and no filters, a row is shown exactly when it
      has a serial or a customer name. */
  lemma NoFilterShowsNamed(x: TaxRow)
    ensures Keep(x, "", "", "") <==> (x.taxNo.Some? && x.taxNo.value != "") || (x.customer.Some? && x.customer.value != "")
  {
    assert ToLower("") == "";
    if x.taxNo.Some? { ContainsEmpty(ToLower(x.taxNo.value)); }
    if x.customer.Some? { ContainsEmpty(ToLower(x.customer.value)); }
  }

  /** Narrowing a filter never shows more: the rows kept with a status
      filter are among those kept without it. */
  lemma StatusFilterNarrows(rows: seq<TaxRow>, term: string, customerFilter: string, status: string)
    ensures forall x :: x in Filtered(rows, term, customerFilter, status) ==> x in Filtered(rows, term, customerFilter, "")
  {
  }

  function Statuses(rows: seq<TaxRow>): (r: seq<string>)
    ensures |r| == |rows| && forall i :: 0 <= i < |rows| ==> r[i] == rows[i].status
  {
    seq(|rows|, i requires 0 <= i < |rows| => rows[i].status)
  }

  /** `uniqueStatuses`: each status present once, in character order. */
  function UniqueStatuses(rows: seq<TaxRow>): (r: seq<string>)
    ensures forall s :: s in r <==> exists x :: x in rows && x.status == s
    ensures Seqs.Distinct(r)
    ensures Seqs.SortedBy(r, LexLe)
  {
    var d := Seqs.Dedup(Statuses(rows));
    var r := Seqs.Sort(d, LexLe);
    LexLeOrder();
    Seqs.SortSorted(d, LexLe);
    Seqs.PermutationKeepsDistinct(d, r);
    Seqs.SortMembers(d, LexLe);
    StatusesMembers(rows);
    r
  }

  lemma StatusesMembers(rows: seq<TaxRow>)
    ensures forall s :: s in Statuses(rows) <==> exists x :: x in rows && x.status == s
  {
    forall s ensures s in Statuses(rows) <==> exists x :: x in rows && x.status == s {
      if s in Statuses(rows) {
        var i :| 0 <= i < |rows| && Statuses(rows)[i] == s;
        assert rows[i] in rows;
      }
      if exists x :: x in rows && x.status == s {
        var x :| x in rows && x.status == s;
        var i :| 0 <= i < |rows| && rows[i] == x;
        assert Statuses(rows)[i] == s;
      }
    }
  }

  /** Choosing any offered status keeps at least the rows with that status
      that pass the search and customer filter. */
  lemma OfferedStatusKeeps(rows: seq<TaxRow>, term: string, customerFilter: string, s: string)
    requires s in UniqueStatuses(rows)
    ensures forall x :: x in rows && x.status == s && Keep(x, term, customerFilter, "") ==>
      x in Filtered(rows, term, customerFilter, s)
  {
  }

  const Grey: string := "bg-gray-100 text-gray-600"

  /** `getStatusStyle`: the configured style of the status, grey when it
      has none. `styles` is the sales table of the status style settings. */
  function StatusStyle(styles: map<string, string>, status: string): (r: string)
    ensures status in styles && styles[status] != "" ==> r == styles[status]
    ensures status !in styles || styles[status] == "" ==> r == Grey
  {
    if status in styles && styles[status] != "" then styles[status] else Grey
  }

  /** Configuring one status's style changes that status's badge only; a
      blank style falls back to grey. */
  lemma StyleOverride(styles: map<string, string>, s: string, style: string, status: string)
    ensures StatusStyle(styles[s := style], status)
         == if status == s then (if style != "" then style else Grey) else StatusStyle(styles, status)
  {
  }

  /** The row action: Draft rows can be edited, Issued rows cancelled, and
      no other row offers anything. */
  datatype TaxAction = EditTax(path: string) | CancelTax | NoAction

  function RowAction(x: TaxRow): (r: TaxAction)
    ensures r.EditTax? <==> x.status == "Draft"
    ensures r.CancelTax? <==> x.status == "Issued"
    ensures r.EditTax? ==> r.path == EditPath + NatToString(x.id)
  {
    if x.status == "Draft" then EditTax(EditPath + NatToString(x.id))
    else if x.status == "Issued" then CancelTax
    else NoAction
  }

  const EditPath: string := "/faktur-pajak-penjualan/edit/"

  /** The edit link names the row: its tail is the id, so distinct rows
      link to distinct editors. */
  lemma EditPathNamesRow(x: TaxRow, y: TaxRow)
    requires x.status == "Draft" && y.status == "Draft"
    ensures var p := RowAction(x).path;
      StartsWith(p, EditPath) && AllDigits(p[|EditPath|..]) && ParseDigits(p[|EditPath|..]) == x.id
    ensures RowAction(x) == RowAction(y) <==> x.id == y.id
  {
    var p := RowAction(x).path;
    assert p[..|EditPath|] == EditPath && p[|EditPath|..] == NatToString(x.id);
    ParseNatToString(x.id);
    if RowAction(x) == RowAction(y) {
      assert NatToString(x.id) == RowAction(y).path[|EditPath|..];
      NatToStringInjective(x.id, y.id);
    }
  }
}
