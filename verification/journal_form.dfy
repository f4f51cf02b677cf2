/** The general-journal pages: the entry form that builds a journal out of
    editable lines and hands it to `createJournal`, and the list that
    searches, orders and offers edit or reversal per row. */
module JournalForm {
  import opened Outcomes
  import opened Text
  import opened Numbers
  import opened Dates
  import opened Ledger
  import opened Books
  import opened Journals
  import opened Rupiah
  import Seqs

  // ---------------------------------------------------------------------
  // The entry form

  /** One editable line; `id` is the creation timestamp the form keys on. */
  datatype FormLine = FormLine(id: int, account: string, debit: real, credit: real)

  /** The form: the picked date as `YYYY-MM-DD`, the description and the lines. */
  datatype Form = Form(date: string, description: string, lines: seq<FormLine>)

  datatype Field = AccountField | DebitField | CreditField

  function Blank(id: int): FormLine { FormLine(id, "", 0.0, 0.0) }

  predicate IsBlankLine(l: FormLine) { l.account == "" && l.debit == 0.0 && l.credit == 0.0 }

  /** The form opens on `today` with two blank lines. */
  function Initial(today: string, now: int): (r: Form)
    ensures |r.lines| == 2 && r.lines[0].id != r.lines[1].id
    ensures forall i :: 0 <= i < |r.lines| ==> IsBlankLine(r.lines[i])
    ensures r.date == today && r.description == ""
  {
    Form(today, "", [Blank(now), Blank(now + 1)])
  }

  /** Line ids are pairwise different. */
  predicate DistinctIds(lines: seq<FormLine>)
  {
    forall i, j :: 0 <= i < j < |lines| ==> lines[i].id != lines[j].id
  }

  /** `addLine`: a blank line at the end, everything else kept. */
  function AddLine(lines: seq<FormLine>, now: int): (r: seq<FormLine>)
    ensures |r| == |lines| + 1 && r[..|lines|] == lines
    ensures IsBlankLine(r[|lines|]) && r[|lines|].id == now
  {
    lines + [Blank(now)]
  }

  predicate OtherId(id: int, l: FormLine) { l.id != id }

  /** `removeLine`: with more than two lines the line goes; with two or
      fewer it stays but is emptied. */
  function RemoveLine(lines: seq<FormLine>, id: int): (r: seq<FormLine>)
    ensures |lines| > 2 ==> forall l :: l in r <==> l in lines && l.id != id
    ensures |lines| <= 2 ==> |r| == |lines|
    ensures |lines| <= 2 ==> forall i :: 0 <= i < |r| ==>
      r[i] == (if lines[i].id == id then Blank(id) else lines[i])
  {
    if |lines| > 2 then Seqs.Filter(lines, (l: FormLine) => OtherId(id, l))
    else seq(|lines|, i requires 0 <= i < |lines| => if lines[i].id == id then Blank(id) else lines[i])
  }

  /** With distinct ids, filtering one id out drops at most one line. */
  lemma {:induction false} FilterOneId(lines: seq<FormLine>, id: int)
    requires DistinctIds(lines)
    ensures |Seqs.Filter(lines, (l: FormLine) => OtherId(id, l))| >= |lines| - 1
  {
    if |lines| > 0 {
      var keep := (l: FormLine) => OtherId(id, l);
      if lines[0].id == id {
        assert forall i :: 0 <= i < |lines[1..]| ==> keep(lines[1..][i]) by {
          forall i | 0 <= i < |lines[1..]|
            ensures keep(lines[1..][i])
          {
            assert lines[1..][i] == lines[i + 1];
          }
        }
        Seqs.FilterKeepsAll(lines[1..], keep);
      } else {
        FilterOneId(lines[1..], id);
      }
    }
  }

  /** The form never drops below two lines, and after a removal no line
      with that id keeps any content. */
  lemma RemoveKeepsTwo(lines: seq<FormLine>, id: int)
    requires DistinctIds(lines) && |lines| >= 2
    ensures |RemoveLine(lines, id)| >= 2
    ensures forall l :: l in RemoveLine(lines, id) && l.id == id ==> IsBlankLine(l)
  {
    if |lines| > 2 {
      FilterOneId(lines, id);
    }
  }

  /** The amount typed into a debit or credit cell: dots are dropped, an
      empty cell is 0 and so is text `parseFloat` cannot read. */
  function ParseAmount(value: string): (r: real)
    ensures Remove(value, '.') == "" ==> r == 0.0
    ensures ParseFloat(Remove(value, '.')).None? ==> r == 0.0
    ensures ParseFloat(Remove(value, '.')).Some? ==> r == ParseFloat(Remove(value, '.')).value
  {
    var clean := Remove(value, '.');
    if clean == "" then 0.0 else ParseFloatOrZero(clean)
  }

  /** A dot-grouped digit string is read as the number it groups. */
  lemma ParseGroupedDigits(value: string)
    requires Remove(value, '.') != "" && AllDigits(Remove(value, '.'))
    ensures ParseAmount(value) == ParseDigits(Remove(value, '.')) as real
  {
    ParseFloatInteger(Remove(value, '.'));
  }

  /** What the cell shows for an amount is read back as that amount. */
  lemma AmountRoundTrip(n: nat)
    ensures ParseAmount(FormatInputNumber(n)) == n as real
  {
    var shown := FormatInputNumber(n);
    assert Remove(shown, '.') == NatToString(n);
    ParseNatToString(n);
    ParseGroupedDigits(shown);
  }

  /** `handleLineChange`: the line with the id gets the new account or the
      parsed amount; every other line is kept. */
  function ChangeLine(lines: seq<FormLine>, id: int, field: Field, value: string): (r: seq<FormLine>)
    ensures |r| == |lines|
    ensures forall i :: 0 <= i < |lines| && lines[i].id != id ==> r[i] == lines[i]
    ensures forall i :: 0 <= i < |lines| && lines[i].id == id ==> r[i].id == id
    ensures forall i :: 0 <= i < |lines| && lines[i].id == id ==>
      match field
      case AccountField => r[i] == lines[i].(account := value)
      case DebitField => r[i] == lines[i].(debit := ParseAmount(value))
      case CreditField => r[i] == lines[i].(credit := ParseAmount(value))
  {
    seq(|lines|, i requires 0 <= i < |lines| =>
      var l := lines[i];
      if l.id != id then l
      else match field
        case AccountField => l.(account := value)
        case DebitField => l.(debit := ParseAmount(value))
        case CreditField => l.(credit := ParseAmount(value)))
  }

  /** Re-entering the amount a cell shows leaves the line as it was. */
  lemma RetypeShownAmount(lines: seq<FormLine>, i: nat, n: nat)
    requires i < |lines| && DistinctIds(lines) && lines[i].debit == n as real
    ensures ChangeLine(lines, lines[i].id, DebitField, FormatInputNumber(n)) == lines
  {
    AmountRoundTrip(n);
    var r := ChangeLine(lines, lines[i].id, DebitField, FormatInputNumber(n));
    forall k | 0 <= k < |lines|
      ensures r[k] == lines[k]
    {
      if k != i {
        assert k < i ==> lines[k].id != lines[i].id;
        assert k > i ==> lines[i].id != lines[k].id;
      }
    }
  }

  function DebitOf(l: FormLine): real { l.debit }
  function CreditOf(l: FormLine): real { l.credit }

  /** `isHeaderValid`: a date and a description that is not all blanks. */
  predicate HeaderValid(f: Form)
  {
    f.date != "" && Trim(f.description) != ""
  }

  /** A line names an account and carries a positive debit or credit. */
  predicate LineValid(l: FormLine)
  {
    l.account != "" && (l.debit > 0.0 || l.credit > 0.0)
  }

  /** `isFormValid`: header, every line, and balanced positive totals. */
  predicate IsFormValid(f: Form)
  {
    && HeaderValid(f)
    && (forall i :: 0 <= i < |f.lines| ==> LineValid(f.lines[i]))
    && Seqs.Sum(f.lines, DebitOf) > 0.0
    && Seqs.Sum(f.lines, DebitOf) == Seqs.Sum(f.lines, CreditOf)
  }

  /** A blank description alone makes the form invalid. */
  lemma BlankDescriptionInvalid(f: Form)
    requires IsBlank(f.description)
    ensures !IsFormValid(f)
  {
    TrimEmptyIffBlank(f.description);
  }

  /** Form lines as journal lines. */
  function ToLedger(lines: seq<FormLine>): (r: seq<Line>)
    ensures |r| == |lines|
    ensures forall i :: 0 <= i < |lines| ==> r[i] == Bare(lines[i].account, lines[i].debit, lines[i].credit)
  {
    seq(|lines|, i requires 0 <= i < |lines| => Bare(lines[i].account, lines[i].debit, lines[i].credit))
  }

  lemma {:induction false} ToLedgerTotals(lines: seq<FormLine>)
    ensures TotalDebit(ToLedger(lines)) == Seqs.Sum(lines, DebitOf)
    ensures TotalCredit(ToLedger(lines)) == Seqs.Sum(lines, CreditOf)
  {
    if |lines| > 0 {
      ToLedgerTotals(lines[1..]);
      assert ToLedger(lines)[1..] == ToLedger(lines[1..]);
    }
  }

  predicate HasAccount(l: FormLine) { l.account != "" }

  /** The lines sent: those with an account, as journal lines. */
  function Sent(lines: seq<FormLine>): (r: seq<Line>)
    ensures |r| <= |lines|
    ensures forall i :: 0 <= i < |r| ==> r[i].account != ""
  {
    var kept := Seqs.Filter(lines, HasAccount);
    assert forall i :: 0 <= i < |kept| ==> kept[i] in kept;
    ToLedger(kept)
  }

  /** `handleSubmit`: Posted is refused unless the form is valid; Draft goes
      through as it is. The date is sent `DD/MM/YYYY` and the number left
      for the service to generate. */
  function Submit(f: Form, status: Status): (r: Option<NewJournal>)
    ensures r.None? <==> status == Posted && !IsFormValid(f)
    ensures r.Some? ==> r.value.status == status && r.value.number == "" && r.value.description == f.description
    ensures r.Some? ==> r.value.date == IsoToDisplay(f.date) && '/' in r.value.date
    ensures r.Some? ==> r.value.lines == Sent(f.lines)
  {
    if status == Posted && !IsFormValid(f) then None
    else Some(NewJournal(IsoToDisplay(f.date), "", f.description, status, Sent(f.lines)))
  }

  /** What a Posted submission sends is a balanced, non-empty line set
      with every line of the form in it. */
  lemma PostedIsBalanced(f: Form)
    requires Submit(f, Posted).Some?
    ensures var lines := Submit(f, Posted).value.lines;
      && lines == ToLedger(f.lines)
      && Balanced(lines) && TotalDebit(lines) > 0.0
      && forall i :: 0 <= i < |lines| ==> lines[i].account != "" && (lines[i].debit > 0.0 || lines[i].credit > 0.0)
  {
    Seqs.FilterKeepsAll(f.lines, HasAccount);
    ToLedgerTotals(f.lines);
  }

  /** A Posted submission, stored by the service, keeps the picked date and
      moves the balances by a balanced line set. */
  lemma SubmitThenCreate(f: Form, b: Books, today: string, year: nat, y: string, m: string, d: string)
    requires f.date == y + "-" + m + "-" + d && PlainField(y) && PlainField(m) && PlainField(d)
    requires Submit(f, Posted).Some?
    ensures var c := CreateJournal(b, Submit(f, Posted).value, today, year);
      && c.books.journals[c.id].date == f.date
      && c.books.journals[c.id].status == Posted
      && Balanced(c.books.journals[c.id].lines)
      && c.books.accounts == AdjustBalances(b.accounts, ToLedger(f.lines), Apply)
  {
    PostedIsBalanced(f);
    DateRoundTrip(y, m, d);
    var lines := ToLedger(f.lines);
    assert IsoToDisplay(f.date) != "";
    assert BareLines(lines) == lines;
  }

  // ---------------------------------------------------------------------
  // The list

  /** A journal as the list receives it; any field may be missing. */
  datatype Row = Row(id: nat, date: Option<string>, number: Option<string>,
                     description: Option<string>, status: Option<string>)

  /** `j.f && j.f.toLowerCase().includes(search)`: an empty or missing
      field never matches. */
  predicate FieldMatches(f: Option<string>, search: string)
  {
    f.Some? && f.value != "" && Contains(ToLower(f.value), search)
  }

  /** The search box: date, number, description or status contains the
      term, ignoring case. */
  predicate RowMatches(x: Row, term: string)
  {
    var s := ToLower(term);
    FieldMatches(x.date, s) || FieldMatches(x.number, s) || FieldMatches(x.description, s) || FieldMatches(x.status, s)
  }

  predicate Filled(f: Option<string>) { f.Some? && f.value != "" }

  /** An empty search keeps exactly the rows with some non-empty field. */
  lemma EmptySearch(x: Row)
    ensures RowMatches(x, "") <==> Filled(x.date) || Filled(x.number) || Filled(x.description) || Filled(x.status)
  {
    assert ToLower("") == "";
    if x.date.Some? { ContainsEmpty(ToLower(x.date.value)); }
    if x.number.Some? { ContainsEmpty(ToLower(x.number.value)); }
    if x.description.Some? { ContainsEmpty(ToLower(x.description.value)); }
    if x.status.Some? { ContainsEmpty(ToLower(x.status.value)); }
  }

  lemma ToLowerIdempotent(s: string)
    ensures ToLower(ToLower(s)) == ToLower(s)
  {
  }

  /** The search ignores the case of the term. */
  lemma SearchIgnoresCase(x: Row, term: string)
    ensures RowMatches(x, ToLower(term)) <==> RowMatches(x, term)
  {
    ToLowerIdempotent(term);
  }

  /** Newest first by `parseDate` (see `Dates.DateKey`). */
  function NewerFirst(parse: string -> Option<int>): (Row, Row) -> bool
  {
    (a: Row, b: Row) => DateKey(b.date, parse) <= DateKey(a.date, parse)
  }

  /** The journals shown: the matching rows, newest first. */
  function Visible(rows: seq<Row>, term: string, parse: string -> Option<int>): (r: seq<Row>)
    ensures forall x :: x in r <==> x in rows && RowMatches(x, term)
    ensures Seqs.SortedBy(r, NewerFirst(parse))
    ensures forall i, j :: 0 <= i < j < |r| ==> DateKey(r[j].date, parse) <= DateKey(r[i].date, parse)
  {
    var kept := Seqs.Filter(rows, (x: Row) => RowMatches(x, term));
    var r := Seqs.Sort(kept, NewerFirst(parse));
    Seqs.SortSorted(kept, NewerFirst(parse));
    assert forall x :: x in r <==> x in multiset(r);
    assert forall x :: x in kept <==> x in multiset(kept);
    r
  }

  /** Every row that matches is shown exactly as often as it was fetched. */
  lemma VisibleKeepsCounts(rows: seq<Row>, term: string, parse: string -> Option<int>, x: Row)
    requires RowMatches(x, term)
    ensures multiset(Visible(rows, term, parse))[x] == multiset(rows)[x]
  {
    Seqs.FilterCount(rows, (y: Row) => RowMatches(y, term), x);
  }

  const Green: string := "bg-green-100 text-green-600"
  const Grey: string := "bg-gray-100 text-gray-600"
  const Red: string := "bg-red-100 text-red-600"
  const Orange: string := "bg-orange-100 text-orange-600"

  /** `getStatusColor`: each of Posted, Canceled and Reversed has its own
      colour; Draft and anything else is grey. */
  function StatusColor(status: string): (r: string)
    ensures r == Grey <==> status != "Posted" && status != "Canceled" && status != "Reversed"
    ensures r in {Green, Grey, Red, Orange}
  {
    match status
    case "Posted" => Green
    case "Draft" => Grey
    case "Canceled" => Red
    case "Reversed" => Orange
    case _ => Grey
  }

  /** Two statuses share a colour only when both are grey. */
  lemma ColorsTellApart(s: string, t: string)
    requires StatusColor(s) == StatusColor(t) && s != t
    ensures StatusColor(s) == Grey
  {
  }

  /** The per-row action: Draft rows link to the editor; every other row
      has a reversal button, enabled only for Posted. */
  datatype Action = EditLink(path: string) | CancelButton(enabled: bool)

  function RowAction(x: Row): (r: Action)
    ensures r.EditLink? <==> x.status == Some("Draft")
    ensures r.EditLink? ==> r.path == "/jurnal-umum/edit/" + NatToString(x.id)
    ensures r == CancelButton(true) <==> x.status == Some("Posted")
  {
    if x.status == Some("Draft") then EditLink("/jurnal-umum/edit/" + NatToString(x.id))
    else CancelButton(x.status == Some("Posted"))
  }

  /** A stored journal as the list shows it. */
  function RowOf(id: nat, j: Journal): Row
  {
    Row(id, Some(j.date), Some(j.number), Some(j.description), Some(j.status.Name()))
  }

  /** A status whose text is not one of the four named ones. */
  predicate Canonical(s: Status)
  {
    s.OtherStatus? ==> s.name !in {"Draft", "Posted", "Reversed", "Canceled"}
  }

  /** The reversal button is enabled exactly for the journals the service
      would reverse, and the edit link exactly for drafts. */
  lemma CancelOfferedIffReversible(b: Books, id: nat, reason: Option<string>, year: nat)
    requires id in b.journals && Canonical(b.journals[id].status)
    ensures RowAction(RowOf(id, b.journals[id])) == CancelButton(true) <==> ReverseJournal(b, id, reason, year).Ok?
    ensures RowAction(RowOf(id, b.journals[id])).EditLink? <==> b.journals[id].status == Draft
  {
  }

  /** `handleCancelJournal`: nothing is sent without a selected journal and
      a reason that is not all blanks; the reason is sent as typed. */
  function CancelRequest(selected: Option<Row>, reason: string): (r: Option<(nat, string)>)
    ensures r.None? <==> selected.None? || IsBlank(reason)
    ensures r.Some? ==> r.value == (selected.value.id, reason)
  {
    TrimEmptyIffBlank(reason);
    if selected.None? || Trim(reason) == "" then None else Some((selected.value.id, reason))
  }

  /** Selecting a Posted journal through its enabled button and giving a
      reason reverses it on the service, which records that reason. */
  lemma CancelFlow(b: Books, id: nat, reason: string, year: nat)
    requires SerialIds(b)
    requires id in b.journals && Canonical(b.journals[id].status)
    requires RowAction(RowOf(id, b.journals[id])) == CancelButton(true)
    requires !IsBlank(reason)
    ensures CancelRequest(Some(RowOf(id, b.journals[id])), reason) == Some((id, reason))
    ensures var rev := ReverseJournal(b, id, Some(reason), year);
      rev.Ok? && rev.value.books.journals[id].status == Reversed && rev.value.books.journals[id].cancelReason == Some(reason)
  {
    CancelOfferedIffReversible(b, id, Some(reason), year);
  }
}
