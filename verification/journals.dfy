/** The posting engine: creating, updating and reversing journals, with
    the account balances kept as the projection of the Posted journals.
    Every call is atomic: it either returns the new books or an error, and
    an error carries no state, so a failed call leaves the books as they
    were. The current date and year are parameters. */
module Journals {
  import opened Outcomes
  import opened Text
  import opened Ledger
  import opened Books
  import opened Dates

  /** Only `Posted` journals are reflected in the balances. */
  predicate IsImpactful(s: Status)
  {
    s == Posted
  }

  /** Lines as the service stores them: account, debit and credit only. */
  function BareLines(lines: seq<Line>): (r: seq<Line>)
    ensures |r| == |lines|
    ensures forall i :: 0 <= i < |lines| ==> r[i] == Bare(lines[i].account, lines[i].debit, lines[i].credit)
  {
    if |lines| == 0 then [] else [Bare(lines[0].account, lines[0].debit, lines[0].credit)] + BareLines(lines[1..])
  }

  /** Dropping memo, department and project does not change the balance
      effect of a line set. */
  lemma {:induction false} NetBare(id: string, kind: AccountType, lines: seq<Line>)
    ensures Net(id, kind, BareLines(lines)) == Net(id, kind, lines)
  {
    if |lines| > 0 {
      NetBare(id, kind, lines[1..]);
      assert BareLines(lines)[1..] == BareLines(lines[1..]);
    }
  }

  lemma AdjustBare(accts: Accounts, lines: seq<Line>, dir: Direction)
    ensures AdjustBalances(accts, BareLines(lines), dir) == AdjustBalances(accts, lines, dir)
  {
    forall id | id in accts
      ensures dir.Scale(Net(id, accts[id].kind, BareLines(lines))) == dir.Scale(Net(id, accts[id].kind, lines))
    {
      NetBare(id, accts[id].kind, lines);
    }
    SameEffect(accts, BareLines(lines), dir, lines, dir);
  }

  /** Posting `lines` when the status is impactful; nothing otherwise. */
  function PostIf(accts: Accounts, status: Status, lines: seq<Line>, dir: Direction): (r: Accounts)
    ensures !IsImpactful(status) ==> r == accts
    ensures IsImpactful(status) ==> r == AdjustBalances(accts, lines, dir)
  {
    if IsImpactful(status) then AdjustBalances(accts, lines, dir) else accts
  }

  /** The journal data a caller hands to `createJournal`; an empty date
      or number stands for a missing one. */
  datatype NewJournal = NewJournal(
    date: string,
    number: string,
    description: string,
    status: Status,
    lines: seq<Line>)

  datatype Created = Created(books: Books, id: nat)

  /** `createJournalWithClient`: date defaulting and `DD/MM/YYYY`
      normalisation, number generation, header and bare lines stored under
      the next id, balances adjusted iff the status is Posted. The lines
      are stored as given, balanced or not. */
  function CreateJournal(b: Books, input: NewJournal, today: string, year: nat): (r: Created)
    ensures r.id == b.nextJournal && r.books.nextJournal == b.nextJournal + 1
    ensures r.id in r.books.journals
    ensures r.books.journals[r.id].lines == BareLines(input.lines)
    ensures r.books.journals[r.id].status == input.status
    ensures r.books.journals[r.id].date == DisplayToIso(if input.date == "" then today else input.date)
    ensures input.number != "" ==> r.books.journals[r.id].number == input.number
    ensures input.number == "" ==> r.books.journals[r.id].number == NextJournalNumber(b, year)
    ensures forall id :: id in b.journals && id != r.id ==> id in r.books.journals && r.books.journals[id] == b.journals[id]
    ensures r.books.accounts == PostIf(b.accounts, input.status, input.lines, Apply)
    ensures r.books.payments == b.payments && r.books.receipts == b.receipts && r.books.invoices == b.invoices
  {
    var date := DisplayToIso(if input.date == "" then today else input.date);
    var number := if input.number != "" then input.number else NextJournalNumber(b, year);
    var j := Journal(date, number, input.description, input.status, None, None, BareLines(input.lines));
    var accts := PostIf(b.accounts, input.status, input.lines, Apply);
    Created(b.(journals := b.journals[b.nextJournal := j], nextJournal := b.nextJournal + 1, accounts := accts), b.nextJournal)
  }

  /** Creating a journal keeps ids serial. */
  lemma CreateKeepsSerial(b: Books, input: NewJournal, today: string, year: nat)
    requires SerialIds(b)
    ensures SerialIds(CreateJournal(b, input, today, year).books)
    ensures b.nextJournal !in b.journals
  {
  }

  /** With a generated number, the year's count grows by one, so the next
      generated number differs from this one. */
  lemma CreateAdvancesNumbering(b: Books, input: NewJournal, today: string, year: nat)
    requires SerialIds(b)
    requires input.number == ""
    ensures var after := CreateJournal(b, input, today, year).books;
      |JournalsNumbered(after.journals, JournalPrefix(year))| == |JournalsNumbered(b.journals, JournalPrefix(year))| + 1
    ensures NextJournalNumber(CreateJournal(b, input, today, year).books, year) != NextJournalNumber(b, year)
  {
    var r := CreateJournal(b, input, today, year);
    assert b.nextJournal !in b.journals;
    JournalsNumberedInsert(b.journals, b.nextJournal, r.books.journals[r.id], JournalPrefix(year));
    var c := |JournalsNumbered(b.journals, JournalPrefix(year))|;
    if NextJournalNumber(r.books, year) == NextJournalNumber(b, year) {
      JournalNumberInjective(year, c + 1, c);
    }
  }

  /** The fields `updateJournal` receives; `lines == None` means the
      request carried no line set (an empty one is still a line set). */
  datatype JournalChange = JournalChange(
    date: string,
    description: string,
    status: Status,
    cancelReason: Option<string>,
    lines: Option<seq<Line>>)

  /** `updateJournal`: overwrite description, status and cancel reason,
      the date only when one is given, the lines only when a set is given;
      then un-post the old lines if the old status was Posted and post the
      new (or kept) lines if the new status is Posted. Any status change is
      accepted. An unknown id fails. */
  function UpdateJournal(b: Books, id: nat, change: JournalChange): (r: Result<Books, string>)
    ensures id !in b.journals <==> r.Err?
    ensures r.Ok? ==> r.value.journals.Keys == b.journals.Keys && r.value.nextJournal == b.nextJournal
    ensures r.Ok? ==> forall k :: k in b.journals && k != id ==> r.value.journals[k] == b.journals[k]
    ensures r.Ok? ==> r.value.journals[id].number == b.journals[id].number
  {
    if id !in b.journals then Err("journal not found")
    else
      var prev := b.journals[id];
      var date := if change.date == "" then prev.date else DisplayToIso(change.date);
      var lines := if change.lines.Some? then BareLines(change.lines.value) else prev.lines;
      var j := prev.(date := date, description := change.description, status := change.status,
                    cancelReason := change.cancelReason, lines := lines);
      var undone := PostIf(b.accounts, prev.status, prev.lines, Undo);
      var redone := PostIf(undone, change.status, change.lines.GetOr(prev.lines), Apply);
      Ok(b.(journals := b.journals[id := j], accounts := redone))
  }

  /** What an update writes: the new lines only when a set is given, the
      new date only when one is given, and the balances with the old
      lines un-posted and the new ones posted according to the statuses. */
  lemma UpdateJournalEffect(b: Books, id: nat, change: JournalChange)
    requires id in b.journals
    ensures var r := UpdateJournal(b, id, change).value;
      var prev := b.journals[id];
      && r.journals[id].lines == (if change.lines.Some? then BareLines(change.lines.value) else prev.lines)
      && r.journals[id].date == (if change.date == "" then prev.date else DisplayToIso(change.date))
      && r.journals[id].status == change.status
      && r.accounts == PostIf(PostIf(b.accounts, prev.status, prev.lines, Undo),
                              change.status, change.lines.GetOr(prev.lines), Apply)
  {
  }

  /** Re-saving a Posted journal as Posted without new lines, or a
      non-Posted journal as non-Posted, leaves every balance unchanged. */
  lemma UpdateKeepsBalances(b: Books, id: nat, change: JournalChange)
    requires id in b.journals
    requires (b.journals[id].status == Posted && change.status == Posted && change.lines.None?)
          || (b.journals[id].status != Posted && change.status != Posted)
    ensures UpdateJournal(b, id, change).Ok?
    ensures UpdateJournal(b, id, change).value.accounts == b.accounts
  {
    var prev := b.journals[id];
    if prev.status == Posted {
      AdjustBalancesInverse(b.accounts, prev.lines, Undo);
    }
  }

  /** Re-saving a Posted journal as Posted with the lines it already has
      (as stored) also leaves every balance unchanged. */
  lemma UpdateSameLinesKeepsBalances(b: Books, id: nat, change: JournalChange)
    requires id in b.journals && b.journals[id].status == Posted
    requires change.status == Posted && change.lines == Some(b.journals[id].lines)
    ensures UpdateJournal(b, id, change).value.accounts == b.accounts
  {
    AdjustBalancesInverse(b.accounts, b.journals[id].lines, Undo);
  }

  /** Moving a Posted journal to any other status is a pure un-posting. */
  lemma UpdateUnposts(b: Books, id: nat, change: JournalChange)
    requires id in b.journals && b.journals[id].status == Posted && change.status != Posted
    ensures UpdateJournal(b, id, change).value.accounts == AdjustBalances(b.accounts, b.journals[id].lines, Undo)
  {
  }

  /** Posting a Draft is the same as creating it Posted: its lines are
      applied once. */
  lemma UpdatePostsDraft(b: Books, id: nat, change: JournalChange)
    requires id in b.journals && b.journals[id].status != Posted && change.status == Posted
    ensures UpdateJournal(b, id, change).value.accounts
         == AdjustBalances(b.accounts, change.lines.GetOr(b.journals[id].lines), Apply)
  {
  }

  /** `reverseJournal`: only an existing Posted journal can be reversed.
      The original becomes Reversed with the given reason, its lines are
      un-posted, and a Draft with the same date and description, the next
      generated number and every line's debit and credit swapped is stored
      under the next id, which is returned. */
  function ReverseJournal(b: Books, id: nat, reason: Option<string>, year: nat): (r: Result<Created, string>)
    ensures r.Err? <==> id !in b.journals || b.journals[id].status != Posted
    ensures r.Ok? ==> r.value.id == b.nextJournal && r.value.books.nextJournal == b.nextJournal + 1
    ensures r.Ok? ==> r.value.books.accounts == AdjustBalances(b.accounts, b.journals[id].lines, Undo)
    ensures r.Ok? ==> r.value.books.payments == b.payments && r.value.books.receipts == b.receipts
    ensures r.Ok? ==> r.value.books.invoices == b.invoices && r.value.books.customers == b.customers
  {
    if id !in b.journals then Err("Journal not found")
    else
      var orig := b.journals[id];
      if orig.status != Posted then Err("Only Posted journals can be reversed")
      else
        var number := NextJournalNumber(b, year);
        var marked := b.journals[id := orig.(status := Reversed, cancelReason := reason)];
        var mirror := Journal(orig.date, number, orig.description, Draft, None, None, Swapped(orig.lines));
        var accts := PostIf(b.accounts, orig.status, orig.lines, Undo);
        Ok(Created(b.(journals := marked[b.nextJournal := mirror], nextJournal := b.nextJournal + 1, accounts := accts),
                   b.nextJournal))
  }

  /** What a reversal stores: the original marked Reversed with the reason,
      and under the next id a Draft mirror with the next number and the
      lines swapped. */
  lemma ReverseJournalEffect(b: Books, id: nat, reason: Option<string>, year: nat)
    requires ReverseJournal(b, id, reason, year).Ok?
    ensures var orig := b.journals[id];
      ReverseJournal(b, id, reason, year).value.books.journals
        == b.journals[id := orig.(status := Reversed, cancelReason := reason)]
                     [b.nextJournal := Journal(orig.date, NextJournalNumber(b, year), orig.description,
                                               Draft, None, None, Swapped(orig.lines))]
  {
  }

  /** Creating a Posted journal and reversing it returns every balance to
      its value before the posting. */
  lemma CreateThenReverse(b: Books, input: NewJournal, today: string, year: nat, reason: Option<string>)
    requires SerialIds(b)
    requires input.status == Posted
    ensures var c := CreateJournal(b, input, today, year);
      var rev := ReverseJournal(c.books, c.id, reason, year);
      rev.Ok? && rev.value.books.accounts == b.accounts
  {
    var c := CreateJournal(b, input, today, year);
    AdjustBare(AdjustBalances(b.accounts, input.lines, Apply), input.lines, Undo);
    AdjustBalancesInverse(b.accounts, input.lines, Apply);
  }

  /** A second reversal of the same journal is refused. */
  lemma ReverseOnce(b: Books, id: nat, reason: Option<string>, year: nat, reason2: Option<string>, year2: nat)
    requires ReverseJournal(b, id, reason, year).Ok?
    ensures ReverseJournal(ReverseJournal(b, id, reason, year).value.books, id, reason2, year2).Err?
  {
    var r := ReverseJournal(b, id, reason, year).value.books;
    if id == b.nextJournal {
      assert r.journals[id].status == Draft;
    } else {
      assert r.journals[id].status == Reversed;
    }
  }

  /** Posting the Draft mirror a reversal spawns (an update to Posted that
      keeps its lines) un-posts the original lines a second time: the
      books then carry the original's effect negated, not zero. */
  lemma PostingMirrorUndoesAgain(b: Books, id: nat, reason: Option<string>, year: nat, change: JournalChange)
    requires ReverseJournal(b, id, reason, year).Ok?
    requires change.status == Posted && change.lines.None?
    ensures var c := ReverseJournal(b, id, reason, year).value;
      var u := UpdateJournal(c.books, c.id, change);
      u.Ok? && u.value.accounts == AdjustBalances(AdjustBalances(b.accounts, b.journals[id].lines, Undo), b.journals[id].lines, Undo)
  {
    var c := ReverseJournal(b, id, reason, year).value;
    SwappedUndoes(c.books.accounts, b.journals[id].lines, Apply);
  }

  /** `getVoucherCount`: receipts are counted for `KTMC` prefixes, payments
      for `KK` prefixes, journals for everything else. */
  function VoucherCount(b: Books, prefix: string): (r: nat)
    ensures StartsWith(prefix, "KTMC") ==> r == |ReceiptsNumbered(b.receipts, prefix)|
    ensures !StartsWith(prefix, "KTMC") && StartsWith(prefix, "KK") ==> r == |PaymentsNumbered(b.payments, prefix)|
    ensures !StartsWith(prefix, "KTMC") && !StartsWith(prefix, "KK") ==> r == |JournalsNumbered(b.journals, prefix)|
  {
    if StartsWith(prefix, "KTMC") then |ReceiptsNumbered(b.receipts, prefix)|
    else if StartsWith(prefix, "KK") then |PaymentsNumbered(b.payments, prefix)|
    else |JournalsNumbered(b.journals, prefix)|
  }
}
