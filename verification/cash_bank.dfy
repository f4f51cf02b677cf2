/** Cash/bank payment and receipt vouchers. Each stores a Posted journal
    (one cash/bank line against one line per detail row), the voucher with
    its items, and adjusts the balances with the same lines. */
module CashBank {
  import opened Outcomes
  import opened Seqs
  import opened Ledger
  import opened Books
  import opened Journals

  datatype PaymentRequest = PaymentRequest(
    voucherNo: string,
    date: string,
    total: real,
    paidFrom: string,
    payee: string,
    checkNo: string,
    isBlankCheck: bool,
    memo: string,
    lines: seq<CashItem>)

  datatype ReceiptRequest = ReceiptRequest(
    voucherNo: string,
    date: string,
    total: real,
    setorTo: string,
    memo: string,
    lines: seq<CashItem>)

  function ItemAmount(item: CashItem): real { item.amount }

  /** The detail rows as debit lines (payments) keeping memo, department
      and project. */
  function DebitLines(items: seq<CashItem>): (r: seq<Line>)
    ensures |r| == |items|
    ensures forall i :: 0 <= i < |items| ==>
      r[i] == Line(items[i].account, items[i].amount, 0.0, items[i].memo, items[i].department, items[i].project)
  {
    if |items| == 0 then []
    else [Line(items[0].account, items[0].amount, 0.0, items[0].memo, items[0].department, items[0].project)]
         + DebitLines(items[1..])
  }

  /** The detail rows as credit lines (receipts). */
  function CreditLines(items: seq<CashItem>): (r: seq<Line>)
    ensures |r| == |items|
    ensures forall i :: 0 <= i < |items| ==>
      r[i] == Line(items[i].account, 0.0, items[i].amount, items[i].memo, items[i].department, items[i].project)
  {
    if |items| == 0 then []
    else [Line(items[0].account, 0.0, items[0].amount, items[0].memo, items[0].department, items[0].project)]
         + CreditLines(items[1..])
  }

  lemma {:induction false} DebitLinesTotals(items: seq<CashItem>)
    ensures TotalDebit(DebitLines(items)) == Sum(items, ItemAmount)
    ensures TotalCredit(DebitLines(items)) == 0.0
  {
    if |items| > 0 {
      DebitLinesTotals(items[1..]);
      assert DebitLines(items)[1..] == DebitLines(items[1..]);
    }
  }

  lemma {:induction false} CreditLinesTotals(items: seq<CashItem>)
    ensures TotalCredit(CreditLines(items)) == Sum(items, ItemAmount)
    ensures TotalDebit(CreditLines(items)) == 0.0
  {
    if |items| > 0 {
      CreditLinesTotals(items[1..]);
      assert CreditLines(items)[1..] == CreditLines(items[1..]);
    }
  }

  /** The journal lines of a payment: `paidFrom` credited with the total,
      then one debit per detail row. */
  function PaymentLines(req: PaymentRequest): (r: seq<Line>)
    ensures |r| == |req.lines| + 1
    ensures r[0] == Line(req.paidFrom, 0.0, req.total, Some(req.memo), None, None)
    ensures r[1..] == DebitLines(req.lines)
  {
    [Line(req.paidFrom, 0.0, req.total, Some(req.memo), None, None)] + DebitLines(req.lines)
  }

  /** The list handed to `adjustBalances` for a payment. */
  function PaymentAdjustments(req: PaymentRequest): seq<Line>
  {
    [Bare(req.paidFrom, 0.0, req.total)] + BareLines(DebitLines(req.lines))
  }

  /** The journal lines of a receipt: `setorTo` debited with the total,
      then one credit per detail row. */
  function ReceiptLines(req: ReceiptRequest): (r: seq<Line>)
    ensures |r| == |req.lines| + 1
    ensures r[0] == Line(req.setorTo, req.total, 0.0, Some(req.memo), None, None)
    ensures r[1..] == CreditLines(req.lines)
  {
    [Line(req.setorTo, req.total, 0.0, Some(req.memo), None, None)] + CreditLines(req.lines)
  }

  function ReceiptAdjustments(req: ReceiptRequest): seq<Line>
  {
    [Bare(req.setorTo, req.total, 0.0)] + BareLines(CreditLines(req.lines))
  }

  datatype Stored = Stored(books: Books, voucherId: nat)

  /** `createCashBankPayment`. The journal date falls back to `today` but
      the voucher keeps the date exactly as sent. */
  function CreatePayment(b: Books, req: PaymentRequest, today: string, year: nat): (r: Stored)
    ensures r.voucherId == b.nextPayment && r.books.nextPayment == b.nextPayment + 1
    ensures r.books.nextJournal == b.nextJournal + 1
    ensures r.books.journals == b.journals[b.nextJournal := Journal(
              if req.date == "" then today else req.date, NextJournalNumber(b, year),
              "Pengeluaran Kas & Bank " + req.voucherNo, Posted, None, Some("Cash Payment"), PaymentLines(req))]
    ensures r.books.payments.Keys == b.payments.Keys + {r.voucherId}
    ensures forall id :: id in b.payments && id != r.voucherId ==> r.books.payments[id] == b.payments[id]
    ensures r.books.payments[r.voucherId].items == req.lines
    ensures r.books.payments[r.voucherId].journalId == b.nextJournal
    ensures r.books.payments[r.voucherId].date == req.date
    ensures r.books.accounts == AdjustBalances(b.accounts, PaymentAdjustments(req), Apply)
    ensures r.books.receipts == b.receipts && r.books.invoices == b.invoices
  {
    var j := Journal(if req.date == "" then today else req.date, NextJournalNumber(b, year),
                     "Pengeluaran Kas & Bank " + req.voucherNo, Posted, None, Some("Cash Payment"), PaymentLines(req));
    var p := Payment(req.voucherNo, req.date, req.total, req.paidFrom, req.payee, req.checkNo,
                     req.isBlankCheck, req.memo, b.nextJournal, req.lines);
    Stored(b.(journals := b.journals[b.nextJournal := j], nextJournal := b.nextJournal + 1,
              payments := b.payments[b.nextPayment := p], nextPayment := b.nextPayment + 1,
              accounts := AdjustBalances(b.accounts, PaymentAdjustments(req), Apply)),
           b.nextPayment)
  }

  /** `createCashBankReceipt`, the mirror image of a payment. */
  function CreateReceipt(b: Books, req: ReceiptRequest, today: string, year: nat): (r: Stored)
    ensures r.voucherId == b.nextReceipt && r.books.nextReceipt == b.nextReceipt + 1
    ensures r.books.nextJournal == b.nextJournal + 1
    ensures r.books.journals == b.journals[b.nextJournal := Journal(
              if req.date == "" then today else req.date, NextJournalNumber(b, year),
              "Penerimaan Kas & Bank " + req.voucherNo, Posted, None, Some("Cash Receipt"), ReceiptLines(req))]
    ensures r.books.receipts.Keys == b.receipts.Keys + {r.voucherId}
    ensures forall id :: id in b.receipts && id != r.voucherId ==> r.books.receipts[id] == b.receipts[id]
    ensures r.books.receipts[r.voucherId].items == req.lines
    ensures r.books.receipts[r.voucherId].journalId == b.nextJournal
    ensures r.books.accounts == AdjustBalances(b.accounts, ReceiptAdjustments(req), Apply)
    ensures r.books.payments == b.payments && r.books.invoices == b.invoices
  {
    var j := Journal(if req.date == "" then today else req.date, NextJournalNumber(b, year),
                     "Penerimaan Kas & Bank " + req.voucherNo, Posted, None, Some("Cash Receipt"), ReceiptLines(req));
    var v := Receipt(req.voucherNo, req.date, req.total, req.setorTo, req.memo, b.nextJournal, req.lines);
    Stored(b.(journals := b.journals[b.nextJournal := j], nextJournal := b.nextJournal + 1,
              receipts := b.receipts[b.nextReceipt := v], nextReceipt := b.nextReceipt + 1,
              accounts := AdjustBalances(b.accounts, ReceiptAdjustments(req), Apply)),
           b.nextReceipt)
  }

  /** The adjustment list is the stored journal's lines, so the balances
      move exactly as posting that journal would move them. */
  lemma PaymentPostsItsJournal(b: Books, req: PaymentRequest, today: string, year: nat)
    ensures var r := CreatePayment(b, req, today, year);
      r.books.accounts == AdjustBalances(b.accounts, r.books.journals[b.nextJournal].lines, Apply)
  {
    assert BareLines(PaymentLines(req)) == PaymentAdjustments(req) by {
      assert BareLines(PaymentLines(req))[1..] == BareLines(DebitLines(req.lines));
    }
    AdjustBare(b.accounts, PaymentLines(req), Apply);
  }

  lemma ReceiptPostsItsJournal(b: Books, req: ReceiptRequest, today: string, year: nat)
    ensures var r := CreateReceipt(b, req, today, year);
      r.books.accounts == AdjustBalances(b.accounts, r.books.journals[b.nextJournal].lines, Apply)
  {
    assert BareLines(ReceiptLines(req)) == ReceiptAdjustments(req) by {
      assert BareLines(ReceiptLines(req))[1..] == BareLines(CreditLines(req.lines));
    }
    AdjustBare(b.accounts, ReceiptLines(req), Apply);
  }

  /** A payment's journal is balanced exactly when the total equals the sum
      of the detail amounts; nothing enforces it. */
  lemma PaymentBalancedIff(req: PaymentRequest)
    ensures Balanced(PaymentLines(req)) <==> req.total == Sum(req.lines, ItemAmount)
  {
    var head := [Line(req.paidFrom, 0.0, req.total, Some(req.memo), None, None)];
    TotalsConcat(head, DebitLines(req.lines));
    DebitLinesTotals(req.lines);
  }

  lemma ReceiptBalancedIff(req: ReceiptRequest)
    ensures Balanced(ReceiptLines(req)) <==> req.total == Sum(req.lines, ItemAmount)
  {
    var head := [Line(req.setorTo, req.total, 0.0, Some(req.memo), None, None)];
    TotalsConcat(head, CreditLines(req.lines));
    CreditLinesTotals(req.lines);
  }
}
