/** Recording a customer payment against sales invoices (`recordPayment`):
    every allocation updates one invoice's paid amount and status, and,
    when any cash was allocated, one Posted journal records cash, discount,
    receivable and overpayment. */
module InvoicePayments {
  import opened Outcomes
  import Seqs
  import opened Text
  import opened Ledger
  import opened Books
  import opened Journals

  /** The receivable account (Piutang Usaha) and the customer-deposit
      account that takes overpayments (Titipan Pelanggan). */
  const Receivable: string := "112.000"
  const Deposit: string := "212.000"

  /** An entry of the discount catalogue. */
  datatype Discount = Discount(code: string, percentage: real)

  datatype Allocation = Allocation(invoice: nat, amount: real)

  datatype PaymentEntry = PaymentEntry(
    customer: nat,
    date: string,
    account: string,
    discountCode: string,
    allocations: seq<Allocation>)

  /** `discounts.find(item => item.code === code)`: the first entry with
      the code. */
  function FindDiscount(catalogue: seq<Discount>, code: string): (r: Option<Discount>)
    ensures r.Some? ==> exists i :: Seqs.FirstWhere(catalogue, (d: Discount) => d.code == code, i) && catalogue[i] == r.value
    ensures r.Some? ==> r.value.code == code
    ensures r.None? ==> forall i :: 0 <= i < |catalogue| ==> catalogue[i].code != code
  {
    if |catalogue| == 0 then None
    else if catalogue[0].code == code then Some(catalogue[0])
    else
      var r := FindDiscount(catalogue[1..], code);
      if r.Some? then
        var i :| Seqs.FirstWhere(catalogue[1..], (d: Discount) => d.code == code, i) && catalogue[1..][i] == r.value;
        Seqs.FirstWhereShift(catalogue, (d: Discount) => d.code == code, i);
        r
      else r
  }

  /** The discount percentage: 0 without a code or for an unknown code. */
  function DiscountPercent(catalogue: seq<Discount>, code: string): (p: real)
    ensures code == "" ==> p == 0.0
    ensures code != "" && FindDiscount(catalogue, code).Some? ==> p == FindDiscount(catalogue, code).value.percentage
    ensures (forall i :: 0 <= i < |catalogue| ==> catalogue[i].code != code) ==> p == 0.0
    ensures p != 0.0 ==> exists i :: 0 <= i < |catalogue| && catalogue[i].code == code && catalogue[i].percentage == p
  {
    if code == "" then 0.0
    else match FindDiscount(catalogue, code)
      case None => 0.0
      case Some(d) => d.percentage
  }

  function Min(a: real, b: real): real { if a <= b then a else b }

  function Max(a: real, b: real): real { if a >= b then a else b }

  /** The share of the logical payment that is paid in cash. */
  function CashShare(p: real): real { 1.0 - p / 100.0 }

  /** The amount a cash payment settles: with a discount of `p`%, the cash
      is the discounted price, so the logical payment is cash / (1 - p/100). */
  function LogicalPayment(cash: real, p: real): (r: real)
    requires p != 100.0
    ensures p <= 0.0 ==> r == cash
    ensures p > 0.0 ==> r * CashShare(p) == cash
  {
    if p > 0.0 then cash / CashShare(p) else cash
  }

  /** The running state of the allocation loop. */
  datatype Allocated = Allocated(invoices: map<nat, Invoice>, cash: real, discount: real, overpaid: real)

  /** The error a 100% discount meets: the source divides the cash by
      `1 - 100/100`, which has no value among the reals. */
  const NoLogicalPayment: string := "discount of 100% has no logical payment"

  /** The paid-status rule with its rounding tolerance of one Rupiah. */
  function PaidStatus(paid: real, total: real): (s: string)
    ensures s == "Paid" <==> paid >= total - 1.0
    ensures s == "Paid" || s == "Partially Paid"
  {
    if paid >= total - 1.0 then "Paid" else "Partially Paid"
  }

  /** One allocation: apply up to the outstanding amount, the rest is
      overpayment. An unknown invoice fails the whole call, and so does a
      100% discount (see `NoLogicalPayment`). */
  function Step(st: Allocated, a: Allocation, p: real): (r: Result<Allocated, string>)
    ensures r.Err? <==> a.invoice !in st.invoices || p == 100.0
    ensures r.Ok? ==> r.value.invoices.Keys == st.invoices.Keys
    ensures r.Ok? ==> forall k :: k in st.invoices && k != a.invoice ==> r.value.invoices[k] == st.invoices[k]
  {
    if a.invoice !in st.invoices then Err("invoice not found")
    else if p == 100.0 then Err(NoLogicalPayment)
    else
      var inv := st.invoices[a.invoice];
      var outstanding := inv.total - inv.paid;
      var logical := LogicalPayment(a.amount, p);
      var disc := if p > 0.0 then logical - a.amount else 0.0;
      var apply := Min(logical, outstanding);
      var excess := Max(0.0, logical - outstanding);
      var paid := inv.paid + apply;
      Ok(Allocated(st.invoices[a.invoice := inv.(paid := paid, status := PaidStatus(paid, inv.total))],
                   st.cash + a.amount, st.discount + disc, st.overpaid + excess))
  }

  /** After an allocation the invoice reads Paid exactly when its paid
      amount is within one Rupiah of its total, and a logical payment that
      covers what was outstanding always makes it Paid. */
  lemma StepStatus(st: Allocated, a: Allocation, p: real)
    requires Step(st, a, p).Ok?
    ensures var before := st.invoices[a.invoice];
      var after := Step(st, a, p).value.invoices[a.invoice];
      && (after.status == "Paid" || after.status == "Partially Paid")
      && (after.status == "Paid" <==> after.paid >= after.total - 1.0)
      && (LogicalPayment(a.amount, p) >= before.total - before.paid ==> after.status == "Paid")
  {
  }

  /** What one allocation does to its invoice and to the running totals. */
  lemma StepEffect(st: Allocated, a: Allocation, p: real)
    requires p != 100.0 && a.invoice in st.invoices
    ensures var inv := st.invoices[a.invoice];
      var outstanding := inv.total - inv.paid;
      var logical := LogicalPayment(a.amount, p);
      var r := Step(st, a, p).value;
      var applied := r.invoices[a.invoice].paid - inv.paid;
      var excess := r.overpaid - st.overpaid;
      && applied + excess == logical
      && applied <= outstanding
      && excess >= 0.0
      && (excess > 0.0 <==> logical > outstanding)
      && r.cash == st.cash + a.amount
      && r.discount - st.discount == logical - a.amount
      && r.invoices[a.invoice].status == PaidStatus(r.invoices[a.invoice].paid, inv.total)
      && r.invoices[a.invoice].total == inv.total
      && r.invoices[a.invoice].number == inv.number
  {
  }

  /** With a non-negative payment on an invoice not yet overpaid, the
      applied amount is non-negative and the new paid amount stays within
      the invoice total. */
  lemma StepWithinTotal(st: Allocated, a: Allocation, p: real)
    requires 0.0 <= p < 100.0 && a.amount >= 0.0
    requires a.invoice in st.invoices && st.invoices[a.invoice].paid <= st.invoices[a.invoice].total
    ensures var inv := st.invoices[a.invoice];
      var r := Step(st, a, p).value;
      inv.paid <= r.invoices[a.invoice].paid <= inv.total
  {
    if p > 0.0 {
      LogicalAtLeastCash(a.amount, p);
    }
  }

  /** The allocation loop over all allocations, in order. */
  function AllocateAll(st: Allocated, allocs: seq<Allocation>, p: real): (r: Result<Allocated, string>)
    ensures r.Err? <==> (p == 100.0 && |allocs| > 0) || exists i :: 0 <= i < |allocs| && allocs[i].invoice !in st.invoices
    ensures r.Ok? ==> r.value.invoices.Keys == st.invoices.Keys
    decreases |allocs|
  {
    if |allocs| == 0 then Ok(st)
    else match Step(st, allocs[0], p)
      case Err(e) => Err(e)
      case Ok(next) =>
        var rest := AllocateAll(next, allocs[1..], p);
        assert forall i :: 1 <= i < |allocs| ==> allocs[i] == allocs[1..][i - 1];
        rest
  }

  /** The journal description. */
  function Description(b: Books, entry: PaymentEntry): string
  {
    var id := NatToString(entry.customer);
    var name := if entry.customer in b.customers && b.customers[entry.customer] != "" then b.customers[entry.customer]
                else "ID: " + id;
    if |entry.allocations| == 1 then
      var inv := entry.allocations[0].invoice;
      var no := if inv in b.invoices && b.invoices[inv].number != "" then b.invoices[inv].number else "Unknown";
      "Pembayaran Invoice " + no + " - " + name
    else if |entry.allocations| > 1 then "Pembayaran beberapa invoice - " + name
    else "Penerimaan Pembayaran Pelanggan (ID: " + id + ")"
  }

  /** `[line]` when `cond` holds, nothing otherwise. */
  function LineIf(cond: bool, line: Line): (r: seq<Line>)
    ensures TotalDebit(r) == (if cond then line.debit else 0.0)
    ensures TotalCredit(r) == (if cond then line.credit else 0.0)
  {
    if cond then [line] else []
  }

  /** The journal lines: debits for the cash actually used, for the cash
      parked on the deposit account and for the discount (booked on the
      account named by the discount code); credits to the receivable and
      the deposit account. */
  function PaymentLines(t: Allocated, p: real, account: string, code: string): seq<Line>
  {
    var used := t.cash - t.overpaid * CashShare(p);
    var parked := t.cash - used;
    var receivable := t.cash + t.discount - t.overpaid;
    [Bare(account, Max(0.0, used), 0.0)]
      + LineIf(parked > 0.0, Bare(Deposit, parked, 0.0))
      + LineIf(t.discount > 0.0 && code != "", Bare(code, t.discount, 0.0))
      + LineIf(receivable > 0.0, Bare(Receivable, 0.0, receivable))
      + LineIf(t.overpaid > 0.0, Bare(Deposit, 0.0, t.overpaid))
  }

  /** `recordPayment`. With a 100% discount the source divides by zero and
      goes on with infinite or undefined amounts; the model reports
      `NoLogicalPayment` instead, as soon as there is an allocation. */
  function RecordPayment(b: Books, entry: PaymentEntry, catalogue: seq<Discount>, today: string, year: nat)
    : (r: Result<Books, string>)
    ensures DiscountPercent(catalogue, entry.discountCode) == 100.0 ==> (r.Err? <==> |entry.allocations| > 0)
    ensures DiscountPercent(catalogue, entry.discountCode) != 100.0 ==>
      (r.Err? <==> exists i :: 0 <= i < |entry.allocations| && entry.allocations[i].invoice !in b.invoices)
    ensures r.Ok? ==> r.value.invoices.Keys == b.invoices.Keys
    ensures r.Ok? ==> r.value.payments == b.payments && r.value.receipts == b.receipts
  {
    var p := DiscountPercent(catalogue, entry.discountCode);
    match AllocateAll(Allocated(b.invoices, 0.0, 0.0, 0.0), entry.allocations, p)
      case Err(e) => Err(e)
      case Ok(t) =>
        var b1 := b.(invoices := t.invoices);
        if t.cash > 0.0 then
          var lines := PaymentLines(t, p, entry.account, entry.discountCode);
          Ok(CreateJournal(b1, NewJournal(entry.date, "", Description(b1, entry), Posted, lines), today, year).books)
        else Ok(b1)
  }

  /** A journal is created only when cash was allocated, and then it is
      Posted and carries the computed lines. */
  lemma RecordPaymentJournal(b: Books, entry: PaymentEntry, catalogue: seq<Discount>, today: string, year: nat)
    requires RecordPayment(b, entry, catalogue, today, year).Ok?
    requires DiscountPercent(catalogue, entry.discountCode) != 100.0
    ensures var p := DiscountPercent(catalogue, entry.discountCode);
      var t := AllocateAll(Allocated(b.invoices, 0.0, 0.0, 0.0), entry.allocations, p).value;
      var r := RecordPayment(b, entry, catalogue, today, year).value;
      && (t.cash > 0.0 ==> r.nextJournal == b.nextJournal + 1
                               && r.journals[b.nextJournal].status == Posted
                               && r.journals[b.nextJournal].lines == BareLines(PaymentLines(t, p, entry.account, entry.discountCode)))
      && (t.cash <= 0.0 ==> r.journals == b.journals && r.nextJournal == b.nextJournal && r.accounts == b.accounts)
  {
  }

  /** The arithmetic facts behind the balance of the journal. */
  lemma LogicalAtLeastCash(cash: real, p: real)
    requires 0.0 < p < 100.0 && cash >= 0.0
    ensures LogicalPayment(cash, p) >= cash
  {
  }

  /** The overpayment of one step, valued at the cash share, never exceeds
      the cash of that step. */
  lemma ExcessWithinCash(cash: real, excess: real, p: real)
    requires 0.0 <= p < 100.0 && cash >= 0.0
    requires 0.0 <= excess <= LogicalPayment(cash, p)
    ensures excess * CashShare(p) <= cash
  {
    var k := CashShare(p);
    ScaleMonotone(excess, LogicalPayment(cash, p), k);
  }

  lemma ScaleMonotone(a: real, b: real, k: real)
    requires a <= b && k >= 0.0
    ensures a * k <= b * k
  {
  }

  lemma ScaleDistributes(a: real, b: real, k: real)
    ensures (a + b) * k == a * k + b * k
  {
  }

  /** The loop invariant behind a balanced journal. */
  ghost predicate Sound(t: Allocated, p: real)
  {
    && t.discount >= 0.0
    && t.overpaid >= 0.0
    && t.overpaid * CashShare(p) <= t.cash
    && t.overpaid <= t.cash + t.discount
    && (forall k :: k in t.invoices ==> t.invoices[k].paid <= t.invoices[k].total)
  }

  lemma StepSound(st: Allocated, a: Allocation, p: real)
    requires 0.0 <= p < 100.0 && a.amount >= 0.0
    requires Sound(st, p) && a.invoice in st.invoices
    ensures Sound(Step(st, a, p).value, p)
  {
    StepSoundTotals(st, a, p);
    StepKeepsWithinTotals(st, a, p);
  }

  /** The running totals of a sound state stay sound across one step. */
  lemma StepSoundTotals(st: Allocated, a: Allocation, p: real)
    requires 0.0 <= p < 100.0 && a.amount >= 0.0
    requires Sound(st, p) && a.invoice in st.invoices
    ensures var r := Step(st, a, p).value;
      && r.discount >= 0.0 && r.overpaid >= 0.0
      && r.overpaid * CashShare(p) <= r.cash && r.overpaid <= r.cash + r.discount
  {
    var r := Step(st, a, p).value;
    StepTotals(st, a, p);
    SoundRunningTotals(st.discount, st.overpaid, st.cash, r.discount, r.overpaid, r.cash, a.amount, p);
  }

  /** The running totals of one step keep the numeric half of the invariant. */
  lemma SoundRunningTotals(d: real, o: real, c: real, d1: real, o1: real, c1: real, amount: real, p: real)
    requires 0.0 <= p < 100.0 && amount >= 0.0
    requires d >= 0.0 && o >= 0.0 && o * CashShare(p) <= c && o <= c + d
    requires LogicalPayment(amount, p) >= amount && 0.0 <= o1 - o <= LogicalPayment(amount, p)
    requires c1 == c + amount && d1 == d + (LogicalPayment(amount, p) - amount)
    ensures d1 >= 0.0 && o1 >= 0.0 && o1 * CashShare(p) <= c1 && o1 <= c1 + d1
  {
    ExcessWithinCash(amount, o1 - o, p);
    SoundTotals(d, o, c, d1, o1, c1, amount, LogicalPayment(amount, p), CashShare(p));
  }

  /** The running totals after one step: the cash grows by the amount, the
      discount by the logical payment's surplus over it, and the
      overpayment by at most the logical payment. */
  lemma StepTotals(st: Allocated, a: Allocation, p: real)
    requires 0.0 <= p < 100.0 && a.amount >= 0.0
    requires a.invoice in st.invoices && st.invoices[a.invoice].paid <= st.invoices[a.invoice].total
    ensures var r := Step(st, a, p).value;
      var logical := LogicalPayment(a.amount, p);
      && logical >= a.amount
      && r.cash == st.cash + a.amount
      && r.discount == st.discount + (logical - a.amount)
      && 0.0 <= r.overpaid - st.overpaid <= logical
  {
    StepEffect(st, a, p);
    StepWithinTotal(st, a, p);
    if p > 0.0 {
      LogicalAtLeastCash(a.amount, p);
    }
  }

  /** The running totals keep the invariant across one step. */
  lemma SoundTotals(d: real, o: real, c: real, d1: real, o1: real, c1: real, amount: real, logical: real, k: real)
    requires d >= 0.0 && o >= 0.0 && o * k <= c && o <= c + d
    requires amount >= 0.0 && logical >= amount && 0.0 <= o1 - o <= logical && (o1 - o) * k <= amount
    requires c1 == c + amount && d1 == d + (logical - amount)
    ensures d1 >= 0.0 && o1 >= 0.0 && o1 * k <= c1 && o1 <= c1 + d1
  {
    ScaleDistributes(o, o1 - o, k);
    assert o + (o1 - o) == o1;
  }

  /** No invoice is paid past its total after one step. */
  lemma StepKeepsWithinTotals(st: Allocated, a: Allocation, p: real)
    requires 0.0 <= p < 100.0 && a.amount >= 0.0
    requires Sound(st, p) && a.invoice in st.invoices
    ensures var r := Step(st, a, p).value;
      forall k :: k in r.invoices ==> r.invoices[k].paid <= r.invoices[k].total
  {
    StepWithinTotal(st, a, p);
  }

  lemma {:induction false} AllocateAllSound(st: Allocated, allocs: seq<Allocation>, p: real)
    requires 0.0 <= p < 100.0
    requires forall i :: 0 <= i < |allocs| ==> allocs[i].amount >= 0.0
    requires Sound(st, p)
    requires AllocateAll(st, allocs, p).Ok?
    ensures Sound(AllocateAll(st, allocs, p).value, p)
    decreases |allocs|
  {
    if |allocs| > 0 {
      StepSound(st, allocs[0], p);
      AllocateAllSound(Step(st, allocs[0], p).value, allocs[1..], p);
    }
  }

  /** Debits and credits of the payment journal both equal the cash plus
      the discount, whenever the loop invariant holds. */
  lemma PaymentLinesBalanced(t: Allocated, p: real, account: string, code: string)
    requires 0.0 <= p < 100.0
    requires Sound(t, p)
    requires t.discount > 0.0 ==> code != ""
    ensures TotalDebit(PaymentLines(t, p, account, code)) == t.cash + t.discount
    ensures TotalCredit(PaymentLines(t, p, account, code)) == t.cash + t.discount
    ensures Balanced(PaymentLines(t, p, account, code))
  {
    var used := t.cash - t.overpaid * CashShare(p);
    var parked := t.cash - used;
    var receivable := t.cash + t.discount - t.overpaid;
    var l0 := [Bare(account, Max(0.0, used), 0.0)];
    var l1 := LineIf(parked > 0.0, Bare(Deposit, parked, 0.0));
    var l2 := LineIf(t.discount > 0.0 && code != "", Bare(code, t.discount, 0.0));
    var l3 := LineIf(receivable > 0.0, Bare(Receivable, 0.0, receivable));
    var l4 := LineIf(t.overpaid > 0.0, Bare(Deposit, 0.0, t.overpaid));
    SoundShares(t, p);
    assert PaymentLines(t, p, account, code) == l0 + l1 + l2 + l3 + l4;
    FiveTotals(l0, l1, l2, l3, l4);
    assert TotalDebit(l0) == Max(0.0, used) && TotalCredit(l0) == 0.0;
    FiveLineBalance(t.cash, t.discount, t.overpaid, t.overpaid * CashShare(p), code != "");
  }

  lemma FiveTotals(l0: seq<Line>, l1: seq<Line>, l2: seq<Line>, l3: seq<Line>, l4: seq<Line>)
    ensures TotalDebit(l0 + l1 + l2 + l3 + l4)
            == TotalDebit(l0) + TotalDebit(l1) + TotalDebit(l2) + TotalDebit(l3) + TotalDebit(l4)
    ensures TotalCredit(l0 + l1 + l2 + l3 + l4)
            == TotalCredit(l0) + TotalCredit(l1) + TotalCredit(l2) + TotalCredit(l3) + TotalCredit(l4)
  {
    TotalsConcat(l0, l1);
    TotalsConcat(l0 + l1, l2);
    TotalsConcat(l0 + l1 + l2, l3);
    TotalsConcat(l0 + l1 + l2 + l3, l4);
  }

  /** The arithmetic of the five lines: with the deposit share between 0
      and the cash, and the overpayment within cash plus discount, debits
      and credits both come to cash plus discount. */
  lemma FiveLineBalance(cash: real, discount: real, overpaid: real, parked: real, named: bool)
    requires discount >= 0.0 && overpaid >= 0.0 && overpaid <= cash + discount
    requires 0.0 <= parked <= cash && (discount > 0.0 ==> named)
    ensures var used := cash - parked;
      var receivable := cash + discount - overpaid;
      && Max(0.0, used) + (if cash - used > 0.0 then cash - used else 0.0)
           + (if discount > 0.0 && named then discount else 0.0) == cash + discount
      && 0.0 + (if receivable > 0.0 then receivable else 0.0) + (if overpaid > 0.0 then overpaid else 0.0)
           == cash + discount
  {
  }

  /** Under the loop invariant the cash splits into a non-negative part
      for the invoices and a non-negative part parked as deposit. */
  lemma SoundShares(t: Allocated, p: real)
    requires 0.0 <= p < 100.0
    requires Sound(t, p)
    ensures t.cash - t.overpaid * CashShare(p) >= 0.0
    ensures t.overpaid * CashShare(p) >= 0.0
  {
    ScaleMonotone(0.0, t.overpaid, CashShare(p));
  }

  /** Whatever the allocations, with non-negative cash on invoices that are
      not overpaid and a discount below 100%, the journal `recordPayment`
      posts is balanced. */
  lemma RecordPaymentBalanced(b: Books, entry: PaymentEntry, catalogue: seq<Discount>)
    requires 0.0 <= DiscountPercent(catalogue, entry.discountCode) < 100.0
    requires forall i :: 0 <= i < |entry.allocations| ==> entry.allocations[i].amount >= 0.0
    requires forall k :: k in b.invoices ==> b.invoices[k].paid <= b.invoices[k].total
    requires AllocateAll(Allocated(b.invoices, 0.0, 0.0, 0.0), entry.allocations,
                         DiscountPercent(catalogue, entry.discountCode)).Ok?
    ensures var p := DiscountPercent(catalogue, entry.discountCode);
      var t := AllocateAll(Allocated(b.invoices, 0.0, 0.0, 0.0), entry.allocations, p).value;
      Balanced(PaymentLines(t, p, entry.account, entry.discountCode))
  {
    var p := DiscountPercent(catalogue, entry.discountCode);
    var st := Allocated(b.invoices, 0.0, 0.0, 0.0);
    assert Sound(st, p);
    AllocateAllSound(st, entry.allocations, p);
    var t := AllocateAll(st, entry.allocations, p).value;
    if entry.discountCode == "" {
      DiscountNeedsCode(st, entry.allocations, p);
    }
    PaymentLinesBalanced(t, p, entry.account, entry.discountCode);
  }

  /** Without a discount no discount accrues. */
  lemma {:induction false} DiscountNeedsCode(st: Allocated, allocs: seq<Allocation>, p: real)
    requires p == 0.0 && st.discount == 0.0
    requires AllocateAll(st, allocs, p).Ok?
    ensures AllocateAll(st, allocs, p).value.discount == 0.0
    decreases |allocs|
  {
    if |allocs| > 0 {
      DiscountNeedsCode(Step(st, allocs[0], p).value, allocs[1..], p);
    }
  }

  /** The overpayment sample: paying an invoice's outstanding amount plus
      50000 without a discount parks 50000 on the deposit account (debit
      and credit) and credits the receivable with the outstanding amount. */
  lemma OverpaymentSample(inv: Invoice, id: nat, account: string)
    requires 0.0 < inv.total - inv.paid
    ensures var outstanding := inv.total - inv.paid;
      var st := Step(Allocated(map[id := inv], 0.0, 0.0, 0.0), Allocation(id, outstanding + 50000.0), 0.0).value;
      PaymentLines(st, 0.0, account, "")
        == [Bare(account, outstanding, 0.0), Bare(Deposit, 50000.0, 0.0),
            Bare(Receivable, 0.0, outstanding), Bare(Deposit, 0.0, 50000.0)]
  {
  }

  /** One allocation names its invoice and the customer; several name the
      customer only; none keeps the default text. */
  lemma DescriptionCases(b: Books, entry: PaymentEntry)
    ensures var name := if entry.customer in b.customers && b.customers[entry.customer] != ""
                        then b.customers[entry.customer] else "ID: " + NatToString(entry.customer);
      && (|entry.allocations| == 1 ==> EndsWith(Description(b, entry), " - " + name)
                                       && StartsWith(Description(b, entry), "Pembayaran Invoice "))
      && (|entry.allocations| > 1 ==> Description(b, entry) == "Pembayaran beberapa invoice - " + name)
  {
    var name := if entry.customer in b.customers && b.customers[entry.customer] != ""
                then b.customers[entry.customer] else "ID: " + NatToString(entry.customer);
    if |entry.allocations| == 1 {
      var inv := entry.allocations[0].invoice;
      var no := if inv in b.invoices && b.invoices[inv].number != "" then b.invoices[inv].number else "Unknown";
      assert Description(b, entry) == "Pembayaran Invoice " + no + (" - " + name);
      JoinEnds("Pembayaran Invoice ", no, " - " + name);
    }
  }
}
