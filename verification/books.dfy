/** The persistent state the server works on: the chart of accounts,
    journals with their lines, cash/bank payment and receipt vouchers,
    sales invoices and customers. Row ids are serial numbers. */
module Books {
  import opened Outcomes
  import opened Text
  import opened Ledger

  datatype Status = Draft | Posted | Reversed | Canceled | OtherStatus(name: string)
  {
    /** The status text as stored and displayed. */
    function Name(): string
    {
      match this
      case Draft => "Draft"
      case Posted => "Posted"
      case Reversed => "Reversed"
      case Canceled => "Canceled"
      case OtherStatus(n) => n
    }
  }

  datatype Journal = Journal(
    date: string,
    number: string,
    description: string,
    status: Status,
    cancelReason: Option<string>,
    kind: Option<string>,
    lines: seq<Line>)

  /** One detail row of a cash/bank voucher. */
  datatype CashItem = CashItem(
    account: string,
    amount: real,
    memo: Option<string>,
    department: Option<string>,
    project: Option<string>)

  datatype Payment = Payment(
    voucherNo: string,
    date: string,
    total: real,
    paidFrom: string,
    payee: string,
    checkNo: string,
    isBlankCheck: bool,
    memo: string,
    journalId: nat,
    items: seq<CashItem>)

  datatype Receipt = Receipt(
    voucherNo: string,
    date: string,
    total: real,
    setorTo: string,
    memo: string,
    journalId: nat,
    items: seq<CashItem>)

  datatype Invoice = Invoice(
    number: string,
    customer: nat,
    total: real,
    paid: real,
    status: string,
    dueDate: int)

  datatype Books = Books(
    accounts: Accounts,
    journals: map<nat, Journal>,
    nextJournal: nat,
    payments: map<nat, Payment>,
    nextPayment: nat,
    receipts: map<nat, Receipt>,
    nextReceipt: nat,
    invoices: map<nat, Invoice>,
    customers: map<nat, string>)

  /** Serial ids: every stored row has an id below the next one handed out. */
  predicate SerialIds(b: Books)
  {
    && (forall id :: id in b.journals ==> id < b.nextJournal)
    && (forall id :: id in b.payments ==> id < b.nextPayment)
    && (forall id :: id in b.receipts ==> id < b.nextReceipt)
  }

  /** Rows whose text starts with `prefix` (SQL `LIKE 'prefix%'`). */
  function JournalsNumbered(js: map<nat, Journal>, prefix: string): set<nat>
  {
    set id | id in js && StartsWith(js[id].number, prefix)
  }

  function PaymentsNumbered(ps: map<nat, Payment>, prefix: string): set<nat>
  {
    set id | id in ps && StartsWith(ps[id].voucherNo, prefix)
  }

  function ReceiptsNumbered(rs: map<nat, Receipt>, prefix: string): set<nat>
  {
    set id | id in rs && StartsWith(rs[id].voucherNo, prefix)
  }

  /** Adding a row under a fresh id grows the matching count by one exactly
      when the new row matches. */
  lemma JournalsNumberedInsert(js: map<nat, Journal>, id: nat, j: Journal, prefix: string)
    requires id !in js
    ensures |JournalsNumbered(js[id := j], prefix)|
         == |JournalsNumbered(js, prefix)| + (if StartsWith(j.number, prefix) then 1 else 0)
  {
    var before := JournalsNumbered(js, prefix);
    var after := JournalsNumbered(js[id := j], prefix);
    if StartsWith(j.number, prefix) {
      assert after == before + {id};
    } else {
      assert after == before;
    }
  }

  lemma PaymentsNumberedInsert(ps: map<nat, Payment>, id: nat, v: Payment, prefix: string)
    requires id !in ps
    ensures |PaymentsNumbered(ps[id := v], prefix)|
         == |PaymentsNumbered(ps, prefix)| + (if StartsWith(v.voucherNo, prefix) then 1 else 0)
  {
    var before := PaymentsNumbered(ps, prefix);
    var after := PaymentsNumbered(ps[id := v], prefix);
    if StartsWith(v.voucherNo, prefix) {
      assert after == before + {id};
    } else {
      assert after == before;
    }
  }

  lemma ReceiptsNumberedInsert(rs: map<nat, Receipt>, id: nat, v: Receipt, prefix: string)
    requires id !in rs
    ensures |ReceiptsNumbered(rs[id := v], prefix)|
         == |ReceiptsNumbered(rs, prefix)| + (if StartsWith(v.voucherNo, prefix) then 1 else 0)
  {
    var before := ReceiptsNumbered(rs, prefix);
    var after := ReceiptsNumbered(rs[id := v], prefix);
    if StartsWith(v.voucherNo, prefix) {
      assert after == before + {id};
    } else {
      assert after == before;
    }
  }

  /** Overwriting an existing row keeps the count when the number is kept. */
  lemma JournalsNumberedReplace(js: map<nat, Journal>, id: nat, j: Journal, prefix: string)
    requires id in js && js[id].number == j.number
    ensures JournalsNumbered(js[id := j], prefix) == JournalsNumbered(js, prefix)
  {
  }

  /** `JU-{year}-`: the prefix of generated journal numbers. */
  function JournalPrefix(year: nat): string
  {
    "JU-" + NatToString(year) + "-"
  }

  /** `String(count + 1).padStart(width, '0')`: the sequence part of a number. */
  function Sequence(count: nat, width: nat): string
  {
    PadStart(NatToString(count + 1), width, '0')
  }

  /** Distinct counts give distinct sequence parts, however wide the count. */
  lemma SequenceInjective(c1: nat, c2: nat, width: nat)
    requires Sequence(c1, width) == Sequence(c2, width)
    ensures c1 == c2
  {
    ParsePadded(c1 + 1, width);
    ParsePadded(c2 + 1, width);
  }

  /** A common prefix can be cancelled. */
  lemma PrefixCancel(p: string, s1: string, s2: string)
    requires p + s1 == p + s2
    ensures s1 == s2
  {
    assert s1 == (p + s1)[|p|..];
    assert s2 == (p + s2)[|p|..];
  }

  /** `JU-{year}-` followed by `count + 1` zero-padded to three digits. */
  function JournalNumber(year: nat, count: nat): (r: string)
    ensures StartsWith(r, JournalPrefix(year))
  {
    var p := JournalPrefix(year);
    assert (p + Sequence(count, 3))[..|p|] == p;
    p + Sequence(count, 3)
  }

  /** The number the next generated journal of `year` receives. */
  function NextJournalNumber(b: Books, year: nat): string
  {
    JournalNumber(year, |JournalsNumbered(b.journals, JournalPrefix(year))|)
  }

  /** Distinct counts give distinct journal numbers, however wide the count. */
  lemma JournalNumberInjective(year: nat, c1: nat, c2: nat)
    requires JournalNumber(year, c1) == JournalNumber(year, c2)
    ensures c1 == c2
  {
    PrefixCancel(JournalPrefix(year), Sequence(c1, 3), Sequence(c2, 3));
    SequenceInjective(c1, c2, 3);
  }
}
