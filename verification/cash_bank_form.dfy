/** The cash/bank payment page: the account pickers, the editable detail
    lines with their Rupiah amounts, the two validations run on save and
    the request handed to `createCashBankPayment`. */
module CashBankForm {
  import opened Outcomes
  import opened Text
  import opened Ledger
  import opened Books
  import opened Rupiah
  import opened ChartOfAccounts
  import opened CashBank
  import Seqs

  // ---------------------------------------------------------------------
  // Account pickers, fed by the account listing

  /** "Dibayar dari": an Active leaf under `111.` other than `111.000`. */
  predicate IsHeaderOption(x: ChartOfAccounts.Listed)
  {
    && StartsWith(x.account.code, "111.") && x.account.code != "111.000"
    && !x.hasChildren && x.account.status == Active
  }

  /** Detail lines: an Active leaf below the top level whose code starts
      with 2, 5 or 6 (liabilities and expenses). */
  predicate IsDetailOption(x: ChartOfAccounts.Listed)
  {
    && (StartsWith(x.account.code, "2") || StartsWith(x.account.code, "5") || StartsWith(x.account.code, "6"))
    && !x.hasChildren && x.account.status == Active && x.account.level > 0
  }

  function HeaderOptions(rows: seq<ChartOfAccounts.Listed>): (r: seq<ChartOfAccounts.Listed>)
    ensures forall x :: x in r <==> x in rows && IsHeaderOption(x)
    ensures Seqs.IsSubsequence(r, rows)
  {
    Seqs.FilterIsSubsequence(rows, IsHeaderOption);
    Seqs.Filter(rows, IsHeaderOption)
  }

  function DetailOptions(rows: seq<ChartOfAccounts.Listed>): (r: seq<ChartOfAccounts.Listed>)
    ensures forall x :: x in r <==> x in rows && IsDetailOption(x)
    ensures Seqs.IsSubsequence(r, rows)
  {
    Seqs.FilterIsSubsequence(rows, IsDetailOption);
    Seqs.Filter(rows, IsDetailOption)
  }

  /** No account is offered both as the paying account and as a detail. */
  lemma PickersDisjoint(x: ChartOfAccounts.Listed)
    ensures !(IsHeaderOption(x) && IsDetailOption(x))
  {
    if IsHeaderOption(x) {
      assert x.account.code[0] == "111."[0];
    }
  }

  /** Fed by `getAllAccounts`, the paying accounts offered are exactly the
      Active accounts under `111.` (other than `111.000`) that have no
      Active child. */
  lemma HeaderOptionsFromListing(b: Books, accountOrder: seq<string>, invoiceOrder: seq<nat>, id: string)
    requires Enumerates(accountOrder, b.accounts.Keys) && Enumerates(invoiceOrder, b.invoices.Keys)
    ensures var g := GetAllAccounts(b, accountOrder, invoiceOrder);
      (exists x :: x in HeaderOptions(g.1) && x.id == id) <==>
        && id in g.0.accounts && g.0.accounts[id].status == Active
        && StartsWith(g.0.accounts[id].code, "111.") && g.0.accounts[id].code != "111.000"
        && !HasActiveChild(g.0.accounts, id)
  {
    var g := GetAllAccounts(b, accountOrder, invoiceOrder);
    if id in g.0.accounts && g.0.accounts[id].status == Active
       && StartsWith(g.0.accounts[id].code, "111.") && g.0.accounts[id].code != "111.000"
       && !HasActiveChild(g.0.accounts, id) {
      var x := ChartOfAccounts.Listed(id, g.0.accounts[id], HasActiveChild(g.0.accounts, id));
      assert x in g.1 && IsHeaderOption(x);
    }
  }

  // ---------------------------------------------------------------------
  // Detail lines

  /** One detail line; `amount` is the text in the amount cell. */
  datatype PayLine = PayLine(id: int, account: string, amount: string, memo: string, department: string, project: string)

  function EmptyLine(id: int): PayLine { PayLine(id, "", "", "", "", "") }

  /** `addLine`: one empty line at the end. */
  function AddLine(lines: seq<PayLine>, now: int): (r: seq<PayLine>)
    ensures |r| == |lines| + 1 && r[..|lines|] == lines && r[|lines|] == EmptyLine(now)
  {
    lines + [EmptyLine(now)]
  }

  predicate OtherId(id: int, l: PayLine) { l.id != id }

  /** `removeLine`: every line with that id goes and every other line stays,
      in order. */
  function RemoveLine(lines: seq<PayLine>, id: int): (r: seq<PayLine>)
    ensures forall l :: l in r <==> l in lines && l.id != id
    ensures Seqs.IsSubsequence(r, lines)
  {
    Seqs.FilterIsSubsequence(lines, (l: PayLine) => OtherId(id, l));
    Seqs.Filter(lines, (l: PayLine) => OtherId(id, l))
  }

  /** Removing one id keeps every other line exactly as often as before. */
  lemma RemoveKeepsOthers(lines: seq<PayLine>, id: int, l: PayLine)
    requires l.id != id
    ensures multiset(RemoveLine(lines, id))[l] == multiset(lines)[l]
  {
    Seqs.FilterCount(lines, (x: PayLine) => OtherId(id, x), l);
  }

  /** `handleAmountChange`: the line with the id shows the typed text
      re-formatted; every other line is kept. */
  function AmountChange(lines: seq<PayLine>, id: int, value: string): (r: seq<PayLine>)
    ensures |r| == |lines|
    ensures forall i :: 0 <= i < |lines| ==>
      r[i] == (if lines[i].id == id then lines[i].(amount := FormatRupiah(value)) else lines[i])
  {
    seq(|lines|, i requires 0 <= i < |lines| =>
      if lines[i].id == id then lines[i].(amount := FormatRupiah(value)) else lines[i])
  }

  /** Typing into a cell that already shows a formatted amount and leaving
      it as is changes nothing. */
  lemma AmountChangeStable(lines: seq<PayLine>, id: int, value: string)
    ensures var once := AmountChange(lines, id, value);
      forall i :: 0 <= i < |once| && once[i].id == id ==>
        AmountChange(once, id, once[i].amount) == once
  {
    var once := AmountChange(lines, id, value);
    FormatRupiahIdempotent(value);
  }

  /** The digits of a number typed in are read back as that number. */
  lemma TypedAmount(n: nat)
    ensures ParseRupiah(FormatRupiah(NatToString(n))) == n as real
  {
    ParseFormatRupiah(n);
  }

  function LineAmount(l: PayLine): real { ParseRupiah(l.amount) }

  /** `totalAmount`: the parsed amounts of all lines. */
  function Total(lines: seq<PayLine>): real
  {
    Seqs.Sum(lines, LineAmount)
  }

  /** An empty amount cell adds nothing to the total. */
  lemma {:induction false} EmptyAmountsAddNothing(lines: seq<PayLine>, l: PayLine)
    requires l.amount == ""
    ensures Total(lines + [l]) == Total(lines)
  {
    Seqs.SumConcat(lines, [l], LineAmount);
  }

  // ---------------------------------------------------------------------
  // Validation and save

  /** The header fields of the voucher. */
  datatype Header = Header(paidFrom: string, payee: string, checkNo: string, isBlankCheck: bool, date: string, memo: string)

  const PaidFromMissing: string := "Akun \"Dibayar Dari\" harus dipilih."
  const DateMissing: string := "Tanggal harus diisi."
  const MemoMissing: string := "Memo harus diisi."
  const PayeeMissing: string := "Nama Penerima harus diisi jika bukan cek kosong."
  const NoLines: string := "Setidaknya ada satu baris transaksi."
  const AccountMissing: string := "Semua baris transaksi harus memiliki akun."
  const AmountNotPositive: string := "Jumlah pada semua baris transaksi harus lebih dari 0."
  const TotalNotPositive: string := "Total jumlah transaksi harus lebih dari 0."

  /** `isHeaderValid`: the first missing field's alert, or `None`. A payee
      is needed only for a check that is not blank. */
  function HeaderCheck(h: Header): (r: Option<string>)
    ensures r.None? <==> h.paidFrom != "" && h.date != "" && h.memo != "" && (h.isBlankCheck || h.payee != "")
    ensures h.paidFrom == "" ==> r == Some(PaidFromMissing)
    ensures r == Some(PayeeMissing) ==> h.paidFrom != "" && h.date != "" && h.memo != ""
  {
    if h.paidFrom == "" then Some(PaidFromMissing)
    else if h.date == "" then Some(DateMissing)
    else if h.memo == "" then Some(MemoMissing)
    else if !h.isBlankCheck && h.payee == "" then Some(PayeeMissing)
    else None
  }

  /** A detail line is accepted when it names an account and its amount
      parses above zero. */
  predicate LineOk(l: PayLine) { l.account != "" && ParseRupiah(l.amount) > 0.0 }

  /** The loop of `isLinesValid` from line `i` on: the alert of the first
      bad line. */
  function FirstBadLine(lines: seq<PayLine>): (r: Option<string>)
    ensures r.None? <==> forall i :: 0 <= i < |lines| ==> LineOk(lines[i])
    ensures r.Some? ==> r.value == AccountMissing || r.value == AmountNotPositive
  {
    if |lines| == 0 then None
    else if lines[0].account == "" then Some(AccountMissing)
    else if ParseRupiah(lines[0].amount) <= 0.0 then Some(AmountNotPositive)
    else
      var rest := FirstBadLine(lines[1..]);
      assert forall i :: 1 <= i < |lines| ==> lines[i] == lines[1..][i - 1];
      rest
  }

  /** `isLinesValid`: at least one line, every line accepted, a positive total. */
  function LinesCheck(lines: seq<PayLine>): (r: Option<string>)
    ensures r.None? <==> |lines| > 0 && (forall i :: 0 <= i < |lines| ==> LineOk(lines[i])) && Total(lines) > 0.0
    ensures |lines| == 0 ==> r == Some(NoLines)
  {
    if |lines| == 0 then Some(NoLines)
    else
      var bad := FirstBadLine(lines);
      if bad.Some? then bad
      else if Total(lines) <= 0.0 then Some(TotalNotPositive)
      else None
  }

  /** The total check never fires: once every line is accepted, the total
      is already positive. */
  lemma TotalCheckUnreachable(lines: seq<PayLine>)
    ensures LinesCheck(lines) != Some(TotalNotPositive)
  {
    if |lines| > 0 && FirstBadLine(lines).None? {
      Seqs.SumPositive(lines, LineAmount);
    }
  }

  /** `isSaveDisabled`. It does not look at the payee. */
  predicate SaveDisabled(saving: bool, h: Header, lines: seq<PayLine>)
  {
    || saving || h.paidFrom == "" || h.date == "" || h.memo == "" || Total(lines) == 0.0
    || (exists i :: 0 <= i < |lines| && (lines[i].account == "" || lines[i].amount == ""))
  }

  /** A voucher that passes both checks has its save button enabled. */
  lemma ValidMeansEnabled(h: Header, lines: seq<PayLine>)
    requires HeaderCheck(h).None? && LinesCheck(lines).None?
    ensures !SaveDisabled(false, h, lines)
  {
    forall i | 0 <= i < |lines|
      ensures lines[i].amount != ""
    {
      assert LineOk(lines[i]);
    }
  }

  /** The detail rows as the service receives them. */
  function Items(lines: seq<PayLine>): (r: seq<CashItem>)
    ensures |r| == |lines|
    ensures forall i :: 0 <= i < |lines| ==>
      r[i] == CashItem(lines[i].account, ParseRupiah(lines[i].amount), Some(lines[i].memo), Some(lines[i].department), Some(lines[i].project))
  {
    seq(|lines|, i requires 0 <= i < |lines| =>
      CashItem(lines[i].account, ParseRupiah(lines[i].amount), Some(lines[i].memo), Some(lines[i].department), Some(lines[i].project)))
  }

  lemma {:induction false} ItemsSum(lines: seq<PayLine>)
    ensures Seqs.Sum(Items(lines), ItemAmount) == Total(lines)
  {
    if |lines| > 0 {
      ItemsSum(lines[1..]);
      assert Items(lines)[1..] == Items(lines[1..]);
    }
  }

  /** `handleSave`: nothing is sent while saving or when a check fails;
      otherwise the voucher with the computed total and one item per line. */
  function Save(h: Header, lines: seq<PayLine>, voucherNo: string, saving: bool): (r: Option<PaymentRequest>)
    ensures r.Some? <==> HeaderCheck(h).None? && LinesCheck(lines).None? && !saving
    ensures r.Some? ==> r.value.total == Total(lines) && r.value.paidFrom == h.paidFrom && r.value.voucherNo == voucherNo
    ensures r.Some? ==> r.value.lines == Items(lines)
  {
    if HeaderCheck(h).Some? || LinesCheck(lines).Some? || saving then None
    else Some(PaymentRequest(voucherNo, h.date, Total(lines), h.paidFrom, h.payee, h.checkNo, h.isBlankCheck, h.memo, Items(lines)))
  }

  /** A saved voucher's journal is balanced, credits the paying account
      with a positive total and debits every line with a positive amount. */
  lemma SavedVoucherBalanced(h: Header, lines: seq<PayLine>, voucherNo: string)
    requires Save(h, lines, voucherNo, false).Some?
    ensures var req := Save(h, lines, voucherNo, false).value;
      && Balanced(PaymentLines(req))
      && req.total > 0.0
      && forall i :: 1 <= i < |PaymentLines(req)| ==> PaymentLines(req)[i].debit > 0.0
  {
    var req := Save(h, lines, voucherNo, false).value;
    ItemsSum(lines);
    PaymentBalancedIff(req);
    forall i | 1 <= i < |PaymentLines(req)|
      ensures PaymentLines(req)[i].debit > 0.0
    {
      assert PaymentLines(req)[i] == DebitLines(req.lines)[i - 1];
      assert LineOk(lines[i - 1]);
    }
  }
}
