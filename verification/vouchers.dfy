/** Voucher numbers for cash/bank documents: `{prefix}-{yy}` followed by
    the next sequence number, zero-padded to 5 digits for `KTMC` and to 6
    for every other prefix. */
module Vouchers {
  import opened Text
  import opened Books
  import opened Journals
  import CashBank

  /** The last two characters of the year's decimal text
      (`String(year).slice(-2)`). */
  function YearSuffix(year: nat): (r: string)
    ensures |r| <= 2 && AllDigits(r)
  {
    var s := NatToString(year);
    if |s| >= 2 then s[|s| - 2..] else s
  }

  function SearchPrefix(prefix: string, year: nat): string
  {
    prefix + "-" + YearSuffix(year)
  }

  /** Exactly the prefix `KTMC` gets 5 digits; anything else gets 6. */
  function Padding(prefix: string): (r: nat)
    ensures r == 5 <==> prefix == "KTMC"
    ensures r == 5 || r == 6
  {
    if prefix == "KTMC" then 5 else 6
  }

  /** The voucher for a given count of existing vouchers: the search
      prefix, then `count + 1` padded to the width. */
  function VoucherNumber(prefix: string, year: nat, count: nat): (r: string)
    ensures StartsWith(r, SearchPrefix(prefix, year))
    ensures r[|SearchPrefix(prefix, year)|..] == Sequence(count, Padding(prefix))
  {
    var p := SearchPrefix(prefix, year);
    var q := Sequence(count, Padding(prefix));
    assert (p + q)[..|p|] == p;
    assert (p + q)[|p|..] == q;
    p + q
  }

  /** Padding never truncates: after the search prefix come at least
      `Padding(prefix)` digits whose value is `count + 1`. */
  lemma VoucherSequence(prefix: string, year: nat, count: nat)
    ensures var r := VoucherNumber(prefix, year, count);
      var tail := r[|SearchPrefix(prefix, year)|..];
      |tail| >= Padding(prefix) && AllDigits(tail) && ParseDigits(tail) == count + 1
  {
    ParsePadded(count + 1, Padding(prefix));
  }

  /** `getVoucherNumber`: the count comes from the table the search prefix
      selects, and the number offered is one past it. */
  function GetVoucherNumber(b: Books, prefix: string, year: nat): (r: string)
    ensures StartsWith(r, SearchPrefix(prefix, year))
    ensures var tail := r[|SearchPrefix(prefix, year)|..];
      && |tail| >= Padding(prefix) && AllDigits(tail)
      && ParseDigits(tail) == VoucherCount(b, SearchPrefix(prefix, year)) + 1
  {
    var count := VoucherCount(b, SearchPrefix(prefix, year));
    VoucherSequence(prefix, year, count);
    VoucherNumber(prefix, year, count)
  }

  /** Saving a receipt under the voucher number offered for `KTMC` moves the
      next offer on by one. */
  lemma ReceiptAdvancesVoucher(b: Books, req: CashBank.ReceiptRequest, today: string, year: nat)
    requires SerialIds(b)
    requires req.voucherNo == GetVoucherNumber(b, "KTMC", year)
    ensures var after := CashBank.CreateReceipt(b, req, today, year).books;
      VoucherCount(after, SearchPrefix("KTMC", year)) == VoucherCount(b, SearchPrefix("KTMC", year)) + 1
  {
    var sp := SearchPrefix("KTMC", year);
    var v := CashBank.CreateReceipt(b, req, today, year).books.receipts[b.nextReceipt];
    assert StartsWith(sp, "KTMC") by { JoinEnds("KTMC", "-", YearSuffix(year)); }
    assert b.nextReceipt !in b.receipts;
    ReceiptsNumberedInsert(b.receipts, b.nextReceipt, v, sp);
  }

  /** Saving a payment under the voucher number offered for `KK` moves the
      next offer on by one. */
  lemma PaymentAdvancesVoucher(b: Books, req: CashBank.PaymentRequest, today: string, year: nat)
    requires SerialIds(b)
    requires req.voucherNo == GetVoucherNumber(b, "KK", year)
    ensures var after := CashBank.CreatePayment(b, req, today, year).books;
      VoucherCount(after, SearchPrefix("KK", year)) == VoucherCount(b, SearchPrefix("KK", year)) + 1
  {
    var sp := SearchPrefix("KK", year);
    var after := CashBank.CreatePayment(b, req, today, year).books;
    var v := after.payments[b.nextPayment];
    assert after.payments == b.payments[b.nextPayment := v];
    PaymentSearchPrefix(year);
    assert StartsWith(v.voucherNo, sp);
    assert b.nextPayment !in b.payments;
    PaymentsNumberedInsert(b.payments, b.nextPayment, v, sp);
  }

  /** The `KK` search prefix selects the payments table. */
  lemma PaymentSearchPrefix(year: nat)
    ensures StartsWith(SearchPrefix("KK", year), "KK") && !StartsWith(SearchPrefix("KK", year), "KTMC")
  {
    var sp := SearchPrefix("KK", year);
    JoinEnds("KK", "-", YearSuffix(year));
    assert sp[2] == '-';
  }

  /** For one prefix and year, distinct counts give distinct vouchers. */
  lemma VoucherNumberInjective(prefix: string, year: nat, c1: nat, c2: nat)
    requires VoucherNumber(prefix, year, c1) == VoucherNumber(prefix, year, c2)
    ensures c1 == c2
  {
    VoucherSequence(prefix, year, c1);
    VoucherSequence(prefix, year, c2);
  }

  /** The two documented samples: with 123 existing vouchers in 2026 the
      next receipt voucher is `KTMC-2600124` and the next payment voucher is
      `KK-26000124`. */
  lemma VoucherSamples()
    ensures VoucherNumber("KTMC", 2026, 123) == "KTMC-2600124"
    ensures VoucherNumber("KK", 2026, 123) == "KK-26000124"
  {
    ReceiptVoucherSample();
    PaymentVoucherSample();
  }

  lemma ReceiptVoucherSample()
    ensures VoucherNumber("KTMC", 2026, 123) == "KTMC-2600124"
  {
    YearSample();
    SequenceFive();
    JoinedSample("KTMC", 2026, 123, "KTMC-26", "00124");
  }

  lemma PaymentVoucherSample()
    ensures VoucherNumber("KK", 2026, 123) == "KK-26000124"
  {
    YearSample();
    SequenceSix();
    JoinedSample("KK", 2026, 123, "KK-26", "000124");
  }

  lemma JoinedSample(prefix: string, year: nat, count: nat, p: string, q: string)
    requires SearchPrefix(prefix, year) == p && Sequence(count, Padding(prefix)) == q
    ensures VoucherNumber(prefix, year, count) == p + q
  {
  }

  lemma YearSample()
    ensures YearSuffix(2026) == "26"
  {
    assert NatToString(2) == "2";
    assert NatToString(20) == "20";
    assert NatToString(202) == "202";
    assert NatToString(2026) == "2026";
  }

  lemma SequenceFive()
    ensures Sequence(123, 5) == "00124"
  {
    assert NatToString(1) == "1";
    assert NatToString(12) == "12";
    assert NatToString(124) == "124";
    assert Repeat('0', 2) == "00";
  }

  lemma SequenceSix()
    ensures Sequence(123, 6) == "000124"
  {
    assert NatToString(1) == "1";
    assert NatToString(12) == "12";
    assert NatToString(124) == "124";
    assert Repeat('0', 3) == "000";
  }
}
