/** The purchase and sales tax-invoice forms: item editing, the DPP / PPN
    split, the customer de-duplication, invoice selection, validity and
    the payload each form saves. */
module TaxInvoiceForm {
  import opened Outcomes
  import opened Text
  import opened TaxSerial
  import Seqs

  // ---------------------------------------------------------------------
  // Items

  datatype TaxItem = TaxItem(id: int, name: string, qty: real, price: real, total: real)

  /** An edit of one item cell; quantity and price arrive as integers
      (`parseInt(..) || 0`). */
  datatype ItemEdit = SetName(name: string) | SetQty(qty: int) | SetPrice(price: int)

  /** An item whose total is its quantity times its price. */
  predicate Consistent(x: TaxItem) { x.total == x.qty * x.price }

  /** `updateItem`: only the items with the id change; editing quantity or
      price recomputes the total, editing the name keeps it. */
  function UpdateItem(items: seq<TaxItem>, id: int, e: ItemEdit): (r: seq<TaxItem>)
    ensures |r| == |items|
    ensures forall i :: 0 <= i < |items| && items[i].id != id ==> r[i] == items[i]
    ensures forall i :: 0 <= i < |items| && items[i].id == id ==>
      match e
      case SetName(n) => r[i] == items[i].(name := n)
      case SetQty(q) => r[i].id == id && r[i].name == items[i].name && r[i].qty == q as real && r[i].price == items[i].price
      case SetPrice(p) => r[i].id == id && r[i].name == items[i].name && r[i].qty == items[i].qty && r[i].price == p as real
    ensures forall i :: 0 <= i < |items| && items[i].id == id && !e.SetName? ==> Consistent(r[i])
  {
    seq(|items|, i requires 0 <= i < |items| =>
      var x := items[i];
      if x.id != id then x
      else match e
        case SetName(n) => x.(name := n)
        case SetQty(q) => x.(qty := q as real, total := q as real * x.price)
        case SetPrice(p) => x.(price := p as real, total := x.qty * p as real))
  }

  /** Item edits keep every item's total equal to quantity times price. */
  lemma UpdateKeepsConsistent(items: seq<TaxItem>, id: int, e: ItemEdit)
    requires forall i :: 0 <= i < |items| ==> Consistent(items[i])
    ensures forall i :: 0 <= i < |UpdateItem(items, id, e)| ==> Consistent(UpdateItem(items, id, e)[i])
  {
  }

  /** `addItem` of the sales form: an empty item at the end. */
  function AddItem(items: seq<TaxItem>, now: int): (r: seq<TaxItem>)
    ensures |r| == |items| + 1 && r[..|items|] == items
    ensures r[|items|] == TaxItem(now, "", 0.0, 0.0, 0.0) && Consistent(r[|items|])
  {
    items + [TaxItem(now, "", 0.0, 0.0, 0.0)]
  }

  predicate OtherId(id: int, x: TaxItem) { x.id != id }

  /** `removeItem`: exactly the items with the id go. */
  function RemoveItem(items: seq<TaxItem>, id: int): (r: seq<TaxItem>)
    ensures forall x :: x in r <==> x in items && x.id != id
    ensures Seqs.IsSubsequence(r, items)
  {
    Seqs.FilterIsSubsequence(items, (x: TaxItem) => OtherId(id, x));
    Seqs.Filter(items, (x: TaxItem) => OtherId(id, x))
  }

  lemma RemoveKeepsOthers(items: seq<TaxItem>, id: int, x: TaxItem)
    requires x.id != id
    ensures multiset(RemoveItem(items, id))[x] == multiset(items)[x]
  {
    Seqs.FilterCount(items, (y: TaxItem) => OtherId(id, y), x);
  }

  function ItemTotal(x: TaxItem): real { x.total }

  /** The items with ids `start`, `start + 1`, ... in order. */
  function Renumber(items: seq<TaxItem>, start: int): (r: seq<TaxItem>)
    ensures |r| == |items|
    ensures forall i :: 0 <= i < |items| ==> r[i] == items[i].(id := start + i)
  {
    seq(|items|, i requires 0 <= i < |items| => items[i].(id := start + i))
  }

  lemma RenumberDistinct(items: seq<TaxItem>, start: int)
    ensures forall i, j :: 0 <= i < j < |items| ==> Renumber(items, start)[i].id != Renumber(items, start)[j].id
  {
  }

  // ---------------------------------------------------------------------
  // Totals

  datatype PurchaseTotals = PurchaseTotals(dpp: real, ppn: int, total: real)

  /** `calculateTotals` of the purchase form: DPP is the sum of the item
      totals, PPN the DPP times the rate rounded down, and the total their sum. */
  function PurchaseTotalsOf(items: seq<TaxItem>, rate: real): (r: PurchaseTotals)
    ensures r.dpp == Seqs.Sum(items, ItemTotal)
    ensures r.ppn as real <= r.dpp * rate < r.ppn as real + 1.0
    ensures r.total == r.dpp + r.ppn as real
  {
    var dpp := Seqs.Sum(items, ItemTotal);
    var ppn := (dpp * rate).Floor;
    PurchaseTotals(dpp, ppn, dpp + ppn as real)
  }

  /** With a non-negative rate and item totals, PPN is between 0 and the
      exact tax and the total is at least the DPP. */
  lemma PurchaseTaxBounds(items: seq<TaxItem>, rate: real)
    requires rate >= 0.0
    requires forall i :: 0 <= i < |items| ==> items[i].total >= 0.0
    ensures var t := PurchaseTotalsOf(items, rate);
      0 <= t.ppn && t.ppn as real <= t.dpp * rate && t.total >= t.dpp
  {
    Seqs.SumNonNegative(items, ItemTotal);
    var dpp := Seqs.Sum(items, ItemTotal);
    assert dpp * rate >= 0.0 by { NonNegativeProduct(dpp, rate); }
  }

  lemma NonNegativeProduct(a: real, b: real)
    requires a >= 0.0 && b >= 0.0
    ensures a * b >= 0.0
  {
  }

  datatype SalesTotals = SalesTotals(dpp: int, ppn: real, total: real)

  /** `calculateTotals` of the sales form: the total is the sum of the item
      totals, DPP the total divided by 1.11 rounded down, and PPN the rest. */
  function SalesTotalsOf(items: seq<TaxItem>): (r: SalesTotals)
    ensures r.total == Seqs.Sum(items, ItemTotal)
    ensures 111.0 * r.dpp as real <= 100.0 * r.total < 111.0 * (r.dpp as real + 1.0)
    ensures r.dpp as real + r.ppn == r.total
  {
    var total := Seqs.Sum(items, ItemTotal);
    var dpp := (total * 100.0 / 111.0).Floor;
    SalesTotals(dpp, total - dpp as real, total)
  }

  /** PPN is the 11/111 share of the total, rounded up to whole Rupiah of DPP:
      never negative for a non-negative total and less than one Rupiah above
      the exact share. */
  lemma SalesTaxShare(items: seq<TaxItem>)
    requires Seqs.Sum(items, ItemTotal) >= 0.0
    ensures var t := SalesTotalsOf(items);
      && 11.0 * t.total <= 111.0 * t.ppn < 11.0 * t.total + 111.0
      && t.ppn >= 0.0
  {
  }

  // ---------------------------------------------------------------------
  // Purchase form

  /** A purchase order of the order data: supplier and items. */
  datatype PurchaseOrder = PurchaseOrder(supplier: string, items: seq<TaxItem>)

  datatype PurchaseForm = PurchaseForm(
    taxNo: string,
    taxDate: string,
    receivedDate: string,
    masaPajak: string,
    poNumber: string,
    supplier: string,
    status: string,
    items: seq<TaxItem>)

  /** `handlePoChange`: a known order fills supplier and items (ids from
      0); an unknown one clears both. */
  function ChoosePo(f: PurchaseForm, orders: map<string, PurchaseOrder>, po: string): (r: PurchaseForm)
    ensures r.poNumber == po
    ensures po in orders ==> r.supplier == orders[po].supplier && r.items == Renumber(orders[po].items, 0)
    ensures po !in orders ==> r.supplier == "" && r.items == []
    ensures r.taxNo == f.taxNo && r.taxDate == f.taxDate && r.receivedDate == f.receivedDate
  {
    if po in orders then f.(poNumber := po, supplier := orders[po].supplier, items := Renumber(orders[po].items, 0))
    else f.(poNumber := po, supplier := "", items := [])
  }

  /** `new Date(a) < new Date(b)`; `parse` stands for the platform's date
      parser and an invalid date never compares below anything. */
  predicate Before(a: string, b: string, parse: string -> Option<int>)
  {
    parse(a).Some? && parse(b).Some? && parse(a).value < parse(b).value
  }

  /** `isFormValid` of the purchase form, which gates both save buttons. */
  predicate PurchaseValid(f: PurchaseForm, parse: string -> Option<int>)
  {
    && TaxNoValid(f.taxNo, PurchaseBranches) && |f.taxNo| >= 19
    && f.poNumber != "" && |f.items| > 0
    && !Before(f.receivedDate, f.taxDate, parse)
  }

  datatype PurchasePayload = PurchasePayload(
    taxNo: string, date: string, receivedDate: string, masaPajak: string,
    poNumber: string, supplier: string, totals: PurchaseTotals, items: seq<TaxItem>,
    taxX: string, taxB: string, taxY: string, status: string)

  /** `newStatus || status || 'Draft'`. */
  function SaveStatus(newStatus: string, status: string): (r: string)
    ensures r != ""
    ensures newStatus != "" ==> r == newStatus
  {
    if newStatus != "" then newStatus else if status != "" then status else "Draft"
  }

  /** `handleSave` of the purchase form: refused on an invalid serial only;
      the serial is also sent split into its three leading groups. */
  function PurchaseSave(f: PurchaseForm, newStatus: string, rate: real): (r: Option<PurchasePayload>)
    ensures r.None? <==> !TaxNoValid(f.taxNo, PurchaseBranches)
    ensures r.Some? ==> (r.value.taxX, r.value.taxB, r.value.taxY) == Parts(f.taxNo)
    ensures r.Some? ==> r.value.totals == PurchaseTotalsOf(f.items, rate) && r.value.items == f.items
    ensures r.Some? ==> r.value.status == SaveStatus(newStatus, f.status)
  {
    if !TaxNoValid(f.taxNo, PurchaseBranches) then None
    else
      var p := Parts(f.taxNo);
      Some(PurchasePayload(f.taxNo, f.taxDate, f.receivedDate, f.masaPajak, f.poNumber, f.supplier,
                           PurchaseTotalsOf(f.items, rate), f.items, p.0, p.1, p.2, SaveStatus(newStatus, f.status)))
  }

  /** Whenever a save button is enabled the save goes through, and the
      parts sent are the series, branch and year digits of a complete serial. */
  lemma EnabledPurchaseSaves(f: PurchaseForm, value: string, newStatus: string, rate: real, parse: string -> Option<int>)
    requires f.taxNo == FormatTaxNo(value)
    requires PurchaseValid(f, parse)
    ensures PurchaseSave(f, newStatus, rate).Some?
    ensures var n := SerialDigits(value);
      var p := PurchaseSave(f, newStatus, rate).value;
      |n| == 16 && p.taxX == n[..3] && p.taxB == n[3..6] && p.taxY == n[6..8]
      && p.taxX in Series && p.taxB in PurchaseBranches && p.taxY == CurrentYear
  {
    CompleteParts(value);
  }

  // ---------------------------------------------------------------------
  // Sales form

  datatype Customer = Customer(id: int, name: string)

  predicate DistinctNames(cs: seq<Customer>)
  {
    forall i, j :: 0 <= i < j < |cs| ==> cs[i].name != cs[j].name
  }

  predicate HasName(cs: seq<Customer>, n: string)
  {
    exists i :: 0 <= i < |cs| && cs[i].name == n
  }

  /** The last customer in `cs` with name `n`. */
  function LastWithName(cs: seq<Customer>, n: string): (r: Customer)
    requires HasName(cs, n)
    ensures r in cs && r.name == n
  {
    if cs[|cs| - 1].name == n then cs[|cs| - 1]
    else
      assert HasName(cs[..|cs| - 1], n) by {
        var i :| 0 <= i < |cs| && cs[i].name == n;
        assert cs[..|cs| - 1][i].name == n;
      }
      LastWithName(cs[..|cs| - 1], n)
  }

  /** `Map.set(c.name, c)`: replaces the entry with that name in place, or
      appends one. */
  function Upsert(acc: seq<Customer>, c: Customer): (r: seq<Customer>)
    requires DistinctNames(acc)
    ensures DistinctNames(r)
    ensures forall x :: x in r <==> x == c || (x in acc && x.name != c.name)
  {
    if |acc| == 0 then [c]
    else if acc[0].name == c.name then
      assert forall x :: x in acc[1..] ==> x.name != c.name by {
        forall x | x in acc[1..] ensures x.name != c.name {
          var k :| 0 <= k < |acc[1..]| && acc[1..][k] == x;
          assert acc[k + 1] == x;
        }
      }
      [c] + acc[1..]
    else
      var rest := Upsert(acc[1..], c);
      assert forall x :: x in rest ==> x.name != acc[0].name by {
        forall x | x in rest ensures x.name != acc[0].name {
          if x != c {
            var k :| 0 <= k < |acc[1..]| && acc[1..][k] == x;
            assert acc[k + 1] == x;
          }
        }
      }
      [acc[0]] + rest
  }

  /** `uniqueCustomers`: at most one entry per name. */
  function UniqueCustomers(cs: seq<Customer>): (r: seq<Customer>)
    ensures DistinctNames(r)
    decreases |cs|
  {
    if |cs| == 0 then [] else Upsert(UniqueCustomers(cs[..|cs| - 1]), cs[|cs| - 1])
  }

  /** A name that does not end the list keeps its last customer when one
      more customer is appended. */
  lemma LastWithNameSnoc(p: seq<Customer>, c: Customer, n: string)
    requires HasName(p, n) && n != c.name
    ensures HasName(p + [c], n) && LastWithName(p + [c], n) == LastWithName(p, n)
  {
    var k :| 0 <= k < |p| && p[k].name == n;
    assert (p + [c])[k].name == n;
    assert (p + [c])[..|p|] == p;
  }

  /** Each entry is the last customer in the list with its name. */
  lemma {:induction false} UniqueIsLast(cs: seq<Customer>)
    ensures forall x :: x in UniqueCustomers(cs) ==> HasName(cs, x.name) && x == LastWithName(cs, x.name)
    decreases |cs|
  {
    if |cs| > 0 {
      var p := cs[..|cs| - 1];
      var c := cs[|cs| - 1];
      UniqueIsLast(p);
      assert cs == p + [c];
      forall x | x in UniqueCustomers(cs)
        ensures HasName(cs, x.name) && x == LastWithName(cs, x.name)
      {
        if x == c {
          assert cs[|cs| - 1].name == c.name;
        } else {
          LastWithNameSnoc(p, c, x.name);
        }
      }
    }
  }

  /** Every name in the list has an entry. */
  lemma {:induction false} UniqueCovers(cs: seq<Customer>)
    ensures forall i :: 0 <= i < |cs| ==> exists x :: x in UniqueCustomers(cs) && x.name == cs[i].name
    decreases |cs|
  {
    if |cs| > 0 {
      var p := cs[..|cs| - 1];
      var c := cs[|cs| - 1];
      UniqueCovers(p);
      var r := UniqueCustomers(cs);
      assert c in r;
      forall i | 0 <= i < |cs|
        ensures exists x :: x in r && x.name == cs[i].name
      {
        if i < |cs| - 1 && cs[i].name != c.name {
          assert p[i] == cs[i];
          var x :| x in UniqueCustomers(p) && x.name == p[i].name;
          assert x in r;
        } else {
          assert c in r && c.name == cs[i].name;
        }
      }
    }
  }

  /** An invoice of the customer that can still be taxed. */
  datatype TradeInvoice = TradeInvoice(id: int, invoiceNo: string, number: string, total: real)

  /** `availableInvoices.find(inv => inv.id === id)`: the first invoice
      with the id. */
  function FindInvoice(invs: seq<TradeInvoice>, id: int): (r: Option<TradeInvoice>)
    ensures r.Some? ==> exists i :: Seqs.FirstWhere(invs, (v: TradeInvoice) => v.id == id, i) && invs[i] == r.value
    ensures r.Some? ==> r.value.id == id
    ensures r.None? <==> forall i :: 0 <= i < |invs| ==> invs[i].id != id
  {
    if |invs| == 0 then None
    else if invs[0].id == id then Some(invs[0])
    else
      var rest := FindInvoice(invs[1..], id);
      assert forall i :: 1 <= i < |invs| ==> invs[i] == invs[1..][i - 1];
      if rest.Some? then
        var i :| Seqs.FirstWhere(invs[1..], (v: TradeInvoice) => v.id == id, i) && invs[1..][i] == rest.value;
        Seqs.FirstWhereShift(invs, (v: TradeInvoice) => v.id == id, i);
        rest
      else rest
  }

  datatype SalesForm = SalesForm(
    taxNo: string,
    date: string,
    masaPajak: string,
    customer: string,
    invoice: Option<int>,
    items: seq<TaxItem>,
    available: seq<TradeInvoice>)

  /** `invoice_no || number`. */
  function InvoiceLabel(inv: TradeInvoice): string
  {
    if inv.invoiceNo != "" then inv.invoiceNo else inv.number
  }

  /** Choosing a customer clears the invoice and the items. */
  function ChooseCustomer(f: SalesForm, customer: string, available: seq<TradeInvoice>): (r: SalesForm)
    ensures r.customer == customer && r.invoice.None? && r.items == [] && r.available == available
    ensures r.taxNo == f.taxNo && r.date == f.date
  {
    f.(customer := customer, invoice := None, items := [], available := available)
  }

  /** `handleInvoiceChange`: a known invoice brings its preset items
      (renumbered from 1) or else one line for the whole invoice; an
      unknown one leaves the items as they were. */
  function ChooseInvoice(f: SalesForm, id: int, presets: map<string, seq<TaxItem>>): (r: SalesForm)
    ensures r.invoice == Some(id) && r.customer == f.customer && r.available == f.available && r.taxNo == f.taxNo
    ensures FindInvoice(f.available, id).None? ==> r.items == f.items
    ensures FindInvoice(f.available, id).Some? && InvoiceLabel(FindInvoice(f.available, id).value) in presets ==>
      r.items == Renumber(presets[InvoiceLabel(FindInvoice(f.available, id).value)], 1)
    ensures FindInvoice(f.available, id).Some? && InvoiceLabel(FindInvoice(f.available, id).value) !in presets ==>
      var inv := FindInvoice(f.available, id).value;
      r.items == [TaxItem(1, "Penjualan atas Invoice " + InvoiceLabel(inv), 1.0, inv.total, inv.total)]
  {
    match FindInvoice(f.available, id)
    case None => f.(invoice := Some(id))
    case Some(inv) =>
      var tag := InvoiceLabel(inv);
      if tag in presets then f.(invoice := Some(id), items := Renumber(presets[tag], 1))
      else f.(invoice := Some(id), items := [TaxItem(1, "Penjualan atas Invoice " + tag, 1.0, inv.total, inv.total)])
  }

  function Abs(x: real): real { if x < 0.0 then -x else x }

  /** `isFormValid` of the sales form: a complete valid serial, a customer,
      an invoice and items, and, when the invoice is among those offered,
      a total within one Rupiah of it. */
  predicate SalesValid(f: SalesForm)
  {
    && TaxNoValid(f.taxNo, SalesBranches) && |f.taxNo| >= 19
    && f.customer != "" && f.invoice.Some? && |f.items| > 0
    && (FindInvoice(f.available, f.invoice.value).Some? ==>
          Abs(SalesTotalsOf(f.items).total - FindInvoice(f.available, f.invoice.value).value.total) <= 1.0)
  }

  datatype SalesPayload = SalesPayload(
    taxNo: string, date: string, masaPajak: string, customer: string, invoice: int,
    totals: SalesTotals, status: string)

  /** `handleSave` of the sales form: nothing is sent unless the form is valid. */
  function SalesSave(f: SalesForm, status: string): (r: Option<SalesPayload>)
    ensures r.None? <==> !SalesValid(f)
    ensures r.Some? ==> r.value.totals == SalesTotalsOf(f.items) && r.value.invoice == f.invoice.value
    ensures r.Some? ==> r.value.totals.dpp as real + r.value.totals.ppn == r.value.totals.total
    ensures r.Some? ==> r.value.status == status && r.value.taxNo == f.taxNo
  {
    if !SalesValid(f) then None
    else Some(SalesPayload(f.taxNo, f.date, f.masaPajak, f.customer, f.invoice.value, SalesTotalsOf(f.items), status))
  }

  /** Choosing an offered invoice that has no preset items makes the form
      valid (given a complete valid serial and a customer), and the saved
      total is the invoice's total. */
  lemma ChooseInvoiceThenSave(f: SalesForm, id: int, presets: map<string, seq<TaxItem>>, status: string)
    requires TaxNoValid(f.taxNo, SalesBranches) && |f.taxNo| >= 19 && f.customer != ""
    requires FindInvoice(f.available, id).Some?
    requires InvoiceLabel(FindInvoice(f.available, id).value) !in presets
    ensures var g := ChooseInvoice(f, id, presets);
      SalesSave(g, status).Some? && SalesSave(g, status).value.totals.total == FindInvoice(f.available, id).value.total
  {
    var g := ChooseInvoice(f, id, presets);
    var inv := FindInvoice(f.available, id).value;
    assert Seqs.Sum(g.items, ItemTotal) == inv.total;
  }
}
