/** The customer-payment dialog (`RecordPaymentModal`): which open invoices
    are ticked, the allocation typed for each, the discounted amount still
    owed, the totals under the table, when the save button is enabled and
    the allocations it sends to `recordPayment`. */
module PaymentModal {
  import opened Outcomes
  import opened Text
  import opened Numbers
  import opened Books
  import opened ChartOfAccounts
  import opened InvoicePayments
  import Seqs

  /** An open invoice of the chosen customer, amounts already parsed. */
  datatype OpenInvoice = OpenInvoice(id: nat, total: real, paid: real)

  /** The two objects keyed by invoice id (`selectedInvoices` and
      `allocations`) and the order in which `Object.keys` lists the first:
      integer keys come out in ascending order. */
  datatype Picks = Picks(keys: seq<nat>, selected: map<nat, bool>, allocations: map<nat, string>)

  predicate Ascending(s: seq<nat>)
  {
    forall i, j :: 0 <= i < j < |s| ==> s[i] < s[j]
  }

  /** The representation invariant: `keys` lists the keys of `selected`. */
  predicate Wf(p: Picks)
  {
    && Ascending(p.keys)
    && (forall k :: k in p.keys ==> k in p.selected)
    && (forall k :: k in p.selected ==> k in p.keys)
  }

  /** `!!selectedInvoices[id]`: a missing key reads as unticked. */
  predicate IsSelected(p: Picks, id: nat)
  {
    id in p.selected && p.selected[id]
  }

  /** Adding a key to an object: a new integer key takes its place in
      ascending order, an existing one stays where it is. */
  function AddKey(keys: seq<nat>, id: nat): (r: seq<nat>)
    requires Ascending(keys)
    ensures Ascending(r)
    ensures forall k :: k in r <==> k in keys || k == id
    ensures id in keys ==> r == keys
  {
    if |keys| == 0 then [id]
    else if id == keys[0] then keys
    else if id < keys[0] then [id] + keys
    else
      var rest := AddKey(keys[1..], id);
      assert forall k :: k in keys <==> k == keys[0] || k in keys[1..];
      assert forall i :: 0 <= i < |rest| ==> rest[i] in rest;
      [keys[0]] + rest
  }

  /** The ids of the invoices fetched. */
  function IdsOf(data: seq<OpenInvoice>): (r: set<nat>)
  {
    if |data| == 0 then {} else IdsOf(data[..|data| - 1]) + {data[|data| - 1].id}
  }

  lemma {:induction false} IdsOfIff(data: seq<OpenInvoice>, k: nat)
    ensures k in IdsOf(data) <==> exists i :: 0 <= i < |data| && data[i].id == k
    decreases |data|
  {
    if |data| > 0 {
      var front := data[..|data| - 1];
      IdsOfIff(front, k);
      if k in IdsOf(front) {
        var i :| 0 <= i < |front| && front[i].id == k;
        assert data[i] == front[i];
      }
      if exists i :: 0 <= i < |data| && data[i].id == k {
        var i :| 0 <= i < |data| && data[i].id == k;
        if i < |front| {
          assert front[i] == data[i];
        }
      }
    }
  }

  /** The state `fetchCustomerInvoices` sets up: every invoice fetched is
      listed, none is ticked, every allocation is empty. */
  function Load(data: seq<OpenInvoice>): (r: Picks)
    ensures Wf(r)
    ensures r.selected.Keys == IdsOf(data)
    ensures forall k :: k in r.selected ==> !r.selected[k] && k in r.allocations && r.allocations[k] == ""
  {
    if |data| == 0 then Picks([], map[], map[])
    else
      var p := Load(data[..|data| - 1]);
      var id := data[|data| - 1].id;
      Picks(AddKey(p.keys, id), p.selected[id := false], p.allocations[id := ""])
  }

  /** The invoices listed after loading are exactly the invoices fetched. */
  lemma LoadListsAll(data: seq<OpenInvoice>, k: nat)
    ensures k in Load(data).selected <==> exists i :: 0 <= i < |data| && data[i].id == k
  {
    IdsOfIff(data, k);
  }

  /** `handleToggleInvoice`. */
  function Toggle(p: Picks, id: nat): (r: Picks)
    requires Wf(p)
    ensures Wf(r)
    ensures IsSelected(r, id) == !IsSelected(p, id)
    ensures forall k :: k != id ==> IsSelected(r, k) == IsSelected(p, k)
    ensures r.allocations == p.allocations
  {
    p.(keys := AddKey(p.keys, id), selected := p.selected[id := !IsSelected(p, id)])
  }

  /** Ticking an invoice of the table twice leaves the dialog as it was. */
  lemma ToggleTwice(p: Picks, id: nat)
    requires Wf(p) && id in p.selected
    ensures Toggle(Toggle(p, id), id) == p
  {
    assert p.selected[id := !!p.selected[id]] == p.selected;
  }

  /** `handleAllocationChange`: only the digits typed are kept. */
  function SetAllocation(p: Picks, id: nat, value: string): (r: Picks)
    ensures id in r.allocations && AllDigits(r.allocations[id])
    ensures forall k :: k != id ==> (k in r.allocations <==> k in p.allocations)
    ensures forall k :: k != id && k in p.allocations ==> r.allocations[k] == p.allocations[k]
    ensures r.keys == p.keys && r.selected == p.selected
  {
    p.(allocations := p.allocations[id := DigitsOf(value)])
  }

  /** `parseInt(allocations[id]) || 0`. */
  function AllocationOf(p: Picks, id: nat): nat
  {
    if id in p.allocations then ParseIntOrZero(p.allocations[id]) else 0
  }

  lemma {:induction false} DigitRunAll(s: string)
    requires AllDigits(s)
    ensures DigitRun(s) == s
    decreases |s|
  {
    if |s| > 0 {
      DigitRunAll(s[1..]);
    }
  }

  /** The allocation counted for an invoice is the number made of every
      digit typed into its field. */
  lemma AllocationReadsDigits(p: Picks, id: nat, value: string)
    ensures AllocationOf(SetAllocation(p, id, value), id) == ParseDigits(DigitsOf(value))
  {
    DigitRunAll(DigitsOf(value));
  }

  /** `getDiscountedAmount`: no code or an unknown code leaves the amount
      as it is; a known code takes its percentage off and rounds. */
  function Discounted(amount: real, code: string, catalogue: seq<Discount>): (r: real)
    ensures code == "" || FindDiscount(catalogue, code).None? ==> r == amount
    ensures code != "" && FindDiscount(catalogue, code).Some? ==>
      var exact := amount * CashShare(DiscountPercent(catalogue, code));
      exact - 0.5 < r <= exact + 0.5 && r == r.Floor as real
  {
    if code == "" then amount
    else match FindDiscount(catalogue, code)
      case None => amount
      case Some(d) => Round(amount * (1.0 - d.percentage / 100.0)) as real
  }

  /** A discount between 0% and 100% never raises a whole amount and never
      makes it negative. */
  lemma DiscountWithinAmount(amount: nat, code: string, catalogue: seq<Discount>)
    requires 0.0 <= DiscountPercent(catalogue, code) <= 100.0
    ensures 0.0 <= Discounted(amount as real, code, catalogue) <= amount as real
  {
    if code != "" && FindDiscount(catalogue, code).Some? {
      DiscountedNear(amount as real, code, catalogue);
      RoundedShareWithin(amount, DiscountPercent(catalogue, code), Discounted(amount as real, code, catalogue));
    }
  }

  /** A whole number within half a unit of a share between 0% and 100% of
      `amount` lies between 0 and `amount`. */
  lemma RoundedShareWithin(amount: nat, pct: real, r: real)
    requires 0.0 <= pct <= 100.0
    requires r == r.Floor as real
    requires amount as real * CashShare(pct) - 0.5 < r <= amount as real * CashShare(pct) + 0.5
    ensures 0.0 <= r <= amount as real
  {
    var c := CashShare(pct);
    ShareWithin(amount as real, c);
    RoundedWithin(r, amount as real * c, amount);
  }

  lemma DiscountedNear(amount: real, code: string, catalogue: seq<Discount>)
    requires code != "" && FindDiscount(catalogue, code).Some?
    ensures var x := amount * CashShare(DiscountPercent(catalogue, code));
      var r := Discounted(amount, code, catalogue);
      x - 0.5 < r <= x + 0.5 && r == r.Floor as real
  {
  }

  lemma ShareWithin(amount: real, c: real)
    requires 0.0 <= amount && 0.0 <= c <= 1.0
    ensures 0.0 <= amount * c <= amount
  {
    ScaleMonotone(c, 1.0, amount);
    ScaleMonotone(0.0, c, amount);
  }

  lemma RoundedWithin(r: real, x: real, a: nat)
    requires r == r.Floor as real && x - 0.5 < r <= x + 0.5
    requires 0.0 <= x <= a as real
    ensures 0.0 <= r <= a as real
  {
  }

  /** `invoices.find(i => i.id === id)`: the first invoice with the id. */
  function Find(invoices: seq<OpenInvoice>, id: nat): (r: Option<OpenInvoice>)
    ensures r.Some? ==> exists i :: Seqs.FirstWhere(invoices, (v: OpenInvoice) => v.id == id, i) && invoices[i] == r.value
    ensures r.Some? ==> r.value.id == id
    ensures r.None? <==> forall i :: 0 <= i < |invoices| ==> invoices[i].id != id
  {
    if |invoices| == 0 then None
    else if invoices[0].id == id then Some(invoices[0])
    else
      var rest := Find(invoices[1..], id);
      assert forall i :: 1 <= i < |invoices| ==> invoices[i] == invoices[1..][i - 1];
      if rest.Some? then
        var i :| Seqs.FirstWhere(invoices[1..], (v: OpenInvoice) => v.id == id, i) && invoices[1..][i] == rest.value;
        Seqs.FirstWhereShift(invoices, (v: OpenInvoice) => v.id == id, i);
        rest
      else rest
  }

  /** `sisaTagihan`: the discounted total less what is already paid. */
  function Outstanding(inv: OpenInvoice, code: string, catalogue: seq<Discount>): real
  {
    Discounted(inv.total, code, catalogue) - inv.paid
  }

  /** The ticked invoice ids in `Object.keys` order. */
  function Chosen(p: Picks): (r: seq<nat>)
    ensures forall k :: k in r <==> k in p.keys && IsSelected(p, k)
  {
    Seqs.Filter(p.keys, (k: nat) => IsSelected(p, k))
  }

  /** `totalAllocated`. */
  function TotalAllocated(p: Picks): (r: real)
    ensures r >= 0.0
  {
    var f := (k: nat) => AllocationOf(p, k) as real;
    Seqs.SumNonNegative(Chosen(p), f);
    Seqs.Sum(Chosen(p), f)
  }

  /** What a ticked id still owes: nothing when no open invoice has it. */
  function OwedOn(invoices: seq<OpenInvoice>, id: nat, code: string, catalogue: seq<Discount>): real
  {
    match Find(invoices, id)
    case None => 0.0
    case Some(inv) => Outstanding(inv, code, catalogue)
  }

  /** `totalRemaining`. */
  function TotalRemaining(p: Picks, invoices: seq<OpenInvoice>, code: string, catalogue: seq<Discount>): real
  {
    Seqs.Sum(Chosen(p), (k: nat) => OwedOn(invoices, k, code, catalogue))
  }

  /** `sisaAlokasi`: positive when more is allocated than owed. */
  function Surplus(p: Picks, invoices: seq<OpenInvoice>, code: string, catalogue: seq<Discount>): real
  {
    TotalAllocated(p) - TotalRemaining(p, invoices, code, catalogue)
  }

  /** One ticked, known invoice whose allocation covers what it owes. */
  predicate Settles(p: Picks, invoices: seq<OpenInvoice>, code: string, catalogue: seq<Discount>, id: nat)
  {
    && IsSelected(p, id)
    && Find(invoices, id).Some?
    && AllocationOf(p, id) as real >= Outstanding(Find(invoices, id).value, code, catalogue)
  }

  /** `hasAtLeastOneLunas`. */
  predicate HasSettled(p: Picks, invoices: seq<OpenInvoice>, code: string, catalogue: seq<Discount>)
  {
    exists k :: k in p.keys && Settles(p, invoices, code, catalogue, k)
  }

  /** `isSaveDisabled`. */
  predicate SaveDisabled(customer: string, p: Picks, invoices: seq<OpenInvoice>, code: string, catalogue: seq<Discount>)
  {
    || customer == ""
    || TotalAllocated(p) == 0.0
    || !HasSettled(p, invoices, code, catalogue)
    || Surplus(p, invoices, code, catalogue) < 0.0
  }

  /** A sum of non-negative terms is zero exactly when every term is. */
  lemma {:induction false} SumZeroIff(s: seq<nat>, f: nat -> real)
    requires forall i :: 0 <= i < |s| ==> f(s[i]) >= 0.0
    ensures Seqs.Sum(s, f) == 0.0 <==> forall i :: 0 <= i < |s| ==> f(s[i]) == 0.0
    decreases |s|
  {
    if |s| > 0 {
      SumZeroIff(s[1..], f);
      Seqs.SumNonNegative(s[1..], f);
      assert forall i :: 1 <= i < |s| ==> s[i] == s[1..][i - 1];
    }
  }

  /** The total allocated is zero exactly when no ticked invoice has a
      non-zero allocation. */
  lemma NothingAllocatedIff(p: Picks)
    ensures TotalAllocated(p) == 0.0 <==> forall k :: IsSelected(p, k) && k in p.keys ==> AllocationOf(p, k) == 0
  {
    var f := (k: nat) => AllocationOf(p, k) as real;
    var c := Chosen(p);
    SumZeroIff(c, f);
    if TotalAllocated(p) == 0.0 {
      forall k | IsSelected(p, k) && k in p.keys
        ensures AllocationOf(p, k) == 0
      {
        var i :| 0 <= i < |c| && c[i] == k;
      }
    }
  }

  /** A freshly loaded customer cannot be saved: nothing is ticked. */
  lemma LoadedCannotSave(customer: string, data: seq<OpenInvoice>, code: string, catalogue: seq<Discount>)
    ensures var p := Load(data);
      TotalAllocated(p) == 0.0 && SaveDisabled(customer, p, data, code, catalogue)
  {
    var p := Load(data);
    NothingAllocatedIff(p);
  }

  /** Rendering of one row's status under its allocation field: shown only
      for a ticked invoice with something typed. */
  datatype Badge = Lunas | BelumLunas | NoBadge

  function RowBadge(p: Picks, inv: OpenInvoice, code: string, catalogue: seq<Discount>): (r: Badge)
    ensures r != NoBadge <==> IsSelected(p, inv.id) && inv.id in p.allocations && p.allocations[inv.id] != ""
    ensures r == Lunas ==> AllocationOf(p, inv.id) as real >= Outstanding(inv, code, catalogue)
  {
    if IsSelected(p, inv.id) && inv.id in p.allocations && p.allocations[inv.id] != "" then
      if AllocationOf(p, inv.id) as real >= Outstanding(inv, code, catalogue) then Lunas else BelumLunas
    else NoBadge
  }

  /** A row showing LUNAS is enough for the settled-invoice condition of the
      save button. */
  lemma LunasBadgeSettles(p: Picks, invoices: seq<OpenInvoice>, inv: OpenInvoice, code: string, catalogue: seq<Discount>)
    requires Wf(p) && Find(invoices, inv.id) == Some(inv)
    requires RowBadge(p, inv, code, catalogue) == Lunas
    ensures HasSettled(p, invoices, code, catalogue)
  {
    assert inv.id in p.keys && Settles(p, invoices, code, catalogue, inv.id);
  }

  /** The condition counts an invoice that owes nothing as settled even
      with nothing typed, while its row shows no badge. */
  lemma SettledWithoutBadge()
    ensures var inv := OpenInvoice(7, 100.0, 100.0);
      var p := Picks([7], map[7 := true], map[7 := ""]);
      && RowBadge(p, inv, "", []) == NoBadge
      && HasSettled(p, [inv], "", [])
  {
    var inv := OpenInvoice(7, 100.0, 100.0);
    var p := Picks([7], map[7 := true], map[7 := ""]);
    assert DigitRun("") == "";
    assert Settles(p, [inv], "", [], 7);
  }

  /** The allocations `handleSave` sends, one per id, in the given order. */
  function AllocationsFor(p: Picks, ids: seq<nat>): (r: seq<Allocation>)
    ensures |r| == |ids|
    ensures forall i :: 0 <= i < |r| ==> r[i].invoice == ids[i] && r[i].amount == AllocationOf(p, ids[i]) as real
  {
    if |ids| == 0 then [] else [Allocation(ids[0], AllocationOf(p, ids[0]) as real)] + AllocationsFor(p, ids[1..])
  }

  function Amount(a: Allocation): real { a.amount }

  /** `finalAllocations`. */
  function FinalAllocations(p: Picks): (r: seq<Allocation>)
    ensures forall k :: (exists i :: 0 <= i < |r| && r[i].invoice == k) <==> k in p.keys && IsSelected(p, k)
    ensures forall i :: 0 <= i < |r| ==> r[i].amount >= 0.0
  {
    var r := AllocationsFor(p, Chosen(p));
    assert forall k :: k in Chosen(p) ==> exists i :: 0 <= i < |r| && r[i].invoice == k;
    r
  }

  lemma {:induction false} AllocationsSum(p: Picks, ids: seq<nat>)
    ensures Seqs.Sum(AllocationsFor(p, ids), Amount) == Seqs.Sum(ids, (k: nat) => AllocationOf(p, k) as real)
    decreases |ids|
  {
    if |ids| > 0 {
      AllocationsSum(p, ids[1..]);
    }
  }

  /** The allocations sent add up to the total shown under the table. */
  lemma SaveSendsTotal(p: Picks)
    ensures Seqs.Sum(FinalAllocations(p), Amount) == TotalAllocated(p)
  {
    AllocationsSum(p, Chosen(p));
  }

  /** The server's allocation loop takes in exactly the cash sent. */
  lemma {:induction false} AllocateAllCash(st: Allocated, allocs: seq<Allocation>, pct: real)
    requires AllocateAll(st, allocs, pct).Ok?
    ensures AllocateAll(st, allocs, pct).value.cash == st.cash + Seqs.Sum(allocs, Amount)
    decreases |allocs|
  {
    if |allocs| > 0 {
      StepEffect(st, allocs[0], pct);
      AllocateAllCash(Step(st, allocs[0], pct).value, allocs[1..], pct);
    }
  }

  /** An enabled save button, with every ticked invoice known to the books,
      makes `recordPayment` post a journal for the cash, unless the discount
      is 100%, which the model reports as `NoLogicalPayment`. */
  lemma EnabledSaveRecords(customer: nat, date: string, account: string, p: Picks, invoices: seq<OpenInvoice>,
                           code: string, catalogue: seq<Discount>, b: Books, today: string, year: nat)
    requires !SaveDisabled(NatToString(customer), p, invoices, code, catalogue)
    requires forall k :: k in p.keys && IsSelected(p, k) ==> k in b.invoices
    ensures var entry := PaymentEntry(customer, date, account, code, FinalAllocations(p));
      var r := RecordPayment(b, entry, catalogue, today, year);
      && (DiscountPercent(catalogue, code) == 100.0 ==> r.Err?)
      && (DiscountPercent(catalogue, code) != 100.0 ==>
            && r.Ok?
            && r.value.nextJournal == b.nextJournal + 1
            && r.value.journals[b.nextJournal].status == Posted)
  {
    var entry := PaymentEntry(customer, date, account, code, FinalAllocations(p));
    var pct := DiscountPercent(catalogue, code);
    var allocs := FinalAllocations(p);
    SaveSendsTotal(p);
    if pct == 100.0 {
      assert |allocs| > 0;
      return;
    }
    forall i | 0 <= i < |allocs|
      ensures allocs[i].invoice in b.invoices
    {
      assert exists j :: 0 <= j < |allocs| && allocs[j].invoice == allocs[i].invoice;
    }
    assert AllocateAll(Allocated(b.invoices, 0.0, 0.0, 0.0), allocs, pct).Ok?;
    AllocateAllCash(Allocated(b.invoices, 0.0, 0.0, 0.0), allocs, pct);
    RecordPaymentJournal(b, entry, catalogue, today, year);
  }

  /** The deposit accounts offered: Active children of `111.000`. */
  predicate IsDepositOption(x: Listed)
  {
    x.account.parent == Some("111.000") && x.account.status == Ledger.Active
  }

  function DepositOptions(rows: seq<Listed>): (r: seq<Listed>)
    ensures forall x :: x in r <==> x in rows && IsDepositOption(x)
    ensures Seqs.IsSubsequence(r, rows)
  {
    Seqs.FilterIsSubsequence(rows, IsDepositOption);
    Seqs.Filter(rows, IsDepositOption)
  }

  /** The account preselected: the first one offered, or none. */
  function DefaultDeposit(rows: seq<Listed>): (r: string)
    ensures r != "" ==> exists x :: x in DepositOptions(rows) && x.id == r
    ensures |DepositOptions(rows)| == 0 ==> r == ""
  {
    var options := DepositOptions(rows);
    if |options| > 0 then options[0].id else ""
  }

  /** Fed by `getAllAccounts`, the deposit accounts offered are exactly the
      Active accounts whose parent is `111.000`. */
  lemma DepositFromListing(b: Books, accountOrder: seq<string>, invoiceOrder: seq<nat>, id: string)
    requires Enumerates(accountOrder, b.accounts.Keys) && Enumerates(invoiceOrder, b.invoices.Keys)
    ensures var g := GetAllAccounts(b, accountOrder, invoiceOrder);
      (exists x :: x in DepositOptions(g.1) && x.id == id) <==>
        id in g.0.accounts && g.0.accounts[id].parent == Some("111.000") && g.0.accounts[id].status == Ledger.Active
  {
    var g := GetAllAccounts(b, accountOrder, invoiceOrder);
    if id in g.0.accounts && g.0.accounts[id].parent == Some("111.000") && g.0.accounts[id].status == Ledger.Active {
      var x := Listed(id, g.0.accounts[id], HasActiveChild(g.0.accounts, id));
      assert x in g.1 && IsDepositOption(x);
    }
  }
}
