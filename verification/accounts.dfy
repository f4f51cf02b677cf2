/** The chart-of-accounts endpoints: list, create, update and the soft
    delete that marks an account Inactive. */
module ChartOfAccounts {
  import opened Outcomes
  import opened Text
  import opened Seqs
  import opened Ledger
  import opened Books

  /** The receivable account whose balance is recomputed from the invoices. */
  const Receivable: string := "112.000"

  const InactiveExists: string := "Nomor akun sudah terdaftar dengan status tidak aktif."
  const AlreadyExists: string := "Nomor akun sudah terdaftar"
  const NotFound: string := "Account not found"
  const HasSubAccounts: string := "Cannot delete account with sub-accounts"

  /** A listed account: its id, its row and whether it has an active child. */
  datatype Listed = Listed(id: string, account: Account, hasChildren: bool)

  /** `order` lists every key of the table exactly once: the order in
      which the table is scanned. */
  predicate Enumerates<K>(order: seq<K>, keys: set<K>)
  {
    && (forall i :: 0 <= i < |order| ==> order[i] in keys)
    && (forall k :: k in keys ==> k in order)
    && (forall i, j :: 0 <= i < j < |order| ==> order[i] != order[j])
  }

  function Outstanding(inv: Invoice): real { inv.total - inv.paid }

  /** `SUM(total_amount - paid_amount)` over the invoices scanned in
      `order` (0 for none). */
  function OutstandingTotal(invs: map<nat, Invoice>, order: seq<nat>): (r: real)
    requires forall i :: 0 <= i < |order| ==> order[i] in invs
    ensures |order| == 0 ==> r == 0.0
    ensures (forall k :: k in invs ==> invs[k].paid <= invs[k].total) ==> r >= 0.0
    ensures (forall k :: k in invs ==> invs[k].paid == invs[k].total) ==> r == 0.0
  {
    if |order| == 0 then 0.0
    else Outstanding(invs[order[0]]) + OutstandingTotal(invs, order[1..])
  }

  /** `EXISTS` an Active account whose parent is `id`. */
  predicate HasActiveChild(accts: Accounts, id: string)
  {
    exists c :: c in accts && accts[c].parent == Some(id) && accts[c].status == Active
  }

  function ByCode(x: Listed, y: Listed): bool { LexLe(x.account.code, y.account.code) }

  /** The Active accounts in scan order, each with its child flag. */
  function ActiveRows(accts: Accounts, order: seq<string>): (r: seq<Listed>)
    ensures forall x :: x in r ==>
      (&& x.id in accts && x.id in order
       && x.account == accts[x.id] && x.account.status == Active
       && (x.hasChildren <==> HasActiveChild(accts, x.id)))
    ensures forall id :: id in order && id in accts && accts[id].status == Active ==>
      Listed(id, accts[id], HasActiveChild(accts, id)) in r
  {
    if |order| == 0 then []
    else
      var id := order[0];
      var rest := ActiveRows(accts, order[1..]);
      assert forall x :: x in order <==> x == id || x in order[1..];
      if id in accts && accts[id].status == Active then [Listed(id, accts[id], HasActiveChild(accts, id))] + rest
      else rest
  }

  /** `getAllAccounts`: first the receivable's balance is reset to the
      outstanding invoice total, then every Active account is listed once,
      by code. */
  function GetAllAccounts(b: Books, accountOrder: seq<string>, invoiceOrder: seq<nat>): (r: (Books, seq<Listed>))
    requires Enumerates(accountOrder, b.accounts.Keys) && Enumerates(invoiceOrder, b.invoices.Keys)
    ensures r.0 == b.(accounts := SyncReceivable(b.accounts, b.invoices, invoiceOrder))
    ensures multiset(r.1) == multiset(ActiveRows(r.0.accounts, accountOrder))
    ensures forall x :: x in r.1 ==>
      (&& x.id in r.0.accounts
       && x.account == r.0.accounts[x.id] && x.account.status == Active
       && (x.hasChildren <==> HasActiveChild(r.0.accounts, x.id)))
    ensures forall id :: id in r.0.accounts && r.0.accounts[id].status == Active ==>
      Listed(id, r.0.accounts[id], HasActiveChild(r.0.accounts, id)) in r.1
  {
    var accts := SyncReceivable(b.accounts, b.invoices, invoiceOrder);
    (b.(accounts := accts), ListedRows(accts, accountOrder))
  }

  /** The Active rows in code order: the same rows as the scan. */
  function ListedRows(accts: Accounts, order: seq<string>): (r: seq<Listed>)
    ensures multiset(r) == multiset(ActiveRows(accts, order))
    ensures forall x :: x in r ==>
      (&& x.id in accts
       && x.account == accts[x.id] && x.account.status == Active
       && (x.hasChildren <==> HasActiveChild(accts, x.id)))
    ensures forall id :: id in order && id in accts && accts[id].status == Active ==>
      Listed(id, accts[id], HasActiveChild(accts, id)) in r
  {
    var rows := ActiveRows(accts, order);
    SortMembers(rows, ByCode);
    Sort(rows, ByCode)
  }

  /** The listing is in ascending code order. */
  lemma GetAllAccountsSorted(b: Books, accountOrder: seq<string>, invoiceOrder: seq<nat>)
    requires Enumerates(accountOrder, b.accounts.Keys) && Enumerates(invoiceOrder, b.invoices.Keys)
    ensures SortedBy(GetAllAccounts(b, accountOrder, invoiceOrder).1, ByCode)
  {
    LexLeOrder();
    var accts := SyncReceivable(b.accounts, b.invoices, invoiceOrder);
    SortSorted(ActiveRows(accts, accountOrder), ByCode);
  }

  /** The receivable reset: only the balance of `112.000` changes. */
  function SyncReceivable(accts: Accounts, invs: map<nat, Invoice>, order: seq<nat>): (r: Accounts)
    requires forall i :: 0 <= i < |order| ==> order[i] in invs
    ensures r.Keys == accts.Keys
    ensures Receivable in accts ==> r[Receivable] == accts[Receivable].(balance := OutstandingTotal(invs, order))
    ensures forall id :: id in accts && id != Receivable ==> r[id] == accts[id]
  {
    if Receivable in accts then accts[Receivable := accts[Receivable].(balance := OutstandingTotal(invs, order))]
    else accts
  }

  /** `createAccount`: a taken id is refused, with a distinct message when
      the taken account is Inactive; a new account is Active. */
  function CreateAccount(accts: Accounts, id: string, a: Account): (r: Result<Accounts, string>)
    ensures r.Err? <==> id in accts
    ensures r.Err? ==> r.error == (if accts[id].status == Inactive then InactiveExists else AlreadyExists)
    ensures r.Ok? ==> r.value == accts[id := a.(status := Active)]
  {
    if id in accts then
      Err(if accts[id].status == Inactive then InactiveExists else AlreadyExists)
    else Ok(accts[id := a.(status := Active)])
  }

  /** `updateAccount`: every field is overwritten and the account is made
      Active again; an unknown id is reported as not found. */
  function UpdateAccount(accts: Accounts, id: string, a: Account): (r: Result<Accounts, string>)
    ensures r.Err? <==> id !in accts
    ensures r.Err? ==> r.error == NotFound
    ensures r.Ok? ==> r.value.Keys == accts.Keys && r.value[id] == a.(status := Active)
    ensures r.Ok? ==> forall k :: k in accts && k != id ==> r.value[k] == accts[k]
  {
    if id !in accts then Err(NotFound) else Ok(accts[id := a.(status := Active)])
  }

  /** `deleteAccount`: refused while an Active child exists; otherwise the
      account (if any) is marked Inactive and nothing is removed. */
  function DeleteAccount(accts: Accounts, id: string): (r: Result<Accounts, string>)
    ensures r.Err? <==> HasActiveChild(accts, id)
    ensures r.Err? ==> r.error == HasSubAccounts
    ensures r.Ok? ==> r.value.Keys == accts.Keys
    ensures r.Ok? && id in accts ==> r.value[id] == accts[id].(status := Inactive)
    ensures r.Ok? ==> forall k :: k in accts && k != id ==> r.value[k] == accts[k]
  {
    if HasActiveChild(accts, id) then Err(HasSubAccounts)
    else if id in accts then Ok(accts[id := accts[id].(status := Inactive)])
    else Ok(accts)
  }

  /** A deleted account keeps its id: creating it again is refused with the
      Inactive message, and updating it brings it back as Active. */
  lemma DeleteThenCreate(accts: Accounts, id: string, a: Account)
    requires id in accts && DeleteAccount(accts, id).Ok?
    ensures CreateAccount(DeleteAccount(accts, id).value, id, a) == Err(InactiveExists)
    ensures UpdateAccount(DeleteAccount(accts, id).value, id, a).Ok?
    ensures UpdateAccount(DeleteAccount(accts, id).value, id, a).value[id].status == Active
  {
  }

  /** Deleting twice is deleting once. */
  lemma DeleteIdempotent(accts: Accounts, id: string)
    requires DeleteAccount(accts, id).Ok?
    ensures DeleteAccount(DeleteAccount(accts, id).value, id) == DeleteAccount(accts, id)
  {
    var d := DeleteAccount(accts, id).value;
    if id in d {
      assert d[id := d[id].(status := Inactive)] == d;
    }
  }

  /** A deleted account disappears from the listing. */
  lemma DeletedNotListed(b: Books, id: string, accountOrder: seq<string>, invoiceOrder: seq<nat>)
    requires Enumerates(accountOrder, b.accounts.Keys) && Enumerates(invoiceOrder, b.invoices.Keys)
    requires id in b.accounts
    requires DeleteAccount(b.accounts, id).Ok?
    ensures var listed := GetAllAccounts(b.(accounts := DeleteAccount(b.accounts, id).value), accountOrder, invoiceOrder).1;
      forall x :: x in listed ==> x.id != id
  {
  }

  /** Creating an account and listing shows it, as entered; the
      receivable account shows the outstanding invoice total as balance. */
  lemma CreatedIsListed(b: Books, id: string, a: Account, accountOrder: seq<string>, invoiceOrder: seq<nat>)
    requires CreateAccount(b.accounts, id, a).Ok?
    requires Enumerates(accountOrder, b.accounts.Keys + {id}) && Enumerates(invoiceOrder, b.invoices.Keys)
    ensures var listed := GetAllAccounts(b.(accounts := CreateAccount(b.accounts, id, a).value), accountOrder, invoiceOrder).1;
      exists x :: x in listed && x.id == id
        && x.account == a.(status := Active, balance := if id == Receivable then OutstandingTotal(b.invoices, invoiceOrder) else a.balance)
  {
    var b1 := b.(accounts := CreateAccount(b.accounts, id, a).value);
    assert b1.accounts.Keys == b.accounts.Keys + {id};
    var r := GetAllAccounts(b1, accountOrder, invoiceOrder);
    var shown := a.(status := Active, balance := if id == Receivable then OutstandingTotal(b.invoices, invoiceOrder) else a.balance);
    assert b1.accounts[id] == a.(status := Active);
    assert r.0.accounts[id] == shown;
    assert Listed(id, shown, HasActiveChild(r.0.accounts, id)) in r.1;
  }
}
