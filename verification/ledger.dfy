/** The account ledger: accounts keyed by id, journal lines, and the
    normal-balance rule that turns a line into a balance movement. */
module Ledger {
  import opened Outcomes

  datatype AccountType = Assets | Liabilities | Equity | Revenue | Expenses

  datatype AccountStatus = Active | Inactive

  datatype Account = Account(
    code: string,
    name: string,
    kind: AccountType,
    level: nat,
    parent: Option<string>,
    balance: real,
    isSystem: bool,
    status: AccountStatus)

  /** Accounts by id (the id is the account code). */
  type Accounts = map<string, Account>

  /** One journal line; memo, department and project are kept only by the
      cash/bank services. */
  datatype Line = Line(
    account: string,
    debit: real,
    credit: real,
    memo: Option<string>,
    department: Option<string>,
    project: Option<string>)

  /** A line carrying only account, debit and credit. */
  function Bare(account: string, debit: real, credit: real): Line
  {
    Line(account, debit, credit, None, None, None)
  }

  /** Assets and Expenses grow with debits; every other type grows with credits. */
  predicate DebitNormal(kind: AccountType)
  {
    kind == Assets || kind == Expenses
  }

  /** The movement one line causes on an account of the given type. */
  function Signed(kind: AccountType, line: Line): (r: real)
    ensures DebitNormal(kind) ==> r == line.debit - line.credit
    ensures !DebitNormal(kind) ==> r == line.credit - line.debit
  {
    if DebitNormal(kind) then line.debit - line.credit else line.credit - line.debit
  }

  /** The `factor` argument of `adjustBalances`: every caller passes 1
      (apply a posting) or -1 (undo one). */
  datatype Direction = Apply | Undo {
    function Reverse(): Direction { if this == Apply then Undo else Apply }
    /** `factor * x`. */
    function Scale(x: real): real { if this == Apply then x else -x }
  }

  /** One step of `adjustBalances`: a line for an unknown account is
      skipped, and a zero movement is not written. */
  function ApplyLine(accts: Accounts, line: Line, dir: Direction): (r: Accounts)
    ensures r.Keys == accts.Keys
  {
    if line.account !in accts then accts
    else
      var a := accts[line.account];
      var delta := dir.Scale(Signed(a.kind, line));
      if delta != 0.0 then accts[line.account := a.(balance := a.balance + delta)] else accts
  }

  /** `adjustBalances(lines, factor)`: the lines applied one after another. */
  function AdjustBalances(accts: Accounts, lines: seq<Line>, dir: Direction): (r: Accounts)
    ensures r.Keys == accts.Keys
    ensures forall id :: id in accts ==> r[id] == accts[id].(balance := r[id].balance)
    decreases |lines|
  {
    if |lines| == 0 then accts
    else AdjustBalances(ApplyLine(accts, lines[0], dir), lines[1..], dir)
  }

  /** The total movement the lines cause on account `id` of type `kind`. */
  function Net(id: string, kind: AccountType, lines: seq<Line>): real
  {
    if |lines| == 0 then 0.0
    else (if lines[0].account == id then Signed(kind, lines[0]) else 0.0) + Net(id, kind, lines[1..])
  }

  lemma {:induction false} NetConcat(id: string, kind: AccountType, a: seq<Line>, b: seq<Line>)
    ensures Net(id, kind, a + b) == Net(id, kind, a) + Net(id, kind, b)
  {
    if |a| > 0 {
      assert (a + b)[1..] == a[1..] + b;
      NetConcat(id, kind, a[1..], b);
    } else {
      assert a + b == b;
    }
  }

  /** Each account's balance moves by its net movement (negated when
      undoing); accounts no line names keep their balance. */
  lemma {:induction false} AdjustBalancesEffect(accts: Accounts, lines: seq<Line>, dir: Direction, id: string)
    requires id in accts
    ensures AdjustBalances(accts, lines, dir)[id].balance
         == accts[id].balance + dir.Scale(Net(id, accts[id].kind, lines))
    decreases |lines|
  {
    if |lines| > 0 {
      AdjustBalancesEffect(ApplyLine(accts, lines[0], dir), lines[1..], dir, id);
    }
  }

  lemma {:induction false} NetUnnamed(id: string, kind: AccountType, lines: seq<Line>)
    requires forall i :: 0 <= i < |lines| ==> lines[i].account != id
    ensures Net(id, kind, lines) == 0.0
  {
    if |lines| > 0 {
      NetUnnamed(id, kind, lines[1..]);
    }
  }

  /** An account that no line names is left exactly as it was. */
  lemma AdjustBalancesUntouched(accts: Accounts, lines: seq<Line>, dir: Direction, id: string)
    requires id in accts
    requires forall i :: 0 <= i < |lines| ==> lines[i].account != id
    ensures AdjustBalances(accts, lines, dir)[id] == accts[id]
  {
    NetUnnamed(id, accts[id].kind, lines);
    AdjustBalancesEffect(accts, lines, dir, id);
  }

  /** Two ledgers agree when every account agrees. */
  lemma SameAccounts(a: Accounts, b: Accounts)
    requires a.Keys == b.Keys
    requires forall id :: id in a ==> a[id] == b[id]
    ensures a == b
  {
  }

  /** Applying lines and then undoing them (or the other way round)
      restores every account exactly. */
  lemma AdjustBalancesInverse(accts: Accounts, lines: seq<Line>, dir: Direction)
    ensures AdjustBalances(AdjustBalances(accts, lines, dir), lines, dir.Reverse()) == accts
  {
    var mid := AdjustBalances(accts, lines, dir);
    var back := AdjustBalances(mid, lines, dir.Reverse());
    forall id | id in accts
      ensures back[id] == accts[id]
    {
      AdjustBalancesEffect(accts, lines, dir, id);
      AdjustBalancesEffect(mid, lines, dir.Reverse(), id);
    }
    SameAccounts(back, accts);
  }

  /** Applying a concatenation is applying the parts in turn. */
  lemma {:induction false} AdjustBalancesConcat(accts: Accounts, a: seq<Line>, b: seq<Line>, dir: Direction)
    ensures AdjustBalances(accts, a + b, dir) == AdjustBalances(AdjustBalances(accts, a, dir), b, dir)
    decreases |a|
  {
    if |a| > 0 {
      assert (a + b)[1..] == a[1..] + b;
      AdjustBalancesConcat(ApplyLine(accts, a[0], dir), a[1..], b, dir);
    } else {
      assert a + b == b;
    }
  }

  /** Ledgers are equal when they have the same accounts and every
      account's balance moved by the same net amounts. */
  lemma SameEffect(accts: Accounts, a: seq<Line>, da: Direction, b: seq<Line>, db: Direction)
    requires forall id :: id in accts ==> da.Scale(Net(id, accts[id].kind, a)) == db.Scale(Net(id, accts[id].kind, b))
    ensures AdjustBalances(accts, a, da) == AdjustBalances(accts, b, db)
  {
    var ra := AdjustBalances(accts, a, da);
    var rb := AdjustBalances(accts, b, db);
    forall id | id in accts
      ensures ra[id] == rb[id]
    {
      AdjustBalancesEffect(accts, a, da, id);
      AdjustBalancesEffect(accts, b, db, id);
    }
    SameAccounts(ra, rb);
  }

  /** Debit and credit totals of a line set. */
  function TotalDebit(lines: seq<Line>): (r: real)
  {
    if |lines| == 0 then 0.0 else lines[0].debit + TotalDebit(lines[1..])
  }

  function TotalCredit(lines: seq<Line>): (r: real)
  {
    if |lines| == 0 then 0.0 else lines[0].credit + TotalCredit(lines[1..])
  }

  predicate Balanced(lines: seq<Line>)
  {
    TotalDebit(lines) == TotalCredit(lines)
  }

  lemma {:induction false} TotalsConcat(a: seq<Line>, b: seq<Line>)
    ensures TotalDebit(a + b) == TotalDebit(a) + TotalDebit(b)
    ensures TotalCredit(a + b) == TotalCredit(a) + TotalCredit(b)
  {
    if |a| > 0 {
      assert (a + b)[1..] == a[1..] + b;
      TotalsConcat(a[1..], b);
    } else {
      assert a + b == b;
    }
  }

  /** Every line with debit and credit exchanged. */
  function Swapped(lines: seq<Line>): (r: seq<Line>)
    ensures |r| == |lines|
    ensures forall i :: 0 <= i < |lines| ==> r[i] == Bare(lines[i].account, lines[i].credit, lines[i].debit)
  {
    if |lines| == 0 then [] else [Bare(lines[0].account, lines[0].credit, lines[0].debit)] + Swapped(lines[1..])
  }

  /** The swapped lines move every account by the opposite amount. */
  lemma {:induction false} NetSwapped(id: string, kind: AccountType, lines: seq<Line>)
    ensures Net(id, kind, Swapped(lines)) == -Net(id, kind, lines)
  {
    if |lines| > 0 {
      NetSwapped(id, kind, lines[1..]);
      assert Swapped(lines)[1..] == Swapped(lines[1..]);
    }
  }

  /** Posting the swapped lines is un-posting the originals. */
  lemma SwappedUndoes(accts: Accounts, lines: seq<Line>, dir: Direction)
    ensures AdjustBalances(accts, Swapped(lines), dir) == AdjustBalances(accts, lines, dir.Reverse())
  {
    forall id | id in accts
      ensures dir.Scale(Net(id, accts[id].kind, Swapped(lines))) == dir.Reverse().Scale(Net(id, accts[id].kind, lines))
    {
      NetSwapped(id, accts[id].kind, lines);
    }
    SameEffect(accts, Swapped(lines), dir, lines, dir.Reverse());
  }

  /** Swapping keeps a balanced line set balanced (its totals trade places). */
  lemma {:induction false} SwappedTotals(lines: seq<Line>)
    ensures TotalDebit(Swapped(lines)) == TotalCredit(lines)
    ensures TotalCredit(Swapped(lines)) == TotalDebit(lines)
  {
    if |lines| > 0 {
      SwappedTotals(lines[1..]);
      assert Swapped(lines)[1..] == Swapped(lines[1..]);
    }
  }
}
