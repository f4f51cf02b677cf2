/** The add-account and edit-account dialogs: the parent picker built from
    the tree, the input sanitisers, the code validators and the rule that
    enables the save button. */
module AccountForms {
  import opened Outcomes
  import opened Text
  import Seqs
  import opened Numbers
  import opened Ledger
  import opened Rupiah
  import opened AccountTree

  /** A picker entry: the account with its depth in the tree as `level`. */
  datatype FlatAccount = FlatAccount(id: string, code: string, name: string, level: nat, parent: Option<string>)

  function Entry(x: Item, depth: nat): FlatAccount
  {
    FlatAccount(x.id, x.code, x.name, depth, x.parent)
  }

  /** `flattenAccounts`: pre-order, each node tagged with its depth. */
  function FlattenAccounts(ns: seq<Node>, depth: nat): (r: seq<FlatAccount>)
    ensures forall i :: 0 <= i < |r| ==> r[i].level >= depth
    decreases ns
  {
    if |ns| == 0 then [] else FlattenNodeAt(ns[0], depth) + FlattenAccounts(ns[1..], depth)
  }

  /** A node's entry, then its children's entries one level deeper. */
  function FlattenNodeAt(n: Node, depth: nat): (r: seq<FlatAccount>)
    ensures |r| > 0 && r[0] == Entry(n.item, depth)
    ensures forall i :: 0 < i < |r| ==> r[i].level > depth
    decreases n
  {
    [Entry(n.item, depth)] + FlattenAccounts(n.children, depth + 1)
  }

  /** The entries are the tree's items in pre-order, field by field. */
  predicate Aligned(f: seq<FlatAccount>, xs: seq<Item>)
  {
    && |f| == |xs|
    && forall i :: 0 <= i < |f| ==>
      f[i].id == xs[i].id && f[i].code == xs[i].code && f[i].name == xs[i].name && f[i].parent == xs[i].parent
  }

  lemma AlignedConcat(f: seq<FlatAccount>, xs: seq<Item>, g: seq<FlatAccount>, ys: seq<Item>)
    requires Aligned(f, xs) && Aligned(g, ys)
    ensures Aligned(f + g, xs + ys)
  {
    forall i | |f| <= i < |f| + |g|
      ensures (f + g)[i] == g[i - |f|] && (xs + ys)[i] == ys[i - |f|]
    {
    }
  }

  /** The picker lists exactly the accounts of the tree, in pre-order. */
  lemma {:induction false} FlattenAccountsAligned(ns: seq<Node>, depth: nat)
    ensures Aligned(FlattenAccounts(ns, depth), FlattenAll(ns))
    decreases ns, 1
  {
    if |ns| > 0 {
      FlattenNodeAligned(ns[0], depth);
      FlattenAccountsAligned(ns[1..], depth);
      AlignedConcat(FlattenNodeAt(ns[0], depth), Flatten(ns[0]), FlattenAccounts(ns[1..], depth), FlattenAll(ns[1..]));
    }
  }

  lemma {:induction false} FlattenNodeAligned(n: Node, depth: nat)
    ensures Aligned(FlattenNodeAt(n, depth), Flatten(n))
    decreases n, 0
  {
    FlattenAccountsAligned(n.children, depth + 1);
    AlignedConcat([Entry(n.item, depth)], [n.item], FlattenAccounts(n.children, depth + 1), FlattenAll(n.children));
  }

  /** `flatAccounts.map(acc => acc.code)`. */
  function Codes(f: seq<FlatAccount>): (r: seq<string>)
    ensures |r| == |f| && forall i :: 0 <= i < |f| ==> r[i] == f[i].code
  {
    if |f| == 0 then [] else [f[0].code] + Codes(f[1..])
  }

  // ------------------------------------------------------------ sanitisers

  predicate CodeChar(c: char) { IsDigit(c) || c == '.' }

  /** The account-number input: digits and dots only, at most 7 characters. */
  function SanitizeCode(v: string): (r: string)
    ensures |r| <= 7
    ensures forall i :: 0 <= i < |r| ==> CodeChar(r[i])
    ensures StartsWith(Filter(v, CodeChar), r)
    ensures |r| == if |Filter(v, CodeChar)| < 7 then |Filter(v, CodeChar)| else 7
  {
    Slice(Filter(v, CodeChar), 0, 7)
  }

  /** Re-sanitising a sanitised number changes nothing. */
  lemma SanitizeCodeIdempotent(v: string)
    ensures SanitizeCode(SanitizeCode(v)) == SanitizeCode(v)
  {
    var r := SanitizeCode(v);
    FilterKeepsAll(r, CodeChar);
  }

  predicate NotDigit(c: char) { !IsDigit(c) }

  /** `[a-zA-Z\s&'",./-]`. */
  predicate NameChar(c: char)
  {
    ('a' <= c <= 'z') || ('A' <= c <= 'Z') || IsSpace(c)
    || c == '&' || c == '\'' || c == '"' || c == ',' || c == '.' || c == '/' || c == '-'
  }

  /** The account-name input: digits removed, then everything outside the
      allowed class removed. */
  function SanitizeName(v: string): (r: string)
    ensures forall i :: 0 <= i < |r| ==> NameChar(r[i]) && !IsDigit(r[i])
    ensures forall c :: c in r <==> c in v && NameChar(c)
  {
    Filter(Filter(v, NotDigit), NameChar)
  }

  lemma {:induction false} FilterNested(v: string)
    ensures Filter(Filter(v, NotDigit), NameChar) == Filter(v, NameChar)
  {
    if |v| > 0 {
      FilterNested(v[1..]);
    }
  }

  /** The first pass is subsumed by the second, and a sanitised name stays
      as it is. */
  lemma SanitizeNameIdempotent(v: string)
    ensures SanitizeName(v) == Filter(v, NameChar)
    ensures SanitizeName(SanitizeName(v)) == SanitizeName(v)
  {
    FilterNested(v);
    FilterNested(SanitizeName(v));
    FilterKeepsAll(SanitizeName(v), NameChar);
  }

  // ---------------------------------------------------- add-form validation

  const MaxLevelError: string := "Maksimal hirarki adalah level 3"
  const CodeUsedError: string := "Nomor akun sudah digunakan"
  const FormatError: string := "Format harus xxx.000"
  const DetailFormatError: string := "Format detail harus xxx.yyy (bukan .000)"

  function RangeError(parentCode: string): string
  {
    "Nomor harus dalam rentang parent (" + parentCode + ")"
  }

  /** Width of a child's code block: 100 at level 1, 10 at level 2, 1 at
      level 3. */
  function Span(next: nat): real
  {
    if next == 1 then 100.0 else if next == 2 then 10.0 else 1.0
  }

  /** `parseFloat(code)` lies in `[parseFloat(parent), parent + span)`; NaN
      on either side fails. */
  predicate InRange(code: string, parentCode: string, span: real)
  {
    match (ParseFloat(code), ParseFloat(parentCode))
    case (Some(c), Some(p)) => p <= c < p + span
    case _ => false
  }

  /** Header levels end in `.000`; a detail code has a dot and does not. */
  predicate FormatOk(code: string, next: nat)
  {
    if next == 3 then !EndsWith(code, ".000") && '.' in code else EndsWith(code, ".000")
  }

  /** The checks on a code under a chosen parent, in the source's order:
      depth, duplicate, range, format. */
  function CodeRule(code: string, parent: FlatAccount, used: seq<string>): (r: Option<string>)
    ensures r.None? <==>
      (&& parent.level + 1 <= 3 && code !in used
       && InRange(code, parent.code, Span(parent.level + 1)) && FormatOk(code, parent.level + 1))
    ensures r == Some(MaxLevelError) <==> parent.level + 1 > 3
    ensures parent.level + 1 <= 3 && code in used ==> r == Some(CodeUsedError)
  {
    var next := parent.level + 1;
    if next > 3 then Some(MaxLevelError)
    else if code in used then Some(CodeUsedError)
    else if !InRange(code, parent.code, Span(next)) then Some(RangeError(parent.code))
    else if !FormatOk(code, next) then Some(if next == 3 then DetailFormatError else FormatError)
    else None
  }

  /** `validate` of the add dialog: with a code and a parent the rule
      decides; an empty code clears the error; a code without a parent
      leaves the previous error in place. */
  function ValidateAdd(prev: Option<string>, code: string, parent: Option<FlatAccount>, used: seq<string>): (r: Option<string>)
    ensures code != "" && parent.Some? ==> r == CodeRule(code, parent.value, used)
    ensures code == "" ==> r.None?
    ensures code != "" && parent.None? ==> r == prev
  {
    if code != "" && parent.Some? then CodeRule(code, parent.value, used)
    else if code == "" then None
    else prev
  }

  /** A code `a.b` with a three-digit tail, as thousandths. */
  function Thousandths(a: string, b: string): nat
    requires AllDigits(a) && AllDigits(b)
  {
    ParseDigits(a) * 1000 + ParseDigits(b)
  }

  lemma DecimalThousandths(a: string, b: string)
    requires AllDigits(a) && AllDigits(b) && |b| == 3
    ensures DecimalValue(a, b) * 1000.0 == Thousandths(a, b) as real
  {
    assert Pow10(3) == 1000 by {
      assert Pow10(1) == 10;
      assert Pow10(2) == 100;
    }
  }

  /** On codes of the shape `digits.ddd` the range rule is a comparison of
      whole thousandths. */
  lemma InRangeThousandths(a: string, b: string, pa: string, pb: string, span: nat)
    requires |a| > 0 && |pa| > 0 && AllDigits(a) && AllDigits(pa) && AllDigits(b) && AllDigits(pb)
    requires |b| == 3 && |pb| == 3
    ensures InRange(a + "." + b, pa + "." + pb, span as real) <==>
      Thousandths(pa, pb) <= Thousandths(a, b) < Thousandths(pa, pb) + span * 1000
  {
    ParseFloatDecimal(a, b);
    ParseFloatDecimal(pa, pb);
    DecimalThousandths(a, b);
    DecimalThousandths(pa, pb);
  }

  /** The `.000` tail of a whole code such as `110.000` adds nothing to
      its thousandths: used where a parent code is a whole number. */
  lemma ZeroTail()
    ensures AllDigits("000") && ParseDigits("000") == 0
  {
    assert ParseDigits("0") == 0;
    assert ParseDigits("00") == 0;
  }

  lemma ThreeDigitsBound(b: string)
    requires AllDigits(b) && |b| == 3
    ensures ParseDigits(b) < 1000
  {
    assert ParseDigits(b[..1]) < 10;
    assert b[..2][..1] == b[..1];
    assert ParseDigits(b[..2]) < 100;
    assert b[..3] == b;
  }

  lemma SameBlock(a: int, b: int, p: int)
    requires 0 <= b < 1000
    ensures p * 1000 <= a * 1000 + b < p * 1000 + 1000 <==> a == p
  {
  }

  /** Under a header `P.000`, a code `a.b` is in the detail block exactly
      when `a` is `P`. */
  lemma DetailBlock(code: string, parentCode: string, a: string, b: string, pa: string, z: string)
    requires |a| > 0 && |pa| > 0 && AllDigits(a) && AllDigits(pa) && AllDigits(b) && |b| == 3
    requires z == "000" && code == a + "." + b && parentCode == pa + "." + z
    ensures InRange(code, parentCode, 1.0) <==> ParseDigits(a) == ParseDigits(pa)
  {
    ZeroTail();
    InRangeThousandths(a, b, pa, z, 1);
    ThreeDigitsBound(b);
    SameBlock(ParseDigits(a), ParseDigits(b), ParseDigits(pa));
  }

  lemma EndsWithZeros(code: string, a: string, b: string)
    requires b == "000" && code == a + "." + b
    ensures EndsWith(code, ".000")
  {
    assert code[|code| - 4..] == "." + b;
  }

  lemma DotZeros(s: string)
    ensures s + ".000" == s + "." + "000"
  {
  }

  /** What an accepted code satisfies, read off the rule. */
  lemma AcceptedCode(code: string, parent: FlatAccount, used: seq<string>)
    requires CodeRule(code, parent, used).None?
    ensures parent.level + 1 <= 3 && code !in used
    ensures InRange(code, parent.code, Span(parent.level + 1)) && FormatOk(code, parent.level + 1)
  {
  }

  /** An accepted detail code under a header `P.000` is `P.yyy` with
      `yyy` not `000`: detail accounts stay inside their parent's block. */
  lemma DetailSharesPrefix(a: string, b: string, pa: string, parent: FlatAccount, used: seq<string>)
    requires |a| > 0 && |pa| > 0 && AllDigits(a) && AllDigits(pa) && AllDigits(b) && |b| == 3
    requires parent.code == pa + ".000" && parent.level == 2
    requires CodeRule(a + "." + b, parent, used).None?
    ensures ParseDigits(a) == ParseDigits(pa)
    ensures b != "000"
  {
    var code := a + "." + b;
    AcceptedCode(code, parent, used);
    assert Span(parent.level + 1) == 1.0;
    DotZeros(pa);
    DetailBlock(code, parent.code, a, b, pa, "000");
    if b == "000" {
      EndsWithZeros(code, a, b);
    }
  }

  /** Under a header `P.000`, a header code `a.000` is in the block of the
      given width exactly when `P <= a < P + width`. */
  lemma HeaderBlock(code: string, parentCode: string, a: string, pa: string, z: string, span: nat)
    requires |a| > 0 && |pa| > 0 && AllDigits(a) && AllDigits(pa)
    requires z == "000" && (span == 100 || span == 10)
    requires code == a + "." + z && parentCode == pa + "." + z
    ensures InRange(code, parentCode, span as real) <==>
      ParseDigits(pa) <= ParseDigits(a) < ParseDigits(pa) + span
  {
    ZeroTail();
    InRangeThousandths(a, z, pa, z, span);
  }

  /** An accepted header code `a.000` under `P.000` has `P <= a < P + 100`
      at level 1 and `P <= a < P + 10` at level 2. */
  lemma HeaderInBlock(a: string, pa: string, parent: FlatAccount, used: seq<string>)
    requires |a| > 0 && |pa| > 0 && AllDigits(a) && AllDigits(pa)
    requires parent.code == pa + ".000" && parent.level < 2
    requires CodeRule(a + ".000", parent, used).None?
    ensures parent.level == 0 ==> ParseDigits(pa) <= ParseDigits(a) < ParseDigits(pa) + 100
    ensures parent.level == 1 ==> ParseDigits(pa) <= ParseDigits(a) < ParseDigits(pa) + 10
  {
    var code := a + ".000";
    AcceptedCode(code, parent, used);
    DotZeros(a);
    DotZeros(pa);
    if parent.level == 0 {
      assert Span(parent.level + 1) == 100 as real;
      HeaderBlock(code, parent.code, a, pa, "000", 100);
    } else {
      assert Span(parent.level + 1) == 10 as real;
      HeaderBlock(code, parent.code, a, pa, "000", 10);
    }
  }

  // -------------------------------------------------------- the form state

  datatype AccountForm = AccountForm(
    name: string,
    parent: Option<FlatAccount>,
    code: string,
    saldo: string,
    error: Option<string>)

  datatype Field = NameField | CodeField | SaldoField

  /** `isButtonDisabled`, the same in both dialogs. */
  predicate ButtonDisabled(f: AccountForm)
  {
    f.error.Some? || f.name == "" || f.parent.None? || |f.code| != 7 || f.saldo == ""
  }

  /** `handleInputChange` of the add dialog. */
  function AddInput(f: AccountForm, field: Field, v: string, used: seq<string>): (r: AccountForm)
    ensures field == NameField ==> r == f.(name := SanitizeName(v))
    ensures field == CodeField ==> r == f.(code := SanitizeCode(v), error := ValidateAdd(f.error, SanitizeCode(v), f.parent, used))
    ensures field == SaldoField ==> r == f.(saldo := FormatRupiahValue(v))
  {
    match field
    case NameField => f.(name := SanitizeName(v))
    case CodeField =>
      var c := SanitizeCode(v);
      f.(code := c, error := ValidateAdd(f.error, c, f.parent, used))
    case SaldoField => f.(saldo := FormatRupiahValue(v))
  }

  /** `handleParentSelect` of the add dialog: a level-3 entry is ignored. */
  function AddSelectParent(f: AccountForm, p: FlatAccount, used: seq<string>): (r: AccountForm)
    ensures p.level >= 3 ==> r == f
    ensures p.level < 3 ==> r.parent == Some(p) && r.error == ValidateAdd(f.error, f.code, Some(p), used)
  {
    if p.level >= 3 then f else f.(parent := Some(p), error := ValidateAdd(f.error, f.code, Some(p), used))
  }

  /** After a code edit or a parent choice, an enabled save button means
      the code passes every rule under the chosen parent. */
  lemma AddEnabledMeansValid(f: AccountForm, v: string, p: FlatAccount, used: seq<string>)
    ensures var g := AddInput(f, CodeField, v, used);
      !ButtonDisabled(g) ==> CodeRule(g.code, g.parent.value, used).None?
    ensures var g := AddSelectParent(f, p, used);
      p.level < 3 && !ButtonDisabled(g) ==> CodeRule(g.code, p, used).None?
  {
  }

  /** What the add dialog submits. */
  function AddSubmit(f: AccountForm): (r: NewAccount)
    ensures r.code == f.code && r.name == f.name && r.balance == Str(f.saldo)
    ensures r.parent == if f.parent.Some? then Some(f.parent.value.id) else None
  {
    NewAccount(if f.parent.Some? then Some(f.parent.value.id) else None, f.code, f.name, Str(f.saldo))
  }

  lemma NatToStringZero(n: nat)
    ensures NatToString(n) == "0" <==> n == 0
  {
    ParseNatToString(n);
    if NatToString(n) == "0" {
      assert ParseDigits("0") == 0;
    }
  }

  /** A typed whole amount survives the saldo field: grouped for display,
      it parses back to the same number when the account is saved. */
  lemma SaldoRoundTrip(n: nat)
    requires n > 0
    ensures FormatRupiahValue(NatToString(n)) == GroupThousands(NatToString(n))
    ensures ParseBalance(Str(FormatRupiahValue(NatToString(n)))) == n as real
  {
    DigitsOfDigits(NatToString(n));
    NatToStringZero(n);
    ParseBalanceGrouped(n);
  }

  // ---------------------------------------------------------- edit dialog

  /** The first entry satisfying `p`. */
  function FindEntry(flat: seq<FlatAccount>, p: FlatAccount -> bool): (r: Option<FlatAccount>)
    ensures r.None? <==> forall i :: 0 <= i < |flat| ==> !p(flat[i])
    ensures r.Some? ==> r.value in flat && p(r.value)
  {
    if |flat| == 0 then None else if p(flat[0]) then Some(flat[0]) else FindEntry(flat[1..], p)
  }

  /** The text before the first dot (`code.split('.')[0]`). */
  function Prefix(code: string): (r: string)
    ensures '.' !in r
  {
    SplitHeadNoSep(code);
    Split(code, '.')[0]
  }

  lemma {:induction false} SplitHeadNoSep(s: string)
    ensures '.' !in Split(s, '.')[0]
    decreases |s|
  {
    if |s| > 0 && s[0] != '.' {
      SplitHeadNoSep(s[1..]);
    }
  }

  /** The parent of the edited account: the entry whose id is its
      `parent_id`, or else the entry whose code is its prefix + `.000`. */
  function ResolveParent(flat: seq<FlatAccount>, account: Item): (r: Option<FlatAccount>)
    ensures r.Some? ==> r.value in flat
    ensures (exists i :: 0 <= i < |flat| && Some(flat[i].id) == account.parent) ==>
      r.Some? && Some(r.value.id) == account.parent
    ensures (forall i :: 0 <= i < |flat| ==> Some(flat[i].id) != account.parent) ==>
      (r.Some? <==> account.code != "" && exists i :: 0 <= i < |flat| && flat[i].code == Prefix(account.code) + ".000")
    ensures (forall i :: 0 <= i < |flat| ==> Some(flat[i].id) != account.parent) && r.Some? ==>
      r.value.code == Prefix(account.code) + ".000"
  {
    match FindEntry(flat, (a: FlatAccount) => Some(a.id) == account.parent)
    case Some(p) => Some(p)
    case None =>
      if account.code != "" then FindEntry(flat, (a: FlatAccount) => a.code == Prefix(account.code) + ".000")
      else None
  }

  /** The codes that count as taken while editing: every entry's code
      except the edited account's own. */
  function UsedCodesExcept(flat: seq<FlatAccount>, self: string): (r: seq<string>)
    ensures forall c :: c in r <==> exists a :: a in flat && a.id != self && a.code == c
  {
    var others := Seqs.Filter(flat, (a: FlatAccount) => a.id != self);
    var r := Codes(others);
    assert forall c :: c in r <==> exists a :: a in others && a.code == c by {
      forall c | c in r ensures exists a :: a in others && a.code == c {
        var i :| 0 <= i < |r| && r[i] == c;
        assert others[i] in others;
      }
      forall c | exists a :: a in others && a.code == c ensures c in r {
        var a :| a in others && a.code == c;
        var i :| 0 <= i < |others| && others[i] == a;
        assert r[i] == c;
      }
    }
    r
  }

  function PrefixError(prefix: string): string
  {
    "Nomor akun harus diawali dengan " + prefix
  }

  /** `validate` of the edit dialog: the code must share the parent's prefix
      and be free; every other case clears the error. */
  function ValidateEdit(code: string, parent: Option<FlatAccount>, used: seq<string>): (r: Option<string>)
    ensures r.None? <==>
      code == "" || parent.None? || (Prefix(parent.value.code) == Prefix(code) && code !in used)
    ensures code != "" && parent.Some? && Prefix(parent.value.code) != Prefix(code) ==>
      r == Some(PrefixError(Prefix(parent.value.code)))
  {
    if code == "" || parent.None? then None
    else if Prefix(parent.value.code) != Prefix(code) then Some(PrefixError(Prefix(parent.value.code)))
    else if code in used then Some(CodeUsedError)
    else None
  }

  /** The saldo shown when the dialog opens:
      `formatRupiahValue(Math.round(parseFloat(balance || 0)))`. */
  function InitialSaldo(v: Value): string
  {
    var x := match v
      case Null => Some(0.0)
      case Num(x) => Some(x)
      case Str(s) => if s == "" then Some(0.0) else ParseFloat(s);
    match x
    case None => ""
    case Some(y) => FormatRupiahValue(IntToString(Round(y)))
  }

  /** `useEffect` on open: the form is filled from the account. */
  function EditOpen(flat: seq<FlatAccount>, account: Item): (r: AccountForm)
    ensures r.error.None? && r.code == account.code && r.name == account.name
    ensures r.parent == ResolveParent(flat, account)
  {
    AccountForm(account.name, ResolveParent(flat, account), account.code, InitialSaldo(account.balance), None)
  }

  /** `handleInputChange` of the edit dialog. */
  function EditInput(f: AccountForm, field: Field, v: string, used: seq<string>): (r: AccountForm)
    ensures field == NameField ==> r == f.(name := SanitizeName(v))
    ensures field == CodeField ==> r == f.(code := SanitizeCode(v), error := ValidateEdit(SanitizeCode(v), f.parent, used))
    ensures field == SaldoField ==> r == f.(saldo := FormatRupiahValue(v))
  {
    match field
    case NameField => f.(name := SanitizeName(v))
    case CodeField =>
      var c := SanitizeCode(v);
      f.(code := c, error := ValidateEdit(c, f.parent, used))
    case SaldoField => f.(saldo := FormatRupiahValue(v))
  }

  /** `handleParentSelect` of the edit dialog: only `*.000` entries. */
  function EditSelectParent(f: AccountForm, p: FlatAccount, used: seq<string>): (r: AccountForm)
    ensures !EndsWith(p.code, ".000") ==> r == f
    ensures EndsWith(p.code, ".000") ==> r.parent == Some(p) && r.error == ValidateEdit(f.code, Some(p), used)
  {
    if !EndsWith(p.code, ".000") then f else f.(parent := Some(p), error := ValidateEdit(f.code, Some(p), used))
  }

  lemma PrefixOfHeader(prefix: string)
    requires '.' !in prefix
    ensures Prefix(prefix + ".000") == prefix
  {
    SplitAtSep(prefix, "000", '.');
    assert prefix + ".000" == prefix + ['.'] + "000";
  }

  /** A parent found through the code fallback always passes the prefix
      check for the account's own code, and that code is free as long as no
      other account carries it. */
  lemma FallbackParentAccepted(flat: seq<FlatAccount>, account: Item)
    requires forall i :: 0 <= i < |flat| ==> Some(flat[i].id) != account.parent
    requires ResolveParent(flat, account).Some?
    requires forall a :: a in flat && a.code == account.code ==> a.id == account.id
    ensures ValidateEdit(account.code, ResolveParent(flat, account), UsedCodesExcept(flat, account.id)).None?
  {
    PrefixOfHeader(Prefix(account.code));
  }

  /** What the edit dialog sends: fields not on the form come from the
      account, and the saldo is parsed as in `handleEditAccount`. */
  function EditSubmit(account: Item, f: AccountForm): (r: Account)
    ensures r.level == account.level && r.kind == account.kind && r.isSystem == account.isSystem
    ensures r.code == f.code && r.name == f.name && r.balance == ParseBalance(Str(f.saldo))
  {
    Account(f.code, f.name, account.kind, account.level,
            if f.parent.Some? then Some(f.parent.value.id) else None,
            ParseBalance(Str(f.saldo)), account.isSystem, Active)
  }

  /** Opening and saving an account keeps a positive balance, rounded to
      whole Rupiah. */
  lemma EditKeepsPositiveBalance(x: real)
    requires Round(x) > 0
    ensures ParseBalance(Str(InitialSaldo(Num(x)))) == Round(x) as real
  {
    SaldoRoundTrip(Round(x));
  }

  /** A negative balance loses its sign on the way through the form: the
      minus is not a digit, so opening and saving stores its magnitude. */
  lemma EditDropsSign(x: real)
    requires Round(x) < 0
    ensures ParseBalance(Str(InitialSaldo(Num(x)))) == (-Round(x)) as real
  {
    var m: nat := -Round(x);
    var d := NatToString(m);
    assert IntToString(Round(x)) == "-" + d;
    DigitsOfDigits(d);
    FilterConcat("-", d, IsDigit);
    assert DigitsOf("-" + d) == d;
    SaldoRoundTrip(m);
  }
}
