/** The chart-of-accounts page: the flat account list from the server is
    turned into a tree, parents show the sum of their leaves, siblings are
    ordered by code, and a search term prunes the tree to the matching
    accounts and their ancestors. */
module AccountTree {
  import opened Outcomes
  import opened Text
  import Seqs
  import opened Ledger
  import opened Rupiah

  /** One account as the server lists it; the balance may arrive as a number
      or as text. */
  datatype Item = Item(
    id: string,
    code: string,
    name: string,
    level: nat,
    kind: AccountType,
    parent: Option<string>,
    balance: Value,
    isSystem: bool)

  datatype Node = Node(item: Item, children: seq<Node>)

  /** Account ids are the table's primary key. */
  predicate DistinctIds(list: seq<Item>)
  {
    forall i, j :: 0 <= i < j < |list| ==> list[i].id != list[j].id
  }

  predicate Listed(list: seq<Item>, id: string)
  {
    exists i :: 0 <= i < |list| && list[i].id == id
  }

  /** The item is hung under a parent: its `parent_id` is non-empty and
      names a listed account. */
  predicate Attached(list: seq<Item>, x: Item)
  {
    x.parent.Some? && x.parent.value != "" && Listed(list, x.parent.value)
  }

  /** The items hung under the account `id`, in list order. */
  function ChildrenOf(list: seq<Item>, id: string): (r: seq<Item>)
    ensures forall x :: x in r <==> x in list && id != "" && x.parent == Some(id)
  {
    Seqs.Filter(list, (x: Item) => id != "" && x.parent == Some(id))
  }

  /** The items shown at the top level, in list order. */
  function Roots(list: seq<Item>): (r: seq<Item>)
    ensures forall x :: x in r <==> x in list && !Attached(list, x)
  {
    Seqs.Filter(list, (x: Item) => !Attached(list, x))
  }

  function Items(ns: seq<Node>): (r: seq<Item>)
    ensures |r| == |ns| && forall i :: 0 <= i < |ns| ==> r[i] == ns[i].item
  {
    if |ns| == 0 then [] else [ns[0].item] + Items(ns[1..])
  }

  /** The node of `x` with its sub-tree, cut off after `fuel` levels. */
  function Materialise(list: seq<Item>, x: Item, fuel: nat): (r: Node)
    ensures r.item == x
    ensures fuel > 0 ==> Items(r.children) == ChildrenOf(list, x.id)
    decreases fuel, 0
  {
    Node(x, if fuel == 0 then [] else MaterialiseAll(list, ChildrenOf(list, x.id), fuel - 1))
  }

  function MaterialiseAll(list: seq<Item>, xs: seq<Item>, fuel: nat): (r: seq<Node>)
    ensures Items(r) == xs
    decreases fuel, 1, |xs|
  {
    if |xs| == 0 then []
    else
      var r := [Materialise(list, xs[0], fuel)] + MaterialiseAll(list, xs[1..], fuel);
      assert Items(r)[1..] == Items(r[1..]);
      r
  }

  lemma {:induction false} MaterialiseAllAt(list: seq<Item>, xs: seq<Item>, fuel: nat, i: nat)
    requires i < |xs|
    ensures MaterialiseAll(list, xs, fuel)[i] == Materialise(list, xs[i], fuel)
  {
    if i > 0 {
      MaterialiseAllAt(list, xs[1..], fuel, i - 1);
    }
  }

  /** `buildTree`: every item whose parent is listed goes under that parent,
      the others are roots. The tree is materialised down to as many levels
      as there are items, which is the depth of any cycle-free ancestry. */
  function BuildTree(list: seq<Item>): (r: seq<Node>)
    requires DistinctIds(list)
    ensures Items(r) == Roots(list)
    ensures forall i :: 0 <= i < |r| ==> Items(r[i].children) == ChildrenOf(list, r[i].item.id)
  {
    var roots := Roots(list);
    var r := MaterialiseAll(list, roots, |list|);
    assert forall i :: 0 <= i < |r| ==> Items(r[i].children) == ChildrenOf(list, r[i].item.id) by {
      forall i | 0 <= i < |r| ensures Items(r[i].children) == ChildrenOf(list, r[i].item.id) {
        assert roots[i] in list;
        MaterialiseAllAt(list, roots, |list|, i);
      }
    }
    r
  }

  /** The items of a forest in pre-order (a node before its children). */
  function FlattenAll(ns: seq<Node>): seq<Item>
    decreases ns
  {
    if |ns| == 0 then [] else Flatten(ns[0]) + FlattenAll(ns[1..])
  }

  function Flatten(n: Node): seq<Item>
    decreases n
  {
    [n.item] + FlattenAll(n.children)
  }

  /** `z` is reached from `y` by following `k` child links. */
  ghost predicate Descends(list: seq<Item>, z: Item, y: Item, k: nat)
    decreases k
  {
    if k == 0 then z == y
    else exists c :: c in list && y.id != "" && c.parent == Some(y.id) && Descends(list, z, c, k - 1)
  }

  lemma {:induction false} FlattenAllMember(ns: seq<Node>, i: nat, z: Item)
    requires i < |ns| && z in Flatten(ns[i])
    ensures z in FlattenAll(ns)
  {
    if i > 0 {
      FlattenAllMember(ns[1..], i - 1, z);
    }
  }

  lemma ChildReached(list: seq<Item>, z: Item, c: Item, xs: seq<Item>, fuel: nat, i: nat)
    requires i < |xs| && xs[i] == c && z in Flatten(Materialise(list, c, fuel))
    ensures z in FlattenAll(MaterialiseAll(list, xs, fuel))
  {
    MaterialiseAllAt(list, xs, fuel, i);
    FlattenAllMember(MaterialiseAll(list, xs, fuel), i, z);
  }

  lemma MaterialiseChildren(list: seq<Item>, y: Item, fuel: nat)
    requires fuel > 0
    ensures Materialise(list, y, fuel).children == MaterialiseAll(list, ChildrenOf(list, y.id), fuel - 1)
  {
  }

  lemma FlattenChildren(n: Node, z: Item)
    requires z == n.item || z in FlattenAll(n.children)
    ensures z in Flatten(n)
  {
  }

  lemma {:induction false} MaterialiseReaches(list: seq<Item>, z: Item, y: Item, k: nat, fuel: nat)
    requires Descends(list, z, y, k) && k <= fuel
    ensures z in Flatten(Materialise(list, y, fuel))
    decreases k, 1
  {
    if k == 0 {
      FlattenChildren(Materialise(list, y, fuel), z);
    } else {
      ReachesThroughChild(list, z, y, k, fuel);
    }
  }

  lemma {:induction false} ReachesThroughChild(list: seq<Item>, z: Item, y: Item, k: nat, fuel: nat)
    requires Descends(list, z, y, k) && 0 < k <= fuel
    ensures z in Flatten(Materialise(list, y, fuel))
    decreases k, 0
  {
    var c :| c in list && y.id != "" && c.parent == Some(y.id) && Descends(list, z, c, k - 1);
    MaterialiseReaches(list, z, c, k - 1, fuel - 1);
    ShownBelowChild(list, z, y, c, fuel);
  }

  /** What a child's subtree shows, its parent's subtree shows too. */
  lemma ShownBelowChild(list: seq<Item>, z: Item, y: Item, c: Item, fuel: nat)
    requires c in list && y.id != "" && c.parent == Some(y.id) && fuel > 0
    requires z in Flatten(Materialise(list, c, fuel - 1))
    ensures z in Flatten(Materialise(list, y, fuel))
  {
    var xs := ChildrenOf(list, y.id);
    assert c in xs;
    var i :| 0 <= i < |xs| && xs[i] == c;
    ChildReached(list, z, c, xs, fuel - 1, i);
    MaterialiseChildren(list, y, fuel);
    FlattenChildren(Materialise(list, y, fuel), z);
  }

  lemma {:induction false} FlattenedListed(list: seq<Item>, x: Item, fuel: nat)
    requires x in list
    ensures forall z :: z in Flatten(Materialise(list, x, fuel)) ==> z in list
    decreases fuel, 0
  {
    if fuel > 0 {
      FlattenedAllListed(list, ChildrenOf(list, x.id), fuel - 1);
    }
  }

  lemma {:induction false} FlattenedAllListed(list: seq<Item>, xs: seq<Item>, fuel: nat)
    requires forall x :: x in xs ==> x in list
    ensures forall z :: z in FlattenAll(MaterialiseAll(list, xs, fuel)) ==> z in list
    decreases fuel, 1, |xs|
  {
    if |xs| > 0 {
      FlattenedListed(list, xs[0], fuel);
      FlattenedAllListed(list, xs[1..], fuel);
      var r := MaterialiseAll(list, xs, fuel);
      assert r[1..] == MaterialiseAll(list, xs[1..], fuel);
    }
  }

  /** The tree shows only listed accounts. */
  lemma BuildTreeShowsListed(list: seq<Item>)
    requires DistinctIds(list)
    ensures forall z :: z in FlattenAll(BuildTree(list)) ==> z in list
  {
    FlattenedAllListed(list, Roots(list), |list|);
  }

  lemma {:induction false} FlattenAllWitness(ns: seq<Node>, z: Item)
    requires z in FlattenAll(ns)
    ensures exists i :: 0 <= i < |ns| && z in Flatten(ns[i])
  {
    if z !in Flatten(ns[0]) {
      FlattenAllWitness(ns[1..], z);
      var i :| 0 <= i < |ns[1..]| && z in Flatten(ns[1..][i]);
      assert ns[1..][i] == ns[i + 1];
    }
  }

  /** Only descendants appear below a node. */
  lemma {:induction false} MaterialiseOnlyDescendants(list: seq<Item>, z: Item, y: Item, fuel: nat)
    requires z in Flatten(Materialise(list, y, fuel))
    ensures exists k: nat :: k <= fuel && Descends(list, z, y, k)
    decreases fuel, 1
  {
    if z == y {
      assert Descends(list, z, y, 0);
    } else {
      DescendantThroughChild(list, z, y, fuel);
    }
  }

  lemma {:induction false} DescendantThroughChild(list: seq<Item>, z: Item, y: Item, fuel: nat)
    requires z in Flatten(Materialise(list, y, fuel)) && z != y
    ensures exists k: nat :: k <= fuel && Descends(list, z, y, k)
    decreases fuel, 0
  {
    var n := Materialise(list, y, fuel);
    assert z in FlattenAll(n.children);
    MaterialiseChildren(list, y, fuel);
    var xs := ChildrenOf(list, y.id);
    var kids := MaterialiseAll(list, xs, fuel - 1);
    FlattenAllWitness(kids, z);
    var i :| 0 <= i < |kids| && z in Flatten(kids[i]);
    MaterialiseAllAt(list, xs, fuel - 1, i);
    MaterialiseOnlyDescendants(list, z, xs[i], fuel - 1);
    var k: nat :| k <= fuel - 1 && Descends(list, z, xs[i], k);
    DescendsStep(list, z, y, xs, i, k);
  }

  /** A descendant of a child is a descendant one link further. */
  lemma DescendsStep(list: seq<Item>, z: Item, y: Item, xs: seq<Item>, i: nat, k: nat)
    requires xs == ChildrenOf(list, y.id) && i < |xs| && Descends(list, z, xs[i], k)
    ensures Descends(list, z, y, k + 1)
  {
    var c := xs[i];
    assert c in xs;
    assert c in list && y.id != "" && c.parent == Some(y.id);
  }

  /** The tree shows exactly the accounts that descend from a root through
      at most as many links as there are accounts. */
  lemma BuildTreeShowsDescendants(list: seq<Item>, z: Item)
    requires DistinctIds(list)
    ensures z in FlattenAll(BuildTree(list)) <==>
      exists y, k: nat :: y in Roots(list) && k <= |list| && Descends(list, z, y, k)
  {
    if z in FlattenAll(BuildTree(list)) {
      ShownDescends(list, z);
    }
    if exists y, k: nat :: y in Roots(list) && k <= |list| && Descends(list, z, y, k) {
      var y, k: nat :| y in Roots(list) && k <= |list| && Descends(list, z, y, k);
      DescendantShown(list, z, y, k);
    }
  }

  lemma ShownDescends(list: seq<Item>, z: Item)
    requires DistinctIds(list) && z in FlattenAll(BuildTree(list))
    ensures exists y, k: nat :: y in Roots(list) && k <= |list| && Descends(list, z, y, k)
  {
    var roots := Roots(list);
    FlattenAllWitness(BuildTree(list), z);
    var i :| 0 <= i < |roots| && z in Flatten(BuildTree(list)[i]);
    MaterialiseAllAt(list, roots, |list|, i);
    MaterialiseOnlyDescendants(list, z, roots[i], |list|);
    assert roots[i] in roots;
  }

  lemma DescendantShown(list: seq<Item>, z: Item, y: Item, k: nat)
    requires DistinctIds(list) && y in Roots(list) && k <= |list| && Descends(list, z, y, k)
    ensures z in FlattenAll(BuildTree(list))
  {
    var roots := Roots(list);
    var i :| 0 <= i < |roots| && roots[i] == y;
    MaterialiseReaches(list, z, y, k, |list|);
    ChildReached(list, z, y, roots, |list|, i);
  }

  // ---------------------------------------------------------------- totals

  function LeafBalance(x: Item): real { ParseBalance(x.balance) }

  /** `calculateTotal`: a leaf shows its own parsed balance, a parent the
      sum of its children's totals. */
  function CalculateTotal(n: Node): real
    decreases n
  {
    if |n.children| == 0 then ParseBalance(n.item.balance) else TotalAll(n.children)
  }

  function TotalAll(ns: seq<Node>): real
    decreases ns
  {
    if |ns| == 0 then 0.0 else CalculateTotal(ns[0]) + TotalAll(ns[1..])
  }

  /** The leaves under a node, left to right (the node itself if it has no
      children). */
  function Leaves(n: Node): (r: seq<Item>)
    ensures |r| > 0
    decreases n
  {
    if |n.children| == 0 then [n.item] else LeavesAll(n.children)
  }

  function LeavesAll(ns: seq<Node>): seq<Item>
    decreases ns
  {
    if |ns| == 0 then [] else Leaves(ns[0]) + LeavesAll(ns[1..])
  }

  /** A parent's total is the sum of the balances of the leaves beneath it:
      balances stored on inner accounts never count. */
  lemma {:induction false} TotalIsLeafSum(n: Node)
    ensures CalculateTotal(n) == Seqs.Sum(Leaves(n), LeafBalance)
    decreases n, 1
  {
    if |n.children| > 0 {
      TotalAllIsLeafSum(n.children);
    }
  }

  lemma {:induction false} TotalAllIsLeafSum(ns: seq<Node>)
    ensures TotalAll(ns) == Seqs.Sum(LeavesAll(ns), LeafBalance)
    decreases ns, 0
  {
    if |ns| > 0 {
      TotalIsLeafSum(ns[0]);
      TotalAllIsLeafSum(ns[1..]);
      Seqs.SumConcat(Leaves(ns[0]), LeavesAll(ns[1..]), LeafBalance);
    }
  }

  // --------------------------------------------------------------- sorting

  /** Sibling order: ascending code, character by character. */
  function ByCode(a: Node, b: Node): bool { LexLe(a.item.code, b.item.code) }

  /** `sortAccounts` on one node: its own children are sorted, and so on
      down the tree. */
  function SortNode(n: Node): (r: Node)
    ensures r.item == n.item
    decreases n, 1
  {
    n.(children := SortForest(n.children))
  }

  /** Every node sorted below, then the siblings ordered by code. */
  function SortForest(ns: seq<Node>): (r: seq<Node>)
    ensures |r| == |ns|
    decreases ns, 2
  {
    Seqs.Sort(SortEach(ns), ByCode)
  }

  function SortEach(ns: seq<Node>): (r: seq<Node>)
    ensures |r| == |ns| && forall i :: 0 <= i < |ns| ==> r[i] == SortNode(ns[i])
    decreases ns, 0
  {
    if |ns| == 0 then [] else [SortNode(ns[0])] + SortEach(ns[1..])
  }

  /** Every sibling list in the forest is in code order. */
  ghost predicate SortedTree(ns: seq<Node>)
    decreases ns
  {
    && Seqs.SortedBy(ns, ByCode)
    && forall i :: 0 <= i < |ns| ==> SortedTree(ns[i].children)
  }

  lemma ByCodePreorder()
    ensures Seqs.TotalPreorder(ByCode)
  {
    LexLeOrder();
  }

  lemma {:induction false} SortForestSorted(ns: seq<Node>)
    ensures SortedTree(SortForest(ns))
    decreases ns
  {
    ByCodePreorder();
    var each := SortEach(ns);
    var r := SortForest(ns);
    Seqs.SortSorted(each, ByCode);
    forall i | 0 <= i < |ns|
      ensures SortedTree(each[i].children)
    {
      SortForestSorted(ns[i].children);
    }
    forall j | 0 <= j < |r|
      ensures SortedTree(r[j].children)
    {
      assert r[j] in multiset(each);
      var i :| 0 <= i < |each| && each[i] == r[j];
    }
  }

  /** The same nodes, sorted below: every node of the input appears sorted
      and nothing else appears. */
  lemma SortForestMembers(ns: seq<Node>)
    ensures forall n :: n in ns ==> SortNode(n) in SortForest(ns)
    ensures forall x :: x in SortForest(ns) ==> exists n :: n in ns && x == SortNode(n)
  {
    var each := SortEach(ns);
    var r := SortForest(ns);
    forall n | n in ns ensures SortNode(n) in r {
      var i :| 0 <= i < |ns| && ns[i] == n;
      assert each[i] in multiset(r);
    }
    forall x | x in r ensures exists n :: n in ns && x == SortNode(n) {
      assert x in multiset(each);
      var i :| 0 <= i < |each| && each[i] == x;
      assert ns[i] in ns;
    }
  }

  lemma {:induction false} TotalAllInsert(x: Node, s: seq<Node>)
    ensures TotalAll(Seqs.Insert(x, s, ByCode)) == CalculateTotal(x) + TotalAll(s)
  {
    if |s| > 0 && !ByCode(x, s[0]) {
      TotalAllInsert(x, s[1..]);
      assert Seqs.Insert(x, s, ByCode)[1..] == Seqs.Insert(x, s[1..], ByCode);
    }
  }

  lemma {:induction false} TotalAllSort(s: seq<Node>)
    ensures TotalAll(Seqs.Sort(s, ByCode)) == TotalAll(s)
  {
    if |s| > 0 {
      TotalAllSort(s[1..]);
      TotalAllInsert(s[0], Seqs.Sort(s[1..], ByCode));
    }
  }

  /** Sorting never changes a total. */
  lemma {:induction false} SortKeepsTotal(n: Node)
    ensures CalculateTotal(SortNode(n)) == CalculateTotal(n)
    decreases n, 0
  {
    if |n.children| > 0 {
      SortForestKeepsTotal(n.children);
    }
  }

  lemma {:induction false} SortForestKeepsTotal(ns: seq<Node>)
    ensures TotalAll(SortForest(ns)) == TotalAll(ns)
    decreases ns, 1
  {
    TotalAllSort(SortEach(ns));
    SortEachKeepsTotal(ns);
  }

  lemma {:induction false} SortEachKeepsTotal(ns: seq<Node>)
    ensures TotalAll(SortEach(ns)) == TotalAll(ns)
    decreases ns, 0
  {
    if |ns| > 0 {
      SortKeepsTotal(ns[0]);
      SortEachKeepsTotal(ns[1..]);
      assert SortEach(ns)[1..] == SortEach(ns[1..]);
    }
  }

  lemma {:induction false} InsertCommutes(x: Node, s: seq<Node>)
    ensures Seqs.Insert(SortNode(x), SortEach(s), ByCode) == SortEach(Seqs.Insert(x, s, ByCode))
  {
    if |s| > 0 && !ByCode(x, s[0]) {
      InsertCommutes(x, s[1..]);
      assert SortEach(s)[1..] == SortEach(s[1..]);
      var ins := Seqs.Insert(x, s, ByCode);
      assert ins == [s[0]] + Seqs.Insert(x, s[1..], ByCode);
      assert SortEach(ins)[1..] == SortEach(ins[1..]);
    }
  }

  /** The source sorts the siblings first and then sorts below each one;
      sorting below first gives the same forest, because sorting below never
      changes a node's code. */
  lemma {:induction false} SortForestAsWritten(ns: seq<Node>)
    ensures SortForest(ns) == SortEach(Seqs.Sort(ns, ByCode))
  {
    if |ns| > 0 {
      SortForestAsWritten(ns[1..]);
      assert SortEach(ns)[1..] == SortEach(ns[1..]);
      InsertCommutes(ns[0], Seqs.Sort(ns[1..], ByCode));
    }
  }

  // ------------------------------------------------------------- filtering

  /** The account's name or code contains the term, ignoring case. */
  predicate Matches(x: Item, term: string)
  {
    Contains(ToLower(x.name), ToLower(term)) || Contains(ToLower(x.code), ToLower(term))
  }

  /** The node survives the search: it matches, or a node below it does. */
  ghost predicate Relevant(n: Node, term: string)
    decreases n
  {
    Matches(n.item, term) || exists i :: 0 <= i < |n.children| && Relevant(n.children[i], term)
  }

  /** `filterAccounts` with a non-empty term. */
  function FilterForest(ns: seq<Node>, term: string): (r: seq<Node>)
    ensures |r| <= |ns|
    decreases ns, 1
  {
    if |ns| == 0 then [] else Kept(ns[0], term) + FilterForest(ns[1..], term)
  }

  /** One node after filtering: kept, with its filtered children, or gone. */
  function Kept(n: Node, term: string): (r: seq<Node>)
    ensures |r| <= 1
    ensures |r| == 1 ==> r[0] == n.(children := FilterForest(n.children, term))
    decreases n, 0
  {
    var kids := FilterForest(n.children, term);
    if Matches(n.item, term) || |kids| > 0 then [n.(children := kids)] else []
  }

  /** `filterAccounts`: an empty term shows the whole tree. */
  function FilterAccounts(ns: seq<Node>, term: string): (r: seq<Node>)
    ensures term == "" ==> r == ns
    ensures term != "" ==> r == FilterForest(ns, term)
  {
    if term == "" then ns else FilterForest(ns, term)
  }

  /** A node is kept exactly when it or one of its descendants matches. */
  lemma {:induction false} KeptIff(n: Node, term: string)
    ensures |Kept(n, term)| == 1 <==> Relevant(n, term)
    decreases n, 1
  {
    ForestEmptyIff(n.children, term);
  }

  lemma {:induction false} ForestEmptyIff(ns: seq<Node>, term: string)
    ensures |FilterForest(ns, term)| == 0 <==> forall i :: 0 <= i < |ns| ==> !Relevant(ns[i], term)
    decreases ns, 0
  {
    if |ns| > 0 {
      KeptIff(ns[0], term);
      ForestEmptyIff(ns[1..], term);
      assert forall i :: 1 <= i < |ns| ==> ns[i] == ns[1..][i - 1];
    }
  }

  /** Each surviving node is an input node, in input order, carrying only
      its surviving children; exactly the relevant nodes survive. */
  lemma {:induction false} FilterForestMembers(ns: seq<Node>, term: string)
    ensures forall x :: x in FilterForest(ns, term) <==>
      exists n :: n in ns && Relevant(n, term) && x == n.(children := FilterForest(n.children, term))
  {
    if |ns| > 0 {
      FilterForestMembers(ns[1..], term);
      KeptIff(ns[0], term);
      assert forall n :: n in ns <==> n == ns[0] || n in ns[1..];
    }
  }

  /** Searching again with the same term changes nothing. */
  lemma {:induction false} FilterIdempotent(ns: seq<Node>, term: string)
    ensures FilterAccounts(FilterAccounts(ns, term), term) == FilterAccounts(ns, term)
  {
    if term != "" {
      FilterForestIdempotent(ns, term);
    }
  }

  lemma {:induction false} FilterForestIdempotent(ns: seq<Node>, term: string)
    ensures FilterForest(FilterForest(ns, term), term) == FilterForest(ns, term)
    decreases ns, 1
  {
    if |ns| > 0 {
      KeptIdempotent(ns[0], term);
      FilterForestIdempotent(ns[1..], term);
      FilterForestConcat(Kept(ns[0], term), FilterForest(ns[1..], term), term);
    }
  }

  lemma {:induction false} KeptIdempotent(n: Node, term: string)
    ensures FilterForest(Kept(n, term), term) == Kept(n, term)
    decreases n, 0
  {
    var k := Kept(n, term);
    if |k| == 1 {
      FilterForestIdempotent(n.children, term);
      assert FilterForest(k, term) == Kept(k[0], term) + FilterForest([], term);
    }
  }

  lemma {:induction false} FilterForestConcat(a: seq<Node>, b: seq<Node>, term: string)
    ensures FilterForest(a + b, term) == FilterForest(a, term) + FilterForest(b, term)
  {
    if |a| > 0 {
      assert (a + b)[1..] == a[1..] + b;
      FilterForestConcat(a[1..], b, term);
    } else {
      assert a + b == b;
    }
  }

  // ------------------------------------------------- adding, edit, delete

  /** `findParent`: depth-first, a node before its children. */
  function FindIn(ns: seq<Node>, id: string): Option<Node>
    decreases ns
  {
    if |ns| == 0 then None
    else if ns[0].item.id == id then Some(ns[0])
    else
      match FindIn(ns[0].children, id)
      case Some(found) => Some(found)
      case None => FindIn(ns[1..], id)
  }

  /** The first item with the given id. */
  function FirstWithId(xs: seq<Item>, id: string): (r: Option<Item>)
    ensures r.None? <==> forall i :: 0 <= i < |xs| ==> xs[i].id != id
    ensures r.Some? ==> r.value in xs && r.value.id == id
  {
    if |xs| == 0 then None else if xs[0].id == id then Some(xs[0]) else FirstWithId(xs[1..], id)
  }

  lemma {:induction false} FirstWithIdConcat(a: seq<Item>, b: seq<Item>, id: string)
    ensures FirstWithId(a + b, id) == if FirstWithId(a, id).Some? then FirstWithId(a, id) else FirstWithId(b, id)
  {
    if |a| > 0 {
      assert (a + b)[1..] == a[1..] + b;
      FirstWithIdConcat(a[1..], b, id);
    } else {
      assert a + b == b;
    }
  }

  /** The search finds the first account with the id in pre-order. */
  lemma {:induction false} FindInFlatten(ns: seq<Node>, id: string)
    ensures FindIn(ns, id).None? <==> FirstWithId(FlattenAll(ns), id).None?
    ensures FindIn(ns, id).Some? ==> FindIn(ns, id).value.item == FirstWithId(FlattenAll(ns), id).value
    decreases ns
  {
    if |ns| > 0 {
      FindInFlatten(ns[0].children, id);
      FindInFlatten(ns[1..], id);
      FirstWithIdConcat([ns[0].item], FlattenAll(ns[0].children), id);
      FirstWithIdConcat(Flatten(ns[0]), FlattenAll(ns[1..]), id);
    }
  }

  /** What the add-account form sends. */
  datatype NewAccount = NewAccount(parent: Option<string>, code: string, name: string, balance: Value)

  /** `handleAddAccount`: the id is the code; level and type come from the
      parent found in the tree, or are 0 and Assets. */
  function AddAccountRequest(tree: seq<Node>, data: NewAccount): (r: (string, Account))
    ensures r.0 == data.code && r.1.code == data.code && r.1.name == data.name
    ensures r.1.parent == data.parent && !r.1.isSystem
    ensures r.1.balance == ParseBalance(data.balance)
  {
    var found := if data.parent.Some? then FindIn(tree, data.parent.value) else None;
    var level := if found.Some? then found.value.item.level + 1 else 0;
    var kind := if found.Some? then found.value.item.kind else Assets;
    (data.code, Account(data.code, data.name, kind, level, data.parent, ParseBalance(data.balance), false, Active))
  }

  /** A new account sits one level below the first account in the tree with
      its parent's id and has its type; with no such account it is a level-0
      Assets account. */
  lemma AddAccountPlacement(tree: seq<Node>, data: NewAccount)
    ensures var r := AddAccountRequest(tree, data).1;
      match if data.parent.Some? then FirstWithId(FlattenAll(tree), data.parent.value) else None
      case Some(p) => r.level == p.level + 1 && r.kind == p.kind
      case None => r.level == 0 && r.kind == Assets
  {
    if data.parent.Some? {
      FindInFlatten(tree, data.parent.value);
    }
  }

  const CannotEdit: string := "Akun tidak dapat diubah karena memiliki akun turunan"
  const CannotDelete: string := "Akun tidak dapat dihapus karena memiliki akun turunan"

  /** `handleEditClick`: the edit form opens only for an account without
      children. */
  function EditClick(n: Node): (r: Result<Node, string>)
    ensures r.Err? <==> |n.children| > 0
    ensures r.Ok? ==> r.value == n
    ensures r.Err? ==> r.error == CannotEdit
  {
    if |n.children| > 0 then Err(CannotEdit) else Ok(n)
  }

  /** `handleDeleteClick`: likewise for the delete dialog. */
  function DeleteClick(n: Node): (r: Result<Node, string>)
    ensures r.Err? <==> |n.children| > 0
    ensures r.Ok? ==> r.value == n
    ensures r.Err? ==> r.error == CannotDelete
  {
    if |n.children| > 0 then Err(CannotDelete) else Ok(n)
  }

  /** In a built tree, editing or deleting an account is offered exactly
      when no listed account names it as its parent. */
  lemma GuardsFollowTheList(list: seq<Item>, x: Item, fuel: nat)
    requires x in list && fuel > 0
    ensures var n := Materialise(list, x, fuel);
      (EditClick(n).Ok? <==> forall y :: y in list ==> !(x.id != "" && y.parent == Some(x.id)))
      && (DeleteClick(n).Ok? <==> EditClick(n).Ok?)
  {
    var n := Materialise(list, x, fuel);
    var kids := ChildrenOf(list, x.id);
    assert |n.children| == |kids|;
    if |kids| > 0 {
      assert kids[0] in kids;
    }
  }
}
