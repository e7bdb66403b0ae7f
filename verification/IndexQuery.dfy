/** The disk index: comparison queries answered by point lookups and range scans of the B+ tree,
    against a plain filter over everything the index holds. */
module IndexQuery {
  import opened Wrappers
  import opened Multimap
  import opened NodeStore
  import opened TreeSearch
  import opened Scan
  import opened Sequences
  import opened TreeLeaves
  import SegmentFile
  import SegmentQuery
  import LeafNode = Leaf
  import LeafQuery
  import opened B = BTree

  /** components::expressions::compare_type, as far as the index agent tells them apart. */
  datatype Compare = Eq | Ne | Gt | Lt | Gte | Lte | Other

  predicate Satisfies(k: Key, cmp: Compare, v: Key) {
    match cmp
    case Eq => k == v
    case Ne => k != v
    case Gt => k > v
    case Lt => k < v
    case Gte => k >= v
    case Lte => k <= v
    case Other => false
  }

  /** The reference: the ids of all entries whose key satisfies the comparison. */
  ghost function Where<T>(ps: seq<Pair>, cmp: Compare, v: Key, read: Item -> T): multiset<T> {
    if ps == [] then multiset{}
    else One(ps[0], cmp, v, read) + Where(ps[1..], cmp, v, read)
  }

  ghost function One<T>(p: Pair, cmp: Compare, v: Key, read: Item -> T): multiset<T> {
    if Satisfies(p.0, cmp, v) then multiset{read(p.1)} else multiset{}
  }

  const MAX_SIZE: nat := 0xFFFF_FFFF_FFFF_FFFF

  lemma {:induction false} WhereAdd<T>(a: seq<Pair>, b: seq<Pair>, cmp: Compare, v: Key, read: Item -> T)
    ensures Where(a + b, cmp, v, read) == Where(a, cmp, v, read) + Where(b, cmp, v, read)
  {
    if a == [] {
      assert a + b == b;
    } else {
      assert (a + b)[1..] == a[1..] + b;
      WhereAdd(a[1..], b, cmp, v, read);
    }
  }

  /** A comparison that is the exclusive alternative of two others. */
  predicate Splits(c1: Compare, c2: Compare, cmp: Compare) {
    (c1 == Lt && c2 == Gt && cmp == Ne) || (c1 == Eq && c2 == Gt && cmp == Gte) || (c1 == Lt && c2 == Eq && cmp == Lte)
  }

  lemma OneUnion<T>(p: Pair, c1: Compare, c2: Compare, cmp: Compare, v: Key, read: Item -> T)
    requires Splits(c1, c2, cmp)
    ensures One(p, cmp, v, read) == One(p, c1, v, read) + One(p, c2, v, read)
  {
  }

  lemma Shuffle<T>(a: multiset<T>, b: multiset<T>, c: multiset<T>, d: multiset<T>)
    ensures (a + b) + (c + d) == (a + c) + (b + d)
  {
  }

  lemma {:induction false} WhereUnion<T>(ps: seq<Pair>, c1: Compare, c2: Compare, cmp: Compare, v: Key, read: Item -> T)
    requires Splits(c1, c2, cmp)
    ensures Where(ps, cmp, v, read) == Where(ps, c1, v, read) + Where(ps, c2, v, read)
  {
    if ps != [] {
      WhereUnion(ps[1..], c1, c2, cmp, v, read);
      OneUnion(ps[0], c1, c2, cmp, v, read);
      Shuffle(One(ps[0], c1, v, read), One(ps[0], c2, v, read), Where(ps[1..], c1, v, read),
          Where(ps[1..], c2, v, read));
    }
  }

  lemma {:induction false} WhereNone<T>(ps: seq<Pair>, cmp: Compare, v: Key, read: Item -> T)
    requires forall i :: 0 <= i < |ps| ==> !Satisfies(ps[i].0, cmp, v)
    ensures Where(ps, cmp, v, read) == multiset{}
  {
    if ps != [] { WhereNone(ps[1..], cmp, v, read); }
  }

  /** A query that wants exactly the keys of a comparison collects exactly its ids. */
  lemma {:induction false} MatchesWhere<T(!new)>(ps: seq<Pair>, q: Query<T>, cmp: Compare, v: Key)
    requires forall i :: 0 <= i < |ps| ==> (q.Wants(ps[i]) <==> Satisfies(ps[i].0, cmp, v))
    ensures multiset(Matches(ps, q)) == Where(ps, cmp, v, q.read) && |Matches(ps, q)| <= |ps|
  {
    if ps != [] {
      assert forall i :: 0 <= i < |ps[1..]| ==> ps[1..][i] == ps[i + 1];
      MatchesWhere(ps[1..], q, cmp, v);
    }
  }

  lemma {:induction false} WhereReversed<T>(ps: seq<Pair>, cmp: Compare, v: Key, read: Item -> T)
    ensures Where(Reversed(ps), cmp, v, read) == Where(ps, cmp, v, read)
  {
    if ps != [] {
      WhereReversed(ps[1..], cmp, v, read);
      WhereAdd(Reversed(ps[1..]), [ps[0]], cmp, v, read);
      assert [ps[0]][1..] == [];
    }
  }

  /** All keys of the index lie between the two limits of the key type. */
  ghost predicate Within(ps: seq<Pair>, bottom: Key, top: Key) {
    forall i :: 0 <= i < |ps| ==> bottom <= ps[i].0 <= top
  }

  lemma HitsWhere<T(!new)>(c: seq<Entry>, q: Query<T>, up: bool, cmp: Compare, v: Key)
    requires forall i :: 0 <= i < |Pairs(c)| ==> (q.Wants(Pairs(c)[i]) <==> Satisfies(Pairs(c)[i].0, cmp, v))
    ensures multiset(Hits(c, q, up)) == Where(Pairs(c), cmp, v, q.read) && |Hits(c, q, up)| <= |Pairs(c)|
  {
    var ps := if up then Pairs(c) else Reversed(Pairs(c));
    ReversedAt(Pairs(c));
    WhereReversed(Pairs(c), cmp, v, q.read);
    MatchesWhere(ps, q, cmp, v);
  }

  // ---------------------------------------------------------------- what a scan brings into memory

  /** The leaves a scan up to v goes through are those that do not start above it. */
  function ScannedUp(st: Store, lv: Leaves, v: Key): Leaves {
    map x | x in lv :: if NotAbove(EntriesOf(st, x), v) then LeafQuery.ScannedUp(lv[x], v) else lv[x]
  }

  predicate NotAbove(c: seq<Entry>, v: Key) { c != [] && c[0].key <= v }

  /** The leaves a scan down to v goes through are those that do not end below it. */
  function ScannedDown(st: Store, lv: Leaves, v: Key): Leaves {
    map x | x in lv :: if NotUnder(EntriesOf(st, x), v) then LeafQuery.ScannedDown(lv[x], v) else lv[x]
  }

  predicate NotUnder(c: seq<Entry>, v: Key) { c != [] && c[|c| - 1].key >= v }

  lemma ScannedAt(st: Store, lv: Leaves, files: Files, v: Key, x: Id)
    requires BackedAt(st, lv, files, x)
    ensures BackedAt(st, ScannedUp(st, lv, v), files, x) && BackedAt(st, ScannedDown(st, lv, v), files, x)
  {
    LeafQuery.ScannedGood(lv[x], EntriesOf(st, x), DataOf(files, FileOf(st, x)), v);
  }

  lemma ScannedBacked(st: Store, lv: Leaves, files: Files, l: seq<Id>, v: Key)
    requires Backed(st, lv, files, l)
    ensures Backed(st, ScannedUp(st, lv, v), files, l) && Backed(st, ScannedDown(st, lv, v), files, l)
  {
    forall i | 0 <= i < |l|
      ensures BackedAt(st, ScannedUp(st, lv, v), files, l[i]) && BackedAt(st, ScannedDown(st, lv, v), files, l[i])
    {
      assert BackedAt(st, lv, files, l[i]);
      ScannedAt(st, lv, files, v, l[i]);
    }
  }

  lemma ScannedCarried(st: Store, lv: Leaves, files: Files, v: Key, x: Id)
    requires BackedAt(st, lv, files, x)
    ensures LeafFile.Carried(lv[x], ScannedUp(st, lv, v)[x]) && LeafFile.Carried(lv[x], ScannedDown(st, lv, v)[x])
  {
    var s := lv[x];
    LeafFile.CarriedSelf(s);
    LeafFile.CarriedTouched(s, 0, LeafQuery.EnteredUp(s.tree.bs, v, 0));
    LeafFile.CarriedTouched(s, LeafQuery.EnteredDown(s.tree.bs, v, |s.tree.bs|), |s.ps|);
  }

  lemma ScannedCurrent(st: Store, lv: Leaves, files: Files, l: seq<Id>, v: Key)
    requires Backed(st, lv, files, l) && AllCurrent(st, lv, files, l)
    ensures AllCurrent(st, ScannedUp(st, lv, v), files, l) && AllCurrent(st, ScannedDown(st, lv, v), files, l)
  {
    var up, down := ScannedUp(st, lv, v), ScannedDown(st, lv, v);
    forall i | 0 <= i < |l| ensures CurrentAt(st, up, files, l[i]) && CurrentAt(st, down, files, l[i]) {
      var x := l[i];
      assert BackedAt(st, lv, files, x) && CurrentAt(st, lv, files, x);
      ScannedCarried(st, lv, files, v, x);
      LeafDisk.StaysUpToDate(lv[x], up[x], DataOf(files, FileOf(st, x)));
      LeafDisk.StaysUpToDate(lv[x], down[x], DataOf(files, FileOf(st, x)));
    }
  }

  /** After a scan up to an index all its blocks are in memory. */
  lemma ScanNoFault(st: Store, lv: Leaves, files: Files, ls: Levels, q: nat, v: Key)
    requires |ls| > 0 && LevelOk(st, ls[0], true) && Ordered(FlatE(st, ls[0])) && Backed(st, lv, files, ls[0])
    requires Covers(st, [ls[0]], 0, q, v)
    ensures !FaultsOn(st, ScannedUp(st, lv, v), ls, v)
  {
    var x, lv' := ls[0][q], ScannedUp(st, lv, v);
    assert BackedAt(st, lv, files, ls[0][q]);
    assert x in lv';
    FaultsThere(st, lv', ls, q, v);
    if NotAbove(EntriesOf(st, x), v) {
      LeafQuery.ScanLoads(lv[x], v);
    } else if SegmentQuery.Faults(lv[x], v) {
      LeafQuery.FaultsHas(lv[x], EntriesOf(st, x), v);
      StartsBelow(EntriesOf(st, x), v);
    }
  }

  lemma StartsBelow(c: seq<Entry>, v: Key)
    requires Has(c, v) && Ordered(c)
    ensures NotAbove(c, v)
  {
    if Rank(c, v) > 0 { assert c[0].key < v; }
  }

  // ---------------------------------------------------------------- the three primitive queries

  /** A tree in order can be searched. */
  lemma ValidSearchable(cap: nat, st: Store, ls: Levels, root: Id)
    requires GoodTree(st, ls, cap, root)
    ensures Searchable(st, ls, root) && |ls| > 0 && LevelOk(st, ls[0], true)
  {
    ShapeTower(st, ls, cap);
    assert LevelGood(st, ls, cap, NoHole, 0);
  }

  /** index_disk_t::lower_bound: everything strictly below v. */
  method LowerBoundIds<T(!new)>(cap: nat, st: Store, lv: Leaves, files: Files, root: Id, v: Key, bottom: Key,
      read: Item -> T, ghost ls: Levels, ghost top: Key)
    returns (ids: seq<T>, lv': Leaves)
    requires GoodTree(st, ls, cap, root) && Within(Pairs(FlatE(st, ls[0])), bottom, top)
      && |Pairs(FlatE(st, ls[0]))| <= MAX_SIZE && Backed(st, lv, files, ls[0])
    ensures multiset(ids) == Where(Pairs(FlatE(st, ls[0])), Lt, v, read)
    ensures lv' == ScannedUp(st, lv, v) && Backed(st, lv', files, ls[0])
    ensures AllCurrent(st, lv, files, ls[0]) ==> AllCurrent(st, lv', files, ls[0])
  {
    ValidSearchable(cap, st, ls, root);
    var q := Query(bottom, v, read, (k, _) => k != v);
    var found;
    found, ids := ScanRange(st, root, q, MAX_SIZE, true, ls);
    HitsWhere(FlatE(st, ls[0]), q, true, Lt, v);
    lv' := ScannedUp(st, lv, v);
    ScannedBacked(st, lv, files, ls[0], v);
    if AllCurrent(st, lv, files, ls[0]) { ScannedCurrent(st, lv, files, ls[0], v); }
  }

  /** index_disk_t::upper_bound: everything strictly above v, largest first. */
  method UpperBoundIds<T(!new)>(cap: nat, st: Store, lv: Leaves, files: Files, root: Id, v: Key, top: Key,
      read: Item -> T, ghost ls: Levels, ghost bottom: Key)
    returns (ids: seq<T>, lv': Leaves)
    requires GoodTree(st, ls, cap, root) && Within(Pairs(FlatE(st, ls[0])), bottom, top)
      && |Pairs(FlatE(st, ls[0]))| <= MAX_SIZE && Backed(st, lv, files, ls[0])
    ensures multiset(ids) == Where(Pairs(FlatE(st, ls[0])), Gt, v, read)
    ensures lv' == ScannedDown(st, lv, v) && Backed(st, lv', files, ls[0])
    ensures AllCurrent(st, lv, files, ls[0]) ==> AllCurrent(st, lv', files, ls[0])
  {
    ValidSearchable(cap, st, ls, root);
    var q := Query(v, top, read, (k, _) => k != v);
    var found;
    found, ids := ScanRange(st, root, q, MAX_SIZE, false, ls);
    HitsWhere(FlatE(st, ls[0]), q, false, Gt, v);
    lv' := ScannedDown(st, lv, v);
    ScannedBacked(st, lv, files, ls[0], v);
    if AllCurrent(st, lv, files, ls[0]) { ScannedCurrent(st, lv, files, ls[0], v); }
  }

  /** What an equality filter keeps is the group of the key. */
  lemma GroupWhere<T>(c: seq<Entry>, v: Key, read: Item -> T)
    requires Ordered(c)
    ensures Where(Pairs(c), Eq, v, read) == Where(GroupPairs(v, Group(c, v)), Eq, v, read)
  {
    var r := Rank(c, v);
    AboveRank(c, v);
    if Has(c, v) {
      assert c == c[..r] + [c[r]] + c[r + 1..];
      WhereMiddle(c[..r], [c[r]], c[r + 1..], v, read);
      PairsOne(c[r]);
    } else {
      assert c == c[..r] + [] + c[r..];
      WhereMiddle(c[..r], [], c[r..], v, read);
    }
  }

  lemma WhereMiddle<T>(a: seq<Entry>, mid: seq<Entry>, b: seq<Entry>, v: Key, read: Item -> T)
    requires AllBelow(a, v) && AllAbove(v, b)
    ensures Where(Pairs(a + mid + b), Eq, v, read) == Where(Pairs(mid), Eq, v, read)
  {
    PairsAdd(a + mid, b);
    PairsAdd(a, mid);
    WhereAdd(Pairs(a + mid), Pairs(b), Eq, v, read);
    WhereAdd(Pairs(a), Pairs(mid), Eq, v, read);
    PairsBelow(a, v);
    WhereNone(Pairs(a), Eq, v, read);
    PairsAbove(v, b);
    WhereNone(Pairs(b), Eq, v, read);
  }

  lemma AboveRank(c: seq<Entry>, v: Key)
    requires Ordered(c)
    ensures AllAbove(v, c[if Has(c, v) then Rank(c, v) + 1 else Rank(c, v)..])
  {
  }

  /** The ids of a list of items. */
  function ReadAll<T>(items: seq<Item>, read: Item -> T): (r: seq<T>)
    ensures |r| == |items| && forall i :: 0 <= i < |items| ==> r[i] == read(items[i])
  {
    seq(|items|, i requires 0 <= i < |items| => read(items[i]))
  }

  lemma {:induction false} ReadWhere<T>(items: seq<Item>, read: Item -> T, v: Key)
    ensures multiset(ReadAll(items, read)) == Where(GroupPairs(v, items), Eq, v, read)
  {
    if items != [] {
      ReadWhere(items[1..], read, v);
      assert ReadAll(items, read) == [read(items[0])] + ReadAll(items[1..], read);
    }
  }

  /** The order of the items does not matter. */
  lemma {:induction false} ReadPermuted<T>(x: seq<Item>, y: seq<Item>, read: Item -> T)
    requires multiset(x) == multiset(y)
    ensures multiset(ReadAll(x, read)) == multiset(ReadAll(y, read))
  {
    if x == [] {
      NoneLeft(y);
    } else {
      var j := Somewhere(x, y);
      OneOut(x, y, j);
      ReadPermuted(x[1..], y[..j] + y[j + 1..], read);
      ReadFirst(x, read);
      ReadOneOut(y, j, read);
    }
  }

  lemma NoneLeft(y: seq<Item>)
    requires multiset(y) == multiset{}
    ensures y == []
  {
    assert |y| == |multiset(y)|;
  }

  lemma Somewhere(x: seq<Item>, y: seq<Item>) returns (j: nat)
    requires x != [] && multiset(x) == multiset(y)
    ensures j < |y| && y[j] == x[0]
  {
    assert x[0] in multiset(x);
    assert x[0] in multiset(y);
    j :| 0 <= j < |y| && y[j] == x[0];
  }

  lemma ReadFirst<T>(x: seq<Item>, read: Item -> T)
    requires x != []
    ensures multiset(ReadAll(x, read)) == multiset(ReadAll(x[1..], read)) + multiset{read(x[0])}
  {
    assert ReadAll(x, read) == [read(x[0])] + ReadAll(x[1..], read);
  }

  lemma OneOut(x: seq<Item>, y: seq<Item>, j: nat)
    requires x != [] && j < |y| && y[j] == x[0] && multiset(x) == multiset(y)
    ensures multiset(x[1..]) == multiset(y[..j] + y[j + 1..])
  {
    var rest := y[..j] + y[j + 1..];
    assert x == [x[0]] + x[1..];
    assert y == y[..j] + [y[j]] + y[j + 1..];
    assert multiset(x) == multiset(x[1..]) + multiset{x[0]} && multiset(y) == multiset(rest) + multiset{y[j]};
    forall z ensures multiset(x[1..])[z] == multiset(rest)[z] { assert multiset(x)[z] == multiset(y)[z]; }
  }

  lemma ReadMore<T>(xs: seq<Item>, i: nat, read: Item -> T)
    requires i < |xs|
    ensures ReadAll(xs[..i + 1], read) == ReadAll(xs[..i], read) + [read(xs[i])]
  {
  }

  /** All items of a group, in whatever order, give its ids. */
  lemma ReadGroup<T>(xs: seq<Item>, g: seq<Item>, n: nat, read: Item -> T, v: Key)
    requires multiset(xs) == multiset(g) && n == |xs|
    ensures multiset(ReadAll(xs[..n], read)) == Where(GroupPairs(v, g), Eq, v, read)
  {
    assert xs[..n] == xs;
    ReadPermuted(xs, g, read);
    ReadWhere(g, read, v);
  }

  lemma ReadOneOut<T>(y: seq<Item>, j: nat, read: Item -> T)
    requires j < |y|
    ensures multiset(ReadAll(y, read)) == multiset(ReadAll(y[..j] + y[j + 1..], read)) + multiset{read(y[j])}
  {
    var r, s := ReadAll(y, read), ReadAll(y[..j] + y[j + 1..], read);
    assert r == s[..j] + [read(y[j])] + s[j..];
    assert s == s[..j] + s[j..];
  }

  /** index_disk_t::find: count the items of the key, then ask for them one by one. */
  method FindIds<T(!new)>(cap: nat, st: Store, lv: Leaves, files: Files, root: Id, v: Key, read: Item -> T,
      ghost ls: Levels)
    returns (fault: bool, ids: seq<T>, lv': Leaves)
    requires GoodTree(st, ls, cap, root) && Backed(st, lv, files, ls[0])
    ensures (fault <==> FaultsOn(st, lv, ls, v)) && Backed(st, lv', files, ls[0]) && SameTrees(lv, lv')
    ensures !fault ==> multiset(ids) == Where(Pairs(FlatE(st, ls[0])), Eq, v, read)
    ensures AllCurrent(st, lv, files, ls[0]) ==> AllCurrent(st, lv', files, ls[0])
  {
    var leaf, s;
    ghost var q;
    leaf, q := LeafFor(cap, st, lv, files, root, v, ls);
    fault, ids, s := LeafFound(lv[leaf], v, read, EntriesOf(st, leaf), DataOf(files, FileOf(st, leaf)));
    FaultsThere(st, lv, ls, q, v);
    GroupWhere(FlatE(st, ls[0]), v, read);
    lv' := lv[leaf := s];
    LeafTouched(st, lv, files, ls[0], q, s);
  }

  /** The part of it that is about the leaf. */
  method LeafFound<T(!new)>(s0: State, v: Key, read: Item -> T, ghost c: seq<Entry>, ghost data: seq<SegmentFile.Cell>)
    returns (fault: bool, ids: seq<T>, s: State)
    requires LeafNode.Good(s0, c, data)
    ensures (fault <==> SegmentQuery.Faults(s0, v)) && s.tree == s0.tree && LeafNode.Good(s, c, data)
    ensures LeafFile.Carried(s0, s)
    ensures !fault ==> multiset(ids) == Where(GroupPairs(v, Group(c, v)), Eq, v, read)
  {
    var n;
    fault, n, s := LeafQuery.ItemCount(s0, v, c, data);
    ids := [];
    if !fault { ids, s := CollectIds(s, n, v, read, c, data, s0); }
  }

  method CollectIds<T(!new)>(s0: State, n: nat, v: Key, read: Item -> T, ghost c: seq<Entry>,
      ghost data: seq<SegmentFile.Cell>, ghost first: State)
    returns (ids: seq<T>, s: State)
    requires LeafNode.Good(s0, c, data) && !SegmentQuery.Faults(s0, v) && n == |Group(c, v)|
    requires LeafFile.Carried(first, s0)
    ensures s.tree == s0.tree && LeafNode.Good(s, c, data) && LeafFile.Carried(first, s)
    ensures multiset(ids) == Where(GroupPairs(v, Group(c, v)), Eq, v, read)
  {
    ids, s := [], s0;
    LeafQuery.Enumerates(s0, c, v);
    ghost var xs := LeafQuery.ItemsOf(s0, v);
    for i := 0 to n
      invariant s.tree == s0.tree && LeafNode.Good(s, c, data) && !SegmentQuery.Faults(s, v)
      invariant |xs| == n && ids == ReadAll(xs[..i], read) && LeafFile.Carried(first, s)
    {
      NoFaultYet(s, v, i);
      var fault, item;
      ghost var before := s;
      fault, item, s := LeafQuery.GetItem(s, v, i, c, data);
      LeafFile.CarriedTrans(first, before, s);
      ReadMore(xs, i, read);
      ids := ids + [read(item.value)];
    }
    ReadGroup(xs, Group(c, v), n, read, v);
  }

  lemma NoFaultYet(s: State, v: Key, i: nat)
    requires !SegmentQuery.Faults(s, v)
    ensures !SegmentQuery.FaultsBefore(s, v, i)
  {
  }

  /** A search goes through find first, and ends in a block that is not in memory. */
  ghost predicate FindFaults(st: Store, lv: Leaves, root: Option<Id>, ls: Levels, v: Key, cmp: Compare) {
    (cmp == Eq || cmp == Gte) && FaultsIn(st, lv, root, ls, v)
  }

  /** index_agent_disk_t::find: every comparison returns exactly the ids whose key satisfies it, unless it ends in a
      block that is not in memory. */
  method Find<T(!new)>(cap: nat, st: Store, lv: Leaves, files: Files, root: Option<Id>, v: Key, cmp: Compare,
      bottom: Key, top: Key, read: Item -> T, ghost ls: Levels)
    returns (fault: bool, ids: seq<T>, lv': Leaves)
    requires (root.Some? ==> GoodTree(st, ls, cap, root.value)) && Backed(st, lv, files, LeafIds(root, ls))
    requires Within(Pairs(Held(st, root, ls)), bottom, top) && |Pairs(Held(st, root, ls))| <= MAX_SIZE
    ensures (fault <==> FindFaults(st, lv, root, ls, v, cmp)) && Backed(st, lv', files, LeafIds(root, ls))
    ensures !fault ==> multiset(ids) == Where(Pairs(Held(st, root, ls)), cmp, v, read)
    ensures AllCurrent(st, lv, files, LeafIds(root, ls)) ==> AllCurrent(st, lv', files, LeafIds(root, ls))
  {
    fault, ids, lv' := false, [], lv;
    if root.None? { return; }
    fault, ids, lv' := FindBelow(cap, st, lv, files, root.value, v, cmp, bottom, top, read, ls);
  }

  method FindBelow<T(!new)>(cap: nat, st: Store, lv: Leaves, files: Files, r: Id, v: Key, cmp: Compare, bottom: Key,
      top: Key, read: Item -> T, ghost ls: Levels)
    returns (fault: bool, ids: seq<T>, lv': Leaves)
    requires GoodTree(st, ls, cap, r) && Backed(st, lv, files, ls[0])
    requires Within(Pairs(FlatE(st, ls[0])), bottom, top) && |Pairs(FlatE(st, ls[0]))| <= MAX_SIZE
    ensures (fault <==> (cmp == Eq || cmp == Gte) && FaultsOn(st, lv, ls, v)) && Backed(st, lv', files, ls[0])
    ensures !fault ==> multiset(ids) == Where(Pairs(FlatE(st, ls[0])), cmp, v, read)
    ensures AllCurrent(st, lv, files, ls[0]) ==> AllCurrent(st, lv', files, ls[0])
  {
    fault, ids, lv' := false, [], lv;
    ghost var ps := Pairs(FlatE(st, ls[0]));
    var more := [];
    match cmp {
      case Eq => fault, ids, lv' := FindIds(cap, st, lv, files, r, v, read, ls);
      case Ne =>
        ids, lv' := LowerBoundIds(cap, st, lv, files, r, v, bottom, read, ls, top);
        more, lv' := UpperBoundIds(cap, st, lv', files, r, v, top, read, ls, bottom);
        WhereUnion(ps, Lt, Gt, Ne, v, read);
      case Gt => ids, lv' := UpperBoundIds(cap, st, lv, files, r, v, top, read, ls, bottom);
      case Lt => ids, lv' := LowerBoundIds(cap, st, lv, files, r, v, bottom, read, ls, top);
      case Gte =>
        fault, ids, lv' := FindIds(cap, st, lv, files, r, v, read, ls);
        if fault { return; }
        more, lv' := UpperBoundIds(cap, st, lv', files, r, v, top, read, ls, bottom);
        WhereUnion(ps, Eq, Gt, Gte, v, read);
      case Lte =>
        ids, lv' := LowerBoundIds(cap, st, lv, files, r, v, bottom, read, ls, top);
        NoFaultAfter(cap, st, lv, files, r, ls, v);
        fault, more, lv' := FindIds(cap, st, lv', files, r, v, read, ls);
        WhereUnion(ps, Lt, Eq, Lte, v, read);
      case Other => WhereNone(ps, Other, v, read);
    }
    ids := ids + more;
  }

  lemma NoFaultAfter(cap: nat, st: Store, lv: Leaves, files: Files, root: Id, ls: Levels, v: Key)
    requires GoodTree(st, ls, cap, root) && Backed(st, lv, files, ls[0])
    ensures !FaultsOn(st, ScannedUp(st, lv, v), ls, v)
  {
    ValidSearchable(cap, st, ls, root);
    if FaultsOn(st, ScannedUp(st, lv, v), ls, v) {
      var q: nat :| Covers(st, [ls[0]], 0, q, v) && ls[0][q] in ScannedUp(st, lv, v)
        && SegmentQuery.Faults(ScannedUp(st, lv, v)[ls[0][q]], v);
      ScanNoFault(st, lv, files, ls, q, v);
    }
  }
}
