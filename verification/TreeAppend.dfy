/** The pieces of btree_t::append: adding an item to a leaf, splitting a full leaf, recording the
    nodes a split may reach, and running the cascade over exactly those nodes. */
module TreeAppend {
  import opened Wrappers
  import opened Multimap
  import opened Sequences
  import opened Intervals
  import opened NodeStore
  import opened TreeSearch
  import opened TreeInsert
  import opened TreeSplit
  import opened TreeCascade
  import LeafGrow
  import LeafNode = Leaf
  import opened TreeLeaves

  lemma OneLevel(st: Store, l: seq<Id>)
    requires LevelOk(st, l, true)
    ensures Tower(st, [l])
  {
  }

  /** Writing one leaf that may hold k is writing the whole tree's contents. */
  lemma PutContents(st: Store, l: seq<Id>, p: nat, k: Key, g: seq<Item>)
    requires LevelOk(st, l, true) && NoDup(l) && Ordered(FlatE(st, l)) && Covers(st, [l], 0, p, k)
    ensures FlatE(PutLeaf(st, l[p], k, g), l) == Put(FlatE(st, l), k, g)
  {
    OneLevel(st, l);
    CoversSeparates(st, [l], p, k);
    var st' := PutLeaf(st, l[p], k, g);
    AgreeUpdate(st, l, p, st'[l[p]]);
    AgreeSlices(st, st', l, p);
    FlatEAt(st, l, p);
    FlatEAt(st', l, p);
    PutLocal(FlatE(st, l[..p]), EntriesOf(st, l[p]), FlatE(st, l[p + 1..]), k, g);
  }

  lemma PutCount(c: seq<Entry>, k: Key, g: seq<Item>)
    ensures |c| <= |Put(c, k, g)| <= |c| + 1
  {
  }

  lemma PutLevel0(st: Store, l: seq<Id>, p: nat, k: Key, g: seq<Item>, lo: nat, cap: nat, w: seq<Id>)
    requires p < |l| && LevelOk(st, l, true) && LevelSized(st, l, lo, cap) && CountOf(st, l[p]) < cap
    requires Linked(st, w) && forall x :: x in w ==> x in l
    ensures var st' := PutLeaf(st, l[p], k, g);
      LevelOk(st', l, true) && LevelSized(st', l, lo, cap) && Linked(st', w)
  {
    PutCount(st[l[p]].entries, k, g);
    LinkedBySame(st, PutLeaf(st, l[p], k, g), l, w);
  }

  lemma PutOther(st: Store, ls: Levels, p: nat, k: Key, g: seq<Item>, h: nat)
    requires Distinct(ls) && 0 < h < |ls| && p < |ls[0]| && LevelOk(st, ls[h], false)
    requires ls[0][p] in st && st[ls[0][p]].Leaf?
    ensures SameOn(st, PutLeaf(st, ls[0][p], k, g), ls[h])
  {
    NotInLevel(ls, 0, p, h);
  }

  /** Adding to a leaf with room keeps the shape, whether or not a split is pending. */
  lemma PutShape(st: Store, ls: Levels, cap: nat, hole: Hole, p: nat, k: Key, g: seq<Item>)
    requires Shape(st, ls, cap, hole) && p < |ls[0]| && CountOf(st, ls[0][p]) < cap
    requires ls[0][p] in st && st[ls[0][p]].Leaf?
    ensures Shape(PutLeaf(st, ls[0][p], k, g), ls, cap, hole)
  {
    var st' := PutLeaf(st, ls[0][p], k, g);
    forall h | 0 <= h < |ls| ensures LevelGood(st', ls, cap, hole, h) {
      assert LevelGood(st, ls, cap, hole, h);
      if h == 0 {
        SettledIn(ls, hole, 0);
        PutLevel0(st, ls[0], p, k, g, Floor(ls, 0, cap), cap, Settled(ls, hole, 0));
      } else {
        PutOther(st, ls, p, k, g, h);
        LevelFrame(st, st', ls, ls, cap, hole, hole, h);
      }
    }
  }

  /** Appending to the covering leaf appends to the tree. */
  lemma CoveredAppend(st: Store, st': Store, cap: nat, id: Id, k: Key, item: Item, ls: Levels, hole: Hole, p: nat,
      out: Outcome, at: nat)
    requires Shape(st, ls, cap, hole) && Ordered(FlatE(st, ls[0])) && Covers(st, [ls[0]], 0, p, k)
    requires id == ls[0][p] && CountOf(st, id) < cap && id in st && st[id].Leaf?
      && LeafAppended(st, st', id, k, item, out, at)
    ensures Shape(st', ls, cap, hole) && Grown(FlatE(st, ls[0]), FlatE(st', ls[0]), k, item, out)
  {
    assert LevelGood(st, ls, cap, hole, 0);
    OneLevel(st, ls[0]);
    LookupLocal(st, [ls[0]], p, k);
    if out.Stored? {
      var g := InsertAt(Group(st[id].entries, k), at, item);
      PutContents(st, ls[0], p, k, g);
      PutShape(st, ls, cap, hole, p, k, g);
    }
  }

  method AppendCovered(st: Store, cap: nat, id: Id, k: Key, item: Item, dropped: bool, ghost ls: Levels,
      ghost hole: Hole, ghost p: nat)
    returns (out: Outcome, st': Store, ghost at: nat)
    requires Shape(st, ls, cap, hole) && Ordered(FlatE(st, ls[0])) && Covers(st, [ls[0]], 0, p, k)
    requires id == ls[0][p] && CountOf(st, id) < cap
    ensures Shape(st', ls, cap, hole) && st'.Keys == st.Keys && Grown(FlatE(st, ls[0]), FlatE(st', ls[0]), k, item, out)
    ensures forall x :: x in st && x != id ==> x in st' && st'[x] == st[x]
    ensures id in st && id in st' && st'[id].Leaf? && st[id].Leaf? && st'[id] == st[id].(entries := st'[id].entries)
    ensures LeafAppended(st, st', id, k, item, out, at) && (out.Dropped? <==> !out.Refused? && dropped)
  {
    LeafLevel(st, ls, cap, hole);
    out, st', at := AppendToLeaf(st, id, k, item, dropped);
    CoveredAppend(st, st', cap, id, k, item, ls, hole, p, out, at);
  }

  /** What a leaf of a tree is like. */
  lemma LeafPlain(st: Store, ls: Levels, cap: nat, q: nat)
    requires Shape(st, ls, cap, NoHole) && Ordered(FlatE(st, ls[0])) && Grouped(FlatE(st, ls[0])) && q < |ls[0]|
    ensures var x := ls[0][q];
      x in st && st[x].Leaf? && NoDup(ls[0]) && Ordered(st[x].entries) && Grouped(st[x].entries)
  {
    LeafLevel(st, ls, cap, NoHole);
    LeafOrdered(st, ls[0], q);
    LeafGrouped(st, ls[0], q);
  }

  /** And beside the store. */
  lemma LeafReady(st: Store, lv: Leaves, files: Files, ls: Levels, cap: nat, q: nat)
    requires Shape(st, ls, cap, NoHole) && Ordered(FlatE(st, ls[0])) && Grouped(FlatE(st, ls[0])) && q < |ls[0]|
    requires Backed(st, lv, files, ls[0])
    ensures var x := ls[0][q];
      x in st && st[x].Leaf? && NoDup(ls[0]) && Ordered(st[x].entries) && Grouped(st[x].entries) && x in lv
      && LeafNode.Good(lv[x], st[x].entries, DataOf(files, st[x].file))
  {
    LeafPlain(st, ls, cap, q);
    assert BackedAt(st, lv, files, ls[0][q]);
  }

  lemma LeafGrouped(st: Store, l: seq<Id>, q: nat)
    requires Grouped(FlatE(st, l)) && q < |l|
    ensures Grouped(EntriesOf(st, l[q]))
  {
    FlatEAt(st, l, q);
    var a, c := |FlatE(st, l[..q])|, EntriesOf(st, l[q]);
    forall i | 0 <= i < |c| ensures c[i].items != [] { assert FlatE(st, l)[a + i] == c[i]; }
  }

  /** An append to a leaf with room: to its segment tree, and what the tree makes of that. */
  method AppendRoom(st: Store, lv: Leaves, files: Files, cap: nat, id: Id, k: Key, item: Item, ghost strictly: bool,
      ghost ls: Levels, ghost p: nat)
    returns (ok: bool, out: Outcome, st': Store, lv': Leaves)
    requires Shape(st, ls, cap, NoHole) && Ordered(FlatE(st, ls[0])) && Grouped(FlatE(st, ls[0]))
    requires Covers(st, [ls[0]], 0, p, k) && id == ls[0][p] && CountOf(st, id) < cap
    requires Backed(st, lv, files, ls[0]) && |item| > 0
    ensures Shape(st', ls, cap, NoHole) && st'.Keys == st.Keys
      && Grown(FlatE(st, ls[0]), FlatE(st', ls[0]), k, item, out)
    ensures forall x :: x in st && x != id ==> x in st' && st'[x] == st[x]
    ensures id in st && id in st' && st'[id].Leaf? && st[id].Leaf? && st'[id] == st[id].(entries := st'[id].entries)
    ensures LeavesEnd(lv, files, ls[0], id, cap, k, item, strictly, true, st', lv', ls[0], ok, out)
  {
    LeafReady(st, lv, files, ls, cap, p);
    var dropped, s';
    ghost var at;
    ok, dropped, s' := AppendState(lv[id], k, item, st[id].entries, DataOf(files, st[id].file));
    TracedOne(st, lv, files, ls[0], id, s');
    lv' := lv[id := s'];
    out, st', at := AppendCovered(st, cap, id, k, item, dropped, ls, NoHole, p);
    RoomBacks(st, st', lv, s', files, ls[0], p, cap, k, item, strictly, ok, dropped, out, at);
  }

  // ---------------------------------------------------------------- splitting a full leaf

  lemma HalfCovers(st: Store, l: seq<Id>, q: nat, k: Key, y: Id, file: nat)
    requires LevelOk(st, l, true) && NoDup(l) && y !in l && Covers(st, [l], 0, q, k) && CountOf(st, l[q]) >= 2
    ensures l[q] in st && st[l[q]].Leaf?
    ensures var st', l' := SplitLeaf(st, l[q], y, file), Insert(l, q + 1, y);
      && (MinAt(st', 0, y) <= k ==> Covers(st', [l'], 0, q + 1, k))
      && (MinAt(st', 0, y) > k ==> Covers(st', [l'], 0, q, k))
  {
    var st', l' := SplitLeaf(st, l[q], y, file), Insert(l, q + 1, y);
    assert l'[q] == l[q] && l'[q + 1] == y;
    if q + 1 < |l| { assert l'[q + 2] == l[q + 1] && l[q + 1] != l[q]; }
  }

  lemma HalfCounts(st: Store, id: Id, y: Id, file: nat, cap: nat)
    requires id in st && st[id].Leaf? && id != y && CountOf(st, id) == cap && cap >= 4
    ensures var st' := SplitLeaf(st, id, y, file);
      0 < CountOf(st', id) < cap && 0 < CountOf(st', y) < cap && MinAt(st', 0, y) == st'[y].entries[0].key
  {
  }

  /** Split a full leaf and pick the half that covers k. */
  method SplitFull(st: Store, cap: nat, leaf: Id, k: Key, y: Id, file: nat, ghost ls: Levels, ghost q: nat)
    returns (s1: Store, target: Id, ghost p: nat)
    requires Shape(st, ls, cap, NoHole) && Covers(st, [ls[0]], 0, q, k) && cap >= 4
    requires leaf == ls[0][q] && CountOf(st, leaf) == cap && y !in st
    ensures leaf in st && st[leaf].Leaf? && s1 == SplitLeaf(st, leaf, y, file)
    ensures y in s1 && s1[y].Leaf? && s1[y].entries != [] && target == if s1[y].entries[0].key <= k then y else leaf
    ensures var ls' := ls[0 := Insert(ls[0], q + 1, y)];
      && Shape(s1, ls', cap, Hole(0, q)) && FlatE(s1, ls'[0]) == FlatE(st, ls[0])
      && Covers(s1, [ls'[0]], 0, p, k) && target == ls'[0][p] && CountOf(s1, target) < cap
  {
    assert LevelGood(st, ls, cap, NoHole, 0);
    SplitLeafShape(st, ls, cap, q, y, file);
    HalfCovers(st, ls[0], q, k, y, file);
    HalfCounts(st, leaf, y, file, cap);
    s1 := SplitLeaf(st, leaf, y, file);
    if s1[y].entries[0].key <= k { target, p := y, q + 1; } else { target, p := leaf, q; }
  }

  /** A full leaf is split in half and the item goes to the half that covers it; the new leaf is
      left to be hung in. */
  method GrowLeaf(st: Store, cap: nat, leaf: Id, k: Key, item: Item, dropped: bool, y: Id, file: nat, ghost ls: Levels,
      ghost q: nat)
    returns (out: Outcome, st': Store, ghost ls': Levels, ghost at: nat)
    requires Shape(st, ls, cap, NoHole) && Ordered(FlatE(st, ls[0])) && Covers(st, [ls[0]], 0, q, k) && cap >= 4
    requires leaf == ls[0][q] && CountOf(st, leaf) == cap && y !in st
    ensures ls' == ls[0 := Insert(ls[0], q + 1, y)] && st'.Keys == st.Keys + {y}
    ensures Shape(st', ls', cap, Hole(0, q)) && Grown(FlatE(st, ls[0]), FlatE(st', ls'[0]), k, item, out)
    ensures leaf in st && forall x :: x in st && x != leaf ==> x in st' && st'[x] == st[x]
    ensures y in st' && st'[y].Leaf? && st'[y].file == file
    ensures leaf in st' && st'[leaf].Leaf? && st[leaf].Leaf? && st'[leaf].file == st[leaf].file
    ensures HalfGot(st, st', leaf, y, file, k, item, false, out, at) && (out.Dropped? <==> !out.Refused? && dropped)
  {
    ghost var p;
    var s1, target;
    s1, target, p := SplitFull(st, cap, leaf, k, y, file, ls, q);
    ls' := ls[0 := Insert(ls[0], q + 1, y)];
    out, st', at := AppendCovered(s1, cap, target, k, item, dropped, ls', Hole(0, q), p);
    SplitKeeps(st, s1, st', leaf, y, file, target);
  }

  /** A split of the leaf and an append to the half whose turn it is. */
  ghost predicate HalfGot(st: Store, st': Store, leaf: Id, y: Id, file: nat, k: Key, item: Item, strictly: bool,
      out: Outcome, at: nat)
    requires leaf in st && st[leaf].Leaf?
  {
    var s1 := SplitLeaf(st, leaf, y, file);
    && y in s1 && s1[y].Leaf? && s1[y].entries != [] && leaf in s1 && s1[leaf].Leaf?
    && LeafAppended(s1, st', if LeafGrow.GoesUp(s1[y].entries[0].key, k, strictly) then y else leaf, k, item, out, at)
  }

  /** The same on the segment trees, and what the tree makes of that. */
  method GrowBacked(st: Store, lv: Leaves, files: Files, cap: nat, leaf: Id, k: Key, item: Item, y: Id, file: nat,
      ghost ls: Levels, ghost q: nat)
    returns (ok: bool, out: Outcome, st': Store, lv': Leaves, ghost ls': Levels)
    requires Shape(st, ls, cap, NoHole) && Ordered(FlatE(st, ls[0])) && Grouped(FlatE(st, ls[0]))
    requires Covers(st, [ls[0]], 0, q, k) && cap >= 4
    requires leaf == ls[0][q] && CountOf(st, leaf) == cap && y !in st && Backed(st, lv, files, ls[0]) && |item| > 0
    ensures ls' == ls[0 := Insert(ls[0], q + 1, y)] && st'.Keys == st.Keys + {y}
    ensures Shape(st', ls', cap, Hole(0, q)) && Grown(FlatE(st, ls[0]), FlatE(st', ls'[0]), k, item, out)
    ensures leaf in st && forall x :: x in st && x != leaf ==> x in st' && st'[x] == st[x]
    ensures y in st' && st'[y].Leaf? && st'[y].file == file
    ensures leaf in st' && st'[leaf].Leaf? && st[leaf].Leaf? && st'[leaf].file == st[leaf].file
    ensures LeavesEnd(lv, files, ls[0], leaf, cap, k, item, false, false, st', lv', ls'[0], ok, out)
  {
    LeafPlain(st, ls, cap, q);
    NotThere(st, ls, cap, y);
    var dropped;
    ghost var at;
    ok, dropped, lv' := SplitStates(st, lv, files, cap, leaf, y, file, k, item, false, ls[0], q);
    out, st', ls', at := GrowLeaf(st, cap, leaf, k, item, dropped, y, file, ls, q);
  }

  lemma NotThere(st: Store, ls: Levels, cap: nat, y: Id)
    requires Shape(st, ls, cap, NoHole) && y !in st
    ensures y !in ls[0]
  {
    LeafLevel(st, ls, cap, NoHole);
  }

  /** What the append does to the leaf tells how it ends. */
  lemma HalfBacks(st: Store, lv: Leaves, lv': Leaves, st': Store, files: Files, l: seq<Id>, q: nat, leaf: Id, y: Id,
      es: seq<Entry>, m: nat, n: nat, file: nat, cap: nat, k: Key, item: Item, strictly: bool, ok: bool, dropped: bool,
      out: Outcome, at: nat)
    requires q < |l| && NoDup(l) && y !in l && Backed(st, lv, files, l) && l[q] == leaf
    requires leaf in st && st[leaf].Leaf? && st[leaf].entries == es && leaf in lv && LeafNode.Of(lv[leaf].tree, es)
    requires leaf != y && leaf in lv' && y in lv' && lv' == Replaced(lv, leaf, lv'[leaf], y, lv'[y])
    requires Ordered(es) && Grouped(es) && LeafGrow.UpperHalf(es, m, n) && |es| == cap
    requires HalfGot(st, st', leaf, y, file, k, item, strictly, out, at)
    requires out.Dropped? <==> !out.Refused? && dropped
    requires LeafGrow.GrewFull(lv[leaf], lv'[leaf], lv'[y], es, m, n, DataOf(files, st[leaf].file),
      DataOf(files, file), k,
      item, strictly, ok, dropped)
    ensures Backs(st', lv', files, Insert(l, q + 1, y), Tears(lv[leaf], cap), Drops(lv[leaf], cap, k, item, strictly),
      ok, out)
  {
    TargetHalf(st, leaf, y, file, m, n, k, strictly);
    ClovenHere(st, lv, leaf, y, file, lv'[leaf], lv'[y], m, n);
    FullBacks(st, lv, SplitLeaf(st, leaf, y, file), lv', st', files, l, q, y, es, m, n, file, cap, k, item, strictly,
        ok, dropped, out, at);
  }

  /** However the item is put into the half in the store, this is how the append ends. */
  ghost predicate Foretold(st: Store, lv: Leaves, lv': Leaves, files: Files, l: seq<Id>, leaf: Id, y: Id, file: nat,
      cap: nat, k: Key, item: Item, strictly: bool, ok: bool, dropped: bool)
    requires leaf in st && st[leaf].Leaf? && leaf in lv
  {
    forall s2: Store, out: Outcome, at: nat {:trigger HalfGot(st, s2, leaf, y, file, k, item, strictly, out, at)} ::
      HalfGot(st, s2, leaf, y, file, k, item, strictly, out, at) && (out.Dropped? <==> !out.Refused? && dropped) ==>
        Backs(s2, lv', files, l, Tears(lv[leaf], cap), Drops(lv[leaf], cap, k, item, strictly), ok, out)
  }

  /** A full leaf is split and the item goes to one of the halves: on the segment trees. */
  method SplitStates(st: Store, lv: Leaves, files: Files, cap: nat, leaf: Id, y: Id, file: nat, k: Key, item: Item,
      strictly: bool, ghost l: seq<Id>, ghost q: nat)
    returns (ok: bool, dropped: bool, lv': Leaves)
    requires q < |l| && NoDup(l) && y !in l && Backed(st, lv, files, l) && l[q] == leaf
    requires leaf in st && st[leaf].Leaf? && Ordered(st[leaf].entries) && Grouped(st[leaf].entries)
    requires |st[leaf].entries| == cap >= 4 && |item| > 0
    ensures leaf in lv
    ensures Foretold(st, lv, lv', files, Insert(l, q + 1, y), leaf, y, file, cap, k, item, strictly, ok, dropped)
    ensures Traced(lv, l, lv', Insert(l, q + 1, y), leaf, false)
  {
    assert BackedAt(st, lv, files, l[q]);
    var low, high;
    ghost var es := st[leaf].entries;
    ghost var m, n := HalfNumbers(cap);
    low, high, ok, dropped := LeafGrow.SplitAppend(lv[leaf], k, item, strictly, es, m, n,
        DataOf(files, st[leaf].file), DataOf(files, file));
    lv' := Replaced(lv, leaf, low, y, high);
    SplitTraced(st, lv, files, l, q, leaf, low, y, high);
    forall s2: Store, out: Outcome, at: nat | HalfGot(st, s2, leaf, y, file, k, item, strictly, out, at)
        && (out.Dropped? <==> !out.Refused? && dropped)
      ensures Backs(s2, lv', files, Insert(l, q + 1, y), Tears(lv[leaf], cap), Drops(lv[leaf], cap, k, item, strictly),
        ok, out)
    {
      HalfBacks(st, lv, lv', s2, files, l, q, leaf, y, es, m, n, file, cap, k, item, strictly, ok, dropped, out, at);
    }
  }

  /** The blocks of the new leaf are in memory and marked, and no leaf but the one that was split is touched. */
  lemma SplitTraced(st: Store, lv: Leaves, files: Files, l: seq<Id>, q: nat, leaf: Id, low: State, y: Id, high: State)
    requires Backed(st, lv, files, l) && q < |l| && leaf != y && LeafFile.Carried(LeafFile.Empty(), high)
    ensures Traced(lv, l, Replaced(lv, leaf, low, y, high), Insert(l, q + 1, y), leaf, false)
  {
    forall z | z in Insert(l, q + 1, y) ensures z in l || z == y { }
    TracedTwo(st, lv, files, l, y, high, leaf, low, Insert(l, q + 1, y), false);
    assert Replaced(lv, leaf, low, y, high) == Replaced(lv, y, high, leaf, low);
  }

  /** What a split and an append to one of the halves leave alone. */
  lemma SplitKeeps(st: Store, s1: Store, st': Store, leaf: Id, y: Id, file: nat, target: Id)
    requires leaf in st && st[leaf].Leaf? && y !in st && s1 == SplitLeaf(st, leaf, y, file)
      && (target == leaf || target == y)
    requires st'.Keys == s1.Keys && forall x :: x in s1 && x != target ==> x in st' && st'[x] == s1[x]
    requires target in s1 && target in st' && st'[target].Leaf? && s1[target].Leaf?
      && st'[target] == s1[target].(entries := st'[target].entries)
    ensures st'.Keys == st.Keys + {y}
    ensures forall x :: x in st && x != leaf ==> x in st' && st'[x] == st[x]
    ensures y in st' && st'[y].Leaf? && st'[y].file == file
    ensures leaf in st' && st'[leaf].Leaf? && st'[leaf].file == st[leaf].file
  {
  }

  // ---------------------------------------------------------------- recording the path

  /** The nodes on levels hi down to lo+1 of the path, the deepest one last. */
  ghost function Stack(ls: Levels, qs: seq<nat>, lo: nat, hi: nat): seq<Id>
    requires |qs| == |ls| && hi < |ls| && forall h :: 0 <= h < |ls| && lo < h ==> qs[h] < |ls[h]|
    decreases hi - lo
  {
    if hi <= lo then [] else Stack(ls, qs, lo + 1, hi) + [ls[lo + 1][qs[lo + 1]]]
  }

  lemma {:induction false} StackFrame(ls: Levels, ls': Levels, qs: seq<nat>, qs': seq<nat>, lo: nat, hi: nat)
    requires |qs| == |ls| == |ls'| == |qs'| && hi < |ls|
    requires forall h :: 0 <= h < |ls| && lo < h ==> qs[h] < |ls[h]| && qs'[h] == qs[h] && ls'[h] == ls[h]
    ensures Stack(ls', qs', lo, hi) == Stack(ls, qs, lo, hi)
    decreases hi - lo
  {
    if lo < hi { StackFrame(ls, ls', qs, qs', lo + 1, hi); }
  }

  /** Positions qs[g..] form a path: each is a child of the next. */
  ghost predicate OnPath(st: Store, ls: Levels, qs: seq<nat>, g: nat) {
    && |qs| == |ls| > g && (forall h :: g <= h < |ls| ==> qs[h] < |ls[h]|)
    && (forall h :: g < h < |ls| ==> ChildOf(st, ls[h], qs[h], qs[h - 1]))
  }

  lemma ChildFrame(st: Store, st': Store, up: seq<Id>, r: nat, q: nat)
    requires ChildOf(st, up, r, q) && SameOn(st, st', up)
    ensures ChildOf(st', up, r, q)
  {
    FlatSame(st, st', up[..r]);
  }

  lemma PathFrame(st: Store, st': Store, ls: Levels, ls': Levels, qs: seq<nat>, g: nat)
    requires OnPath(st, ls, qs, g) && |ls'| == |ls| && qs[g] < |ls'[g]|
    requires (forall h :: g < h < |ls| ==> ls'[h] == ls[h]) && SameAbove(st, st', ls, g)
    ensures OnPath(st', ls', qs, g)
  {
    forall h | g < h < |ls| ensures ChildOf(st', ls'[h], qs[h], qs[h - 1]) {
      assert ChildOf(st, ls[h], qs[h], qs[h - 1]) && SameOn(st, st', ls[h]);
      ChildFrame(st, st', ls[h], qs[h], qs[h - 1]);
    }
  }

  ghost predicate FullAt(st: Store, ls: Levels, qs: seq<nat>, cap: nat, h: nat)
    requires |qs| == |ls| && h < |ls| && qs[h] < |ls[h]|
  {
    CountOf(st, ls[h][qs[h]]) == cap
  }

  /** `modified` holds every node a split of the node at level h can reach: full nodes all the
      way, up to a node with room or to the root. */
  ghost predicate Recorded(st: Store, ls: Levels, qs: seq<nat>, cap: nat, h: nat, hm: nat, modified: seq<Id>)
    requires OnPath(st, ls, qs, h)
  {
    && h <= hm < |ls| && modified == Stack(ls, qs, h, hm) && (h + 1 < |ls| ==> h < hm)
    && (forall g :: h < g < hm ==> FullAt(st, ls, qs, cap, g))
    && (hm + 1 == |ls| || !FullAt(st, ls, qs, cap, hm))
  }

  lemma RecordRoom(st: Store, ls: Levels, qs: seq<nat>, cap: nat, h: nat)
    requires 0 < h < |ls| && OnPath(st, ls, qs, h - 1) && !FullAt(st, ls, qs, cap, h)
    ensures Recorded(st, ls, qs, cap, h - 1, h, [ls[h][qs[h]]])
  {
    assert Stack(ls, qs, h, h) == [];
  }

  lemma RecordFull(st: Store, ls: Levels, qs: seq<nat>, qs': seq<nat>, cap: nat, h: nat, hm: nat, modified: seq<Id>)
    requires 0 < h < |ls| && OnPath(st, ls, qs, h) && Recorded(st, ls, qs, cap, h, hm, modified)
      && FullAt(st, ls, qs, cap, h)
    requires OnPath(st, ls, qs', h - 1) && forall g :: h <= g < |ls| ==> qs'[g] == qs[g]
    ensures Recorded(st, ls, qs', cap, h - 1, hm, modified + [ls[h][qs[h]]])
  {
    StackFrame(ls, ls, qs, qs', h, hm);
    forall g | h - 1 < g < hm ensures FullAt(st, ls, qs', cap, g) {
      if g > h { assert FullAt(st, ls, qs, cap, g); }
    }
  }

  lemma PathDown(st: Store, ls: Levels, qs: seq<nat>, h: nat, q: nat)
    requires 0 < h && OnPath(st, ls, qs, h) && q < |ls[h - 1]| && ChildOf(st, ls[h], qs[h], q)
    ensures OnPath(st, ls, qs[h - 1 := q], h - 1)
  {
    var qs' := qs[h - 1 := q];
    forall g | h - 1 < g < |ls| ensures ChildOf(st, ls[g], qs'[g], qs'[g - 1]) {
      if g > h { assert ChildOf(st, ls[g], qs[g], qs[g - 1]); }
    }
  }

  lemma RecordStep(st: Store, ls: Levels, qs: seq<nat>, qs': seq<nat>, cap: nat, h: nat, hm: nat, before: seq<Id>)
    requires 0 < h < |ls| && OnPath(st, ls, qs, h) && OnPath(st, ls, qs', h - 1)
    requires forall g :: h <= g < |ls| ==> qs'[g] == qs[g]
    requires if FullAt(st, ls, qs, cap, h) then Recorded(st, ls, qs, cap, h, hm, before) else before == []
    ensures Recorded(st, ls, qs', cap, h - 1, if FullAt(st, ls, qs, cap, h) then hm else h, before + [ls[h][qs[h]]])
  {
    if FullAt(st, ls, qs, cap, h) {
      RecordFull(st, ls, qs, qs', cap, h, hm, before);
    } else {
      RecordRoom(st, ls, qs', cap, h);
      assert before + [ls[h][qs[h]]] == [ls[h][qs'[h]]];
    }
  }

  lemma NodeSize(st: Store, ls: Levels, cap: nat, hole: Hole, h: nat, q: nat)
    requires Shape(st, ls, cap, hole) && h < |ls| && q < |ls[h]|
    ensures ls[h][q] in st && Count(st[ls[h][q]]) <= cap && st[ls[h][q]].Leaf? == (h == 0)
  {
    assert LevelGood(st, ls, cap, hole, h);
  }

  method DescendStep(st: Store, cur: Id, k: Key, ghost ls: Levels, ghost qs: seq<nat>, ghost h: nat)
    returns (child: Id, ghost qs': seq<nat>)
    requires Tower(st, ls) && Ordered(FlatE(st, ls[0])) && 0 < h && OnPath(st, ls, qs, h)
    requires Covers(st, ls, h, qs[h], k) && ls[h][qs[h]] == cur
    ensures OnPath(st, ls, qs', h - 1) && (forall g :: h <= g < |ls| ==> qs'[g] == qs[g])
    ensures Covers(st, ls, h - 1, qs'[h - 1], k) && ls[h - 1][qs'[h - 1]] == child
  {
    ghost var c;
    child, c := Step(st, cur, k, ls, h, qs[h]);
    ghost var q := |Flat(st, ls[h][..qs[h]])| + c;
    PathDown(st, ls, qs, h, q);
    qs' := qs[h - 1 := q];
  }

  /** The downward loop of btree_t::append. When the leaf it ends in is full, `modified` holds
      exactly the ancestors that the split may have to touch. */
  method DescendAppend(st: Store, cap: nat, root: Id, k: Key, ghost ls: Levels)
    returns (leaf: Id, modified: seq<Id>, ghost qs: seq<nat>, ghost hm: nat)
    requires Shape(st, ls, cap, NoHole) && Ordered(FlatE(st, ls[0])) && ls[|ls| - 1] == [root] && |ls| > 1
    ensures OnPath(st, ls, qs, 0) && Covers(st, ls, 0, qs[0], k) && ls[0][qs[0]] == leaf
    ensures CountOf(st, leaf) == cap ==> Recorded(st, ls, qs, cap, 0, hm, modified)
  {
    ShapeTower(st, ls, cap);
    TopCovers(st, ls, k);
    leaf, modified := root, [];
    ghost var h: nat := |ls| - 1;
    qs, hm := seq(|ls|, _ => 0), h;
    assert Stack(ls, qs, h, hm) == [];
    NodeSize(st, ls, cap, NoHole, h, 0);
    var record := Count(st[leaf]) == cap;
    while st[leaf].Inner?
      invariant h < |ls| && OnPath(st, ls, qs, h) && Covers(st, ls, h, qs[h], k) && ls[h][qs[h]] == leaf
      invariant leaf in st && st[leaf].Leaf? == (h == 0) && Count(st[leaf]) <= cap
      invariant Count(st[leaf]) == cap ==> record && Recorded(st, ls, qs, cap, h, hm, modified)
      decreases h
    {
      leaf, modified, record, qs, hm := DownAppend(st, cap, leaf, k, modified, record, ls, qs, h, hm);
      h := h - 1;
    }
  }

  /** The body of that loop. */
  method DownAppend(st: Store, cap: nat, cur: Id, k: Key, before: seq<Id>, record: bool, ghost ls: Levels,
      ghost qs: seq<nat>, ghost h: nat, ghost hm: nat)
    returns (child: Id, modified: seq<Id>, record': bool, ghost qs': seq<nat>, ghost hm': nat)
    requires Shape(st, ls, cap, NoHole) && Tower(st, ls) && Ordered(FlatE(st, ls[0])) && 0 < h && OnPath(st, ls, qs, h)
    requires Covers(st, ls, h, qs[h], k) && ls[h][qs[h]] == cur && cur in st && st[cur].Inner? && Count(st[cur]) <= cap
    requires Count(st[cur]) == cap ==> record && Recorded(st, ls, qs, cap, h, hm, before)
    ensures OnPath(st, ls, qs', h - 1) && Covers(st, ls, h - 1, qs'[h - 1], k) && ls[h - 1][qs'[h - 1]] == child
    ensures child in st && st[child].Leaf? == (h - 1 == 0) && Count(st[child]) <= cap
    ensures Count(st[child]) == cap ==> record' && Recorded(st, ls, qs', cap, h - 1, hm', modified)
  {
    modified, record' := before, record;
    if Count(st[cur]) < cap { modified, record' := [], false; }
    child, qs' := DescendStep(st, cur, k, ls, qs, h);
    NodeSize(st, ls, cap, NoHole, h - 1, qs'[h - 1]);
    record' := record' || Count(st[child]) == cap;
    RecordStep(st, ls, qs, qs', cap, h, hm, modified);
    hm' := if FullAt(st, ls, qs, cap, h) then hm else h;
    modified := if record' then modified + [cur] else [];
  }

  // ---------------------------------------------------------------- the upward loop

  lemma StackTop(ls: Levels, qs: seq<nat>, lo: nat, hi: nat)
    requires |qs| == |ls| && hi < |ls| && forall h :: 0 <= h < |ls| && lo < h ==> qs[h] < |ls[h]|
    ensures Stack(ls, qs, lo, hi) == [] <==> hi <= lo
    ensures lo < hi ==> var s := Stack(ls, qs, lo, hi);
      s[|s| - 1] == ls[lo + 1][qs[lo + 1]] && s[..|s| - 1] == Stack(ls, qs, lo + 1, hi)
  {
  }

  lemma RecordedUp(st: Store, st': Store, ls: Levels, ls': Levels, qs: seq<nat>, cap: nat, g: nat, hm: nat,
      modified: seq<Id>)
    requires OnPath(st, ls, qs, g) && Recorded(st, ls, qs, cap, g, hm, modified) && modified != []
    requires g + 1 < |ls| && FullAt(st, ls, qs, cap, g + 1)
    requires SameAbove(st, st', ls, g + 1) && |ls'| == |ls| && (forall h :: g + 1 < h < |ls| ==> ls'[h] == ls[h])
    requires OnPath(st', ls', qs, g + 1)
    ensures Recorded(st', ls', qs, cap, g + 1, hm, modified[..|modified| - 1])
  {
    StackTop(ls, qs, g, hm);
    StackFrame(ls, ls', qs, qs, g + 1, hm);
    forall h | g + 1 < h < hm ensures FullAt(st', ls', qs, cap, h) {
      assert FullAt(st, ls, qs, cap, h) && SameOn(st, st', ls[h]);
    }
    if g + 1 < hm { assert SameOn(st, st', ls[hm]) || hm + 1 == |ls|; }
  }

  lemma PathUp(st: Store, st': Store, ls: Levels, ls': Levels, qs: seq<nat>, g: nat)
    requires OnPath(st, ls, qs, g) && g + 1 < |ls| && |ls'| == |ls| && qs[g + 1] < |ls'[g + 1]|
    requires (forall h :: g + 1 < h < |ls| ==> ls'[h] == ls[h]) && SameAbove(st, st', ls, g + 1)
    ensures OnPath(st', ls', qs, g + 1)
  {
    assert OnPath(st, ls, qs, g + 1);
    PathFrame(st, st', ls, ls', qs, g + 1);
  }

  ghost predicate FreshFrom(st: Store, next: Id) {
    forall x :: x in st ==> x < next
  }

  /** The state between two rounds: either everything is hung in, or the node `ins` of level g is
      pending and `modified` still holds every ancestor a further split can reach. */
  ghost predicate Climbing(st: Store, ls: Levels, cap: nat, root: Id, qs: seq<nat>, g: nat, hm: nat,
      modified: seq<Id>, ins: Option<Id>) {
    match ins
    case None => modified == [] && Shape(st, ls, cap, NoHole) && ls[|ls| - 1] == [root]
    case Some(x) =>
      && g < |ls| && OnPath(st, ls, qs, g) && Shape(st, ls, cap, Hole(g, qs[g])) && ls[g][qs[g] + 1] == x
      && Recorded(st, ls, qs, cap, g, hm, modified)
      && (if g + 1 == |ls| then ls[g] == [root, x] else ls[|ls| - 1] == [root])
  }

  /** A node with room was the highest one recorded: the loop ends here. */
  lemma RoomIsLast(st: Store, ls: Levels, qs: seq<nat>, cap: nat, g: nat, hm: nat, modified: seq<Id>)
    requires OnPath(st, ls, qs, g) && Recorded(st, ls, qs, cap, g, hm, modified) && modified != []
    ensures g + 1 < |ls| && modified[|modified| - 1] == ls[g + 1][qs[g + 1]]
    ensures !FullAt(st, ls, qs, cap, g + 1) ==> modified[..|modified| - 1] == []
  {
    StackTop(ls, qs, g, hm);
    StackTop(ls, qs, g + 1, hm);
    assert g + 1 < hm ==> FullAt(st, ls, qs, cap, g + 1);
  }

  lemma SplitClimbing(st: Store, st': Store, ls: Levels, ls': Levels, cap: nat, root: Id, qs: seq<nat>, g: nat,
      hm: nat, modified: seq<Id>, ins: Id, y: Id)
    requires Climbing(st, ls, cap, root, qs, g, hm, modified, Some(ins)) && modified != []
    requires g + 1 < |ls| && FullAt(st, ls, qs, cap, g + 1)
    requires ls' == ls[g + 1 := Insert(ls[g + 1], qs[g + 1] + 1, y)] && SameAbove(st, st', ls, g + 1)
    requires Shape(st', ls', cap, Hole(g + 1, qs[g + 1]))
    ensures Climbing(st', ls', cap, root, qs, g + 1, hm, modified[..|modified| - 1], Some(y))
  {
    PathUp(st, st', ls, ls', qs, g);
    RecordedUp(st, st', ls, ls', qs, cap, g, hm, modified);
    TopSplit(ls, ls', root, g, qs[g + 1], y);
  }

  lemma TopSplit(ls: Levels, ls': Levels, root: Id, g: nat, r: nat, y: Id)
    requires g + 1 < |ls| && r < |ls[g + 1]| && ls[|ls| - 1] == [root]
    requires ls' == ls[g + 1 := Insert(ls[g + 1], r + 1, y)]
    ensures |ls'[g + 1]| > r + 1 && ls'[g + 1][r + 1] == y
    ensures if g + 2 == |ls| then ls'[g + 1] == [root, y] else ls'[|ls| - 1] == [root]
  {
  }

  /** One round of the upward loop. */
  method Climb(st: Store, cap: nat, root: Id, node: Id, ins: Id, next: Id, ghost ls: Levels, ghost qs: seq<nat>,
      ghost g: nat, ghost hm: nat, ghost modified: seq<Id>)
    returns (st': Store, ins': Option<Id>, next': Id, ghost ls': Levels)
    requires Climbing(st, ls, cap, root, qs, g, hm, modified, Some(ins)) && Ordered(FlatE(st, ls[0])) && cap >= 4
    requires modified != [] && node == modified[|modified| - 1] && FreshFrom(st, next)
    ensures Climbing(st', ls', cap, root, qs, g + 1, hm, modified[..|modified| - 1], ins')
    ensures |ls'| == |ls| && ls'[0] == ls[0] && SameLeaves(st, st') && FreshFrom(st', next')
    ensures FlatE(st', ls[0]) == FlatE(st, ls[0]) && KidsKept(st, st', {node})
    ensures ins'.Some? ==> g + 1 < |ls'| && qs[g + 1] < |ls'[g + 1]| && node == ls'[g + 1][qs[g + 1]]
  {
    RoomIsLast(st, ls, qs, cap, g, hm, modified);
    NodeSize(st, ls, cap, Hole(g, qs[g]), g + 1, qs[g + 1]);
    assert ChildOf(st, ls[g + 1], qs[g + 1], qs[g]);
    ls', next', ins' := ls, next, None;
    if Count(st[node]) < cap {
      st' := HandUp(st, cap, node, ins, ls, g, qs[g], qs[g + 1]);
    } else {
      st', ls' := SplitUp(st, cap, node, ins, next, ls, g, qs[g], qs[g + 1]);
      ins', next' := Some(next), next + 1;
      SplitClimbing(st, st', ls, ls', cap, root, qs, g, hm, modified, ins, next);
    }
    LeafLevel(st, ls, cap, Hole(g, qs[g]));
    SameLeavesFlat(st, st', ls[0]);
  }

  lemma SameLeavesTrans(a: Store, b: Store, c: Store)
    requires SameLeaves(a, b) && SameLeaves(b, c)
    ensures SameLeaves(a, c)
  {
  }

  /** When nodes remain pending after the last recorded ancestor, that ancestor was the root. */
  lemma PendingAtRoot(st: Store, ls: Levels, cap: nat, root: Id, qs: seq<nat>, g: nat, hm: nat, ins: Id)
    requires Climbing(st, ls, cap, root, qs, g, hm, [], Some(ins))
    ensures g + 1 == |ls| && ls[g] == [root, ins] && qs[g] == 0
  {
    StackTop(ls, qs, g, hm);
  }

  /** The upward loop of btree_t::append. */
  method ClimbAll(st: Store, cap: nat, root: Id, modified: seq<Id>, ins: Id, next: Id, ghost ls: Levels,
      ghost qs: seq<nat>, ghost hm: nat)
    returns (st': Store, pending: Option<Id>, node: Id, next': Id, ghost ls': Levels, ghost g: nat)
    requires Climbing(st, ls, cap, root, qs, 0, hm, modified, Some(ins)) && Ordered(FlatE(st, ls[0])) && cap >= 4
    requires modified != [] && FreshFrom(st, next)
    ensures Climbing(st', ls', cap, root, qs, g, hm, [], pending) && |ls'| == |ls| > 1 && ls'[0] == ls[0]
    ensures SameLeaves(st, st') && FreshFrom(st', next') && KidsKept(st, st', Members(modified))
    ensures pending.Some? ==> node in modified && g < |ls'| && qs[g] < |ls'[g]| && node == ls'[g][qs[g]]
  {
    st', next', ls', g := st, next, ls, 0;
    var rest := modified;
    pending, node := Some(ins), ins;
    RoomIsLast(st, ls, qs, cap, 0, hm, modified);
    while rest != []
      invariant Climbing(st', ls', cap, root, qs, g, hm, rest, pending) && Ordered(FlatE(st', ls[0]))
      invariant |ls'| == |ls| && ls'[0] == ls[0] && SameLeaves(st, st') && FreshFrom(st', next')
      invariant Among(rest, modified) && KidsKept(st, st', Members(modified)) && (rest == [] ==> node in modified)
      invariant rest == [] && pending.Some? ==> g < |ls'| && qs[g] < |ls'[g]| && node == ls'[g][qs[g]]
      decreases |rest|
    {
      node := rest[|rest| - 1];
      ghost var before := st';
      st', pending, next', ls' := Climb(st', cap, root, node, pending.value, next', ls', qs, g, hm, rest);
      AmongLess(rest, modified);
      rest, g := rest[..|rest| - 1], g + 1;
      SameLeavesTrans(st, before, st');
      KidsKeptTrans(st, before, st', Members(modified), {node}, Members(modified));
    }
  }

  ghost predicate Among(rest: seq<Id>, l: seq<Id>) { forall x :: x in rest ==> x in l }

  lemma AmongLess(rest: seq<Id>, l: seq<Id>)
    requires rest != [] && Among(rest, l)
    ensures rest[|rest| - 1] in l && Among(rest[..|rest| - 1], l)
  {
  }

  /** The upward loop and the new root it may grow. No node outside `modified` gets other children, and a new
      root stands over the old one, which was recorded, and its new half. */
  method Cascade(st: Store, cap: nat, root: Id, modified: seq<Id>, ins: Id, next: Id, ghost ls: Levels,
      ghost qs: seq<nat>, ghost hm: nat)
    returns (st': Store, root': Id, next': Id, ghost ls': Levels)
    requires Climbing(st, ls, cap, root, qs, 0, hm, modified, Some(ins)) && Ordered(FlatE(st, ls[0])) && cap >= 4
    requires modified != [] && FreshFrom(st, next)
    ensures Shape(st', ls', cap, NoHole) && ls'[|ls'| - 1] == [root'] && ls'[0] == ls[0]
    ensures SameLeaves(st, st') && FreshFrom(st', next') && KidsKept(st, st', Members(modified))
    ensures root' != root ==>
      root in modified && root' !in st && |KidsOf(st', root')| == 2 && KidsOf(st', root')[0] == root
  {
    var s1, pending, node;
    ghost var g;
    s1, pending, node, next', ls', g := ClimbAll(st, cap, root, modified, ins, next, ls, qs, hm);
    st', root' := s1, root;
    if pending.Some? { PendingAtRoot(s1, ls', cap, root, qs, g, hm, pending.value); }
    if pending.Some? && node == root {
      NewRootShape(s1, ls', cap, g, next');
      st' := NewRoot(s1, next', root, pending.value);
      SameLeavesTrans(st, s1, st');
      RootKidsKept(s1, next', root, pending.value);
      KidsKeptTrans(st, s1, st', Members(modified), {}, Members(modified));
      root', next', ls' := next', next' + 1, ls' + [[next']];
    }
  }

  lemma RootKidsKept(st: Store, root: Id, a: Id, b: Id)
    requires a in st && b in st && root !in st
    ensures KidsKept(st, NewRoot(st, root, a, b), {})
  {
  }

  lemma LeafLevel(st: Store, ls: Levels, cap: nat, hole: Hole)
    requires Shape(st, ls, cap, hole)
    ensures forall i :: 0 <= i < |ls[0]| ==> ls[0][i] in st && st[ls[0][i]].Leaf?
  {
    assert LevelGood(st, ls, cap, hole, 0);
  }

  // ---------------------------------------------------------------- the whole append below an inner root

  lemma RecordedSame(st: Store, st': Store, ls: Levels, ls': Levels, qs: seq<nat>, cap: nat, h: nat, hm: nat,
      modified: seq<Id>)
    requires OnPath(st, ls, qs, h) && Recorded(st, ls, qs, cap, h, hm, modified) && OnPath(st', ls', qs, h)
    requires SameAbove(st, st', ls, h) && |ls'| == |ls| && (forall g :: h < g < |ls| ==> ls'[g] == ls[g])
    ensures Recorded(st', ls', qs, cap, h, hm, modified)
  {
    StackFrame(ls, ls', qs, qs, h, hm);
    forall g | h < g < hm ensures FullAt(st', ls', qs, cap, g) {
      assert FullAt(st, ls, qs, cap, g) && SameOn(st, st', ls[g]);
    }
    if h < hm { assert SameOn(st, st', ls[hm]); }
  }

  lemma AboveLeaf(st: Store, st': Store, ls: Levels, cap: nat, q: nat)
    requires Shape(st, ls, cap, NoHole) && q < |ls[0]|
    requires forall x :: x in st && x != ls[0][q] ==> x in st' && st'[x] == st[x]
    ensures SameAbove(st, st', ls, 0)
  {
    ShapeLevels(st, ls, cap, NoHole);
    forall h | 0 < h < |ls| ensures SameOn(st, st', ls[h]) { NotInLevel(ls, 0, q, h); }
  }

  /** After the leaf split the climb can begin. */
  lemma StartClimb(st: Store, st': Store, ls: Levels, ls': Levels, cap: nat, root: Id, qs: seq<nat>, hm: nat,
      modified: seq<Id>, y: Id)
    requires Shape(st, ls, cap, NoHole) && OnPath(st, ls, qs, 0) && Recorded(st, ls, qs, cap, 0, hm, modified)
    requires |ls| > 1 && ls[|ls| - 1] == [root] && ls' == ls[0 := Insert(ls[0], qs[0] + 1, y)]
    requires Shape(st', ls', cap, Hole(0, qs[0]))
    requires forall x :: x in st && x != ls[0][qs[0]] ==> x in st' && st'[x] == st[x]
    ensures Climbing(st', ls', cap, root, qs, 0, hm, modified, Some(y)) && modified != []
  {
    AboveLeaf(st, st', ls, cap, qs[0]);
    PathFrame(st, st', ls, ls', qs, 0);
    RecordedSame(st, st', ls, ls', qs, cap, 0, hm, modified);
    StackTop(ls, qs, 0, hm);
  }

  lemma CoversAlone(st: Store, ls: Levels, q: nat, k: Key)
    requires Covers(st, ls, 0, q, k)
    ensures Covers(st, [ls[0]], 0, q, k)
  {
  }

  /** Leaves stay and keep their segment files; stores may gain nodes. */
  ghost predicate LeavesStay(st: Store, st': Store) {
    forall x :: x in st && st[x].Leaf? ==> x in st' && st'[x].Leaf? && st'[x].file == st[x].file
  }

  lemma LeavesStayAfter(a: Store, b: Store, c: Store)
    requires LeavesStay(a, b) && SameLeaves(b, c)
    ensures LeavesStay(a, c)
  {
  }

  /** The inner nodes do not matter to the leaves. */
  lemma CascadeBacked(s1: Store, st': Store, lv: Leaves, files: Files, l: seq<Id>)
    requires SameLeaves(s1, st') && forall i :: 0 <= i < |l| ==> l[i] in s1 && s1[l[i]].Leaf?
    ensures Backed(st', lv, files, l) <==> Backed(s1, lv, files, l)
  {
    SameBacked(s1, st', lv, files, l);
  }

  /** The leaf is full: split it, place the item, let the new leaf climb. */
  method AppendSplit(st: Store, lv: Leaves, files: Files, cap: nat, root: Id, leaf: Id, modified: seq<Id>, k: Key,
      item: Item, next: Id, file: nat, ghost ls: Levels, ghost qs: seq<nat>, ghost hm: nat)
    returns (ok: bool, out: Outcome, st': Store, lv': Leaves, root': Id, next': Id, ghost ls': Levels)
    requires Shape(st, ls, cap, NoHole) && Ordered(FlatE(st, ls[0])) && Grouped(FlatE(st, ls[0]))
    requires ls[|ls| - 1] == [root] && |ls| > 1
    requires cap >= 4 && FreshFrom(st, next) && OnPath(st, ls, qs, 0) && Recorded(st, ls, qs, cap, 0, hm, modified)
    requires Covers(st, [ls[0]], 0, qs[0], k) && leaf == ls[0][qs[0]] && CountOf(st, leaf) == cap
    requires Backed(st, lv, files, ls[0]) && |item| > 0
    ensures Shape(st', ls', cap, NoHole) && ls'[|ls'| - 1] == [root'] && FreshFrom(st', next')
    ensures Grown(FlatE(st, ls[0]), FlatE(st', ls'[0]), k, item, out)
    ensures ls'[0] == Insert(ls[0], qs[0] + 1, next) && LeavesStay(st, st')
    ensures next in st' && st'[next].Leaf? && st'[next].file == file
    ensures LeavesEnd(lv, files, ls[0], leaf, cap, k, item, false, false, st', lv', ls'[0], ok, out)
  {
    var s1;
    ghost var grown;
    ok, out, s1, lv', grown := GrowBacked(st, lv, files, cap, leaf, k, item, next, file, ls, qs[0]);
    StartClimb(st, s1, ls, grown, cap, root, qs, hm, modified, next);
    GrownOrdered(FlatE(st, ls[0]), FlatE(s1, grown[0]), k, item, out);
    assert LeavesStay(st, s1);
    st', root', next', ls' := Cascade(s1, cap, root, modified, next, next + 1, grown, qs, hm);
    LeafLevel(s1, grown, cap, Hole(0, qs[0]));
    SameLeavesFlat(s1, st', grown[0]);
    LeavesStayAfter(st, s1, st');
    CascadeBacked(s1, st', lv', files, grown[0]);
  }

  /** The part of btree_t::append below an inner root. */
  method AppendDeep(st: Store, lv: Leaves, files: Files, cap: nat, root: Id, k: Key, item: Item, next: Id, file: nat,
      ghost ls: Levels)
    returns (ok: bool, out: Outcome, st': Store, lv': Leaves, root': Id, next': Id, split: bool, ghost ls': Levels,
        ghost q: nat, leaf: Id)
    requires Shape(st, ls, cap, NoHole) && Ordered(FlatE(st, ls[0])) && Grouped(FlatE(st, ls[0]))
    requires ls[|ls| - 1] == [root] && |ls| > 1
    requires cap >= 4 && FreshFrom(st, next) && Backed(st, lv, files, ls[0]) && |item| > 0
    ensures Shape(st', ls', cap, NoHole) && ls'[|ls'| - 1] == [root'] && FreshFrom(st', next')
    ensures Grown(FlatE(st, ls[0]), FlatE(st', ls'[0]), k, item, out)
    ensures q < |ls[0]| && ls'[0] == (if split then Insert(ls[0], q + 1, next) else ls[0]) && LeavesStay(st, st')
    ensures split ==> next in st' && st'[next].Leaf? && st'[next].file == file
    ensures Covers(st, [ls[0]], 0, q, k) && ls[0][q] == leaf
    ensures LeavesEnd(lv, files, ls[0], leaf, cap, k, item, false, CountOf(st, leaf) < cap, st', lv', ls'[0], ok, out)
  {
    var modified;
    ghost var qs, hm;
    leaf, modified, qs, hm := DescendAppend(st, cap, root, k, ls);
    q := qs[0];
    CoversAlone(st, ls, q, k);
    NodeSize(st, ls, cap, NoHole, 0, q);
    root', next', split, ls' := root, next, false, ls;
    if Count(st[leaf]) < cap {
      ok, out, st', lv' := AppendRoom(st, lv, files, cap, leaf, k, item, false, ls, q);
    } else {
      ok, out, st', lv', root', next', ls' := AppendSplit(st, lv, files, cap, root, leaf, modified, k, item, next, file,
          ls, qs, hm);
      split := true;
    }
  }

  // ---------------------------------------------------------------- a full root leaf

  /** The key at which a full root leaf would be split. */
  ghost predicate CutsGroup(st: Store, cap: nat, root: Id, k: Key) {
    var es := EntriesOf(st, root);
    |es| == cap && cap >= 2 && es[cap - cap / 2].key == k
  }

  lemma CutContents(c: seq<Entry>, m: nat, k: Key, item: Item)
    requires Ordered(c) && m < |c| && c[m].key == k
    ensures Group(c[..m], k) == [] && Put(c[..m], k, [item]) == c[..m] + [Entry(k, [item])]
    ensures !Ordered(c[..m] + [Entry(k, [item])] + c[m..])
  {
    OrderedSlice(c, 0, m);
    assert c[..m] == c[0..m];
    RankUnique(c[..m], k, m);
    var w := c[..m] + [Entry(k, [item])] + c[m..];
    assert w[m].key == k && w[m + 1] == c[m];
  }

  /** What appending to a full root leaf makes of its contents: an index that is the first of the
      upper half is sent to the lower one, whose largest index it then repeats. */
  ghost predicate RootGrown(st: Store, c': seq<Entry>, cap: nat, root: Id, k: Key, item: Item, out: Outcome) {
    var c, m := EntriesOf(st, root), cap - cap / 2;
    if CutsGroup(st, cap, root, k) then !out.Refused?
        && c' == (if out.Stored? then c[..m] + [Entry(k, [item])] + c[m..] else c)
    else Grown(c, c', k, item, out)
  }

  method SplitRootLeaf(st: Store, cap: nat, root: Id, k: Key, item: Item, dropped: bool, next: Id, file: nat)
    returns (out: Outcome, s2: Store, ghost at: nat)
    requires Shape(st, [[root]], cap, NoHole) && Ordered(EntriesOf(st, root)) && CountOf(st, root) == cap >= 4
      && FreshFrom(st, next)
    ensures root in s2 && next in s2 && FreshFrom(s2, next + 1)
    ensures LeavesStay(st, s2) && s2[next].Leaf? && s2[next].file == file
    ensures !CutsGroup(st, cap, root, k) ==> Shape(s2, [[root, next]], cap, Hole(0, 0))
    ensures RootGrown(st, FlatE(s2, [root, next]), cap, root, k, item, out)
    ensures root in st && st[root].Leaf? && HalfGot(st, s2, root, next, file, k, item, true, out, at)
    ensures out.Dropped? <==> !out.Refused? && dropped
  {
    RootLeafFull(st, cap, root, next, file);
    var s1 := SplitLeaf(st, root, next, file);
    var target := if s1[next].entries[0].key < k then next else root;
    out, s2, at := AppendToLeaf(s1, target, k, item, dropped);
    RootLeafDone(st, s1, s2, cap, root, k, item, next, file, target, out, at);
  }

  lemma RootLeafFull(st: Store, cap: nat, root: Id, next: Id, file: nat)
    requires Shape(st, [[root]], cap, NoHole) && CountOf(st, root) == cap >= 4 && FreshFrom(st, next)
    ensures root in st && st[root].Leaf? && root != next
    ensures var s1 := SplitLeaf(st, root, next, file);
      root in s1 && next in s1 && s1[root].Leaf? && s1[next].Leaf? && s1[next].entries != []
  {
    NodeSize(st, [[root]], cap, NoHole, 0, 0);
    HalfCounts(st, root, next, file, cap);
  }

  lemma RootLeafDone(st: Store, s1: Store, s2: Store, cap: nat, root: Id, k: Key, item: Item, next: Id, file: nat,
      target: Id, out: Outcome, at: nat)
    requires Shape(st, [[root]], cap, NoHole) && Ordered(EntriesOf(st, root)) && CountOf(st, root) == cap >= 4
      && FreshFrom(st, next)
    requires root in st && st[root].Leaf? && s1 == SplitLeaf(st, root, next, file) && next in s1 && s1[next].Leaf?
      && s1[next].entries != []
    requires target == (if s1[next].entries[0].key < k then next else root) && target in s1 && s1[target].Leaf?
    requires LeafAppended(s1, s2, target, k, item, out, at)
    ensures root in s2 && next in s2 && FreshFrom(s2, next + 1)
    ensures LeavesStay(st, s2) && s2[next].Leaf? && s2[next].file == file
    ensures !CutsGroup(st, cap, root, k) ==> Shape(s2, [[root, next]], cap, Hole(0, 0))
    ensures RootGrown(st, FlatE(s2, [root, next]), cap, root, k, item, out)
  {
    RootLeavesStay(st, s2, root, k, item, next, file, target, out, at);
    RootOutcome(st, s1, s2, cap, root, k, item, next, file, target, out, at);
  }

  lemma RootOutcome(st: Store, s1: Store, s2: Store, cap: nat, root: Id, k: Key, item: Item, next: Id, file: nat,
      target: Id, out: Outcome, at: nat)
    requires Shape(st, [[root]], cap, NoHole) && Ordered(EntriesOf(st, root)) && CountOf(st, root) == cap >= 4
      && FreshFrom(st, next)
    requires root in st && st[root].Leaf? && s1 == SplitLeaf(st, root, next, file)
    requires target == (if s1[next].entries[0].key < k then next else root)
      && LeafAppended(s1, s2, target, k, item, out, at)
    ensures !CutsGroup(st, cap, root, k) ==> Shape(s2, [[root, next]], cap, Hole(0, 0))
    ensures RootGrown(st, FlatE(s2, [root, next]), cap, root, k, item, out)
  {
    HalfCounts(st, root, next, file, cap);
    if CutsGroup(st, cap, root, k) {
      FullRootCut(st, s1, s2, cap, root, k, item, next, file, out, at);
    } else {
      FullRootGrown(st, s1, s2, cap, root, k, item, next, file, target, out, at);
    }
  }

  lemma RootReady(st: Store, lv: Leaves, files: Files, cap: nat, root: Id, next: Id)
    requires Shape(st, [[root]], cap, NoHole) && Ordered(EntriesOf(st, root)) && Grouped(EntriesOf(st, root))
    requires Backed(st, lv, files, [root]) && FreshFrom(st, next)
    ensures root in st && st[root].Leaf? && root != next && root in lv
    ensures Ordered(st[root].entries) && Grouped(st[root].entries)
    ensures NoDup([root]) && next !in [root] && Insert([root], 1, next) == [root, next]
  {
    FlatOne(st, root);
    LeafReady(st, lv, files, [[root]], cap, 0);
  }

  /** The same on the segment trees. */
  method SplitRootBacked(st: Store, lv: Leaves, files: Files, cap: nat, root: Id, k: Key, item: Item, next: Id,
      file: nat)
    returns (ok: bool, out: Outcome, s2: Store, lv': Leaves)
    requires Shape(st, [[root]], cap, NoHole) && Ordered(EntriesOf(st, root)) && CountOf(st, root) == cap >= 4
      && FreshFrom(st, next)
    requires Grouped(EntriesOf(st, root)) && Backed(st, lv, files, [root]) && |item| > 0
    ensures root in s2 && next in s2 && FreshFrom(s2, next + 1)
    ensures LeavesStay(st, s2) && s2[root].Leaf? && s2[next].Leaf? && s2[next].file == file
    ensures !CutsGroup(st, cap, root, k) ==> Shape(s2, [[root, next]], cap, Hole(0, 0))
    ensures RootGrown(st, FlatE(s2, [root, next]), cap, root, k, item, out)
    ensures LeavesEnd(lv, files, [root], root, cap, k, item, true, false, s2, lv', [root, next], ok, out)
  {
    RootReady(st, lv, files, cap, root, next);
    var dropped;
    ghost var at;
    ok, dropped, lv' := SplitStates(st, lv, files, cap, root, next, file, k, item, true, [root], 0);
    out, s2, at := SplitRootLeaf(st, cap, root, k, item, dropped, next, file);
    Told(st, s2, lv, lv', files, cap, root, next, file, k, item, ok, dropped, out, at);
  }

  lemma Told(st: Store, s2: Store, lv: Leaves, lv': Leaves, files: Files, cap: nat, root: Id, next: Id, file: nat,
      k: Key, item: Item, ok: bool, dropped: bool, out: Outcome, at: nat)
    requires root in st && st[root].Leaf? && root in lv && Insert([root], 1, next) == [root, next]
    requires Foretold(st, lv, lv', files, Insert([root], 1, next), root, next, file, cap, k, item, true, ok, dropped)
    requires HalfGot(st, s2, root, next, file, k, item, true, out, at) && (out.Dropped? <==> !out.Refused? && dropped)
    ensures Backs(s2, lv', files, [root, next], Tears(lv[root], cap), Drops(lv[root], cap, k, item, true), ok, out)
  {
  }

  /** btree_t::append on a full root leaf: the halves become the children of a new root. */
  method AppendFullRoot(st: Store, lv: Leaves, files: Files, cap: nat, root: Id, k: Key, item: Item, next: Id,
      file: nat)
    returns (ok: bool, out: Outcome, st': Store, lv': Leaves)
    requires Shape(st, [[root]], cap, NoHole) && Ordered(EntriesOf(st, root)) && CountOf(st, root) == cap >= 4
      && FreshFrom(st, next)
    requires Grouped(EntriesOf(st, root)) && Backed(st, lv, files, [root]) && |item| > 0
    ensures FreshFrom(st', next + 2) && LeavesStay(st, st') && next in st' && st'[next].Leaf? && st'[next].file == file
    ensures !CutsGroup(st, cap, root, k) ==> Shape(st', [[root, next], [next + 1]], cap, NoHole)
    ensures RootGrown(st, FlatE(st', [root, next]), cap, root, k, item, out)
    ensures LeavesEnd(lv, files, [root], root, cap, k, item, true, false, st', lv', [root, next], ok, out)
  {
    var s2;
    ok, out, s2, lv' := SplitRootBacked(st, lv, files, cap, root, k, item, next, file);
    st' := NewRoot(s2, next + 1, root, next);
    RootOnTop(st, s2, cap, root, next, file);
    CascadeBacked(s2, st', lv', files, [root, next]);
  }

  /** A new root changes neither the leaves nor what they hold. */
  lemma RootOnTop(st: Store, s2: Store, cap: nat, root: Id, next: Id, file: nat)
    requires root in s2 && next in s2 && FreshFrom(s2, next + 1) && LeavesStay(st, s2) && s2[next].Leaf?
      && s2[next].file == file && cap >= 4
    ensures var st' := NewRoot(s2, next + 1, root, next);
      && SameLeaves(s2, st') && FreshFrom(st', next + 2) && LeavesStay(st, st') && next in st' && st'[next].Leaf?
        && st'[next].file == file
      && FlatE(st', [root, next]) == FlatE(s2, [root, next])
      && (Shape(s2, [[root, next]], cap, Hole(0, 0)) ==> Shape(st', [[root, next], [next + 1]], cap, NoHole))
  {
    NewRootKeeps(s2, next + 1, root, next);
    LeavesStayAfter(st, s2, NewRoot(s2, next + 1, root, next));
    NewRootFlat(s2, next + 1, root, next);
    if Shape(s2, [[root, next]], cap, Hole(0, 0)) { RootAbove(s2, cap, root, next, next + 1); }
  }

  /** The two halves of a full root leaf, before a root stands above them. */
  lemma RootHalves(st: Store, cap: nat, root: Id, k: Key, next: Id, file: nat)
    requires Shape(st, [[root]], cap, NoHole) && CountOf(st, root) == cap >= 4 && FreshFrom(st, next)
    requires root in st && st[root].Leaf?
    ensures var s1 := SplitLeaf(st, root, next, file);
      && Shape(s1, [[root, next]], cap, Hole(0, 0)) && FlatE(s1, [root, next]) == EntriesOf(st, root)
      && (MinAt(s1, 0, next) <= k ==> Covers(s1, [[root, next]], 0, 1, k))
      && (MinAt(s1, 0, next) > k ==> Covers(s1, [[root, next]], 0, 0, k))
  {
    var l := [root];
    assert LevelGood(st, [l], cap, NoHole, 0);
    FlatOne(st, root);
    SplitLeafShape(st, [l], cap, 0, next, file);
    assert Insert(l, 1, next) == [root, next];
    assert [l][0 := [root, next]] == [[root, next]];
    HalfCovers(st, l, 0, k, next, file);
  }

  lemma NewRootFlat(st: Store, root: Id, a: Id, b: Id)
    requires a in st && b in st && root !in st
    ensures FlatE(NewRoot(st, root, a, b), [a, b]) == FlatE(st, [a, b])
  {
    SameLeavesFlat(st, NewRoot(st, root, a, b), [a, b]);
  }

  lemma RootAbove(st: Store, cap: nat, a: Id, b: Id, root: Id)
    requires Shape(st, [[a, b]], cap, Hole(0, 0)) && cap >= 4 && root !in st
    ensures a in st && b in st && Shape(NewRoot(st, root, a, b), [[a, b], [root]], cap, NoHole)
  {
    NewRootShape(st, [[a, b]], cap, 0, root);
    assert [[a, b]] + [[root]] == [[a, b], [root]];
  }

  lemma HalfAppended(s1: Store, s2: Store, cap: nat, root: Id, next: Id, k: Key, item: Item, target: Id, out: Outcome,
      at: nat, c: seq<Entry>)
    requires Shape(s1, [[root, next]], cap, Hole(0, 0)) && FlatE(s1, [root, next]) == c && Ordered(c)
    requires (target == next && Covers(s1, [[root, next]], 0, 1, k)) || (target == root
      && Covers(s1, [[root, next]], 0, 0, k))
    requires target in s1 && s1[target].Leaf? && CountOf(s1, target) < cap
      && LeafAppended(s1, s2, target, k, item, out, at)
    ensures Shape(s2, [[root, next]], cap, Hole(0, 0)) && Grown(c, FlatE(s2, [root, next]), k, item, out)
  {
    var ls1 := [[root, next]];
    if target == next && Covers(s1, ls1, 0, 1, k) {
      CoveredAppend(s1, s2, cap, target, k, item, ls1, Hole(0, 0), 1, out, at);
    } else {
      CoveredAppend(s1, s2, cap, target, k, item, ls1, Hole(0, 0), 0, out, at);
    }
  }

  lemma FullRootGrown(st: Store, s1: Store, s2: Store, cap: nat, root: Id, k: Key, item: Item, next: Id, file: nat,
      target: Id, out: Outcome, at: nat)
    requires Shape(st, [[root]], cap, NoHole) && Ordered(EntriesOf(st, root)) && CountOf(st, root) == cap >= 4
      && FreshFrom(st, next)
    requires root in st && st[root].Leaf? && s1 == SplitLeaf(st, root, next, file) && MinAt(s1, 0, next) != k
    requires target == (if MinAt(s1, 0, next) < k then next else root)
    requires LeafAppended(s1, s2, target, k, item, out, at)
    ensures Shape(s2, [[root, next]], cap, Hole(0, 0))
      && Grown(EntriesOf(st, root), FlatE(s2, [root, next]), k, item, out)
  {
    RootHalves(st, cap, root, k, next, file);
    HalfCounts(st, root, next, file, cap);
    HalfAppended(s1, s2, cap, root, next, k, item, target, out, at, EntriesOf(st, root));
  }

  lemma RootLeavesStay(st: Store, s2: Store, root: Id, k: Key, item: Item, next: Id, file: nat, target: Id,
      out: Outcome, at: nat)
    requires root in st && st[root].Leaf? && FreshFrom(st, next) && (target == root || target == next)
    requires LeafAppended(SplitLeaf(st, root, next, file), s2, target, k, item, out, at)
    ensures root in s2 && next in s2 && next + 1 !in s2 && s2.Keys == st.Keys + {next}
    ensures LeavesStay(st, s2) && s2[next].Leaf? && s2[next].file == file
  {
  }

  lemma NewRootKeeps(st: Store, root: Id, a: Id, b: Id)
    requires a in st && b in st && FreshFrom(st, root)
    ensures SameLeaves(st, NewRoot(st, root, a, b)) && FreshFrom(NewRoot(st, root, a, b), root + 1)
  {
  }

  lemma CutHalves(st: Store, s2: Store, cap: nat, root: Id, k: Key, item: Item, next: Id, file: nat, out: Outcome,
      at: nat)
    requires root in st && st[root].Leaf? && Ordered(st[root].entries) && |st[root].entries| == cap >= 4 && root != next
    requires CutsGroup(st, cap, root, k) && LeafAppended(SplitLeaf(st, root, next, file), s2, root, k, item, out, at)
    ensures !out.Refused?
    ensures var c, m := st[root].entries, cap - cap / 2;
      && EntriesOf(s2, root) == (if out.Stored? then c[..m] + [Entry(k, [item])] else c[..m])
        && EntriesOf(s2, next) == c[m..]
  {
    CutContents(st[root].entries, cap - cap / 2, k, item);
    assert InsertAt([], 0, item) == [item];
  }

  lemma FullRootCut(st: Store, s1: Store, s2: Store, cap: nat, root: Id, k: Key, item: Item, next: Id, file: nat,
      out: Outcome, at: nat)
    requires Ordered(EntriesOf(st, root)) && CountOf(st, root) == cap >= 4 && FreshFrom(st, next)
    requires root in st && st[root].Leaf? && s1 == SplitLeaf(st, root, next, file) && CutsGroup(st, cap, root, k)
    requires LeafAppended(s1, s2, root, k, item, out, at)
    ensures RootGrown(st, FlatE(s2, [root, next]), cap, root, k, item, out)
  {
    CutHalves(st, s2, cap, root, k, item, next, file, out, at);
    FlatTwo(s2, root, next);
    InTwo(st[root].entries, cap - cap / 2);
  }

  lemma FlatTwo(st: Store, a: Id, b: Id)
    ensures FlatE(st, [a, b]) == EntriesOf(st, a) + EntriesOf(st, b)
  {
    FlatEPair(st, [], a, b, []);
    assert [] + [a, b] + [] == [a, b];
  }
}
