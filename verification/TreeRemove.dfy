/** The pieces of btree_t::remove_index: dropping a group from its leaf, recording the nodes that
    may become too small, and the repair loop that merges or evens out siblings. */
module TreeRemove {
  import opened Wrappers
  import opened Multimap
  import opened NodeStore
  import opened TreeSearch
  import opened TreeLeaves
  import opened TreeInsert
  import opened TreeGrow
  import opened TreeSplit
  import opened TreeCascade
  import opened TreeAppend
  import opened TreeShrink
  import Balance = SegmentBalance
  import LeafNode = Leaf
  import LeafFile
  import opened LeafRepair
  import LeafQuery
  import SegmentQuery

  function DropLeaf(st: Store, id: Id, k: Key): Store
    requires id in st && st[id].Leaf?
  {
    st[id := st[id].(entries := Drop(st[id].entries, k))]
  }

  /** Dropping a group from the leaf that may hold it is dropping it from the whole tree. */
  lemma DropContents(st: Store, l: seq<Id>, p: nat, k: Key)
    requires LevelOk(st, l, true) && NoDup(l) && Ordered(FlatE(st, l)) && Covers(st, [l], 0, p, k)
    ensures FlatE(DropLeaf(st, l[p], k), l) == Drop(FlatE(st, l), k)
  {
    OneLevel(st, l);
    CoversSeparates(st, [l], p, k);
    var st' := DropLeaf(st, l[p], k);
    AgreeUpdate(st, l, p, st'[l[p]]);
    AgreeSlices(st, st', l, p);
    FlatEAt(st, l, p);
    FlatEAt(st', l, p);
    DropLocal(FlatE(st, l[..p]), EntriesOf(st, l[p]), FlatE(st, l[p + 1..]), k);
  }

  lemma DropLevel0(st: Store, l: seq<Id>, p: nat, k: Key, lo: nat, cap: nat)
    requires p < |l| && LevelOk(st, l, true) && LevelSized(st, l, lo, cap) && Linked(st, l) && NoDup(l)
    requires Has(st[l[p]].entries, k) && CountOf(st, l[p]) > 1
    ensures var st' := DropLeaf(st, l[p], k);
      LevelOk(st', l, true) && SizedBut(st', l, p, CountOf(st, l[p]) - 1, lo, cap) && Linked(st', l)
  {
    LinkedBySame(st, DropLeaf(st, l[p], k), l, l);
  }

  /** Dropping a present group leaves a complete tree with one leaf that is smaller by one. */
  lemma DropShape(st: Store, ls: Levels, cap: nat, p: nat, k: Key)
    requires Shape(st, ls, cap, NoHole) && p < |ls[0]| && ls[0][p] in st && st[ls[0][p]].Leaf?
    requires Has(st[ls[0][p]].entries, k) && CountOf(st, ls[0][p]) > 1
    ensures ShapeBut(DropLeaf(st, ls[0][p], k), ls, cap, 0, p, CountOf(st, ls[0][p]) - 1)
  {
    var st' := DropLeaf(st, ls[0][p], k);
    assert LevelGood(st, ls, cap, NoHole, 0);
    DropLevel0(st, ls[0], p, k, Floor(ls, 0, cap), cap);
    forall g | 0 <= g < |ls| && g != 0 ensures LevelGood(st', ls, cap, NoHole, g) {
      assert LevelGood(st, ls, cap, NoHole, g);
      NotInLevel(ls, 0, p, g);
      LevelFrame(st, st', ls, ls, cap, NoHole, NoHole, g);
    }
  }

  lemma Tight(st: Store, ls: Levels, cap: nat, h: nat, q: nat)
    requires Shape(st, ls, cap, NoHole) && h < |ls| && q < |ls[h]|
    ensures Floor(ls, h, cap) <= CountOf(st, ls[h][q]) <= cap && ls[h][q] in st && st[ls[h][q]].Leaf? == (h == 0)
  {
    assert LevelGood(st, ls, cap, NoHole, h);
  }

  /** The state of the downward loop at level h. */
  ghost predicate Downward(st: Store, ls: Levels, cap: nat, k: Key, qs: seq<nat>, h: nat, hm: nat, cur: Id,
      modified: seq<Id>, record: bool) {
    && h < |ls| && OnPath(st, ls, qs, h) && Covers(st, ls, h, qs[h], k) && ls[h][qs[h]] == cur
    && cur in st && st[cur].Leaf? == (h == 0)
    && (if h + 1 == |ls| then modified == [] && !record else Count(st[cur]) >= cap / 4)
    && (Count(st[cur]) == cap / 4 ==> (h + 1 < |ls| ==> record) && Recorded(st, ls, qs, cap / 4, h, hm, modified))
  }

  lemma DownRecorded(st: Store, ls: Levels, cap: nat, k: Key, qs: seq<nat>, qs': seq<nat>, h: nat, hm: nat, cur: Id,
      modified: seq<Id>, record: bool)
    requires Downward(st, ls, cap, k, qs, h, hm, cur, modified, record) && 0 < h && OnPath(st, ls, qs', h - 1)
    requires forall g :: h <= g < |ls| ==> qs'[g] == qs[g]
    ensures var kept := if Count(st[cur]) > cap / 4 then [] else modified;
      Recorded(st, ls, qs', cap / 4, h - 1, if FullAt(st, ls, qs, cap / 4, h) then hm else h, kept + [cur])
  {
    RecordStep(st, ls, qs, qs', cap / 4, h, hm, if Count(st[cur]) > cap / 4 then [] else modified);
  }

  method DownStep(st: Store, cap: nat, cur: Id, k: Key, modified: seq<Id>, record: bool, ghost ls: Levels,
      ghost qs: seq<nat>, ghost h: nat, ghost hm: nat)
    returns (child: Id, modified': seq<Id>, record': bool, ghost qs': seq<nat>, ghost hm': nat)
    requires Shape(st, ls, cap, NoHole) && Tower(st, ls) && Ordered(FlatE(st, ls[0])) && 0 < h
    requires Downward(st, ls, cap, k, qs, h, hm, cur, modified, record)
    ensures Downward(st, ls, cap, k, qs', h - 1, hm', child, modified', record') && qs'[h] == qs[h]
  {
    child, qs' := DescendStep(st, cur, k, ls, qs, h);
    Tight(st, ls, cap, h - 1, qs'[h - 1]);
    DownRecorded(st, ls, cap, k, qs, qs', h, hm, cur, modified, record);
    var keep := Count(st[cur]) <= cap / 4;
    record' := (keep && record) || Count(st[child]) == cap / 4;
    modified' := if !record' then [] else (if keep then modified else []) + [cur];
    hm' := if FullAt(st, ls, qs, cap / 4, h) then hm else h;
  }

  /** The downward loop of btree_t::remove_index. When the leaf it ends in is at its minimum,
      `modified` holds exactly the ancestors that a chain of merges may reach. */
  method DescendRemove(st: Store, cap: nat, root: Id, k: Key, ghost ls: Levels)
    returns (leaf: Id, parent: Id, modified: seq<Id>, ghost qs: seq<nat>, ghost hm: nat)
    requires Shape(st, ls, cap, NoHole) && Ordered(FlatE(st, ls[0])) && ls[|ls| - 1] == [root] && |ls| > 1
    ensures OnPath(st, ls, qs, 0) && Covers(st, ls, 0, qs[0], k) && ls[0][qs[0]] == leaf && ls[1][qs[1]] == parent
    ensures CountOf(st, leaf) == cap / 4 ==> Recorded(st, ls, qs, cap / 4, 0, hm, modified)
  {
    ShapeTower(st, ls, cap);
    TopCovers(st, ls, k);
    leaf, parent, modified := root, root, [];
    ghost var h: nat := |ls| - 1;
    qs, hm := seq(|ls|, _ => 0), h;
    assert Stack(ls, qs, h, hm) == [];
    Tight(st, ls, cap, h, 0);
    var record := Count(st[leaf]) == 1;
    while st[leaf].Inner?
      invariant Downward(st, ls, cap, k, qs, h, hm, leaf, modified, record)
      invariant h + 1 < |ls| ==> parent == ls[h + 1][qs[h + 1]]
      decreases h
    {
      parent := leaf;
      leaf, modified, record, qs, hm := DownStep(st, cap, leaf, k, modified, record, ls, qs, h, hm);
      h := h - 1;
    }
  }

  // ---------------------------------------------------------------- the repair loop

  /** std::find_if over the children. */
  method FindChild(ks: seq<Id>, x: Id) returns (i: nat)
    requires x in ks
    ensures i < |ks| && ks[i] == x
  {
    i := 0;
    while ks[i] != x
      invariant i < |ks| && x in ks[i..]
      decreases |ks| - i
    {
      i := i + 1;
    }
  }

  lemma ChildNumber(st: Store, up: seq<Id>, l: seq<Id>, r: nat, q: nat, i: nat)
    requires NoDup(l) && Flat(st, up) == l && q < |l| && ChildOf(st, up, r, q)
    ensures l[q] in KidsOf(st, up[r])
    ensures i < |KidsOf(st, up[r])| && KidsOf(st, up[r])[i] == l[q] ==> |Flat(st, up[..r])| + i == q
  {
    KidsAt(st, up, r);
    assert KidsOf(st, up[r])[q - |Flat(st, up[..r])|] == l[q];
  }

  /** Stores may lose nodes; the leaves that stay keep their files. */
  ghost predicate KeepsFiles(st: Store, st': Store) {
    forall x :: x in st' ==> x in st && st'[x].Leaf? == st[x].Leaf? && (st[x].Leaf? ==> st'[x].file == st[x].file)
  }

  lemma MergeKeepsFiles(st: Store, p: Id, i: nat, dst: Id, src: Id, front: bool)
    requires p in st && st[p].Inner? && i < |st[p].kids| && dst in st && src in st && p != dst && p != src
    ensures KeepsFiles(st, MergeRemove(st, p, i, dst, src, front))
    ensures forall x :: x in st && x != src ==> x in MergeRemove(st, p, i, dst, src, front)
  {
  }

  lemma LevelOfBut(st: Store, ls: Levels, cap: nat, h: nat, q: nat, c: nat)
    requires ShapeBut(st, ls, cap, h, q, c) && h + 1 < |ls|
    ensures Flat(st, ls[h + 1]) == ls[h] && NoDup(ls[h]) && LevelOk(st, ls[h], h == 0) && LevelOk(st, ls[h + 1], false)
    ensures Linked(st, ls[h])
  {
    assert LevelGood(st, ls, cap, NoHole, h + 1);
  }

  /** Merge the node at position qs[h] of level h into the sibling at position d; leaves merge their segment trees. */
  method MergeInto(st: Store, lv: Leaves, files: Files, cap: nat, cur: Id, par: Id, dst: Id, ghost ls: Levels,
      ghost h: nat, ghost q: nat, ghost r: nat, ghost d: nat, ghost c: nat)
    returns (st': Store, lv': Leaves)
    requires ShapeBut(st, ls, cap, h, q, c) && Ordered(FlatE(st, ls[0])) && h + 1 < |ls| && ChildOf(st, ls[h + 1], r, q)
    requires cur == ls[h][q] && par == ls[h + 1][r] && d < |ls[h]| && (d == q + 1 || d + 1 == q) && dst == ls[h][d]
    requires |KidsOf(st, par)| > 1 && CountOf(st, dst) + c <= cap && Backed(st, lv, files, ls[0])
    ensures ShapeBut(st', ls[h := Without(ls[h], q)], cap, h + 1, r, |KidsOf(st, par)| - 1)
    ensures FlatE(st', Without(ls[h], q)) == FlatE(st, ls[h]) && (h > 0 ==> FlatE(st', ls[0]) == FlatE(st, ls[0]))
    ensures SameAbove(st, st', ls, h + 1) && KeepsFiles(st, st')
    ensures Backed(st', lv', files, if h == 0 then Without(ls[0], q) else ls[0])
    ensures Traced(lv, ls[0], lv', if h == 0 then Without(ls[0], q) else ls[0], cur, true)
  {
    LevelOfBut(st, ls, cap, h, q, c);
    ButTower(st, ls, cap, h, q, c);
    ChildNumber(st, ls[h + 1], ls[h], r, q, 0);
    var i := FindChild(st[par].kids, cur);
    ChildNumber(st, ls[h + 1], ls[h], r, q, i);
    MergeReady(st, ls, cap, h, q, c, d, r, i);
    var above := LiesAbove(st, dst, cur, ls, h, d, q);
    st' := MergeRemove(st, par, i, dst, cur, above);
    MergeShape(st, ls, cap, h, q, c, d, r, i);
    MergeKeepsFiles(st, par, i, dst, cur, above);
    if h > 0 { MergeLeafLevel(st, ls, cap, h, q, c, d, r, i); }
    lv' := lv;
    MergeEntries(st, par, i, dst, cur, above);
    if st[cur].Leaf? {
      var s := MergeStates(st, lv, files, dst, cur, ls[0], q, d);
      lv' := lv[dst := s];
      MergedBacked(st, st', lv, files, ls[0], q, d, s);
      MergedTraced(st, lv, files, ls[0], q, d, s, cur);
    } else {
      TracedSelf(st, lv, files, ls[0], cur);
      InnerMergeBacked(st, st', lv, files, ls, cap, h, q, d, c);
    }
  }

  lemma MergedTraced(st: Store, lv: Leaves, files: Files, l: seq<Id>, q: nat, d: nat, s: LeafFile.State, x: Id)
    requires Backed(st, lv, files, l) && q < |l| && d < |l| && l[d] in lv && LeafFile.Carried(lv[l[d]], s)
    ensures Traced(lv, l, lv[l[d] := s], Without(l, q), x, true)
  {
    forall z | z in Without(l, q) ensures z in l { }
    TracedSome(st, lv, files, l, l[d], s, Without(l, q));
    TracedAny(lv, l, lv[l[d] := s], Without(l, q), l[d], x, true);
  }

  /** Merging inner nodes leaves the leaves alone. */
  lemma InnerMergeBacked(st: Store, st': Store, lv: Leaves, files: Files, ls: Levels, cap: nat, h: nat, q: nat, d: nat,
      c: nat)
    requires ShapeBut(st, ls, cap, h, q, c) && h > 0 && d < |ls[h]| && OthersSame(st, st', ls[h][q], ls[h][d])
    requires EntriesOf(st', ls[h][d]) == EntriesOf(st, ls[h][d]) && Backed(st, lv, files, ls[0])
    ensures Backed(st', lv, files, ls[0])
  {
    NotInLevel(ls, h, q, 0);
    SameBacked(st, st', lv, files, ls[0]);
  }

  lemma MergeLeafLevel(st: Store, ls: Levels, cap: nat, h: nat, q: nat, c: nat, d: nat, r: nat, i: nat)
    requires ShapeBut(st, ls, cap, h, q, c) && MergeSpot(st, ls, h, q, d, r, i) && h > 0
    ensures FlatE(MergedAt(st, ls, h, q, d, r, i), ls[0]) == FlatE(st, ls[0])
  {
    assert LevelGood(st, ls, cap, NoHole, 0);
    MergedElsewhere(st, ls, cap, h, q, d, r, i, 0);
    SameOnFlat(st, MergedAt(st, ls, h, q, d, r, i), ls[0]);
  }

  lemma RebalanceKeepsFiles(st: Store, x: Id, y: Id, k: nat)
    requires x in st && y in st && x != y && st[x].Leaf? == st[y].Leaf? && k <= Count(st[x]) + Count(st[y])
    ensures KeepsFiles(st, Rebalance(st, x, y, k))
  {
  }

  /** The test `min_index() > other->max_index()` tells on which side a neighbour lies. */
  lemma SideKnown(st: Store, ls: Levels, h: nat, q: nat, d: nat)
    requires Tower(st, ls) && Ordered(FlatE(st, ls[0])) && h < |ls| && q < |ls[h]| && d < |ls[h]| && q != d
    ensures MinAt(st, h, ls[h][q]) > MaxAt(st, h, ls[h][d]) <==> d < q
  {
    MinBelowMax(st, ls, h, q);
    MinBelowMax(st, ls, h, d);
    if d < q { MinsAscend(st, ls, h, d, q); } else { MinsAscend(st, ls, h, q, d); }
  }

  method LiesAbove(st: Store, x: Id, y: Id, ghost ls: Levels, ghost h: nat, ghost q: nat,
      ghost d: nat)
    returns (above: bool)
    requires Tower(st, ls) && Ordered(FlatE(st, ls[0])) && h < |ls| && q < |ls[h]| && d < |ls[h]| && q != d
    requires x == ls[h][q] && y == ls[h][d]
    ensures above == (d < q)
  {
    SideKnown(st, ls, h, q, d);
    var lo := MinIndex(st, x, ls, h);
    var hi := MaxIndex(st, y, ls, h);
    above := lo > hi;
  }

  lemma Balanced(st: Store, ls: Levels, cap: nat, h: nat, q: nat, m: nat, k: nat, x: Id, y: Id)
    requires cap >= 8 && ShapeBut(st, ls, cap, h, q, cap / 4 - 1) && h + 1 < |ls| && m + 1 < |ls[h]|
    requires x == ls[h][m] && y == ls[h][m + 1] && (q == m || q == m + 1)
    requires var total := CountOf(st, x) + CountOf(st, y);
      if q == m then cap / 2 < CountOf(st, y) && k == total / 2 else cap / 2 < CountOf(st, x) && k == total - total / 2
    ensures x in st && y in st && x != y && st[x].Leaf? == st[y].Leaf? && k <= Count(st[x]) + Count(st[y])
    ensures Shape(Rebalance(st, x, y, k), ls, cap, NoHole)
    ensures FlatE(Rebalance(st, x, y, k), ls[0]) == FlatE(st, ls[0])
    ensures KeepsFiles(st, Rebalance(st, x, y, k))
  {
    PairIn(st, ls, cap, h, q, cap / 4 - 1, m);
    assert CountOf(st, ls[h][m]) <= cap && CountOf(st, ls[h][m + 1]) <= cap;
    RebalanceShape(st, ls, cap, h, q, cap / 4 - 1, m, k);
    RebalanceKeepsFiles(st, x, y, k);
  }

  method EvenOut(st: Store, cap: nat, x: Id, y: Id, k: nat, ghost ls: Levels, ghost h: nat, ghost q: nat, ghost m: nat)
    returns (st': Store)
    requires cap >= 8 && ShapeBut(st, ls, cap, h, q, cap / 4 - 1) && h + 1 < |ls| && m + 1 < |ls[h]|
    requires x == ls[h][m] && y == ls[h][m + 1] && (q == m || q == m + 1)
    requires var total := CountOf(st, x) + CountOf(st, y);
      if q == m then cap / 2 < CountOf(st, y) && k == total / 2 else cap / 2 < CountOf(st, x) && k == total - total / 2
    ensures Shape(st', ls, cap, NoHole) && FlatE(st', ls[0]) == FlatE(st, ls[0]) && KeepsFiles(st, st')
    ensures x in st && y in st && x != y && st[x].Leaf? == st[y].Leaf? && k <= Count(st[x]) + Count(st[y])
    ensures st' == Rebalance(st, x, y, k)
  {
    Balanced(st, ls, cap, h, q, m, k, x, y);
    st' := Rebalance(st, x, y, k);
  }

  /** Even out the node at position q with the sibling at position d: the smaller one ends up with
      the (rounded down) half. */
  method BalanceWith(st: Store, cap: nat, cur: Id, nb: Id, ghost ls: Levels, ghost h: nat, ghost q: nat, ghost d: nat)
    returns (st': Store)
    requires cap >= 8 && ShapeBut(st, ls, cap, h, q, cap / 4 - 1) && Ordered(FlatE(st, ls[0])) && h + 1 < |ls|
    requires cur == ls[h][q] && d < |ls[h]| && (d == q + 1 || d + 1 == q) && nb == ls[h][d] && cap / 2 < CountOf(st, nb)
    ensures Shape(st', ls, cap, NoHole) && FlatE(st', ls[0]) == FlatE(st, ls[0]) && KeepsFiles(st, st')
    ensures cur in st && nb in st && st[cur].Leaf? == st[nb].Leaf? == (h == 0)
    ensures st[cur].Leaf? ==> Evened(st, st', cur, nb, (CountOf(st, cur) + CountOf(st, nb)) / 2)
    ensures st[cur].Inner? ==> SameEntries(st, st')
  {
    ButTower(st, ls, cap, h, q, cap / 4 - 1);
    var above := LiesAbove(st, cur, nb, ls, h, q, d);
    var total := CountOf(st, cur) + CountOf(st, nb);
    if above {
      st' := EvenOut(st, cap, nb, cur, total - total / 2, ls, h, q, d);
    } else {
      st' := EvenOut(st, cap, cur, nb, total / 2, ls, h, q, q);
    }
    if h == 0 {
      LeavesApart(st, ls[0], q, d);
      EvenedLeaves(st, st', cur, nb, above, total / 2, total - total / 2);
    } else {
      EvenedInner(st, st', cur, nb, above, total / 2, total - total / 2);
    }
  }

  /** The leaves are as they were. */
  ghost predicate SameEntries(st: Store, st': Store) {
    forall z :: EntriesOf(st', z) == EntriesOf(st, z) && FileOf(st', z) == FileOf(st, z)
  }

  lemma EvenedLeaves(st: Store, st': Store, x: Id, y: Id, above: bool, n: nat, k: nat)
    requires x in st && y in st && x != y && st[x].Leaf? && st[y].Leaf? && n + k == Count(st[x]) + Count(st[y])
    requires above == !LeafNode.LiesBelow(EntriesOf(st, x), EntriesOf(st, y))
    requires st' == (if above then Rebalance(st, y, x, k) else Rebalance(st, x, y, n))
    ensures Evened(st, st', x, y, n)
  {
    if above { RebalanceEntries(st, y, x, k); } else { RebalanceEntries(st, x, y, n); }
  }

  lemma EvenedInner(st: Store, st': Store, x: Id, y: Id, above: bool, n: nat, k: nat)
    requires x in st && y in st && x != y && st[x].Inner? && st[y].Inner? && n + k == Count(st[x]) + Count(st[y])
    requires st' == (if above then Rebalance(st, y, x, k) else Rebalance(st, x, y, n))
    ensures SameEntries(st, st')
  {
    if above { RebalanceEntries(st, y, x, k); } else { RebalanceEntries(st, x, y, n); }
  }

  /** The same on the segment trees: it goes wrong exactly if the leaf borrows from a lower one that this tears. */
  method BalanceNode(st: Store, lv: Leaves, files: Files, cap: nat, cur: Id, nb: Id, ghost ls: Levels, ghost h: nat,
      ghost q: nat, ghost d: nat)
    returns (st': Store, lv': Leaves)
    requires cap >= 8 && ShapeBut(st, ls, cap, h, q, cap / 4 - 1) && Ordered(FlatE(st, ls[0])) && h + 1 < |ls|
    requires cur == ls[h][q] && d < |ls[h]| && (d == q + 1 || d + 1 == q) && nb == ls[h][d] && cap / 2 < CountOf(st, nb)
    requires Backed(st, lv, files, ls[0])
    ensures Shape(st', ls, cap, NoHole) && FlatE(st', ls[0]) == FlatE(st, ls[0]) && KeepsFiles(st, st')
    ensures h == 0 ==> nb in lv
    ensures Backed(st', lv', files, ls[0]) <==>
      !(h == 0 && d < q && TornLend(st, lv, cur, nb, (CountOf(st, cur) + CountOf(st, nb)) / 2))
    ensures Traced(lv, ls[0], lv', ls[0], nb, !(h == 0 && d < q))
  {
    st' := BalanceWith(st, cap, cur, nb, ls, h, q, d);
    lv' := lv;
    if st[cur].Leaf? {
      lv' := LendStates(st, st', lv, files, cap, cur, nb, ls, q, d);
    } else {
      SameBacked(st, st', lv, files, ls[0]);
      TracedSelf(st, lv, files, ls[0], nb);
    }
  }

  method LendStates(st: Store, ghost st': Store, lv: Leaves, files: Files, cap: nat, cur: Id, nb: Id, ghost ls: Levels,
      ghost q: nat, ghost d: nat)
    returns (lv': Leaves)
    requires cap >= 8 && ShapeBut(st, ls, cap, 0, q, cap / 4 - 1) && Ordered(FlatE(st, ls[0])) && |ls| > 1
    requires cur == ls[0][q] && d < |ls[0]| && (d == q + 1 || d + 1 == q) && nb == ls[0][d] && cap / 2 < CountOf(st, nb)
    requires Backed(st, lv, files, ls[0]) && Evened(st, st', cur, nb, (CountOf(st, cur) + CountOf(st, nb)) / 2)
    ensures nb in lv
    ensures Backed(st', lv', files, ls[0]) <==>
      !(d < q && TornLend(st, lv, cur, nb, (CountOf(st, cur) + CountOf(st, nb)) / 2))
    ensures Traced(lv, ls[0], lv', ls[0], nb, !(d < q))
  {
    LevelOfBut(st, ls, cap, 0, q, cap / 4 - 1);
    ghost var n := (CountOf(st, cur) + CountOf(st, nb)) / 2;
    var s, u := BalanceStates(st, lv, files, cur, nb, ls[0], q, d, n);
    lv' := Replaced(lv, cur, s, nb, u);
    TracedTwo(st, lv, files, ls[0], cur, s, nb, u, ls[0], q < d);
    BalanceBacked(st, st', lv, files, ls[0], q, d, s, u, d < q && TornLend(st, lv, cur, nb, n), n);
  }

  /** What a merging round leaves behind: level h without the node, the parent one child smaller. */
  ghost predicate MergedRound(st: Store, st': Store, ls: Levels, ls': Levels, cap: nat, h: nat, q: nat, r: nat) {
    && h + 1 < |ls| && q < |ls[h]| && r < |ls[h + 1]| && |KidsOf(st, ls[h + 1][r])| > 1
    && ls' == ls[h := Without(ls[h], q)] && SameAbove(st, st', ls, h + 1)
    && ShapeBut(st', ls', cap, h + 1, r, |KidsOf(st, ls[h + 1][r])| - 1)
  }

  lemma SiblingsAre(st: Store, ls: Levels, cap: nat, h: nat, q: nat, c: nat)
    requires ShapeBut(st, ls, cap, h, q, c)
    ensures ls[h][q] in st && st[ls[h][q]].left == Before(ls[h], q) && st[ls[h][q]].right == After(ls[h], q)
    ensures forall i :: 0 <= i < |ls[h]| ==> ls[h][i] in st
  {
    assert LinkedAt(st, ls[h], q);
  }

  lemma AtLeastTwo(st: Store, ls: Levels, h: nat, r: nat)
    requires h + 1 < |ls| && r < |ls[h + 1]| && Flat(st, ls[h + 1]) == ls[h]
    ensures |ls[h]| >= |KidsOf(st, ls[h + 1][r])|
  {
    KidsAt(st, ls[h + 1], r);
  }

  /** A neighbour that is small enough to be merged into. */
  ghost predicate Small(st: Store, cap: nat, nb: Option<Id>) {
    nb.Some? && nb.value in st && Count(st[nb.value]) <= cap / 2
  }

  /** The node will be merged into a neighbour. */
  ghost predicate WillMerge(st: Store, cap: nat, cur: Id) {
    cur in st && (Small(st, cap, st[cur].right) || Small(st, cap, st[cur].left))
  }

  /** The right neighbour is the partner: it is small, or the left one is not small and there is a right one. */
  ghost predicate TakesRight(st: Store, cap: nat, cur: Id) {
    cur in st && (Small(st, cap, st[cur].right) || (!Small(st, cap, st[cur].left) && st[cur].right.Some?))
  }

  /** The choice of partner: merge right, else merge left, else borrow right, else borrow left. */
  method ChoosePartner(st: Store, cap: nat, cur: Id, ghost ls: Levels, ghost h: nat, ghost q: nat, ghost c: nat)
    returns (nb: Id, merge: bool, ghost d: nat)
    requires ShapeBut(st, ls, cap, h, q, c) && cur == ls[h][q] && |ls[h]| > 1
    ensures d < |ls[h]| && (if TakesRight(st, cap, cur) then d == q + 1 else d + 1 == q) && nb == ls[h][d] && nb in st
    ensures merge == (Count(st[nb]) <= cap / 2) && merge == WillMerge(st, cap, cur)
  {
    SiblingsAre(st, ls, cap, h, q, c);
    var right, left := st[cur].right, st[cur].left;
    if right.Some? && Count(st[right.value]) <= cap / 2 {
      nb, merge, d := right.value, true, q + 1;
    } else if left.Some? && Count(st[left.value]) <= cap / 2 {
      nb, merge, d := left.value, true, q - 1;
    } else if right.Some? {
      nb, merge, d := right.value, false, q + 1;
    } else {
      nb, merge, d := left.value, false, q - 1;
    }
  }

  /** The leaf borrows from the left, and that tears the left neighbour. */
  ghost predicate BorrowTears(st: Store, lv: Leaves, cap: nat, cur: Id) {
    && cur in st && !WillMerge(st, cap, cur) && !TakesRight(st, cap, cur) && st[cur].left.Some?
    && var nb := st[cur].left.value;
      nb in lv && TornLend(st, lv, cur, nb, (CountOf(st, cur) + CountOf(st, nb)) / 2)
  }

  lemma BorrowIff(st: Store, lv: Leaves, cap: nat, cur: Id, nb: Id, l: seq<Id>, q: nat, d: nat)
    requires cur in st && nb in st && nb in lv && q < |l| && d < |l| && nb == l[d] && !WillMerge(st, cap, cur)
    requires st[cur].left == Before(l, q) && (if TakesRight(st, cap, cur) then d == q + 1 else d + 1 == q)
    ensures BorrowTears(st, lv, cap, cur) <==>
      d < q && TornLend(st, lv, cur, nb, (CountOf(st, cur) + CountOf(st, nb)) / 2)
  {
  }

  /** The leaf borrows from the left. */
  ghost predicate BorrowsLeft(st: Store, cap: nat, cur: Id) {
    cur in st && !WillMerge(st, cap, cur) && !TakesRight(st, cap, cur)
  }

  function LeftOf(st: Store, x: Id): Id { if x in st && st[x].left.Some? then st[x].left.value else x }

  /** One round of the repair loop. */
  method Round(st: Store, lv: Leaves, files: Files, cap: nat, cur: Id, par: Id, ghost ls: Levels, ghost h: nat,
      ghost q: nat, ghost r: nat)
    returns (st': Store, lv': Leaves, merged: bool, ghost ls': Levels)
    requires cap >= 8 && ShapeBut(st, ls, cap, h, q, cap / 4 - 1) && Ordered(FlatE(st, ls[0]))
    requires h + 1 < |ls| && ChildOf(st, ls[h + 1], r, q) && cur == ls[h][q] && par == ls[h + 1][r]
      && |KidsOf(st, par)| > 1 && Backed(st, lv, files, ls[0])
    ensures KeepsFiles(st, st') && |ls'| == |ls| && FlatE(st', ls'[0]) == FlatE(st, ls[0])
      && merged == WillMerge(st, cap, cur)
    ensures merged ==> MergedRound(st, st', ls, ls', cap, h, q, r)
    ensures !merged ==> ls' == ls && Shape(st', ls', cap, NoHole)
    ensures Backed(st', lv', files, ls'[0]) <==> !(h == 0 && BorrowTears(st, lv, cap, cur))
    ensures Traced(lv, ls[0], lv', ls'[0], LeftOf(st, cur), !(h == 0 && BorrowsLeft(st, cap, cur)))
  {
    LevelOfBut(st, ls, cap, h, q, cap / 4 - 1);
    AtLeastTwo(st, ls, h, r);
    ghost var d;
    var nb;
    nb, merged, d := ChoosePartner(st, cap, cur, ls, h, q, cap / 4 - 1);
    SiblingsAre(st, ls, cap, h, q, cap / 4 - 1);
    if merged {
      st', lv' := MergeInto(st, lv, files, cap, cur, par, nb, ls, h, q, r, d, cap / 4 - 1);
      ls' := ls[h := Without(ls[h], q)];
      TracedAny(lv, ls[0], lv', ls'[0], cur, LeftOf(st, cur), true);
    } else {
      st', lv' := BalanceNode(st, lv, files, cap, cur, nb, ls, h, q, d);
      ls' := ls;
      if !(h == 0 && d < q) { TracedAny(lv, ls[0], lv', ls'[0], nb, LeftOf(st, cur), true); }
      if h == 0 { BorrowIff(st, lv, cap, cur, nb, ls[0], q, d); }
    }
  }

  /** Between two rounds: the node at level h is one below the minimum, its parent is known, and
      `rest` still holds every ancestor that a further merge can make too small. */
  ghost predicate Repairing(st: Store, ls: Levels, cap: nat, root: Id, qs: seq<nat>, h: nat, hm: nat, cur: Id,
      par: Id, rest: seq<Id>) {
    && cap >= 8 && h + 1 < |ls| && OnPath(st, ls, qs, h) && ShapeBut(st, ls, cap, h, qs[h], cap / 4 - 1)
    && cur == ls[h][qs[h]] && par == ls[h + 1][qs[h + 1]] && ls[|ls| - 1] == [root]
    && Recorded(st, ls, qs, cap / 4, h, hm, rest + [par])
  }

  /** The round does not leave a node other than the root with a single child. */
  ghost predicate Safe(st: Store, ls: Levels, cap: nat, h: nat, cur: Id, par: Id) {
    |KidsOf(st, par)| == 2 && WillMerge(st, cap, cur) ==> h + 2 == |ls|
  }

  lemma ParentSize(st: Store, ls: Levels, cap: nat, h: nat, q: nat, c: nat, r: nat)
    requires ShapeBut(st, ls, cap, h, q, c) && h + 1 < |ls| && r < |ls[h + 1]|
    ensures Floor(ls, h + 1, cap) <= |KidsOf(st, ls[h + 1][r])| <= cap
    ensures CountOf(st, ls[h + 1][r]) == |KidsOf(st, ls[h + 1][r])|
  {
    assert LevelGood(st, ls, cap, NoHole, h + 1);
  }

  /** From capacity 12 on, only a root can be left with a single child. */
  lemma LonelyIsRoot(st: Store, ls: Levels, cap: nat, root: Id, qs: seq<nat>, h: nat, hm: nat, cur: Id, par: Id,
      rest: seq<Id>)
    requires Repairing(st, ls, cap, root, qs, h, hm, cur, par, rest)
    ensures 2 <= |KidsOf(st, par)| <= cap && (h + 2 == |ls| ==> par == root && qs[h + 1] == 0)
    ensures cap >= 12 ==> Safe(st, ls, cap, h, cur, par)
  {
    ParentSize(st, ls, cap, h, qs[h], cap / 4 - 1, qs[h + 1]);
  }

  /** With nothing recorded above it the parent could spare the child. */
  lemma ParentSpares(st: Store, ls: Levels, cap: nat, root: Id, qs: seq<nat>, h: nat, hm: nat, cur: Id, par: Id)
    requires Repairing(st, ls, cap, root, qs, h, hm, cur, par, [])
    ensures |KidsOf(st, par)| <= cap && (|KidsOf(st, par)| > 2 ==> |KidsOf(st, par)| - 1 >= Floor(ls, h + 1, cap))
  {
    ParentSize(st, ls, cap, h, qs[h], cap / 4 - 1, qs[h + 1]);
    StackTop(ls, qs, h, hm);
    StackTop(ls, qs, h + 1, hm);
  }

  /** With more recorded above it the parent was at its minimum. */
  lemma ParentTight(st: Store, ls: Levels, cap: nat, root: Id, qs: seq<nat>, h: nat, hm: nat, cur: Id, par: Id,
      rest: seq<Id>)
    requires Repairing(st, ls, cap, root, qs, h, hm, cur, par, rest) && rest != []
    ensures h + 2 < |ls| && FullAt(st, ls, qs, cap / 4, h + 1) && |KidsOf(st, par)| == cap / 4
    ensures rest[|rest| - 1] == ls[h + 2][qs[h + 2]]
  {
    ParentSize(st, ls, cap, h, qs[h], cap / 4 - 1, qs[h + 1]);
    StackTop(ls, qs, h, hm);
    assert (rest + [par])[..|rest|] == rest;
    StackTop(ls, qs, h + 1, hm);
  }

  lemma NextRepair(st: Store, st': Store, ls: Levels, ls': Levels, cap: nat, root: Id, qs: seq<nat>, h: nat, hm: nat,
      cur: Id, par: Id, rest: seq<Id>)
    requires Repairing(st, ls, cap, root, qs, h, hm, cur, par, rest) && rest != []
    requires MergedRound(st, st', ls, ls', cap, h, qs[h], qs[h + 1]) && |KidsOf(st, par)| > 2
    ensures cap >= 12 && Repairing(st', ls', cap, root, qs, h + 1, hm, par, rest[|rest| - 1], rest[..|rest| - 1])
  {
    ParentTight(st, ls, cap, root, qs, h, hm, cur, par, rest);
    PathUp(st, st', ls, ls', qs, h);
    RecordedUp(st, st', ls, ls', qs, cap / 4, h, hm, rest + [par]);
    assert (rest + [par])[..|rest + [par]| - 1] == rest;
    assert rest[..|rest| - 1] + [rest[|rest| - 1]] == rest;
  }

  /** The root is left with one child, which becomes the root. */
  lemma RootGivesWay(st: Store, s1: Store, ls: Levels, ls1: Levels, cap: nat, root: Id, qs: seq<nat>, h: nat)
    requires cap >= 8 && h + 2 == |ls| && |qs| == |ls| && qs[h + 1] == 0 && ls[h + 1] == [root]
    requires h < |ls| && qs[h] < |ls[h]| && MergedRound(st, s1, ls, ls1, cap, h, qs[h], 0) && |KidsOf(st, root)| == 2
    requires KeepsFiles(st, s1) && FlatE(s1, ls1[0]) == FlatE(st, ls[0])
    ensures |KidsOf(s1, root)| == 1 && KeepsFiles(st, s1 - {root}) && ls1[..h + 1][0] == ls1[0]
    ensures Mended(s1 - {root}, ls1[..h + 1], cap, KidsOf(s1, root)[0], FlatE(st, ls[0]))
  {
    CollapseShape(s1, ls1, cap, h + 1, root);
  }

  lemma KeepsFilesTrans(a: Store, b: Store, c: Store)
    requires KeepsFiles(a, b) && KeepsFiles(b, c)
    ensures KeepsFiles(a, c)
  {
  }

  ghost predicate Mended(st: Store, ls: Levels, cap: nat, root: Id, c: seq<Entry>) {
    Shape(st, ls, cap, NoHole) && ls[|ls| - 1] == [root] && FlatE(st, ls[0]) == c
  }

  /** All that is left below the root is a leaf with a part of what there should be. */
  ghost predicate Stranded(st: Store, root: Id, c: seq<Entry>) {
    && root in st && st[root].Leaf?
    && exists a, b :: c == a + st[root].entries + b && Total(a) + Total(b) > 0
  }

  datatype Verdict = Done | Again

  /** One round, the removal from the parent and the decision whether to go on. */
  method RepairStep(st: Store, lv: Leaves, files: Files, cap: nat, root: Id, cur: Id, par: Id, rest: seq<Id>,
      ghost ls: Levels, ghost qs: seq<nat>, ghost h: nat, ghost hm: nat)
    returns (st': Store, lv': Leaves, root': Id, merged: bool, verdict: Verdict, ghost ls': Levels)
    requires Repairing(st, ls, cap, root, qs, h, hm, cur, par, rest) && Ordered(FlatE(st, ls[0]))
      && Grouped(FlatE(st, ls[0]))
    requires (h == 0 || Safe(st, ls, cap, h, cur, par)) && Backed(st, lv, files, ls[0])
    ensures Stepped(st, st', ls, ls', cap, root, root', qs, h, hm, cur, par, rest, merged, verdict)
    ensures Backed(st', lv', files, ls'[0]) <==> !(h == 0 && BorrowTears(st, lv, cap, cur))
    ensures BorrowTears(st, lv, cap, cur) || BorrowsLeft(st, cap, cur) ==> verdict.Done?
    ensures Traced(lv, ls[0], lv', ls'[0], LeftOf(st, cur), !(h == 0 && BorrowsLeft(st, cap, cur)))
  {
    LonelyIsRoot(st, ls, cap, root, qs, h, hm, cur, par, rest);
    assert ChildOf(st, ls[h + 1], qs[h + 1], qs[h]);
    st', lv', merged, ls' := Round(st, lv, files, cap, cur, par, ls, h, qs[h], qs[h + 1]);
    root', verdict := root, Done;
    if merged {
      ghost var s1, ls1 := st', ls';
      st', root', verdict, ls' := Decide(st', cap, root, par, rest, st, ls, ls', qs, h, hm, cur);
      SameBacked(s1, st', lv', files, ls1[0]);
    }
  }

  /** What a step of the repair gives: a mended tree or the next step to do; but if it was not safe, what is
      left is stranded. */
  ghost predicate Stepped(st: Store, st': Store, ls: Levels, ls': Levels, cap: nat, root: Id, root': Id, qs: seq<nat>,
      h: nat, hm: nat, cur: Id, par: Id, rest: seq<Id>, merged: bool, verdict: Verdict) {
    && KeepsFiles(st, st') && ls != [] && ls' != [] && FlatE(st', ls'[0]) == FlatE(st, ls[0])
    && (h == 0 && merged ==> |qs| > 0 && qs[0] < |ls[0]|)
      && ls'[0] == (if merged && h == 0 then Without(ls[0], qs[0]) else ls[0])
    && (Safe(st, ls, cap, h, cur, par) ==>
      && (verdict.Done? ==> Mended(st', ls', cap, root', FlatE(st, ls[0])))
      && (verdict.Again? ==> Onward(st', ls', cap, root, root', qs, h, hm, par, rest)))
    && (!Safe(st, ls, cap, h, cur, par) ==> verdict.Done? && merged && Stranded(st', root', FlatE(st, ls[0])))
  }

  /** The parent is the next node to repair. */
  ghost predicate Onward(st: Store, ls: Levels, cap: nat, root: Id, root': Id, qs: seq<nat>, h: nat, hm: nat, par: Id,
      rest: seq<Id>) {
    && root' == root && rest != [] && cap >= 12
    && Repairing(st, ls, cap, root, qs, h + 1, hm, par, rest[|rest| - 1], rest[..|rest| - 1])
  }

  /** After a merge: the parent was a root and gives way, or it can spare the child, or it is next. */
  method Decide(s1: Store, cap: nat, root: Id, par: Id, rest: seq<Id>, ghost st: Store, ghost ls: Levels,
      ghost ls1: Levels, ghost qs: seq<nat>, ghost h: nat, ghost hm: nat, ghost cur: Id)
    returns (st': Store, root': Id, verdict: Verdict, ghost ls': Levels)
    requires Repairing(st, ls, cap, root, qs, h, hm, cur, par, rest)
      && MergedRound(st, s1, ls, ls1, cap, h, qs[h], qs[h + 1])
    requires KeepsFiles(st, s1) && FlatE(s1, ls1[0]) == FlatE(st, ls[0]) && Grouped(FlatE(st, ls[0]))
      && WillMerge(st, cap, cur)
    requires h == 0 || Safe(st, ls, cap, h, cur, par)
    ensures Stepped(st, st', ls, ls', cap, root, root', qs, h, hm, cur, par, rest, true, verdict)
    ensures SameEntries(s1, st') && ls'[0] == ls1[0]
  {
    MergedFacts(st, s1, ls, ls1, cap, root, qs, h, hm, cur, par, rest);
    st', root', verdict, ls' := s1, root, Done, ls1;
    if Count(s1[par]) == 1 {
      root' := s1[par].kids[0];
      st' := s1 - {par};
      if h + 2 == |ls| {
        RootGivesWay(st, s1, ls, ls1, cap, root, qs, h);
        ls' := ls1[..h + 1];
      } else {
        Orphaned(st, s1, ls, ls1, cap, root, qs, hm, cur, par, rest);
      }
    } else if rest == [] {
      Spared(st, s1, ls, ls1, cap, root, qs, h, hm, cur, par);
    } else {
      verdict := Again;
      NextRepair(st, s1, ls, ls1, cap, root, qs, h, hm, cur, par, rest);
    }
  }

  /** A level that is not the top has at least two nodes. */
  lemma TwoBelow(st: Store, ls: Levels, cap: nat, q: nat, c: nat, r: nat)
    requires ShapeBut(st, ls, cap, 0, q, c) && |ls| > 2 && r < |ls[2]| && cap >= 8
    ensures |ls[1]| >= 2
  {
    assert LevelGood(st, ls, cap, NoHole, 2);
    AtLeastTwo(st, ls, 1, r);
    assert CountOf(st, ls[2][r]) >= 2;
  }

  lemma {:induction false} FlatLong(st: Store, l: seq<Id>)
    requires LevelOk(st, l, false)
    ensures |Flat(st, l)| >= |l|
  {
    if l != [] {
      assert forall i :: 0 <= i < |l[1..]| ==> l[1..][i] == l[i + 1];
      FlatLong(st, l[1..]);
      assert Count(st[l[0]]) > 0;
    }
  }

  lemma SomeTotal(c: seq<Entry>)
    requires Grouped(c) && c != []
    ensures Total(c) > 0
  {
    assert c[0].items != [];
  }

  lemma SomeEntries(st: Store, l: seq<Id>)
    requires LevelOk(st, l, true) && l != []
    ensures FlatE(st, l) != []
  {
    assert Count(st[l[0]]) > 0;
  }

  /** One leaf among several holds less than all of them. */
  lemma LessThanAll(st: Store, l: seq<Id>, p: nat)
    requires LevelOk(st, l, true) && p < |l| && |l| > 1 && Grouped(FlatE(st, l))
    ensures Stranded(st, l[p], FlatE(st, l))
  {
    var a, b := FlatE(st, l[..p]), FlatE(st, l[p + 1..]);
    FlatEAt(st, l, p);
    GroupedParts(a, st[l[p]].entries, b);
    if p > 0 {
      SomeEntries(st, l[..p]);
      SomeTotal(a);
    } else {
      SomeEntries(st, l[p + 1..]);
      SomeTotal(b);
    }
    assert FlatE(st, l) == a + st[l[p]].entries + b && Total(a) + Total(b) > 0;
  }

  lemma GroupedParts(a: seq<Entry>, m: seq<Entry>, b: seq<Entry>)
    requires Grouped(a + m + b)
    ensures Grouped(a) && Grouped(b)
  {
    var c := a + m + b;
    assert forall i :: 0 <= i < |a| ==> a[i] == c[i];
    assert forall i :: 0 <= i < |b| ==> b[i] == c[|a| + |m| + i];
  }

  /** The single child of a parent, and the leaves around it. */
  lemma LoneChild(s1: Store, ls1: Levels, cap: nat, r: nat)
    requires |ls1| > 2 && ShapeBut(s1, ls1, cap, 1, r, 1) && |ls1[1]| >= 2
    ensures ls1[1][r] in s1 && s1[ls1[1][r]].Inner? && |s1[ls1[1][r]].kids| == 1
    ensures |ls1[0]| > 1 && LevelOk(s1, ls1[0], true) && ls1[1][r] !in ls1[0]
    ensures exists p :: 0 <= p < |ls1[0]| && ls1[0][p] == s1[ls1[1][r]].kids[0]
  {
    assert LevelGood(s1, ls1, cap, NoHole, 0);
    assert CountOf(s1, ls1[1][r]) == 1;
    FlatLong(s1, ls1[1]);
    KidsAt(s1, ls1[1], r);
    NotInLevel(ls1, 1, r, 0);
    var p := |Flat(s1, ls1[1][..r])|;
    assert ls1[0][p] == s1[ls1[1][r]].kids[0];
  }

  /** A leaf's parent that is not the root is left with one child and taken for the root: that child is all
      that can still be reached. */
  lemma Orphaned(st: Store, s1: Store, ls: Levels, ls1: Levels, cap: nat, root: Id, qs: seq<nat>, hm: nat, cur: Id,
      par: Id, rest: seq<Id>)
    requires Repairing(st, ls, cap, root, qs, 0, hm, cur, par, rest)
      && MergedRound(st, s1, ls, ls1, cap, 0, qs[0], qs[1])
    requires KeepsFiles(st, s1) && FlatE(s1, ls1[0]) == FlatE(st, ls[0]) && Grouped(FlatE(st, ls[0]))
    requires |KidsOf(st, par)| == 2 && |ls| > 2
    ensures par in s1 && s1[par].Inner? && |s1[par].kids| == 1
      && Stranded(s1 - {par}, s1[par].kids[0], FlatE(st, ls[0]))
    ensures KeepsFiles(st, s1 - {par}) && FlatE(s1 - {par}, ls1[0]) == FlatE(st, ls[0])
  {
    TwoBelow(st, ls, cap, qs[0], cap / 4 - 1, qs[2]);
    LoneChild(s1, ls1, cap, qs[1]);
    var s2, l := s1 - {par}, ls1[0];
    SameOnFlat(s1, s2, l);
    assert LevelOk(s2, l, true);
    var p :| 0 <= p < |l| && l[p] == s1[par].kids[0];
    LessThanAll(s2, l, p);
  }

  /** What a merging round says about the parent and the lowest level. */
  lemma MergedFacts(st: Store, s1: Store, ls: Levels, ls1: Levels, cap: nat, root: Id, qs: seq<nat>, h: nat, hm: nat,
      cur: Id, par: Id, rest: seq<Id>)
    requires Repairing(st, ls, cap, root, qs, h, hm, cur, par, rest)
      && MergedRound(st, s1, ls, ls1, cap, h, qs[h], qs[h + 1])
    ensures par in s1 && s1[par].Inner? && Count(s1[par]) == |KidsOf(st, par)| - 1 && Count(s1[par]) >= 1
    ensures h + 2 == |ls| ==> par == root && qs[h + 1] == 0 && ls[h + 1] == [root]
    ensures |ls1| == |ls| && ls1[0] == (if h == 0 then Without(ls[0], qs[0]) else ls[0])
  {
    LonelyIsRoot(st, ls, cap, root, qs, h, hm, cur, par, rest);
    CountsDown(st, s1, ls, ls1, cap, h, qs[h], qs[h + 1]);
  }

  /** The parent could spare the child: the tree is complete. */
  lemma Spared(st: Store, s1: Store, ls: Levels, ls1: Levels, cap: nat, root: Id, qs: seq<nat>, h: nat, hm: nat,
      cur: Id, par: Id)
    requires Repairing(st, ls, cap, root, qs, h, hm, cur, par, [])
      && MergedRound(st, s1, ls, ls1, cap, h, qs[h], qs[h + 1])
    requires |KidsOf(st, par)| > 2 && FlatE(s1, ls1[0]) == FlatE(st, ls[0])
    ensures Mended(s1, ls1, cap, root, FlatE(st, ls[0]))
  {
    ParentSpares(st, ls, cap, root, qs, h, hm, cur, par);
    SparedShape(st, s1, ls, ls1, cap, h, qs[h], qs[h + 1]);
  }

  lemma SparedShape(st: Store, s1: Store, ls: Levels, ls1: Levels, cap: nat, h: nat, q: nat, r: nat)
    requires MergedRound(st, s1, ls, ls1, cap, h, q, r)
      && Floor(ls, h + 1, cap) <= |KidsOf(st, ls[h + 1][r])| - 1 <= cap
    ensures Shape(s1, ls1, cap, NoHole) && |ls1| == |ls| && ls1[|ls1| - 1] == ls[|ls| - 1]
  {
    CountsDown(st, s1, ls, ls1, cap, h, q, r);
    ButShape(s1, ls1, cap, h + 1, r, |KidsOf(st, ls[h + 1][r])| - 1);
  }

  lemma CountsDown(st: Store, st': Store, ls: Levels, ls': Levels, cap: nat, h: nat, q: nat, r: nat)
    requires MergedRound(st, st', ls, ls', cap, h, q, r)
    ensures ls[h + 1][r] in st' && st'[ls[h + 1][r]].Inner?
      && Count(st'[ls[h + 1][r]]) == |KidsOf(st, ls[h + 1][r])| - 1
    ensures Floor(ls', h + 1, cap) == Floor(ls, h + 1, cap)
  {
    assert ls'[h + 1] == ls[h + 1] && CountOf(st', ls'[h + 1][r]) == |KidsOf(st, ls[h + 1][r])| - 1;
  }

  /** The repair loop of btree_t::remove_index: merges climb until a node can spare a child, two
      siblings are evened out, or the root gives way. */
  method Repair(st: Store, lv: Leaves, files: Files, cap: nat, root: Id, leaf: Id, parent: Id, modified: seq<Id>,
      ghost ls: Levels, ghost qs: seq<nat>, ghost hm: nat)
    returns (st': Store, lv': Leaves, root': Id, gone: bool, ghost ls': Levels)
    requires Repairing(st, ls, cap, root, qs, 0, hm, leaf, parent, modified) && Ordered(FlatE(st, ls[0]))
      && Grouped(FlatE(st, ls[0])) && Backed(st, lv, files, ls[0])
    ensures KeepsFiles(st, st') && ls' != [] && ls'[0] == (if gone then Without(ls[0], qs[0]) else ls[0])
    ensures Safe(st, ls, cap, 0, leaf, parent) ==> Mended(st', ls', cap, root', FlatE(st, ls[0]))
    ensures !Safe(st, ls, cap, 0, leaf, parent) ==> Stranded(st', root', FlatE(st, ls[0]))
    ensures Backed(st', lv', files, ls'[0]) <==> !BorrowTears(st, lv, cap, leaf)
    ensures Traced(lv, ls[0], lv', ls'[0], LeftOf(st, leaf), !BorrowsLeft(st, cap, leaf))
  {
    ghost var h: nat := 0;
    ghost var safe, tears := Safe(st, ls, cap, 0, leaf, parent), BorrowTears(st, lv, cap, leaf);
    ghost var x, left := LeftOf(st, leaf), BorrowsLeft(st, cap, leaf);
    var verdict;
    st', lv', root', gone, verdict, ls' := RepairStep(st, lv, files, cap, root, leaf, parent, modified, ls, qs, h, hm);
    var rest, cur, par := modified, leaf, parent;
    while verdict.Again?
      invariant KeepsFiles(st, st') && ls' != [] && FlatE(st', ls'[0]) == FlatE(st, ls[0])
      invariant ls'[0] == (if gone then Without(ls[0], qs[0]) else ls[0])
      invariant (Backed(st', lv', files, ls'[0]) <==> !tears) && (tears || left ==> verdict.Done?)
      invariant Traced(lv, ls[0], lv', ls'[0], x, !left)
      invariant !safe ==> verdict.Done? && Stranded(st', root', FlatE(st, ls[0]))
      invariant safe && verdict.Done? ==> Mended(st', ls', cap, root', FlatE(st, ls[0]))
      invariant safe && verdict.Again? ==> Onward(st', ls', cap, root, root', qs, h, hm, par, rest)
      decreases |rest|
    {
      cur, par, rest := par, rest[|rest| - 1], rest[..|rest| - 1];
      h := h + 1;
      ghost var before, lv1, l1 := st', lv', ls'[0];
      LonelyIsRoot(st', ls', cap, root, qs, h, hm, cur, par, rest);
      var merged;
      st', lv', root', merged, verdict, ls' := RepairStep(st', lv', files, cap, root', cur, par, rest, ls', qs, h, hm);
      KeepsFilesTrans(st, before, st');
      TracedAny(lv1, l1, lv', ls'[0], LeftOf(before, cur), x, true);
      TracedTrans(lv, ls[0], lv1, l1, lv', ls'[0], x, true);
    }
  }

  /** After the drop in a leaf at its minimum the repair can begin. */
  lemma StartRepair(st: Store, st': Store, ls: Levels, cap: nat, root: Id, qs: seq<nat>, hm: nat, modified: seq<Id>,
      leaf: Id, parent: Id)
    requires cap >= 8 && Shape(st, ls, cap, NoHole) && OnPath(st, ls, qs, 0) && |ls| > 1 && ls[|ls| - 1] == [root]
    requires Recorded(st, ls, qs, cap / 4, 0, hm, modified) && leaf == ls[0][qs[0]] && parent == ls[1][qs[1]]
    requires ShapeBut(st', ls, cap, 0, qs[0], cap / 4 - 1)
    requires forall x :: x in st && x != leaf ==> x in st' && st'[x] == st[x]
    ensures modified != [] && Repairing(st', ls, cap, root, qs, 0, hm, leaf, parent, modified[..|modified| - 1])
  {
    AboveLeaf(st, st', ls, cap, qs[0]);
    PathFrame(st, st', ls, ls, qs, 0);
    RecordedSame(st, st', ls, ls, qs, cap / 4, 0, hm, modified);
    StackTop(ls, qs, 0, hm);
    assert modified == modified[..|modified| - 1] + [parent];
  }

  lemma DropKeepsFiles(st: Store, id: Id, k: Key)
    requires id in st && st[id].Leaf?
    ensures KeepsFiles(st, DropLeaf(st, id, k))
  {
  }

  /** Removing a group from this leaf goes wrong: the leaf is at its minimum and is merged away, and its
      parent has one other child and is not the root. */
  ghost predicate Strands(st: Store, cap: nat, root: Id, leaf: Id, parent: Id) {
    CountOf(st, leaf) == cap / 4 && WillMerge(st, cap, leaf) && |KidsOf(st, parent)| == 2 && parent != root
  }

  lemma SafeOrStrands(st: Store, s1: Store, ls: Levels, cap: nat, root: Id, leaf: Id, parent: Id, q: nat, r: nat,
      c: nat)
    requires Shape(st, ls, cap, NoHole) && |ls| > 1 && ls[|ls| - 1] == [root] && r < |ls[1]| && parent == ls[1][r]
      && q < |ls[0]| && leaf == ls[0][q]
    requires leaf in st && st[leaf].Leaf? && leaf in s1 && s1[leaf].Leaf?
    requires CountOf(st, leaf) == cap / 4 && s1 == st[leaf := st[leaf].(entries := s1[leaf].entries)]
    ensures Safe(s1, ls, cap, 0, leaf, parent) <==> !Strands(st, cap, root, leaf, parent)
  {
    Tight(st, ls, cap, 1, r);
    NeighboursApart(st, ls, cap, q);
    if |ls| > 2 { NotInLevel(ls, 1, r, |ls| - 1); }
  }

  lemma NeighboursApart(st: Store, ls: Levels, cap: nat, q: nat)
    requires Shape(st, ls, cap, NoHole) && q < |ls[0]|
    ensures ls[0][q] in st && st[ls[0][q]].left != Some(ls[0][q]) && st[ls[0][q]].right != Some(ls[0][q])
  {
    assert LevelGood(st, ls, cap, NoHole, 0);
    assert LinkedAt(st, ls[0], q);
  }

  /** The leaf is at its minimum and will borrow from the left, and that tears the left neighbour: the leaf has no
      right neighbour, and the left one is too large to be merged into. */
  ghost predicate TearsLeft(st: Store, lv: Leaves, cap: nat, leaf: Id) {
    && CountOf(st, leaf) == cap / 4 && leaf in st && st[leaf].right.None? && st[leaf].left.Some?
    && var nb := st[leaf].left.value;
      nb in lv && nb in st && Count(st[nb]) > cap / 2
      && Balance.Torn(lv[nb].tree.bs, (cap / 4 - 1 + CountOf(st, nb)) / 2 - (cap / 4 - 1))
  }

  /** The leaf is at its minimum and will borrow from the left. */
  ghost predicate LendsLeft(st: Store, cap: nat, leaf: Id) {
    && CountOf(st, leaf) == cap / 4 && leaf in st && st[leaf].right.None? && st[leaf].left.Some?
    && st[leaf].left.value in st && Count(st[st[leaf].left.value]) > cap / 2
  }

  /** Taking a group from the leaf does not change its neighbours. */
  lemma TearsAfterDrop(st: Store, s1: Store, lv: Leaves, lv1: Leaves, ls: Levels, cap: nat, q: nat, leaf: Id)
    requires Shape(st, ls, cap, NoHole) && q < |ls[0]| && leaf == ls[0][q] && |ls[0]| > 1
    requires leaf in st && st[leaf].Leaf? && leaf in s1 && s1[leaf].Leaf? && CountOf(st, leaf) == cap / 4
    requires s1 == st[leaf := st[leaf].(entries := s1[leaf].entries)] && CountOf(s1, leaf) == cap / 4 - 1
    requires leaf in lv && leaf in lv1 && lv1 == lv[leaf := lv1[leaf]]
    ensures BorrowTears(s1, lv1, cap, leaf) <==> TearsLeft(st, lv, cap, leaf)
    ensures BorrowsLeft(s1, cap, leaf) <==> LendsLeft(st, cap, leaf)
    ensures LeftOf(s1, leaf) == LeftOf(st, leaf)
  {
    assert LevelGood(st, ls, cap, NoHole, 0);
    assert LinkedAt(st, ls[0], q);
  }

  /** The group is dropped from its leaf, and the tree is repaired if that leaf was at its minimum. */
  method DropAndRepair(st: Store, lv: Leaves, files: Files, cap: nat, root: Id, leaf: Id, parent: Id, modified: seq<Id>,
      k: Key, s: State, ghost ls: Levels, ghost qs: seq<nat>, ghost hm: nat)
    returns (st': Store, lv': Leaves, root': Id, gone: bool, ghost ls': Levels)
    requires Shape(st, ls, cap, NoHole) && Ordered(FlatE(st, ls[0])) && Grouped(FlatE(st, ls[0]))
      && ls[|ls| - 1] == [root] && |ls| > 1
    requires OnPath(st, ls, qs, 0) && Covers(st, [ls[0]], 0, qs[0], k) && leaf == ls[0][qs[0]] && parent == ls[1][qs[1]]
    requires CountOf(st, leaf) == cap / 4 ==> Recorded(st, ls, qs, cap / 4, 0, hm, modified)
    requires Has(EntriesOf(st, leaf), k) && cap >= 4 && (cap >= 8 || CountOf(st, leaf) > cap / 4)
    requires Backed(st, lv, files, ls[0])
    requires LeafNode.Good(s, Drop(EntriesOf(st, leaf), k), DataOf(files, FileOf(st, leaf)))
    requires leaf in lv && LeafFile.Carried(lv[leaf], s)
    ensures KeepsFiles(st, st') && ls' != [] && ls'[0] == (if gone then Without(ls[0], qs[0]) else ls[0])
    ensures Traced(lv, ls[0], lv', ls'[0], LeftOf(st, leaf), !LendsLeft(st, cap, leaf))
    ensures !Strands(st, cap, root, leaf, parent) ==> Mended(st', ls', cap, root', Drop(FlatE(st, ls[0]), k))
    ensures Strands(st, cap, root, leaf, parent) ==> Stranded(st', root', Drop(FlatE(st, ls[0]), k))
    ensures Backed(st', lv', files, ls'[0]) <==> !TearsLeft(st, lv, cap, leaf)
  {
    Tight(st, ls, cap, 0, qs[0]);
    LevelZero(st, ls, cap);
    DropContents(st, ls[0], qs[0], k);
    DropShape(st, ls, cap, qs[0], k);
    DropKeepsFiles(st, leaf, k);
    DropOrdered(FlatE(st, ls[0]), k);
    var s1 := DropLeaf(st, leaf, k);
    var lv1 := lv[leaf := s];
    OneTraced(st, lv, files, ls[0], leaf, s, LeftOf(st, leaf));
    DropBacked(st, lv, files, ls[0], qs[0], k, s);
    if Count(st[leaf]) > cap / 4 {
      ButShape(s1, ls, cap, 0, qs[0], CountOf(st, leaf) - 1);
      st', lv', root', gone, ls' := s1, lv1, root, false, ls;
    } else {
      StartRepair(st, s1, ls, cap, root, qs, hm, modified, leaf, parent);
      SafeOrStrands(st, s1, ls, cap, root, leaf, parent, qs[0], qs[1], cap / 4);
      MoreLeaves(st, ls, cap, qs);
      TearsAfterDrop(st, s1, lv, lv1, ls, cap, qs[0], leaf);
      st', lv', root', gone, ls' := Repair(s1, lv1, files, cap, root, leaf, parent, modified[..|modified| - 1], ls, qs,
          hm);
      KeepsFilesTrans(st, s1, st');
      TracedTrans(lv, ls[0], lv1, ls[0], lv', ls'[0], LeftOf(st, leaf), !LendsLeft(st, cap, leaf));
    }
  }

  lemma OneTraced(st: Store, lv: Leaves, files: Files, l: seq<Id>, leaf: Id, s: LeafFile.State, x: Id)
    requires Backed(st, lv, files, l) && leaf in l && leaf in lv && LeafFile.Carried(lv[leaf], s)
    ensures Traced(lv, l, lv[leaf := s], l, x, true)
  {
    TracedOne(st, lv, files, l, leaf, s);
    TracedAny(lv, l, lv[leaf := s], l, leaf, x, true);
  }

  lemma MoreLeaves(st: Store, ls: Levels, cap: nat, qs: seq<nat>)
    requires Shape(st, ls, cap, NoHole) && |ls| > 1 && OnPath(st, ls, qs, 0) && cap >= 8
    ensures |ls[0]| > 1
  {
    assert LevelGood(st, ls, cap, NoHole, 1);
    AtLeastTwo(st, ls, 0, qs[1]);
    assert CountOf(st, ls[1][qs[1]]) >= 2;
  }

  lemma DropBacked(st: Store, lv: Leaves, files: Files, l: seq<Id>, q: nat, k: Key, s: State)
    requires Backed(st, lv, files, l) && q < |l| && l[q] in st && st[l[q]].Leaf?
    requires LeafNode.Good(s, Drop(EntriesOf(st, l[q]), k), DataOf(files, FileOf(st, l[q])))
    ensures l[q] in lv && Backed(DropLeaf(st, l[q], k), lv[l[q] := s], files, l)
  {
    assert BackedAt(st, lv, files, l[q]);
    DropEntries(st, l[q], k);
    OneChanged(st, DropLeaf(st, l[q], k), lv, files, l, q, s);
  }

  lemma DropEntries(st: Store, x: Id, k: Key)
    requires x in st && st[x].Leaf?
    ensures EntriesOf(DropLeaf(st, x, k), x) == Drop(EntriesOf(st, x), k)
    ensures forall z :: z != x ==> EntriesOf(DropLeaf(st, x, k), z) == EntriesOf(st, z)
    ensures forall z :: FileOf(DropLeaf(st, x, k), z) == FileOf(st, z)
  {
  }

  lemma LevelZero(st: Store, ls: Levels, cap: nat)
    requires Shape(st, ls, cap, NoHole)
    ensures LevelOk(st, ls[0], true) && NoDup(ls[0])
  {
    assert LevelGood(st, ls, cap, NoHole, 0);
  }

  /** The leaf that has the group of k, and its parent, are where a removal goes wrong. */
  ghost predicate StrandsAt(st: Store, cap: nat, root: Id, ls: Levels, k: Key) {
    |ls| > 1 && exists q: nat, r: nat :: Owns(st, ls, k, q, r) && Strands(st, cap, root, ls[0][q], ls[1][r])
  }

  /** The group of k is in leaf q, under parent r. */
  ghost predicate Owns(st: Store, ls: Levels, k: Key, q: nat, r: nat) {
    |ls| > 1 && q < |ls[0]| && Has(EntriesOf(st, ls[0][q]), k) && ChildOf(st, ls[1], r, q)
  }

  /** The leaf that has the group of k borrows from a lower leaf that this tears. */
  ghost predicate TearsLeftAt(st: Store, lv: Leaves, cap: nat, ls: Levels, k: Key) {
    |ls| > 1 && exists q :: 0 <= q < |ls[0]| && Has(EntriesOf(st, ls[0][q]), k) && TearsLeft(st, lv, cap, ls[0][q])
  }

  /** The leaf that has the group of k borrows from the left. */
  ghost predicate LendsLeftAt(st: Store, cap: nat, ls: Levels, k: Key) {
    |ls| > 1 && exists q :: 0 <= q < |ls[0]| && Has(EntriesOf(st, ls[0][q]), k) && LendsLeft(st, cap, ls[0][q])
  }

  /** btree_t::remove_index below an inner root. A fault is a block that is used without being in memory. */
  method RemoveDeep(st: Store, lv: Leaves, files: Files, cap: nat, root: Id, k: Key, ghost ls: Levels)
    returns (fault: bool, ok: bool, st': Store, lv': Leaves, root': Id, removed: nat, gone: Option<nat>,
        ghost ls': Levels, ghost q: nat, ghost x: Id)
    requires Shape(st, ls, cap, NoHole) && Ordered(FlatE(st, ls[0])) && Grouped(FlatE(st, ls[0]))
      && ls[|ls| - 1] == [root] && |ls| > 1
    requires cap >= 4 && (cap >= 8 || !Starves(st, cap, ls, k)) && Backed(st, lv, files, ls[0])
    ensures Covers(st, [ls[0]], 0, q, k) && ls[0][q] in lv && (fault <==> SegmentQuery.Faults(lv[ls[0][q]], k))
    ensures fault ==> st' == st && root' == root && gone.None? && ls' == ls && Backed(st, lv', files, ls[0])
    ensures !fault ==> ok == Has(FlatE(st, ls[0]), k) && removed == |Group(FlatE(st, ls[0]), k)|
    ensures KeepsFiles(st, st') && q < |ls[0]| && ls' != []
      && ls'[0] == (if gone.Some? then Without(ls[0], q) else ls[0])
    ensures gone.Some? ==> ls[0][q] in st && st[ls[0][q]].Leaf? && gone.value == st[ls[0][q]].file
    ensures !fault && !StrandsAt(st, cap, root, ls, k) ==> Mended(st', ls', cap, root', Drop(FlatE(st, ls[0]), k))
    ensures !fault && StrandsAt(st, cap, root, ls, k) ==> Stranded(st', root', Drop(FlatE(st, ls[0]), k))
    ensures !fault ==> (Backed(st', lv', files, ls'[0]) <==> !TearsLeftAt(st, lv, cap, ls, k))
    ensures Traced(lv, ls[0], lv', ls'[0], x, !LendsLeftAt(st, cap, ls, k))
  {
    ShapeTower(st, ls, cap);
    var leaf, parent, modified;
    ghost var qs, hm;
    leaf, parent, modified, qs, hm := DescendRemove(st, cap, root, k, ls);
    q := qs[0];
    LookupLocal(st, ls, q, k);
    CoversAlone(st, ls, q, k);
    Tight(st, ls, cap, 0, q);
    var s;
    fault, ok, removed, s := TakeGroup(st, lv, files, cap, leaf, k, ls, q);
    st', lv', root', gone, ls' := st, lv, root, None, ls;
    StrandsHere(st, cap, root, ls, k, qs);
    TearsHere(st, lv, cap, ls, k, q);
    LendsHere(st, cap, ls, k, q);
    x := LeftOf(st, leaf);
    TracedSelf(st, lv, files, ls[0], x);
    if fault { return; }
    if ok {
      var merged;
      st', lv', root', merged, ls' := DropAndRepair(st, lv, files, cap, root, leaf, parent, modified, k, s, ls, qs, hm);
      gone := if merged then Some(st[leaf].file) else None;
    } else {
      lv' := lv[leaf := s];
      StillBacked(st, lv, files, ls[0], q, s);
      OneTraced(st, lv, files, ls[0], leaf, s, x);
    }
  }

  /** The part of it that is about the leaf. */
  method TakeGroup(st: Store, lv: Leaves, files: Files, cap: nat, leaf: Id, k: Key, ghost ls: Levels, ghost q: nat)
    returns (fault: bool, ok: bool, n: nat, s: State)
    requires |ls| > 0 && q < |ls[0]| && leaf == ls[0][q] && Backed(st, lv, files, ls[0])
    ensures leaf in lv && (fault <==> SegmentQuery.Faults(lv[leaf], k))
    ensures !fault ==> ok == Has(EntriesOf(st, leaf), k) && n == |Group(EntriesOf(st, leaf), k)|
    ensures !fault ==> LeafNode.Good(s, Drop(EntriesOf(st, leaf), k), DataOf(files, FileOf(st, leaf)))
    ensures !fault && !ok ==> LeafNode.Good(s, EntriesOf(st, leaf), DataOf(files, FileOf(st, leaf)))
    ensures LeafFile.Carried(lv[leaf], s)
  {
    assert BackedAt(st, lv, files, ls[0][q]);
    fault, ok, n, s := LeafQuery.RemoveGroup(lv[leaf], k, EntriesOf(st, leaf), DataOf(files, FileOf(st, leaf)));
  }

  /** The leaf that has the group of k would be left empty. */
  ghost predicate Starves(st: Store, cap: nat, ls: Levels, k: Key) {
    |ls| > 1 && exists q :: 0 <= q < |ls[0]| && Has(EntriesOf(st, ls[0][q]), k) && CountOf(st, ls[0][q]) <= cap / 4
  }

  /** Only the leaf the descent reaches can have the group. */
  lemma OnlyThere(st: Store, ls: Levels, k: Key, q: nat, p: nat)
    requires Tower(st, ls) && Ordered(FlatE(st, ls[0])) && Covers(st, ls, 0, q, k) && p < |ls[0]|
      && Has(EntriesOf(st, ls[0][p]), k)
    ensures p == q
  {
    CoversSeparates(st, ls, q, k);
    if p < q { Listed(st, ls[0][..q], p, k); }
    if q < p { Listed(st, ls[0][q + 1..], p - q - 1, k); }
  }

  lemma Listed(st: Store, l: seq<Id>, p: nat, k: Key)
    requires p < |l| && Has(EntriesOf(st, l[p]), k)
    ensures !AllBelow(FlatE(st, l), k) && !AllAbove(k, FlatE(st, l))
  {
    var es := EntriesOf(st, l[p]);
    FlatEAt(st, l, p);
    var i := |FlatE(st, l[..p])| + Rank(es, k);
    assert FlatE(st, l)[i] == es[Rank(es, k)];
  }

  lemma StrandsHere(st: Store, cap: nat, root: Id, ls: Levels, k: Key, qs: seq<nat>)
    requires Tower(st, ls) && Ordered(FlatE(st, ls[0])) && |ls| > 1 && OnPath(st, ls, qs, 0)
      && Covers(st, ls, 0, qs[0], k)
    ensures StrandsAt(st, cap, root, ls, k) <==>
      Has(EntriesOf(st, ls[0][qs[0]]), k) && Strands(st, cap, root, ls[0][qs[0]], ls[1][qs[1]])
  {
    assert ChildOf(st, ls[1], qs[1], qs[0]);
    if StrandsAt(st, cap, root, ls, k) {
      var q: nat, r: nat :| Owns(st, ls, k, q, r) && Strands(st, cap, root, ls[0][q], ls[1][r]);
      OnlyThere(st, ls, k, qs[0], q);
      OneParent(st, ls[1], r, qs[1], q);
    }
  }

  lemma TearsHere(st: Store, lv: Leaves, cap: nat, ls: Levels, k: Key, q: nat)
    requires Tower(st, ls) && Ordered(FlatE(st, ls[0])) && |ls| > 1 && Covers(st, ls, 0, q, k)
    ensures TearsLeftAt(st, lv, cap, ls, k) <==> Has(EntriesOf(st, ls[0][q]), k) && TearsLeft(st, lv, cap, ls[0][q])
  {
    if TearsLeftAt(st, lv, cap, ls, k) {
      var p :| 0 <= p < |ls[0]| && Has(EntriesOf(st, ls[0][p]), k) && TearsLeft(st, lv, cap, ls[0][p]);
      OnlyThere(st, ls, k, q, p);
    }
  }

  lemma LendsHere(st: Store, cap: nat, ls: Levels, k: Key, q: nat)
    requires Tower(st, ls) && Ordered(FlatE(st, ls[0])) && |ls| > 1 && Covers(st, ls, 0, q, k)
    ensures LendsLeftAt(st, cap, ls, k) <==> Has(EntriesOf(st, ls[0][q]), k) && LendsLeft(st, cap, ls[0][q])
  {
    if LendsLeftAt(st, cap, ls, k) {
      var p :| 0 <= p < |ls[0]| && Has(EntriesOf(st, ls[0][p]), k) && LendsLeft(st, cap, ls[0][p]);
      OnlyThere(st, ls, k, q, p);
    }
  }

  lemma OneParent(st: Store, up: seq<Id>, r: nat, s: nat, q: nat)
    requires ChildOf(st, up, r, q) && ChildOf(st, up, s, q)
    ensures r == s
  {
    if r < s { StartsGrow(st, up, r, s); }
    if s < r { StartsGrow(st, up, s, r); }
  }

  /** The children of a node come before those of the nodes after it. */
  lemma StartsGrow(st: Store, up: seq<Id>, r: nat, s: nat)
    requires r < s < |up|
    ensures |Flat(st, up[..r])| + |KidsOf(st, up[r])| <= |Flat(st, up[..s])|
  {
    assert up[..s][..r] == up[..r] && up[..s][r] == up[r];
    KidsAt(st, up[..s], r);
  }

  /** From capacity 12 on it never goes wrong. */
  lemma NeverStrands(st: Store, cap: nat, root: Id, ls: Levels, k: Key)
    requires Shape(st, ls, cap, NoHole) && ls[|ls| - 1] == [root] && cap >= 12
    ensures !StrandsAt(st, cap, root, ls, k)
  {
    if StrandsAt(st, cap, root, ls, k) {
      var q: nat, r: nat :| Owns(st, ls, k, q, r) && Strands(st, cap, root, ls[0][q], ls[1][r]);
      Tight(st, ls, cap, 1, r);
    }
  }
}
