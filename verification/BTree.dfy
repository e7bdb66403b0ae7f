/** btree_t: the ordered index over segment files. */
module BTree {
  import opened Wrappers
  import opened Multimap
  import opened NodeStore
  import opened TreeSearch
  import opened TreeLeaves
  import Scan
  import LeafGrow
  import SegmentFile
  import LeafNode = Leaf
  import LeafFile
  import LeafQuery
  import LeafBuild
  import SegmentQuery
  import opened TreeAppend
  import opened TreeRemove

  /** Every live leaf has a segment file of its own, and the files given up by removed leaves are
      remembered: live and given-up numbers never clash and stay below their count. */
  ghost predicate FilesOk(st: Store, l: seq<Id>, missed: seq<nat>) {
    && (forall i :: 0 <= i < |l| ==> FileOf(st, l[i]) < |l| + |missed| && FileOf(st, l[i]) !in missed)
    && (forall i, j :: 0 <= i < j < |l| ==> FileOf(st, l[i]) != FileOf(st, l[j]))
    && (forall i :: 0 <= i < |missed| ==> missed[i] < |l| + |missed|)
    && (forall i, j :: 0 <= i < j < |missed| ==> missed[i] != missed[j])
  }

  /** btree_t::get_unique_id_. */
  function UniqueFile(leafCount: nat, missed: seq<nat>): nat {
    if missed == [] then leafCount else missed[0]
  }

  function MissedAfter(missed: seq<nat>): seq<nat> {
    if missed == [] then [] else missed[1..]
  }

  /** The number it hands out is not the number of any live leaf. */
  lemma UniqueFileFresh(st: Store, l: seq<Id>, missed: seq<nat>, i: nat)
    requires FilesOk(st, l, missed) && i < |l|
    ensures FileOf(st, l[i]) != UniqueFile(|l|, missed)
  {
    if missed != [] { assert missed[0] in missed; }
  }

  /** Adding a leaf under the number handed out keeps the numbers apart. */
  lemma FilesAdd(st: Store, st': Store, l: seq<Id>, missed: seq<nat>, i: nat, y: Id)
    requires FilesOk(st, l, missed) && i <= |l| && FileOf(st', y) == UniqueFile(|l|, missed)
    requires forall j :: 0 <= j < |l| ==> FileOf(st', l[j]) == FileOf(st, l[j])
    ensures FilesOk(st', Insert(l, i, y), MissedAfter(missed))
  {
    var l', m' := Insert(l, i, y), MissedAfter(missed);
    forall j | 0 <= j < |missed| && missed != [] ensures missed[j] in missed && missed[0] in missed {}
    forall j | 0 <= j < |l'| ensures FileOf(st', l'[j]) < |l'| + |m'| && FileOf(st', l'[j]) !in m' {
      if j != i { assert l'[j] == l[if j < i then j else j - 1]; }
    }
    forall a, b | 0 <= a < b < |l'| ensures FileOf(st', l'[a]) != FileOf(st', l'[b]) {
      if a != i { assert l'[a] == l[if a < i then a else a - 1]; UniqueFileFresh(st, l, missed,
          if a < i then a else a - 1); }
      if b != i { assert l'[b] == l[if b < i then b else b - 1]; UniqueFileFresh(st, l, missed,
          if b < i then b else b - 1); }
    }
  }

  lemma FilesSame(st: Store, st': Store, l: seq<Id>, missed: seq<nat>)
    requires FilesOk(st, l, missed) && forall j :: 0 <= j < |l| ==> FileOf(st', l[j]) == FileOf(st, l[j])
    ensures FilesOk(st', l, missed)
  {
  }

  lemma FilesDrop(st: Store, st': Store, l: seq<Id>, missed: seq<nat>, q: nat)
    requires FilesOk(st, l, missed) && q < |l|
    requires forall j :: 0 <= j < |l| && j != q ==> FileOf(st', l[j]) == FileOf(st, l[j])
    ensures FilesOk(st', Without(l, q), missed + [FileOf(st, l[q])])
  {
    var l', m' := Without(l, q), missed + [FileOf(st, l[q])];
    forall j | 0 <= j < |l'| ensures FileOf(st', l'[j]) < |l'| + |m'| && FileOf(st', l'[j]) !in m' {
      assert l'[j] == l[if j < q then j else j + 1];
    }
    forall a, b | 0 <= a < b < |l'| ensures FileOf(st', l'[a]) != FileOf(st', l'[b]) {
      assert l'[a] == l[if a < q then a else a + 1] && l'[b] == l[if b < q then b else b + 1];
    }
  }

  /** A complete, ordered tree under `root`. */
  ghost predicate GoodTree(st: Store, ls: Levels, cap: nat, root: Id) {
    && Shape(st, ls, cap, NoHole) && ls[|ls| - 1] == [root]
    && Ordered(FlatE(st, ls[0])) && Grouped(FlatE(st, ls[0]))
  }

  lemma LeafTree(st: Store, root: Id, cap: nat)
    requires cap >= 4 && root in st && st[root].Leaf? && 0 < |st[root].entries| <= cap
    requires st[root].left == None && st[root].right == None
    ensures Shape(st, [[root]], cap, NoHole) && FlatE(st, [root]) == st[root].entries
  {
    FlatOne(st, root);
    assert LinkedAt(st, [root], 0);
    assert LevelGood(st, [[root]], cap, NoHole, 0);
  }

  /** In a tree whose root is a leaf there is nothing but that leaf. */
  lemma LeafRoot(st: Store, ls: Levels, cap: nat, root: Id)
    requires GoodTree(st, ls, cap, root) && root in st && st[root].Leaf?
    ensures ls == [[root]] && FlatE(st, ls[0]) == st[root].entries
    ensures st[root].left == None && st[root].right == None && 0 < |st[root].entries| <= cap
  {
    FlatOne(st, root);
    assert LevelGood(st, ls, cap, NoHole, |ls| - 1);
    assert LinkedAt(st, [root], 0) && [root][0] == root;
  }

  lemma RootIn(st: Store, ls: Levels, cap: nat, root: Id)
    requires GoodTree(st, ls, cap, root)
    ensures root in st && (st[root].Inner? <==> |ls| > 1)
  {
    assert LevelGood(st, ls, cap, NoHole, |ls| - 1);
    assert ls[|ls| - 1][0] == root;
  }

  /** The leaf level of a possibly empty tree, and what it holds. */
  ghost function LeafIds(root: Option<Id>, ls: Levels): seq<Id> {
    if root.None? || ls == [] then [] else ls[0]
  }

  /** What a possibly empty tree holds. */
  ghost function Held(st: Store, root: Option<Id>, ls: Levels): seq<Entry> {
    FlatE(st, LeafIds(root, ls))
  }

  /** The invariant of btree_t, on the values of its fields. */
  ghost predicate Consistent(cap: nat, st: Store, root: Option<Id>, next: Id, items: nat, leaves: nat,
      missed: seq<nat>, ls: Levels) {
    && cap >= 4 && FreshFrom(st, next)
    && items == Total(FlatE(st, LeafIds(root, ls))) && leaves == |LeafIds(root, ls)|
    && FilesOk(st, LeafIds(root, ls), missed)
    && (root.Some? ==> GoodTree(st, ls, cap, root.value))
  }

  lemma FirstLeaf(cap: nat, st: Store, next: Id, items: nat, leaves: nat, missed: seq<nat>, ls: Levels, k: Key,
      item: Item, st': Store)
    requires Consistent(cap, st, None, next, items, leaves, missed, ls)
    requires st' == st[next := Leaf([Entry(k, [item])], UniqueFile(leaves, missed), None, None)]
    ensures Consistent(cap, st', Some(next), next + 1, items + 1, leaves + 1, MissedAfter(missed), [[next]])
    ensures FlatE(st', [next]) == [Entry(k, [item])]
  {
    LeafTree(st', next, cap);
    FilesAdd(st, st', [], missed, 0, next);
    assert Insert([], 0, next) == [next];
    var c := [Entry(k, [item])];
    assert c[1..] == [];
  }

  lemma FilesStay(st: Store, st': Store, l: seq<Id>, missed: seq<nat>)
    requires FilesOk(st, l, missed) && LeavesStay(st, st') && forall i :: 0 <= i < |l| ==> l[i] in st && st[l[i]].Leaf?
    ensures FilesOk(st', l, missed)
  {
    FilesSame(st, st', l, missed);
  }

  lemma FilesGrow(st: Store, st': Store, l: seq<Id>, missed: seq<nat>, q: nat, y: Id)
    requires FilesOk(st, l, missed) && LeavesStay(st, st')
      && (forall i :: 0 <= i < |l| ==> l[i] in st && st[l[i]].Leaf?)
    requires q < |l| && y in st' && st'[y].Leaf? && st'[y].file == UniqueFile(|l|, missed)
    ensures FilesOk(st', Insert(l, q + 1, y), MissedAfter(missed))
  {
    FilesAdd(st, st', l, missed, q + 1, y);
  }

  /** What an append makes of the tree: one more item if it is stored, and one more leaf if it split. */
  lemma GrownConsistent(cap: nat, st: Store, root: Id, next: Id, items: nat, leaves: nat, missed: seq<nat>, ls: Levels,
                  st': Store, root': Id, next': Id, ls': Levels, q: nat, k: Key, item: Item, out: Outcome, split: bool)
    requires cap >= 4 && GoodTree(st, ls, cap, root) && FilesOk(st, ls[0], missed)
    requires items == Total(FlatE(st, ls[0])) && leaves == |ls[0]|
    requires Shape(st', ls', cap, NoHole) && ls'[|ls'| - 1] == [root'] && FreshFrom(st', next') && LeavesStay(st, st')
    requires q < |ls[0]| && ls'[0] == (if split then Insert(ls[0], q + 1, next) else ls[0])
    requires split ==> next in st' && st'[next].Leaf? && st'[next].file == UniqueFile(leaves, missed)
    requires Grown(FlatE(st, ls[0]), FlatE(st', ls'[0]), k, item, out)
    ensures Consistent(cap, st', Some(root'), next', if out.Stored? then items + 1 else items,
      if split then leaves + 1 else leaves,
                       if split then MissedAfter(missed) else missed, ls')
  {
    GrownFiles(cap, st, root, next, missed, ls, st', ls', q, split);
    GrownGood(st, ls, cap, root, st', ls', root', k, item, out);
    Assemble(cap, st', root', next', if out.Stored? then items + 1 else items, if split then leaves + 1 else leaves,
             if split then MissedAfter(missed) else missed, ls');
  }

  lemma GrownFiles(cap: nat, st: Store, root: Id, next: Id, missed: seq<nat>, ls: Levels, st': Store, ls': Levels,
      q: nat, split: bool)
    requires GoodTree(st, ls, cap, root) && FilesOk(st, ls[0], missed) && LeavesStay(st, st') && |ls'| > 0
    requires q < |ls[0]| && ls'[0] == (if split then Insert(ls[0], q + 1, next) else ls[0])
    requires split ==> next in st' && st'[next].Leaf? && st'[next].file == UniqueFile(|ls[0]|, missed)
    ensures FilesOk(st', ls'[0], if split then MissedAfter(missed) else missed)
      && |ls'[0]| == if split then |ls[0]| + 1 else |ls[0]|
  {
    LeafLevel(st, ls, cap, NoHole);
    if split { FilesGrow(st, st', ls[0], missed, q, next); } else { FilesStay(st, st', ls[0], missed); }
  }

  lemma GrownGood(st: Store, ls: Levels, cap: nat, root: Id, st': Store, ls': Levels, root': Id, k: Key, item: Item,
      out: Outcome)
    requires GoodTree(st, ls, cap, root) && Shape(st', ls', cap, NoHole) && ls'[|ls'| - 1] == [root']
    requires Grown(FlatE(st, ls[0]), FlatE(st', ls'[0]), k, item, out)
    ensures GoodTree(st', ls', cap, root')
      && Total(FlatE(st', ls'[0])) == Total(FlatE(st, ls[0])) + if out.Stored? then 1 else 0
  {
    GrownOrdered(FlatE(st, ls[0]), FlatE(st', ls'[0]), k, item, out);
  }

  /** The counter goes up whenever success is reported. */
  function Counted(items: nat, out: Outcome): nat { if out.Refused? then items else items + 1 }

  /** So it is off after a drop. */
  lemma CountOff(cap: nat, st: Store, root: Id, next: Id, items: nat, leaves: nat, missed: seq<nat>, ls: Levels,
      out: Outcome)
    requires Consistent(cap, st, Some(root), next, if out.Stored? then items + 1 else items, leaves, missed, ls)
    ensures Consistent(cap, st, Some(root), next, Counted(items, out), leaves, missed, ls) <==> !out.Dropped?
  {
  }

  /** Both together: in order exactly if nothing was dropped. */
  lemma GrownEnds(cap: nat, st: Store, root: Id, next: Id, items: nat, leaves: nat, missed: seq<nat>, ls: Levels,
      st': Store, root': Id, next': Id, ls': Levels, q: nat, k: Key, item: Item, out: Outcome, split: bool)
    requires cap >= 4 && GoodTree(st, ls, cap, root) && FilesOk(st, ls[0], missed)
    requires items == Total(FlatE(st, ls[0])) && leaves == |ls[0]|
    requires Shape(st', ls', cap, NoHole) && ls'[|ls'| - 1] == [root'] && FreshFrom(st', next') && LeavesStay(st, st')
    requires q < |ls[0]| && ls'[0] == (if split then Insert(ls[0], q + 1, next) else ls[0])
    requires split ==> next in st' && st'[next].Leaf? && st'[next].file == UniqueFile(leaves, missed)
    requires Grown(FlatE(st, ls[0]), FlatE(st', ls'[0]), k, item, out)
    ensures EndsIf(cap, st', root', next', Counted(items, out), if split then leaves + 1 else leaves,
      if split then MissedAfter(missed) else missed, ls', !out.Dropped?)
  {
    GrownConsistent(cap, st, root, next, items, leaves, missed, ls, st', root', next', ls', q, k, item, out, split);
    CountOff(cap, st', root', next', items, if split then leaves + 1 else leaves,
        if split then MissedAfter(missed) else missed, ls', out);
  }

  /** The tree is in order exactly if `fine`. */
  ghost predicate EndsIf(cap: nat, st: Store, root: Id, next: Id, items: nat, leaves: nat, missed: seq<nat>, ls: Levels,
      fine: bool) {
    Consistent(cap, st, Some(root), next, items, leaves, missed, ls) <==> fine
  }

  lemma InsertedItems(g: seq<Item>, at: nat, item: Item)
    requires at <= |g|
    ensures multiset(InsertAt(g, at, item)) == multiset(g) + multiset{item}
  {
    assert g == g[..at] + g[at..];
  }

  /** The group of every other index is untouched, and that of k gains exactly the item if it is stored. */
  lemma GrownGroups(c: seq<Entry>, c': seq<Entry>, k: Key, item: Item, out: Outcome, q: Key)
    requires Ordered(c) && Grown(c, c', k, item, out)
    ensures q != k ==> Group(c', q) == Group(c, q)
    ensures out.Stored? ==> item !in Group(c, k) && multiset(Group(c', k)) == multiset(Group(c, k)) + multiset{item}
    ensures !out.Stored? ==> c' == c && (out.Refused? <==> item in Group(c, k))
  {
    if out.Stored? {
      var at: nat :| at <= |Group(c, k)| && c' == Put(c, k, InsertAt(Group(c, k), at, item));
      var g := Group(c, k);
      GroupOfPut(c, k, InsertAt(g, at, item), q);
      GroupOfPut(c, k, InsertAt(g, at, item), k);
      InsertedItems(g, at, item);
    }
  }

  /** The item was put in front of position m as a second group of the index that starts there. */
  ghost predicate GroupCut(c: seq<Entry>, c': seq<Entry>, m: nat, k: Key, item: Item) {
    m < |c| && c[m].key == k && c' == c[..m] + [Entry(k, [item])] + c[m..]
  }

  /** What an append makes of the contents; `cuts` tells that a full root leaf is split at the index. */
  ghost predicate Appended(c: seq<Entry>, c': seq<Entry>, cap: nat, k: Key, item: Item, out: Outcome, cuts: bool) {
    if !cuts then Grown(c, c', k, item, out)
    else !out.Refused? && (if out.Stored? then GroupCut(c, c', cap - cap / 2, k, item) else c' == c)
  }

  lemma SecondLeaf(r: Id, next: Id)
    ensures Insert([r], 1, next) == [r, next]
  {
  }

  lemma {:induction false} SinglesTotal(c: seq<Entry>)
    requires forall i :: 0 <= i < |c| ==> |c[i].items| == 1
    ensures Total(c) == |c|
  {
    if c != [] { SinglesTotal(c[1..]); }
  }

  /** A full root leaf in order, for every capacity, and the index that cuts it. */
  method CutHappens(cap: nat, item: Item) returns (st: Store, lv: Leaves, k: Key)
    requires cap >= 4 && |item| > 0
    ensures Consistent(cap, st, Some(0), 1, cap, 1, [], [[0]]) && Backed(st, lv, map[], [0])
    ensures CutsGroup(st, cap, 0, k)
  {
    var c := seq(cap, i => Entry(i, [item]));
    var s := LeafBuild.BuildServing(c);
    st, lv, k := map[0 := Leaf(c, 0, None, None)], map[0 := s], cap - cap / 2;
    FullLeafTree(cap, c, st);
    LeafBuild.ServesAt(st, lv, 0, s, c);
  }

  lemma FullLeafTree(cap: nat, c: seq<Entry>, st: Store)
    requires cap >= 4 && |c| == cap && (forall i :: 0 <= i < cap ==> c[i].key == i && |c[i].items| == 1)
    requires st == map[0 := Leaf(c, 0, None, None)]
    ensures Consistent(cap, st, Some(0), 1, cap, 1, [], [[0]]) && CutsGroup(st, cap, 0, cap - cap / 2)
  {
    LeafTree(st, 0, cap);
    SinglesTotal(c);
  }

  /** Contents that are out of order, or a counter that is off, belong to no valid tree. */
  lemma OutOfOrder(cap: nat, st: Store, root: Id, next: Id, items: nat, leaves: nat, missed: seq<nat>, ls: Levels)
    requires ls != [] && (!Ordered(FlatE(st, ls[0])) || items != Total(FlatE(st, ls[0])))
    ensures !Consistent(cap, st, Some(root), next, items, leaves, missed, ls)
  {
  }

  /** What the split of a full root leaf makes of the tree. */
  lemma RootGrownEnds(cap: nat, st: Store, r: Id, next: Id, items: nat, leaves: nat, missed: seq<nat>, k: Key,
      item: Item, ls: Levels, out: Outcome, st': Store, ls': Levels)
    requires Consistent(cap, st, Some(r), next, items, leaves, missed, ls) && r in st && st[r].Leaf?
      && |st[r].entries| == cap && ls' == RootLevels(r, next)
    requires FreshFrom(st', next + 2) && LeavesStay(st, st') && next in st' && st'[next].Leaf?
      && st'[next].file == UniqueFile(leaves, missed)
    requires !CutsGroup(st, cap, r, k) ==> Shape(st', ls', cap, NoHole)
    requires RootGrown(st, FlatE(st', [r, next]), cap, r, k, item, out)
    ensures EndsIf(cap, st', next + 1, next + 2, Counted(items, out), leaves + 1, MissedAfter(missed), ls',
      !CutsGroup(st, cap, r, k) && !out.Dropped?)
    ensures Appended(Held(st, Some(r), ls), Held(st', Some(next + 1), ls'), cap, k, item, out, CutsGroup(st, cap, r, k))
  {
    LeafRoot(st, ls, cap, r);
    if CutsGroup(st, cap, r, k) {
      RootSplitCut(cap, st, r, ls, st', ls', k, item, out);
      OutOfOrder(cap, st', next + 1, next + 2, Counted(items, out), leaves + 1, MissedAfter(missed), ls');
    } else {
      RootGrownWhole(cap, st, r, next, items, leaves, missed, k, item, ls, out, st', ls');
    }
  }

  /** Two halves under a new root. */
  function RootLevels(r: Id, next: Id): (ls: Levels)
    ensures |ls| == 2 && ls[0] == [r, next] && ls[1] == [next + 1]
  {
    [[r, next], [next + 1]]
  }

  lemma RootGrownWhole(cap: nat, st: Store, r: Id, next: Id, items: nat, leaves: nat, missed: seq<nat>, k: Key,
      item: Item, ls: Levels, out: Outcome, st': Store, ls': Levels)
    requires cap >= 4 && GoodTree(st, ls, cap, r) && FilesOk(st, ls[0], missed) && items == Total(FlatE(st, ls[0]))
      && leaves == 1 && ls == [[r]] && ls' == RootLevels(r, next)
    requires FreshFrom(st', next + 2) && LeavesStay(st, st') && next in st' && st'[next].Leaf?
      && st'[next].file == UniqueFile(leaves, missed) && Shape(st', ls', cap, NoHole)
    requires Grown(FlatE(st, [r]), FlatE(st', [r, next]), k, item, out)
    ensures EndsIf(cap, st', next + 1, next + 2, Counted(items, out), leaves + 1, MissedAfter(missed), ls',
      !out.Dropped?)
  {
    SecondLeaf(r, next);
    GrownEnds(cap, st, r, next, items, leaves, missed, ls, st', next + 1, next + 2, ls', 0, k, item, out, true);
  }

  lemma RootSplitCut(cap: nat, st: Store, r: Id, ls: Levels, st': Store, ls': Levels, k: Key, item: Item, out: Outcome)
    requires ls == [[r]] && r in st && st[r].Leaf? && FlatE(st, [r]) == st[r].entries && Ordered(st[r].entries)
      && |ls'| > 0
    requires CutsGroup(st, cap, r, k) && RootGrown(st, FlatE(st', ls'[0]), cap, r, k, item, out)
    ensures out.Stored? ==> !Ordered(FlatE(st', ls'[0]))
    ensures Appended(FlatE(st, ls[0]), FlatE(st', ls'[0]), cap, k, item, out, true)
  {
    CutContents(st[r].entries, cap - cap / 2, k, item);
  }

  method GrowDeep(cap: nat, st: Store, lv: Leaves, files: Files, root: Id, next: Id, items: nat, leaves: nat,
      missed: seq<nat>, k: Key, item: Item, ghost ls: Levels)
    returns (ok: bool, out: Outcome, st': Store, lv': Leaves, root': Id, next': Id, items': nat, leaves': nat,
        missed': seq<nat>, ghost ls': Levels, ghost q: nat, leaf: Id)
    requires Consistent(cap, st, Some(root), next, items, leaves, missed, ls) && |ls| > 1
    requires Backed(st, lv, files, ls[0]) && |item| > 0
    ensures EndsIf(cap, st', root', next', items', leaves', missed', ls', !out.Dropped?)
    ensures Grown(Held(st, Some(root), ls), Held(st', Some(root'), ls'), k, item, out) && items' == Counted(items, out)
    ensures Covers(st, [ls[0]], 0, q, k) && ls[0][q] == leaf
    ensures LeavesEnd(lv, files, ls[0], leaf, cap, k, item, false, CountOf(st, leaf) < cap, st', lv',
      LeafIds(Some(root'), ls'), ok, out)
    ensures LeavesStay(st, st')
  {
    var split;
    ok, out, st', lv', root', next', split, ls', q, leaf := AppendDeep(st, lv, files, cap, root, k, item, next,
        UniqueFile(leaves, missed), ls);
    GrownEnds(cap, st, root, next, items, leaves, missed, ls, st', root', next', ls', q, k, item, out, split);
    items' := Counted(items, out);
    leaves', missed' := if split then leaves + 1 else leaves, if split then MissedAfter(missed) else missed;
  }

  lemma FirstGrown(k: Key, item: Item)
    ensures Grown([], [Entry(k, [item])], k, item, Stored)
  {
    var c: seq<Entry> := [];
    assert InsertAt([], 0, item) == [item];
    assert Put(c, k, InsertAt(Group(c, k), 0, item)) == [Entry(k, [item])];
  }

  lemma FilesShrink(st: Store, st': Store, l: seq<Id>, l': seq<Id>, missed: seq<nat>, q: nat)
    requires FilesOk(st, l, missed) && KeepsFiles(st, st') && q < |l| && l' == Without(l, q)
    requires forall i :: 0 <= i < |l'| ==> l'[i] in st' && st'[l'[i]].Leaf?
    ensures FilesOk(st', l', missed + [FileOf(st, l[q])])
  {
    forall j | 0 <= j < |l| && j != q ensures FileOf(st', l[j]) == FileOf(st, l[j]) {
      assert l[j] == l'[if j < q then j else j - 1];
    }
    FilesDrop(st, st', l, missed, q);
  }

  lemma FilesAfterRemoval(st: Store, st': Store, l: seq<Id>, l': seq<Id>, missed: seq<nat>, q: nat, gone: Option<nat>)
    requires FilesOk(st, l, missed) && KeepsFiles(st, st') && q < |l| && l' == (if gone.Some? then Without(l, q) else l)
    requires forall i :: 0 <= i < |l'| ==> l'[i] in st' && st'[l'[i]].Leaf?
    requires gone.Some? ==> gone.value == FileOf(st, l[q])
    ensures FilesOk(st', l', if gone.Some? then missed + [gone.value] else missed)
    ensures |l'| == if gone.Some? then |l| - 1 else |l|
  {
    if gone.Some? { FilesShrink(st, st', l, l', missed, q); }
    else { FilesSame(st, st', l, missed); }
  }

  lemma FreshStays(st: Store, st': Store, next: Id)
    requires FreshFrom(st, next) && KeepsFiles(st, st')
    ensures FreshFrom(st', next)
  {
  }

  lemma MendedGood(st: Store, ls: Levels, cap: nat, root: Id, c: seq<Entry>, k: Key)
    requires Ordered(c) && Grouped(c) && Mended(st, ls, cap, root, Drop(c, k))
    ensures GoodTree(st, ls, cap, root) && Total(FlatE(st, ls[0])) == Total(c) - |Group(c, k)|
    ensures forall i :: 0 <= i < |ls[0]| ==> ls[0][i] in st && st[ls[0][i]].Leaf?
  {
    DropOrdered(c, k);
    DropTotal(c, k);
    LeafLevel(st, ls, cap, NoHole);
  }

  /** What remove_index makes of the tree: the group is gone, and a leaf with it if one merged. */
  lemma ShrunkConsistent(cap: nat, st: Store, root: Id, next: Id, items: nat, leaves: nat, missed: seq<nat>, ls: Levels,
                         st': Store, root': Id, ls': Levels, q: nat, k: Key, removed: nat, gone: Option<nat>)
    requires Consistent(cap, st, Some(root), next, items, leaves, missed, ls) && removed == |Group(FlatE(st, ls[0]), k)|
    requires Mended(st', ls', cap, root', Drop(FlatE(st, ls[0]), k)) && KeepsFiles(st, st') && q < |ls[0]|
    requires ls'[0] == (if gone.Some? then Without(ls[0], q) else ls[0])
    requires gone.Some? ==> ls[0][q] in st && st[ls[0][q]].Leaf? && gone.value == st[ls[0][q]].file
    ensures removed <= items && (gone.Some? ==> leaves > 0)
    ensures Consistent(cap, st', Some(root'), next, items - removed, if gone.Some? then leaves - 1 else leaves,
                       if gone.Some? then missed + [gone.value] else missed, ls')
  {
    MendedGood(st', ls', cap, root', FlatE(st, ls[0]), k);
    FreshStays(st, st', next);
    FilesAfterRemoval(st, st', ls[0], ls'[0], missed, q, gone);
    Assemble(cap, st', root', next, items - removed, if gone.Some? then leaves - 1 else leaves,
             if gone.Some? then missed + [gone.value] else missed, ls');
  }

  lemma Assemble(cap: nat, st: Store, root: Id, next: Id, items: nat, leaves: nat, missed: seq<nat>, ls: Levels)
    requires cap >= 4 && FreshFrom(st, next) && GoodTree(st, ls, cap, root) && FilesOk(st, ls[0], missed)
    requires items == Total(FlatE(st, ls[0])) && leaves == |ls[0]|
    ensures Consistent(cap, st, Some(root), next, items, leaves, missed, ls)
  {
  }

  /** A stranded root leaf is not the whole tree: no levels make it a valid one. */
  lemma StrandedInvalid(cap: nat, st: Store, root: Id, next: Id, items: nat, leaves: nat, missed: seq<nat>,
      ls: Levels, c: seq<Entry>)
    requires Stranded(st, root, c) && items == Total(c)
    ensures !Consistent(cap, st, Some(root), next, items, leaves, missed, ls)
  {
    var a, b :| c == a + st[root].entries + b && Total(a) + Total(b) > 0;
    TotalAdd(a + st[root].entries, b);
    TotalAdd(a, st[root].entries);
    if Consistent(cap, st, Some(root), next, items, leaves, missed, ls) { LeafRoot(st, ls, cap, root); }
  }

  ghost predicate NoLevels(cap: nat, st: Store, root: Id, next: Id, items: nat, leaves: nat, missed: seq<nat>) {
    forall ls: Levels :: !Consistent(cap, st, Some(root), next, items, leaves, missed, ls)
  }

  lemma AllInvalid(cap: nat, st: Store, root: Id, next: Id, items: nat, leaves: nat, missed: seq<nat>, c: seq<Entry>)
    requires Stranded(st, root, c) && items == Total(c)
    ensures NoLevels(cap, st, root, next, items, leaves, missed)
  {
    forall ls: Levels ensures !Consistent(cap, st, Some(root), next, items, leaves, missed, ls) {
      StrandedInvalid(cap, st, root, next, items, leaves, missed, ls, c);
    }
  }

  lemma StrandedNone(cap: nat, st: Store, root: Id, next: Id, items: nat, leaves: nat, missed: seq<nat>, ls: Levels,
      st': Store, root': Id, items': nat, leaves': nat, missed': seq<nat>, k: Key)
    requires Consistent(cap, st, Some(root), next, items, leaves, missed, ls)
    requires Stranded(st', root', Drop(FlatE(st, ls[0]), k)) && items' == items - |Group(FlatE(st, ls[0]), k)|
    ensures NoLevels(cap, st', root', next, items', leaves', missed')
  {
    DropTotal(FlatE(st, ls[0]), k);
    AllInvalid(cap, st', root', next, items', leaves', missed', Drop(FlatE(st, ls[0]), k));
  }

  method ShrinkDeep(cap: nat, st: Store, lv: Leaves, files: Files, root: Id, items: nat, leaves: nat, missed: seq<nat>,
      k: Key, ghost next: Id, ghost ls: Levels)
    returns (fault: bool, ok: bool, st': Store, lv': Leaves, root': Id, items': nat, leaves': nat, missed': seq<nat>,
        ghost ls': Levels, ghost strands: bool)
    requires Consistent(cap, st, Some(root), next, items, leaves, missed, ls) && |ls| > 1
      && (cap >= 8 || !Starves(st, cap, ls, k)) && Backed(st, lv, files, ls[0])
    ensures strands == StrandsAt(st, cap, root, ls, k) && (fault <==> FaultsOn(st, lv, ls, k))
    ensures fault ==> st' == st && root' == root && ls' == ls && items' == items && leaves' == leaves
    ensures fault ==> missed' == missed
    ensures fault ==> Backed(st, lv', files, ls[0])
    ensures !fault ==> ok == Has(Held(st, Some(root), ls), k)
    ensures !fault && !strands ==> Consistent(cap, st', Some(root'), next, items', leaves', missed', ls')
    ensures !fault && !strands ==> Held(st', Some(root'), ls') == Drop(Held(st, Some(root), ls), k)
    ensures !fault && strands ==> Stranded(st', root', Drop(Held(st, Some(root), ls), k))
    ensures !fault && strands ==> NoLevels(cap, st', root', next, items', leaves', missed')
    ensures !fault ==> (Backed(st', lv', files, LeafIds(Some(root'), ls')) <==> !TearsLeftAt(st, lv, cap, ls, k))
    ensures Renews(lv, ls[0], lv', LeafIds(Some(root'), ls'), !LendsLeftAt(st, cap, ls, k)) && KeepsFiles(st, st')
  {
    var removed, gone;
    ghost var q, x;
    fault, ok, st', lv', root', removed, gone, ls', q, x := RemoveDeep(st, lv, files, cap, root, k, ls);
    LeafTower(st, ls, cap);
    FaultsThere(st, lv, ls, q, k);
    strands := StrandsAt(st, cap, root, ls, k);
    items', leaves', missed' := items, leaves, missed;
    if fault { return; }
    DropTotal(FlatE(st, ls[0]), k);
    items' := items - removed;
    if gone.Some? { leaves', missed' := leaves - 1, missed + [gone.value]; }
    if strands {
      StrandedNone(cap, st, root, next, items, leaves, missed, ls, st', root', items', leaves', missed', k);
    } else {
      ShrunkConsistent(cap, st, root, next, items, leaves, missed, ls, st', root', ls', q, k, removed, gone);
    }
  }

  /** A root leaf loses a group: it shrinks, or the tree becomes empty and its file is given up. */
  method ShrinkRootLeaf(cap: nat, st: Store, lv: Leaves, files: Files, r: Id, items: nat, missed: seq<nat>, k: Key,
      ghost next: Id, ghost leaves: nat, ghost ls: Levels)
    returns (fault: bool, ok: bool, st': Store, lv': Leaves, root': Option<Id>, items': nat, leaves': nat,
        missed': seq<nat>, ghost ls': Levels)
    requires Consistent(cap, st, Some(r), next, items, leaves, missed, ls) && r in st && st[r].Leaf?
    requires Backed(st, lv, files, ls[0])
    ensures ls == [[r]] && r in lv && (fault <==> SegmentQuery.Faults(lv[r], k))
    ensures Consistent(cap, st', root', next, items', leaves', missed', ls')
    ensures Backed(st', lv', files, LeafIds(root', ls'))
    ensures if fault then st' == st && root' == Some(r) && items' == items && leaves' == leaves && missed' == missed
        && ls' == ls
      else ok == Has(Held(st, Some(r), ls), k) && Held(st', root', ls') == Drop(Held(st, Some(r), ls), k)
    ensures Traced(lv, ls[0], lv', LeafIds(root', ls'), r, true) && KeepsFiles(st, st')
  {
    LeafRoot(st, ls, cap, r);
    var es := st[r].entries;
    var removed, s;
    fault, ok, removed, s := TakeGroup(st, lv, files, cap, r, k, ls, 0);
    st', lv', root', items', leaves', missed', ls' := st, lv, Some(r), items, 1, missed, ls;
    TracedSelf(st, lv, files, ls[0], r);
    if fault { return; }
    DropTotal(es, k);
    TracedOne(st, lv, files, ls[0], r, s);
    lv' := lv[r := s];
    var left := Drop(es, k);
    RootKeepsFiles(st, r, left);
    items' := items - removed;
    if left == [] {
      LastGroupGoes(cap, st, r, next, items, leaves, missed, ls, k);
      st', root', leaves', missed', ls' := st - {r}, None, 0, missed + [st[r].file], [];
      assert LeafIds(root', ls') == [];
    } else {
      RootSmaller(cap, st, r, next, items, leaves, missed, ls, k);
      st', ls' := st[r := Leaf(left, st[r].file, st[r].left, st[r].right)], [[r]];
      OneChanged(st, st', lv, files, [r], 0, s);
    }
  }

  lemma RootKeepsFiles(st: Store, r: Id, es: seq<Entry>)
    requires r in st && st[r].Leaf?
    ensures KeepsFiles(st, st - {r}) && KeepsFiles(st, st[r := Leaf(es, st[r].file, st[r].left, st[r].right)])
  {
  }

  /** The last group goes: the tree is empty and its file is given up. */
  lemma LastGroupGoes(cap: nat, st: Store, r: Id, next: Id, items: nat, leaves: nat, missed: seq<nat>, ls: Levels,
      k: Key)
    requires Consistent(cap, st, Some(r), next, items, leaves, missed, ls) && r in st && st[r].Leaf?
      && Drop(st[r].entries, k) == []
    ensures |Group(st[r].entries, k)| <= items
    ensures Consistent(cap, st - {r}, None, next, items - |Group(st[r].entries, k)|, 0, missed + [st[r].file], [])
    ensures Held(st - {r}, None, []) == Drop(st[r].entries, k)
  {
    LeafRoot(st, ls, cap, r);
    DropTotal(st[r].entries, k);
    FilesDrop(st, st - {r}, [r], missed, 0);
    assert Without([r], 0) == [];
  }

  lemma RootSmaller(cap: nat, st: Store, r: Id, next: Id, items: nat, leaves: nat, missed: seq<nat>, ls: Levels, k: Key)
    requires Consistent(cap, st, Some(r), next, items, leaves, missed, ls) && r in st && st[r].Leaf?
      && Drop(st[r].entries, k) != []
    ensures |Group(st[r].entries, k)| <= items
    ensures var st' := st[r := Leaf(Drop(st[r].entries, k), st[r].file, st[r].left, st[r].right)];
      && Consistent(cap, st', Some(r), next, items - |Group(st[r].entries, k)|, 1, missed, [[r]])
      && Held(st', Some(r), [[r]]) == Drop(st[r].entries, k)
  {
    LeafRoot(st, ls, cap, r);
    var left := Drop(st[r].entries, k);
    DropOrdered(st[r].entries, k);
    DropTotal(st[r].entries, k);
    var st' := st[r := Leaf(left, st[r].file, st[r].left, st[r].right)];
    LeafTree(st', r, cap);
    FilesSame(st, st', [r], missed);
  }

  // ---------------------------------------------------------------- append and remove_index on the fields

  /** A full root leaf is split at this very index (core/b_plus_tree/b_plus_tree.cpp:327). */
  ghost predicate Cuts(st: Store, cap: nat, root: Option<Id>, k: Key) {
    root.Some? && CutsGroup(st, cap, root.value, k)
  }

  /** The leaf that covers the index is full, and splitting it tears it. */
  ghost predicate TearsOn(st: Store, lv: Leaves, cap: nat, root: Option<Id>, ls: Levels, k: Key) {
    && root.Some? && |ls| > 0
    && exists q: nat :: Covers(st, [ls[0]], 0, q, k) && ls[0][q] in lv && Tears(lv[ls[0][q]], cap)
  }

  /** That leaf, or the half of it that is to have the item, loses the item. */
  ghost predicate DropsOn(st: Store, lv: Leaves, cap: nat, root: Option<Id>, ls: Levels, k: Key, item: Item) {
    root.Some? && |ls| > 0 && exists q: nat ::
      Covers(st, [ls[0]], 0, q, k) && ls[0][q] in lv && Drops(lv[ls[0][q]], cap, k, item, |ls| == 1)
  }

  /** That leaf is full. */
  ghost predicate SplitsOn(st: Store, cap: nat, root: Option<Id>, ls: Levels, k: Key) {
    root.Some? && |ls| > 0 && exists q: nat :: Covers(st, [ls[0]], 0, q, k) && CountOf(st, ls[0][q]) >= cap
  }

  /** A block of that leaf that has the index, behind its first one, is not in memory. */
  ghost predicate FaultsOn(st: Store, lv: Leaves, ls: Levels, k: Key) {
    |ls| > 0 && exists q: nat :: Covers(st, [ls[0]], 0, q, k) && ls[0][q] in lv && SegmentQuery.Faults(lv[ls[0][q]], k)
  }

  /** Only one leaf covers an index. */
  lemma CoversOnce(st: Store, l: seq<Id>, q: nat, p: nat, k: Key)
    requires LevelOk(st, l, true) && Ordered(FlatE(st, l)) && Covers(st, [l], 0, q, k) && Covers(st, [l], 0, p, k)
    ensures q == p
  {
    OneLevel(st, l);
    if q + 1 < p { MinsAscend(st, [l], 0, q + 1, p); }
    if p + 1 < q { MinsAscend(st, [l], 0, p + 1, q); }
  }

  lemma LeafTower(st: Store, ls: Levels, cap: nat)
    requires Shape(st, ls, cap, NoHole)
    ensures LevelOk(st, ls[0], true)
  {
    assert LevelGood(st, ls, cap, NoHole, 0);
  }

  lemma FaultsThere(st: Store, lv: Leaves, ls: Levels, q: nat, k: Key)
    requires |ls| > 0 && LevelOk(st, ls[0], true) && Ordered(FlatE(st, ls[0])) && Covers(st, [ls[0]], 0, q, k)
    requires ls[0][q] in lv
    ensures FaultsOn(st, lv, ls, k) <==> SegmentQuery.Faults(lv[ls[0][q]], k)
  {
    if FaultsOn(st, lv, ls, k) {
      var p: nat :| Covers(st, [ls[0]], 0, p, k) && ls[0][p] in lv && SegmentQuery.Faults(lv[ls[0][p]], k);
      CoversOnce(st, ls[0], q, p, k);
    }
  }

  lemma TearsThere(st: Store, lv: Leaves, cap: nat, root: Id, ls: Levels, q: nat, k: Key)
    requires |ls| > 0 && LevelOk(st, ls[0], true) && Ordered(FlatE(st, ls[0])) && Covers(st, [ls[0]], 0, q, k)
    requires ls[0][q] in lv
    ensures TearsOn(st, lv, cap, Some(root), ls, k) <==> Tears(lv[ls[0][q]], cap)
  {
    if TearsOn(st, lv, cap, Some(root), ls, k) {
      var p: nat :| Covers(st, [ls[0]], 0, p, k) && ls[0][p] in lv && Tears(lv[ls[0][p]], cap);
      CoversOnce(st, ls[0], q, p, k);
    }
  }

  lemma DropsThere(st: Store, lv: Leaves, cap: nat, root: Id, ls: Levels, q: nat, k: Key, item: Item)
    requires |ls| > 0 && LevelOk(st, ls[0], true) && Ordered(FlatE(st, ls[0])) && Covers(st, [ls[0]], 0, q, k)
    requires ls[0][q] in lv
    ensures DropsOn(st, lv, cap, Some(root), ls, k, item) <==> Drops(lv[ls[0][q]], cap, k, item, |ls| == 1)
  {
    if DropsOn(st, lv, cap, Some(root), ls, k, item) {
      var p: nat :| Covers(st, [ls[0]], 0, p, k) && ls[0][p] in lv && Drops(lv[ls[0][p]], cap, k, item, |ls| == 1);
      CoversOnce(st, ls[0], q, p, k);
    }
  }

  lemma SplitsThere(st: Store, cap: nat, root: Id, ls: Levels, q: nat, k: Key)
    requires |ls| > 0 && LevelOk(st, ls[0], true) && Ordered(FlatE(st, ls[0])) && Covers(st, [ls[0]], 0, q, k)
    ensures SplitsOn(st, cap, Some(root), ls, k) <==> CountOf(st, ls[0][q]) >= cap
  {
    if SplitsOn(st, cap, Some(root), ls, k) {
      var p: nat :| Covers(st, [ls[0]], 0, p, k) && CountOf(st, ls[0][p]) >= cap;
      CoversOnce(st, ls[0], q, p, k);
    }
  }

  /** How an append ends depends on the segment trees only, not on what of them is in memory. */
  lemma SameOutlook(st: Store, lv: Leaves, lv': Leaves, cap: nat, root: Option<Id>, ls: Levels, k: Key, item: Item)
    requires SameTrees(lv, lv')
    ensures TearsOn(st, lv', cap, root, ls, k) <==> TearsOn(st, lv, cap, root, ls, k)
    ensures DropsOn(st, lv', cap, root, ls, k, item) <==> DropsOn(st, lv, cap, root, ls, k, item)
  {
    if root.Some? && |ls| > 0 {
      forall q: nat | Covers(st, [ls[0]], 0, q, k) && ls[0][q] in lv
        ensures Tears(lv'[ls[0][q]], cap) <==> Tears(lv[ls[0][q]], cap)
        ensures Drops(lv'[ls[0][q]], cap, k, item, |ls| == 1) <==> Drops(lv[ls[0][q]], cap, k, item, |ls| == 1)
      {
        SameFate(lv[ls[0][q]], lv'[ls[0][q]], cap, k, item, |ls| == 1);
      }
    }
  }

  lemma SameFate(s: State, s': State, cap: nat, k: Key, item: Item, strictly: bool)
    requires s'.tree == s.tree
    ensures Tears(s', cap) <==> Tears(s, cap)
    ensures Drops(s', cap, k, item, strictly) <==> Drops(s, cap, k, item, strictly)
  {
  }

  /** The first item of an empty tree goes to a new segment tree. */
  method FirstState(k: Key, item: Item, ghost data: seq<SegmentFile.Cell>) returns (s: State)
    requires |item| > 0
    ensures LeafNode.Good(s, [Entry(k, [item])], data) && LeafFile.Carried(LeafFile.Empty(), s)
  {
    LeafFile.EmptyKept(data);
    EmptyGood(k, item);
    var ok, dropped;
    ok, dropped, s := AppendState(LeafFile.Empty(), k, item, [], data);
  }

  method FirstBacked(st: Store, lv: Leaves, files: Files, next: Id, k: Key, item: Item) returns (lv': Leaves)
    requires next in st && st[next].Leaf? && st[next].entries == [Entry(k, [item])] && |item| > 0
    ensures Backed(st, lv', files, [next]) && Traced(lv, [], lv', [next], next, true)
  {
    var s := FirstState(k, item, DataOf(files, FileOf(st, next)));
    lv' := lv[next := s];
    assert BackedAt(st, lv', files, next);
  }

  lemma EmptyGood(k: Key, item: Item)
    ensures LeafNode.Of(LeafFile.Empty().tree, []) && !LeafGrow.Loses(LeafFile.Empty().tree.bs, k, item)
    ensures LeafNode.WithItem([], k, item) == [Entry(k, [item])] && Group([], k) == []
  {
    LeafFile.EmptyKept([]);
    assert Scan.Pairs([]) == [];
    assert InsertAt([], 0, item) == [item];
    assert LeafNode.WithItem([], k, item) == [Entry(k, [item])];
  }

  /** The whole append, on the values of the fields. */
  ghost predicate AppendEnds(cap: nat, st: Store, lv: Leaves, files: Files, root: Option<Id>, ls: Levels, k: Key,
      item: Item, ok: bool, out: Outcome, st': Store, lv': Leaves, root': Id, ls': Levels) {
    Backs(st', lv', files, LeafIds(Some(root'), ls'), TearsOn(st, lv, cap, root, ls, k),
      DropsOn(st, lv, cap, root, ls, k, item), ok, out)
  }

  /** And which blocks and marks it leaves: those of every leaf are accounted for, but perhaps of one that is split. */
  ghost predicate AppendTraces(cap: nat, st: Store, lv: Leaves, root: Option<Id>, ls: Levels, k: Key, st': Store,
      lv': Leaves, root': Id, ls': Levels) {
    && Renews(lv, LeafIds(root, ls), lv', LeafIds(Some(root'), ls'), !SplitsOn(st, cap, root, ls, k))
    && FilesKept(st, LeafIds(root, ls), st', LeafIds(Some(root'), ls'))
  }

  /** All this is told by the leaf that covers the index. */
  lemma AppendTold(cap: nat, st: Store, lv: Leaves, files: Files, root: Id, ls: Levels, k: Key, item: Item, ok: bool,
      out: Outcome, st': Store, lv': Leaves, root': Id, ls': Levels, q: nat, leaf: Id)
    requires |ls| > 0 && LevelOk(st, ls[0], true) && Ordered(FlatE(st, ls[0])) && Covers(st, [ls[0]], 0, q, k)
    requires ls[0][q] == leaf
    requires LeavesEnd(lv, files, ls[0], leaf, cap, k, item, |ls| == 1, CountOf(st, leaf) < cap, st', lv',
      LeafIds(Some(root'), ls'), ok, out)
    requires LeavesStay(st, st')
    ensures AppendEnds(cap, st, lv, files, Some(root), ls, k, item, ok, out, st', lv', root', ls')
    ensures AppendTraces(cap, st, lv, Some(root), ls, k, st', lv', root', ls')
  {
    TracesTold(cap, st, lv, root, ls, k, st', lv', root', ls', q, leaf);
    TearsThere(st, lv, cap, root, ls, q, k);
    DropsThere(st, lv, cap, root, ls, q, k, item);
  }

  lemma TracesTold(cap: nat, st: Store, lv: Leaves, root: Id, ls: Levels, k: Key, st': Store, lv': Leaves, root': Id,
      ls': Levels, q: nat, leaf: Id)
    requires |ls| > 0 && LevelOk(st, ls[0], true) && Ordered(FlatE(st, ls[0])) && Covers(st, [ls[0]], 0, q, k)
    requires ls[0][q] == leaf && Traced(lv, ls[0], lv', LeafIds(Some(root'), ls'), leaf, CountOf(st, leaf) < cap)
    requires LeavesStay(st, st')
    ensures AppendTraces(cap, st, lv, Some(root), ls, k, st', lv', root', ls')
  {
    SplitsThere(st, cap, root, ls, q, k);
    StayFiles(st, st', ls[0], LeafIds(Some(root'), ls'));
  }

  lemma StayFiles(st: Store, st': Store, l: seq<Id>, l': seq<Id>)
    requires LevelOk(st, l, true) && LeavesStay(st, st')
    ensures FilesKept(st, l, st', l')
  {
  }

  method AppendValues(cap: nat, st: Store, lv: Leaves, files: Files, root: Option<Id>, next: Id, items: nat,
      leaves: nat, missed: seq<nat>, k: Key, item: Item, ghost ls: Levels)
    returns (ok: bool, out: Outcome, st': Store, lv': Leaves, root': Id, next': Id, ghost items': nat, leaves': nat,
        missed': seq<nat>, ghost ls': Levels)
    requires Consistent(cap, st, root, next, items, leaves, missed, ls) && |item| > 0
    requires Backed(st, lv, files, LeafIds(root, ls))
    ensures Appended(Held(st, root, ls), Held(st', Some(root'), ls'), cap, k, item, out, Cuts(st, cap, root, k))
    ensures items' == Counted(items, out)
    ensures Consistent(cap, st', Some(root'), next', items', leaves', missed', ls') <==>
      !Cuts(st, cap, root, k) && !out.Dropped?
    ensures AppendEnds(cap, st, lv, files, root, ls, k, item, ok, out, st', lv', root', ls')
    ensures AppendTraces(cap, st, lv, root, ls, k, st', lv', root', ls')
  {
    if root.None? {
      out, root', next', items', leaves', missed' := Stored, next, next + 1, items + 1, leaves + 1, MissedAfter(missed);
      ls' := [[next]];
      st' := st[next := Leaf([Entry(k, [item])], UniqueFile(leaves, missed), None, None)];
      FirstLeaf(cap, st, next, items, leaves, missed, ls, k, item, st');
      FirstGrown(k, item);
      ok := true;
      lv' := FirstBacked(st', lv, files, next, k, item);
    } else {
      ok, out, st', lv', root', next', items', leaves', missed', ls' := AppendBelow(cap, st, lv, files, root.value,
          next, items, leaves, missed, k, item, ls);
    }
  }

  method AppendBelow(cap: nat, st: Store, lv: Leaves, files: Files, root: Id, next: Id, items: nat, leaves: nat,
      missed: seq<nat>, k: Key, item: Item, ghost ls: Levels)
    returns (ok: bool, out: Outcome, st': Store, lv': Leaves, root': Id, next': Id, items': nat, leaves': nat,
        missed': seq<nat>, ghost ls': Levels)
    requires Consistent(cap, st, Some(root), next, items, leaves, missed, ls) && |item| > 0
    requires Backed(st, lv, files, ls[0])
    ensures Appended(Held(st, Some(root), ls), Held(st', Some(root'), ls'), cap, k, item, out,
      CutsGroup(st, cap, root, k))
    ensures items' == Counted(items, out)
    ensures EndsIf(cap, st', root', next', items', leaves', missed', ls', !CutsGroup(st, cap, root, k) && !out.Dropped?)
    ensures AppendEnds(cap, st, lv, files, Some(root), ls, k, item, ok, out, st', lv', root', ls')
    ensures AppendTraces(cap, st, lv, Some(root), ls, k, st', lv', root', ls')
  {
    RootIn(st, ls, cap, root);
    LeafTower(st, ls, cap);
    ghost var q: nat := 0;
    var leaf := root;
    if st[root].Inner? {
      InnerNotCut(st, cap, root, k);
      ok, out, st', lv', root', next', items', leaves', missed', ls', q, leaf := GrowDeep(cap, st, lv, files, root,
          next, items, leaves, missed, k, item, ls);
      PlainEnds(cap, Held(st, Some(root), ls), st', root', next', items', leaves', missed', ls', k, item, out,
          CutsGroup(st, cap, root, k));
    } else if |st[root].entries| < cap {
      ok, out, st', lv', items', ls' := FillRootLeaf(cap, st, lv, files, root, next, items, leaves, missed, k, item,
          ls);
      root', next', leaves', missed' := root, next, leaves, missed;
      PlainEnds(cap, Held(st, Some(root), ls), st', root', next', items', leaves', missed', ls', k, item, out,
          CutsGroup(st, cap, root, k));
    } else {
      LeafRoot(st, ls, cap, root);
      ok, out, st', lv' := AppendFullRoot(st, lv, files, cap, root, k, item, next, UniqueFile(leaves, missed));
      items', missed', ls' := Counted(items, out), MissedAfter(missed), RootLevels(root, next);
      root', next', leaves' := next + 1, next + 2, leaves + 1;
      RootGrownEnds(cap, st, root, next, items, leaves, missed, k, item, ls, out, st', ls');
    }
    AppendTold(cap, st, lv, files, root, ls, k, item, ok, out, st', lv', root', ls', q, leaf);
  }

  lemma PlainEnds(cap: nat, c: seq<Entry>, st: Store, root: Id, next: Id, items: nat, leaves: nat, missed: seq<nat>,
      ls: Levels, k: Key, item: Item, out: Outcome, cuts: bool)
    requires Grown(c, Held(st, Some(root), ls), k, item, out) && !cuts
    requires EndsIf(cap, st, root, next, items, leaves, missed, ls, !out.Dropped?)
    ensures Appended(c, Held(st, Some(root), ls), cap, k, item, out, cuts)
    ensures EndsIf(cap, st, root, next, items, leaves, missed, ls, !cuts && !out.Dropped?)
  {
  }

  lemma InnerNotCut(st: Store, cap: nat, root: Id, k: Key)
    requires root in st && st[root].Inner?
    ensures !CutsGroup(st, cap, root, k)
  {
  }

  /** A root leaf with room. */
  method FillRootLeaf(cap: nat, st: Store, lv: Leaves, files: Files, r: Id, next: Id, items: nat, leaves: nat,
      missed: seq<nat>, k: Key, item: Item, ghost ls: Levels)
    returns (ok: bool, out: Outcome, st': Store, lv': Leaves, items': nat, ghost ls': Levels)
    requires Consistent(cap, st, Some(r), next, items, leaves, missed, ls) && r in st && st[r].Leaf?
      && |st[r].entries| < cap && Backed(st, lv, files, ls[0]) && |item| > 0
    ensures !CutsGroup(st, cap, r, k) && Grown(Held(st, Some(r), ls), Held(st', Some(r), ls'), k, item, out)
    ensures EndsIf(cap, st', r, next, items', leaves, missed, ls', !out.Dropped?)
    ensures ls == [[r]] && items' == Counted(items, out) && CountOf(st, r) < cap
    ensures LeavesEnd(lv, files, ls[0], r, cap, k, item, true, true, st', lv', LeafIds(Some(r), ls'), ok, out)
    ensures LeavesStay(st, st')
  {
    LeafRoot(st, ls, cap, r);
    assert Covers(st, [ls[0]], 0, 0, k);
    ok, out, st', lv' := AppendRoom(st, lv, files, cap, r, k, item, true, ls, 0);
    items', ls' := Counted(items, out), ls;
    GrownEnds(cap, st, r, next, items, leaves, missed, ls, st', r, next, ls, 0, k, item, out, false);
  }

  /** The tree has a root, and removing the group of k strands it. */
  ghost predicate StrandsIn(st: Store, cap: nat, root: Option<Id>, ls: Levels, k: Key) {
    root.Some? && StrandsAt(st, cap, root.value, ls, k)
  }

  /** The tree has a root, and removing the group of k tears a leaf. */
  ghost predicate BorrowsTorn(st: Store, lv: Leaves, cap: nat, root: Option<Id>, ls: Levels, k: Key) {
    root.Some? && TearsLeftAt(st, lv, cap, ls, k)
  }

  /** The tree has a root, and removing the group of k makes a leaf borrow from the left. */
  ghost predicate LendsIn(st: Store, cap: nat, root: Option<Id>, ls: Levels, k: Key) {
    root.Some? && LendsLeftAt(st, cap, ls, k)
  }

  /** The tree has a root, and asking for the index ends in a block that is not in memory. */
  ghost predicate FaultsIn(st: Store, lv: Leaves, root: Option<Id>, ls: Levels, k: Key) {
    root.Some? && FaultsOn(st, lv, ls, k)
  }

  method RemoveValues(cap: nat, st: Store, lv: Leaves, files: Files, root: Option<Id>, items: nat, leaves: nat,
      missed: seq<nat>, k: Key, ghost next: Id, ghost ls: Levels)
    returns (fault: bool, ok: bool, st': Store, lv': Leaves, root': Option<Id>, items': nat, leaves': nat,
        missed': seq<nat>, ghost ls': Levels, ghost strands: bool)
    requires Consistent(cap, st, root, next, items, leaves, missed, ls)
      && (cap >= 8 || root.None? || !Starves(st, cap, ls, k)) && Backed(st, lv, files, LeafIds(root, ls))
    ensures strands == StrandsIn(st, cap, root, ls, k) && (cap >= 12 ==> !strands)
    ensures fault <==> FaultsIn(st, lv, root, ls, k)
    ensures fault ==> Held(st', root', ls') == Held(st, root, ls) && Backed(st', lv', files, LeafIds(root', ls'))
    ensures fault || !strands ==> Consistent(cap, st', root', next, items', leaves', missed', ls')
    ensures !fault ==> ok == Has(Held(st, root, ls), k)
    ensures !fault && !strands ==> Held(st', root', ls') == Drop(Held(st, root, ls), k)
    ensures !fault && strands ==> root'.Some? && Stranded(st', root'.value, Drop(Held(st, root, ls), k))
    ensures !fault && strands ==> !Consistent(cap, st', root', next, items', leaves', missed', ls')
    ensures !fault ==> (Backed(st', lv', files, LeafIds(root', ls')) <==> !BorrowsTorn(st, lv, cap, root, ls, k))
    ensures Renews(lv, LeafIds(root, ls), lv', LeafIds(root', ls'), !LendsIn(st, cap, root, ls, k))
    ensures KeepsFiles(st, st')
  {
    strands := false;
    if root.None? {
      TracedSelf(st, lv, files, [], 0);
      return false, false, st, lv, root, items, leaves, missed, ls, false;
    }
    RootIn(st, ls, cap, root.value);
    LeafTower(st, ls, cap);
    if st[root.value].Leaf? {
      LeafRoot(st, ls, cap, root.value);
      fault, ok, st', lv', root', items', leaves', missed', ls' := ShrinkRootLeaf(cap, st, lv, files, root.value, items,
          missed, k, next, leaves, ls);
      FaultsThere(st, lv, ls, 0, k);
    } else {
      if cap >= 12 { NeverStrands(st, cap, root.value, ls, k); }
      var r;
      fault, ok, st', lv', r, items', leaves', missed', ls', strands := ShrinkDeep(cap, st, lv, files, root.value,
          items, leaves, missed, k, next, ls);
      root' := Some(r);
    }
  }

  /** The leaf that answers for an index. */
  method LeafFor(cap: nat, st: Store, lv: Leaves, files: Files, root: Id, k: Key, ghost ls: Levels)
    returns (leaf: Id, ghost q: nat)
    requires GoodTree(st, ls, cap, root) && Backed(st, lv, files, ls[0])
    ensures Covers(st, [ls[0]], 0, q, k) && ls[0][q] == leaf && leaf in lv && LevelOk(st, ls[0], true)
    ensures LeafNode.Good(lv[leaf], EntriesOf(st, leaf), DataOf(files, FileOf(st, leaf)))
    ensures Group(FlatE(st, ls[0]), k) == Group(EntriesOf(st, leaf), k)
    ensures Has(FlatE(st, ls[0]), k) == Has(EntriesOf(st, leaf), k)
  {
    ShapeTower(st, ls, cap);
    leaf, q := FindLeaf(st, root, k, ls);
    LookupLocal(st, ls, q, k);
    CoversAlone(st, ls, q, k);
    assert BackedAt(st, lv, files, ls[0][q]);
  }

  /** btree_t::item_count. */
  method CountValues(cap: nat, st: Store, lv: Leaves, files: Files, root: Option<Id>, k: Key, ghost ls: Levels)
    returns (fault: bool, n: nat, lv': Leaves)
    requires (root.Some? ==> GoodTree(st, ls, cap, root.value)) && Backed(st, lv, files, LeafIds(root, ls))
    ensures (fault <==> FaultsIn(st, lv, root, ls, k)) && Backed(st, lv', files, LeafIds(root, ls))
    ensures !fault ==> n == |Group(Held(st, root, ls), k)|
    ensures AllCurrent(st, lv, files, LeafIds(root, ls)) ==> AllCurrent(st, lv', files, LeafIds(root, ls))
  {
    if root.None? { return false, 0, lv; }
    var leaf, s;
    ghost var q;
    leaf, q := LeafFor(cap, st, lv, files, root.value, k, ls);
    fault, n, s := LeafQuery.ItemCount(lv[leaf], k, EntriesOf(st, leaf), DataOf(files, FileOf(st, leaf)));
    FaultsThere(st, lv, ls, q, k);
    lv' := lv[leaf := s];
    LeafTouched(st, lv, files, ls[0], q, s);
  }

  /** btree_t::get_items. */
  method ItemsValues(cap: nat, st: Store, lv: Leaves, files: Files, root: Option<Id>, k: Key, ghost ls: Levels)
    returns (fault: bool, items: seq<Item>, lv': Leaves)
    requires (root.Some? ==> GoodTree(st, ls, cap, root.value)) && Backed(st, lv, files, LeafIds(root, ls))
    ensures (fault <==> FaultsIn(st, lv, root, ls, k)) && Backed(st, lv', files, LeafIds(root, ls))
    ensures !fault ==> multiset(items) == multiset(Group(Held(st, root, ls), k))
    ensures AllCurrent(st, lv, files, LeafIds(root, ls)) ==> AllCurrent(st, lv', files, LeafIds(root, ls))
  {
    if root.None? { return false, [], lv; }
    var leaf, s;
    ghost var q;
    leaf, q := LeafFor(cap, st, lv, files, root.value, k, ls);
    fault, items, s := LeafQuery.GetItems(lv[leaf], k, EntriesOf(st, leaf), DataOf(files, FileOf(st, leaf)));
    FaultsThere(st, lv, ls, q, k);
    lv' := lv[leaf := s];
    LeafTouched(st, lv, files, ls[0], q, s);
  }

  lemma KeptFiles(cap: nat, st: Store, st': Store, root: Option<Id>, next: Id, ls: Levels, root': Option<Id>,
      items: nat, leaves: nat, missed: seq<nat>, ls': Levels)
    requires KeepsFiles(st, st') && Consistent(cap, st', root', next, items, leaves, missed, ls')
    ensures FilesKept(st, LeafIds(root, ls), st', LeafIds(root', ls'))
  {
    if root'.Some? { LeafTower(st', ls', cap); }
  }

  lemma StillCurrent(st: Store, lv: Leaves, files: Files, l: seq<Id>, st': Store, lv': Leaves, l': seq<Id>, all: bool)
    requires Renews(lv, l, lv', l', all) && FilesKept(st, l, st', l')
    ensures AllCurrent(st, lv, files, l) && all ==> AllCurrent(st', lv', files, l')
  {
    if AllCurrent(st, lv, files, l) && all {
      var x :| Traced(lv, l, lv', l', x, all);
      CurrentStays(st, lv, files, l, st', lv', l', x);
    }
  }

  class BTree {
    const cap: nat
    var store: Store
    var root: Option<Id>
    var next: Id
    var itemCount: nat
    var leafCount: nat
    var missed: seq<nat>
    /** The segment tree of every leaf, and the segment files. */
    var leaves: Leaves
    var files: Files
    ghost var levels: Levels

    /** What the tree holds, in index order. */
    ghost function Contents(): seq<Entry>
      reads this
    {
      Held(store, root, levels)
    }

    /** The tree is in order, and every leaf has a valid segment tree with its groups. */
    ghost predicate Valid()
      reads this
    {
      && Consistent(cap, store, root, next, itemCount, leafCount, missed, levels)
      && Backed(store, leaves, files, LeafIds(root, levels))
    }

    constructor (cap: nat)
      requires cap >= 4
      ensures Valid() && this.cap == cap && Contents() == []
    {
      this.cap := cap;
      store, root, next, itemCount, leafCount, missed, levels := map[], None, 0, 0, 0, [], [];
      leaves, files := map[], map[];
    }

    /** A tree put together by load. */
    constructor Loaded(cap: nat, st: Store, lv: Leaves, files: Files, root: Id, next: Id, items: nat, leafCount: nat,
        ghost ls: Levels)
      ensures this.cap == cap && store == st && this.root == Some(root) && this.next == next && itemCount == items
      ensures this.leafCount == leafCount && missed == [] && levels == ls && leaves == lv && this.files == files
    {
      this.cap := cap;
      store, this.root, this.next, itemCount, this.leafCount, missed := st, Some(root), next, items, leafCount, [];
      leaves, this.files, levels := lv, files, ls;
    }

    /** Every block of every leaf is in memory, and marked unless its file has it where it is. */
    ghost predicate Current()
      reads this
    {
      AllCurrent(store, leaves, files, LeafIds(root, levels))
    }

    /** The index at which a full root leaf is about to be split. */
    ghost predicate CutsAt(k: Key)
      reads this
    {
      Cuts(store, cap, root, k)
    }

    /** The leaf for the index is full, and the block at which its split stops shares its largest index with the
        block above it. */
    ghost predicate TearsAt(k: Key)
      reads this
    {
      TearsOn(store, leaves, cap, root, levels, k)
    }

    /** The leaf for the index is full. */
    ghost predicate SplitsAt(k: Key)
      reads this
    {
      SplitsOn(store, cap, root, levels, k)
    }

    /** The blocks that are to have the item lose it, as their sizes say. */
    ghost predicate DropsAt(k: Key, item: Item)
      reads this
    {
      DropsOn(store, leaves, cap, root, levels, k, item)
    }

    /** The fields take these values. */
    method Set(st: Store, r: Option<Id>, n: Id, items: nat, count: nat, gone: seq<nat>, lv: Leaves, ghost ls: Levels)
      modifies this
      ensures store == st && root == r && next == n && itemCount == items && leafCount == count && missed == gone
        && levels == ls && leaves == lv && files == old(files)
    {
      store, root, next, itemCount, leafCount, missed, leaves, levels := st, r, n, items, count, gone, lv, ls;
    }

    /** The leaves and the files take these values, and nothing else changes. */
    method SetLeaves(lv: Leaves, fs: Files)
      modifies this`leaves, this`files
      ensures leaves == lv && files == fs && store == old(store) && root == old(root) && next == old(next)
        && itemCount == old(itemCount) && leafCount == old(leafCount) && missed == old(missed) && levels == old(levels)
    {
      leaves, files := lv, fs;
    }

    /** btree_t::append. The tree stays complete, ordered, within capacity and linked at every level, every leaf
        keeps a valid segment tree, and it gains exactly the item or refuses a repeated one, if and only if no full
        root leaf is split at this very index, no full leaf is torn by its split, and the segment tree that gets the
        item does not drop it. All three can be told before the call. A dropped item leaves the contents as they
        were. */
    method Append(k: Key, item: Item) returns (ok: bool, ghost out: Outcome)
      requires Valid() && |item| > 0
      modifies this
      ensures !old(TearsAt(k)) ==> ok == !out.Refused? && (out.Dropped? <==> old(DropsAt(k, item)))
      ensures !old(TearsAt(k)) ==> Appended(old(Contents()), Contents(), cap, k, item, out, old(CutsAt(k)))
      ensures Valid() <==> !old(CutsAt(k)) && !old(TearsAt(k)) && !old(DropsAt(k, item))
      ensures files == old(files)
      ensures Renews(old(leaves), old(LeafIds(root, levels)), leaves, LeafIds(root, levels), !old(SplitsAt(k)))
      ensures old(Current()) && !old(SplitsAt(k)) ==> Current()
    {
      var o, st, r, n, count, gone, lv;
      ghost var ls, items;
      ok, o, st, lv, r, n, items, count, gone, ls := AppendValues(cap, store, leaves, files, root, next, itemCount,
          leafCount, missed, k, item, levels);
      StillCurrent(store, leaves, files, LeafIds(root, levels), st, lv, LeafIds(Some(r), ls), !SplitsAt(k));
      Set(st, Some(r), n, if ok then itemCount + 1 else itemCount, count, gone, lv, ls);
      out := o;
    }

    /** Removing the group of k goes wrong: its leaf is at its minimum and is merged away, and its parent has
        one other child and is not the root. From capacity 12 on that cannot be. */
    ghost predicate StrandsOn(k: Key)
      reads this
    {
      StrandsIn(store, cap, root, levels, k)
    }

    /** Its leaf is at its minimum and has only a left neighbour, too large to merge with, which is torn when it
        lends its largest indices. */
    ghost predicate BorrowsTornOn(k: Key)
      reads this
    {
      BorrowsTorn(store, leaves, cap, root, levels, k)
    }

    /** Its leaf is at its minimum and has only a left neighbour, too large to merge with. */
    ghost predicate BorrowsLeftOn(k: Key)
      reads this
    {
      LendsIn(store, cap, root, levels, k)
    }

    /** The index is in several blocks and one of them, not the first, is not in memory: the source uses it all the
        same. */
    ghost predicate FaultsAt(k: Key)
      reads this
    {
      FaultsIn(store, leaves, root, levels, k)
    }

    /** Below capacity 8 a leaf may have a single group; taking that one is against the source's assertions
        if there is another leaf. */
    ghost predicate StarvesOn(k: Key)
      reads this
    {
      cap < 8 && root.Some? && Starves(store, cap, levels, k)
    }

    /** btree_t::remove_index. Exactly the group of k goes; depth, order, sibling links and the minimum and
        maximum size of every node but the root are kept through any chain of merges, and every leaf keeps a valid
        segment tree, if and only if it neither strands the tree nor borrows from a torn leaf. If it strands the
        tree, the new root is a leaf that holds a part of what there should be, and nothing else is below it. */
    method RemoveIndex(k: Key) returns (fault: bool, ok: bool)
      requires Valid() && !StarvesOn(k)
      modifies this
      ensures fault <==> old(FaultsAt(k))
      ensures fault ==> Valid() && Contents() == old(Contents())
      ensures !fault ==> ok == Has(old(Contents()), k)
      ensures !fault ==> (Valid() <==> !old(StrandsOn(k)) && !old(BorrowsTornOn(k)))
      ensures !fault && Valid() ==> Contents() == Drop(old(Contents()), k)
      ensures !fault && old(StrandsOn(k)) ==> root.Some? && Stranded(store, root.value, Drop(old(Contents()), k))
      ensures cap >= 12 ==> !old(StrandsOn(k))
      ensures files == old(files)
      ensures Renews(old(leaves), old(LeafIds(root, levels)), leaves, LeafIds(root, levels), !old(BorrowsLeftOn(k)))
      ensures old(Current()) && !old(BorrowsLeftOn(k)) && !old(StrandsOn(k)) ==> Current()
    {
      var st, r, items, count, gone, lv;
      ghost var ls, strands;
      fault, ok, st, lv, r, items, count, gone, ls, strands := RemoveValues(cap, store, leaves, files, root, itemCount,
          leafCount, missed, k, next, levels);
      if fault || !strands {
        KeptFiles(cap, store, st, root, next, levels, r, items, count, gone, ls);
        StillCurrent(store, leaves, files, LeafIds(root, levels), st, lv, LeafIds(r, ls), !BorrowsLeftOn(k));
      }
      Set(st, r, next, items, count, gone, lv, ls);
    }

    /** btree_t::item_count answers from the one leaf the descent reaches, whichever of its blocks the index is in. */
    method ItemCount(k: Key) returns (fault: bool, n: nat)
      requires Valid()
      modifies this`leaves
      ensures Valid() && (fault <==> old(FaultsAt(k)))
      ensures !fault ==> n == |Group(Contents(), k)|
      ensures old(Current()) ==> Current()
    {
      var lv;
      fault, n, lv := CountValues(cap, store, leaves, files, root, k, levels);
      leaves := lv;
    }

    /** btree_t::get_items likewise. */
    method GetItems(k: Key) returns (fault: bool, items: seq<Item>)
      requires Valid()
      modifies this`leaves
      ensures Valid() && (fault <==> old(FaultsAt(k)))
      ensures !fault ==> multiset(items) == multiset(Group(Contents(), k))
      ensures old(Current()) ==> Current()
    {
      var lv;
      fault, items, lv := ItemsValues(cap, store, leaves, files, root, k, levels);
      leaves := lv;
    }
  }
}
