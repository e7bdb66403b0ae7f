/** Trees that are in order until an operation tears one of their leaves: a full root leaf that is split, and a leaf
    that borrows from its left neighbour. */
module TornTree {
  import opened Wrappers
  import opened Multimap
  import opened BlockSpec
  import opened Segments
  import opened SegmentAppend
  import Balance = SegmentBalance
  import opened LeafPlaces
  import SegmentFile
  import LeafFile
  import LeafNode = Leaf
  import LeafGrow
  import LeafBuild
  import opened LeafLoad
  import Scan
  import opened NodeStore
  import TreeSearch
  import opened TreeLeaves
  import opened TreeGrow
  import opened TreeAppend
  import opened TreeRemove
  import opened B = BTree

  // ---------------------------------------------------------------- a leaf of two blocks that share an index

  /** The indices below n, the largest first, with one item each. */
  function Down(n: nat, a: Item): (es: seq<Pair>)
    ensures |es| == n && forall i :: 0 <= i < n ==> es[i] == (n - 1 - i, a)
  {
    seq(n, i requires 0 <= i < n => (n - 1 - i, a))
  }

  function Low(n: nat, a: Item): Blk { Blk(DEFAULT_SIZE, Down(n, a)) }

  /** The largest of them again, with another item, and the next one. */
  function High(n: nat, a: Item, b: Item): Blk { Blk(DEFAULT_SIZE, [(n, a), (n - 1, b)]) }

  lemma DownLess(n: nat, a: Item)
    requires n > 0
    ensures Down(n, a)[1..] == Down(n - 1, a) && Down(n, a) == [(n - 1, a)] + Down(n - 1, a)
  {
  }

  lemma {:induction false} DownCounts(n: nat, a: Item)
    requires |a| == 1
    ensures Weight(Down(n, a)) == n * (1 + RECORD) && Uniques(Down(n, a)) == n
    ensures forall p :: multiset(Down(n, a))[p] <= 1 && (p in multiset(Down(n, a)) ==> p.1 == a && 0 <= p.0 < n)
  {
    if n > 0 {
      DownLess(n, a);
      DownCounts(n - 1, a);
    }
  }

  lemma BothBlocks(n: nat, a: Item, b: Item)
    requires 2 <= n <= 100 && |a| == |b| == 1 && a != b
    ensures Seg(Low(n, a)) && Seg(High(n, a, b)) && Max(Low(n, a)) == n - 1 == Min(High(n, a, b))
  {
    DownCounts(n, a);
    assert High(n, a, b).es[1..] == [(n - 1, b)];
    WeightOne((n - 1, b));
  }

  lemma TwoBlocks(n: nat, a: Item, b: Item)
    requires 2 <= n <= 100 && |a| == |b| == 1 && a != b
    ensures Blocks([Low(n, a), High(n, a, b)])
    ensures forall p :: Pairs([Low(n, a), High(n, a, b)])[p] <= 1
    ensures |Pairs([Low(n, a), High(n, a, b)])| == n + 2
    ensures forall k :: k in KeysOf(Pairs([Low(n, a), High(n, a, b)])) ==> 0 <= k <= n
  {
    var x, y := Low(n, a), High(n, a, b);
    BothBlocks(n, a, b);
    BlocksTwo(x, y);
    PairsTwo(x, y);
    TwoEntries(n, a, b);
  }

  lemma TwoEntries(n: nat, a: Item, b: Item)
    requires 2 <= n && |a| == |b| == 1 && a != b
    ensures var m := multiset(Low(n, a).es) + multiset(High(n, a, b).es);
      (forall p :: m[p] <= 1) && |m| == n + 2 && forall k :: k in KeysOf(m) ==> 0 <= k <= n
  {
    var x, y := multiset(Low(n, a).es), multiset(High(n, a, b).es);
    DownCounts(n, a);
    assert y == multiset{(n, a), (n - 1, b)};
    assert |x| == n;
    forall k | k in KeysOf(x + y) ensures 0 <= k <= n {
      var p: Pair :| p in x + y && p.0 == k;
      assert p in x || p in y;
    }
  }

  lemma TwoDistinct(n: nat, a: Item, b: Item)
    requires 2 <= n <= 100 && |a| == |b| == 1 && a != b
    ensures var bs := [Low(n, a), High(n, a, b)];
      Balance.Distinct(bs) == n + 1 && Balance.Distinct(bs[1..]) == 2 && Balance.Touch(bs[..1], bs[1..])
  {
    var x, y := Low(n, a), High(n, a, b);
    var bs := [x, y];
    TwoBlocks(n, a, b);
    DownCounts(n, a);
    assert bs[..1] == [x] && bs[1..] == [y] && [x] + [y] == bs;
    BothBlocks(n, a, b);
    Balance.DistinctAdd([x], [y]);
    Balance.BlockDistinct(x);
    Balance.BlockDistinct(y);
    TwoUniques(n, a, b);
  }

  lemma TwoUniques(n: nat, a: Item, b: Item)
    requires n > 0
    ensures Uniques([(n, a), (n - 1, b)]) == 2
  {
    var es: seq<Pair> := [(n, a), (n - 1, b)];
    assert es[1..] == [(n - 1, b)] && es[1..][1..] == [];
  }

  function TornTwo(n: nat, a: Item, b: Item): Balance.Tree {
    var bs := [Low(n, a), High(n, a, b)];
    Balance.Tree(bs, BoundsList(bs), n + 2, n + 1)
  }

  /** It is valid, and taking its two largest indices tears it. */
  lemma TwoTorn(n: nat, a: Item, b: Item)
    requires 2 <= n <= 100 && |a| == |b| == 1 && a != b
    ensures Balance.SoundTree(TornTwo(n, a, b)) && Balance.Torn(TornTwo(n, a, b).bs, 2)
  {
    var bs := TornTwo(n, a, b).bs;
    TwoBlocks(n, a, b);
    TwoDistinct(n, a, b);
    assert bs[0..] == bs;
    assert Balance.StopsIn(bs, 2, 0);
  }

  /** A leaf with these blocks. */
  method TornState(n: nat, a: Item, b: Item, ghost data: seq<SegmentFile.Cell>) returns (s: LeafFile.State)
    requires 2 <= n <= 100 && |a| == |b| == 1 && a != b
    ensures s.tree == TornTwo(n, a, b) && LeafNode.Good(s, GroupsOf(s.tree.bs), data)
  {
    var x, y := Low(n, a), High(n, a, b);
    LeafFile.EmptyKept(data);
    var e := LeafFile.Empty();
    var ps, gaps := PutIn(e.ps, e.gaps, 0, x, [], data);
    ghost var none: seq<Blk> := [];
    assert none[..0] + [x] + none[0..] == [x];
    ps, gaps := PutIn(ps, gaps, 1, y, [x], data);
    assert [x][..1] + [y] + [x][1..] == [x, y];
    s := LeafFile.State(TornTwo(n, a, b), ps, gaps);
    TwoTorn(n, a, b);
    GroupsList(s.tree.bs);
  }

  lemma {:induction false} TotalPairs(c: seq<Entry>)
    ensures Total(c) == |Scan.Pairs(c)|
  {
    if c != [] {
      TotalPairs(c[1..]);
      Scan.GroupKeys(c[0].key, c[0].items);
    }
  }

  /** What the leaf holds: n + 1 indices and n + 2 items. */
  lemma TornGroups(n: nat, a: Item, b: Item)
    requires 2 <= n <= 100 && |a| == |b| == 1 && a != b
    ensures var c := GroupsOf(TornTwo(n, a, b).bs);
      Ordered(c) && Grouped(c) && |c| == n + 1 && Total(c) == n + 2 && AllBelow(c, n + 1)
  {
    var t := TornTwo(n, a, b);
    var c := GroupsOf(t.bs);
    TwoTorn(n, a, b);
    TwoBlocks(n, a, b);
    TwoDistinct(n, a, b);
    GroupsList(t.bs);
    LeafNode.ListsCount(c, Pairs(t.bs));
    TotalPairs(c);
    assert |multiset(Scan.Pairs(c))| == |Scan.Pairs(c)|;
    forall i | 0 <= i < |c| ensures c[i].key < n + 1 { assert c[i].key in LeafNode.Indices(c); }
  }

  // ---------------------------------------------------------------- a full root leaf that is torn by its split

  /** The loop of split stops in the lower block without cutting it, so the upper block moves as it is. */
  lemma StopsBetween(n: nat, a: Item, b: Item)
    requires 2 <= n <= 100 && |a| == |b| == 1 && a != b
    ensures Balance.DivideTop(TornTwo(n, a, b).bs, 2) == Balance.Division(1, 0)
  {
    TwoUniques(n, a, b);
    DownCounts(n, a);
  }

  /** The item goes there, and there is room for it. */
  lemma GoesThere(n: nat, a: Item, b: Item, k: Key, item: Item)
    requires 2 <= n <= 100 && |a| == |b| == 1 && a != b && k > n && |item| == 1
    ensures LeafGrow.Target(TornTwo(n, a, b).bs, 2, k, true) == [High(n, a, b)]
    ensures !LeafGrow.Loses([High(n, a, b)], k, item)
  {
    StopsBetween(n, a, b);
    var y := High(n, a, b);
    assert y.es[1..] == [(n - 1, b)];
    WeightOne((n - 1, b));
    assert HasRoom(y, item);
    assert TornTwo(n, a, b).bs[1..] == [y];
  }

  /** Capacity 4, a root leaf with the indices 0, 1, 2, 3 in the blocks [(2, a), (1, a), (0, a)] and [(3, a), (2, b)],
      and index 5 to be appended: the tree is in order, the split is not at index 5 and the item is not dropped, but
      the leaf is torn. */
  method TornRoot(a: Item, b: Item, item: Item) returns (st: Store, lv: Leaves)
    requires |a| == |b| == |item| == 1 && a != b
    ensures Consistent(4, st, Some(0), 1, 5, 1, [], [[0]]) && Backed(st, lv, map[], [0])
    ensures 0 in lv && lv[0].tree.bs == [Blk(DEFAULT_SIZE, [(2, a), (1, a), (0, a)]),
      Blk(DEFAULT_SIZE, [(3, a), (2, b)])]
    ensures !Cuts(st, 4, Some(0), 5) && !DropsOn(st, lv, 4, Some(0), [[0]], 5, item)
    ensures TearsOn(st, lv, 4, Some(0), [[0]], 5)
  {
    var s := TornState(3, a, b, []);
    TornGroups(3, a, b);
    st, lv := map[0 := Leaf(GroupsOf(s.tree.bs), 0, None, None)], map[0 := s];
    RootInOrder(st, lv, s);
    assert Down(3, a) == [(2, a), (1, a), (0, a)];
    RootFate(s, a, b, item);
    assert TreeSearch.Covers(st, [[0]], 0, 0, 5);
    TearsThere(st, lv, 4, 0, [[0]], 0, 5);
    DropsThere(st, lv, 4, 0, [[0]], 0, 5, item);
  }

  lemma RootInOrder(st: Store, lv: Leaves, s: State)
    requires var c := GroupsOf(s.tree.bs);
      Ordered(c) && Grouped(c) && |c| == 4 && Total(c) == 5 && AllBelow(c, 4) && LeafNode.Good(s, c, [])
    requires st == map[0 := Leaf(GroupsOf(s.tree.bs), 0, None, None)] && lv == map[0 := s]
    ensures Consistent(4, st, Some(0), 1, 5, 1, [], [[0]]) && Backed(st, lv, map[], [0]) && !Cuts(st, 4, Some(0), 5)
    ensures LevelOk(st, [0], true) && Ordered(FlatE(st, [0]))
  {
    LeafTree(st, 0, 4);
    assert BackedAt(st, lv, map[], 0);
  }

  lemma RootFate(s: State, a: Item, b: Item, item: Item)
    requires |a| == |b| == |item| == 1 && a != b && s.tree == TornTwo(3, a, b)
    ensures Tears(s, 4) && !TreeLeaves.Drops(s, 4, 5, item, true)
  {
    TwoTorn(3, a, b);
    GoesThere(3, a, b, 5, item);
  }

  // ---------------------------------------------------------------- a left neighbour that is torn when it lends

  function Single(k: Key): Entry { Entry(k, [[0]]) }

  function Three(): (e: seq<Entry>)
    ensures |e| == 3
  {
    [Single(10), Single(11), Single(12)]
  }

  const LEVELS: Levels := [[0, 1], [2]]

  /** Two leaves, of seven groups and of three, under a root. */
  function TwoLeaves(c: seq<Entry>): Store {
    map[
      0 := Leaf(c, 0, None, Some(1)),
      1 := Leaf(Three(), 1, Some(0), None),
      2 := Inner([0, 1], None, None)]
  }

  lemma LeavesGood(c: seq<Entry>)
    requires |c| == 7
    ensures LevelGood(TwoLeaves(c), LEVELS, 12, NoHole, 0)
  {
    var st, l := TwoLeaves(c), LEVELS[0];
    assert LinkedAt(st, l, 0) && LinkedAt(st, l, 1);
  }

  lemma RootGood(c: seq<Entry>)
    requires |c| == 7
    ensures LevelGood(TwoLeaves(c), LEVELS, 12, NoHole, 1)
  {
    var st, l := TwoLeaves(c), LEVELS[1];
    assert LinkedAt(st, l, 0);
    FlatOne(st, 2);
  }

  lemma TwoLeavesShape(c: seq<Entry>)
    requires |c| == 7
    ensures Shape(TwoLeaves(c), LEVELS, 12, NoHole)
  {
    LeavesGood(c);
    RootGood(c);
    AllLevels(TwoLeaves(c), LEVELS, 12);
  }

  lemma ThreeSingles()
    ensures var e := Three(); Ordered(e) && Grouped(e) && Total(e) == 3 && Has(e, 10) && LeafBuild.Singles(e)
  {
    var e := Three();
    assert Rank(e, 10) == 0;
    assert e[1..] == [Single(11), Single(12)] && e[1..][1..] == [Single(12)] && e[1..][1..][1..] == [];
  }

  lemma TwoLeavesHold(c: seq<Entry>)
    requires |c| == 7 && Ordered(c) && Grouped(c) && AllBelow(c, 10)
    ensures var d := FlatE(TwoLeaves(c), [0, 1]); Ordered(d) && Grouped(d) && Total(d) == Total(c) + 3
  {
    var e := Three();
    FlatTwo(TwoLeaves(c), 0, 1);
    ThreeSingles();
    OrderedParts(c, e);
    TotalAdd(c, e);
    BothGrouped(c, e);
  }

  lemma BothGrouped(c: seq<Entry>, e: seq<Entry>)
    requires Grouped(c) && Grouped(e)
    ensures Grouped(c + e)
  {
  }

  lemma TwoLeavesInOrder(c: seq<Entry>)
    requires |c| == 7 && Ordered(c) && Grouped(c) && AllBelow(c, 7) && Total(c) == 8
    ensures Consistent(12, TwoLeaves(c), Some(2), 3, 11, 2, [], LEVELS)
  {
    TwoLeavesShape(c);
    TwoLeavesHold(c);
  }

  lemma RightLeaf(c: seq<Entry>)
    requires |c| == 7
    ensures var st := TwoLeaves(c);
      && LEVELS[0][1] == 1 && CountOf(st, 1) == 3 && st[1].right.None? && st[1].left == Some(0) && Count(st[0]) == 7
      && Has(EntriesOf(st, 1), 10)
  {
    ThreeSingles();
  }

  /** The left leaf lends two indices, and that tears it. */
  lemma LendsTorn(st: Store, lv: Leaves, c: seq<Entry>)
    requires |c| == 7 && st == TwoLeaves(c) && 0 in lv && Balance.Torn(lv[0].tree.bs, 2)
    ensures BorrowsTorn(st, lv, 12, Some(2), LEVELS, 10)
  {
    RightLeaf(c);
    assert TearsLeft(st, lv, 12, 1);
  }

  /** Capacity 12, a leaf of three groups and left of it one of seven: removing index 10 makes the right leaf borrow
      from the left one, which is torn. */
  method TornLeft(a: Item, b: Item) returns (st: Store, lv: Leaves)
    requires |a| == |b| == 1 && a != b
    ensures Consistent(12, st, Some(2), 3, 11, 2, [], LEVELS) && Backed(st, lv, map[], LEVELS[0])
    ensures !StrandsIn(st, 12, Some(2), LEVELS, 10) && BorrowsTorn(st, lv, 12, Some(2), LEVELS, 10)
  {
    var s, c := LeftState(a, b);
    var u, e := RightState();
    st, lv := TwoLeaves(c), map[0 := s, 1 := u];
    WhatTheyHold(c);
    LeafBuild.ServesAt(st, lv, 0, s, c);
    LeafBuild.ServesAt(st, lv, 1, u, e);
    BothBacked(st, lv);
    TornLeftEnds(c, st, lv);
  }

  method LeftState(a: Item, b: Item) returns (s: State, c: seq<Entry>)
    requires |a| == |b| == 1 && a != b
    ensures LeafBuild.Serves(s, c) && Balance.Torn(s.tree.bs, 2)
    ensures |c| == 7 && Ordered(c) && Grouped(c) && AllBelow(c, 7) && Total(c) == 8
  {
    s := TornState(6, a, b, []);
    c := GroupsOf(s.tree.bs);
    TornGroups(6, a, b);
    TwoTorn(6, a, b);
    LeafBuild.GoodServes(s, c);
  }

  method RightState() returns (u: State, e: seq<Entry>)
    ensures e == Three() && LeafBuild.Serves(u, e)
  {
    ThreeSingles();
    e := Three();
    u := LeafBuild.BuildServing(e);
  }

  lemma BothBacked(st: Store, lv: Leaves)
    requires BackedAt(st, lv, map[], 0) && BackedAt(st, lv, map[], 1)
    ensures Backed(st, lv, map[], LEVELS[0])
  {
    forall i | 0 <= i < |LEVELS[0]| ensures BackedAt(st, lv, map[], LEVELS[0][i]) {
      assert LEVELS[0][i] == 0 || LEVELS[0][i] == 1;
    }
  }

  lemma TornLeftEnds(c: seq<Entry>, st: Store, lv: Leaves)
    requires |c| == 7 && Ordered(c) && Grouped(c) && AllBelow(c, 7) && Total(c) == 8 && st == TwoLeaves(c)
    requires 0 in lv && Balance.Torn(lv[0].tree.bs, 2)
    ensures Consistent(12, st, Some(2), 3, 11, 2, [], LEVELS)
    ensures !StrandsIn(st, 12, Some(2), LEVELS, 10) && BorrowsTorn(st, lv, 12, Some(2), LEVELS, 10)
  {
    TwoLeavesInOrder(c);
    NeverStrands(st, 12, 2, LEVELS, 10);
    LendsTorn(st, lv, c);
  }

  lemma WhatTheyHold(c: seq<Entry>)
    ensures EntriesOf(TwoLeaves(c), 0) == c && EntriesOf(TwoLeaves(c), 1) == Three()
  {
  }
}
