/** leaf_node_t: a segment tree seen as the sorted list of groups that the B+ tree works with. */
module Leaf {
  import opened Multimap
  import Scan
  import opened Sequences
  import BlockSpec
  import Segments
  import opened SegmentAppend
  import Balance = SegmentBalance
  import SegmentRemove
  import SegmentFile
  import LeafPlaces
  import opened LeafFile

  type Pair = (Key, Item)

  /** The groups list exactly these entries. */
  ghost predicate Lists(c: seq<Entry>, m: multiset<Pair>) {
    Ordered(c) && Grouped(c) && multiset(Scan.Pairs(c)) == m
  }

  ghost predicate Below(low: multiset<Pair>, high: multiset<Pair>) {
    forall p, q :: p in low && q in high ==> p.0 < q.0
  }

  // ---------------------------------------------------------------- groups and entries

  ghost function Indices(c: seq<Entry>): set<Key> { set i | 0 <= i < |c| :: c[i].key }

  lemma {:induction false} IndexCount(c: seq<Entry>)
    requires Ordered(c)
    ensures |Indices(c)| == |c|
  {
    if c != [] {
      var t := c[1..];
      assert forall i :: 0 <= i < |t| ==> t[i] == c[i + 1];
      IndexCount(t);
      assert Indices(c) == Indices(t) + {c[0].key} by {
        forall k | k in Indices(c) ensures k in Indices(t) + {c[0].key} {
          var i :| 0 <= i < |c| && c[i].key == k;
          if i > 0 { assert t[i - 1].key == k; }
        }
        forall k | k in Indices(t) ensures k in Indices(c) {
          var i :| 0 <= i < |t| && t[i].key == k;
          assert c[i + 1].key == k;
        }
        assert c[0].key in Indices(c);
      }
      assert c[0].key !in Indices(t);
    } else {
      assert Indices(c) == {};
    }
  }

  /** Every group has an entry, and every entry a group. */
  lemma IndicesListed(c: seq<Entry>)
    requires Grouped(c)
    ensures KeysOf(multiset(Scan.Pairs(c))) == Indices(c)
  {
    var ps := Scan.Pairs(c);
    Scan.PairsKeys(c);
    forall k | k in KeysOf(multiset(ps)) ensures k in Indices(c) {
      var p: Pair :| p in multiset(ps) && p.0 == k;
      var i :| 0 <= i < |ps| && ps[i] == p;
      assert Scan.KeyIn(c, ps[i].0);
    }
    forall k | k in Indices(c) ensures k in KeysOf(multiset(ps)) {
      var i :| 0 <= i < |c| && c[i].key == k;
      GroupListed(c, i, c[i].items[0]);
      assert (k, c[i].items[0]) in multiset(ps);
    }
  }

  lemma {:induction false} GroupListed(c: seq<Entry>, i: nat, item: Item)
    requires i < |c| && item in c[i].items
    ensures (c[i].key, item) in Scan.Pairs(c)
  {
    if i > 0 {
      assert c[1..][i - 1] == c[i];
      GroupListed(c[1..], i - 1, item);
    } else {
      var j :| 0 <= j < |c[0].items| && c[0].items[j] == item;
      Scan.GroupKeys(c[0].key, c[0].items);
      assert Scan.GroupPairs(c[0].key, c[0].items)[j] == (c[0].key, item);
    }
  }

  lemma ListsCount(c: seq<Entry>, m: multiset<Pair>)
    requires Lists(c, m)
    ensures |c| == |KeysOf(m)| && KeysOf(m) == Indices(c)
  {
    IndicesListed(c);
    IndexCount(c);
  }

  // ---------------------------------------------------------------- two lists side by side

  /** Trees with disjoint ranges list their groups one after the other. */
  lemma ListsJoin(a: seq<Entry>, low: multiset<Pair>, b: seq<Entry>, high: multiset<Pair>)
    requires Lists(a, low) && Lists(b, high) && Below(low, high)
    ensures Lists(a + b, low + high)
  {
    Scan.PairsAdd(a, b);
    var c := a + b;
    forall i, j | 0 <= i < j < |c| ensures c[i].key < c[j].key {
      if i < |a| && j >= |a| {
        GroupListed(a, i, a[i].items[0]);
        GroupListed(b, j - |a|, b[j - |a|].items[0]);
        assert (a[i].key, a[i].items[0]) in low && (b[j - |a|].key, b[j - |a|].items[0]) in high;
      }
    }
    forall i | 0 <= i < |c| ensures c[i].items != [] { assert c[i] == if i < |a| then a[i] else b[i - |a|]; }
  }

  /** Where the groups of the upper tree begin. */
  lemma {:induction false} FindSeam(c: seq<Entry>, high: set<Key>) returns (s: nat)
    requires Ordered(c) && high <= Indices(c)
    requires forall i, j :: 0 <= i < j < |c| && c[i].key in high ==> c[j].key in high
    ensures s <= |c| && Indices(c[s..]) == high && forall i :: 0 <= i < s ==> c[i].key !in high
  {
    s := 0;
    while s < |c| && c[s].key !in high
      invariant s <= |c| && forall i :: 0 <= i < s ==> c[i].key !in high
    {
      s := s + 1;
    }
    var t := c[s..];
    assert forall i :: 0 <= i < |t| ==> t[i] == c[s + i];
    forall k | k in high ensures k in Indices(t) {
      var i :| 0 <= i < |c| && c[i].key == k;
      assert t[i - s].key == k;
    }
    forall k | k in Indices(t) ensures k in high {
      var i :| 0 <= i < |t| && t[i].key == k;
      assert c[s + i].key == k;
    }
  }

  lemma ListsSlices(c: seq<Entry>, s: nat)
    requires Ordered(c) && Grouped(c) && s <= |c|
    ensures Ordered(c[..s]) && Grouped(c[..s]) && Ordered(c[s..]) && Grouped(c[s..])
    ensures multiset(Scan.Pairs(c)) == multiset(Scan.Pairs(c[..s])) + multiset(Scan.Pairs(c[s..]))
  {
    InTwo(c, s);
    Scan.PairsAdd(c[..s], c[s..]);
    OrderedParts(c[..s], c[s..]);
  }

  /** If a sum is split by indices in two ways that agree on the indices, the parts agree. */
  lemma SameParts(low: multiset<Pair>, high: multiset<Pair>, x: multiset<Pair>, y: multiset<Pair>)
    requires low + high == x + y && KeysOf(high) == KeysOf(y)
    requires (forall p :: p in low ==> p.0 !in KeysOf(high)) && (forall p :: p in x ==> p.0 !in KeysOf(y))
    ensures low == x && high == y
  {
    forall p ensures low[p] == x[p] && high[p] == y[p] {
      assert (low + high)[p] == (x + y)[p];
      if p in high { assert p.0 in KeysOf(high); }
      if p in y { assert p.0 in KeysOf(y); }
    }
    assert low == x && high == y;
  }

  lemma UpwardClosed(c: seq<Entry>, low: multiset<Pair>, high: multiset<Pair>, i: nat, j: nat)
    requires Lists(c, low + high) && Below(low, high) && i < j < |c| && c[i].key in KeysOf(high)
    ensures c[j].key in KeysOf(high)
  {
    var q :| q in high && q.0 == c[i].key;
    var p := (c[j].key, c[j].items[0]);
    GroupListed(c, j, c[j].items[0]);
    assert p in multiset(Scan.Pairs(c));
    assert p in low || p in high;
  }

  /** The upper of two trees with disjoint ranges holds the last groups, as many as it has indices. */
  lemma ListsSplit(c: seq<Entry>, low: multiset<Pair>, high: multiset<Pair>, keep: nat)
    requires Lists(c, low + high) && Below(low, high) && |KeysOf(high)| == |c| - keep
    ensures Lists(c[..keep], low) && Lists(c[keep..], high)
  {
    var h := KeysOf(high);
    Balance.KeysAdd(low, high);
    IndicesListed(c);
    forall i, j | 0 <= i < j < |c| && c[i].key in h ensures c[j].key in h { UpwardClosed(c, low, high, i, j); }
    var s := FindSeam(c, h);
    ListsSlices(c, s);
    var a, b := c[..s], c[s..];
    IndexCount(b);
    assert s == keep;
    IndicesListed(a);
    IndicesListed(b);
    assert forall p :: p in low ==> p.0 !in h;
    LowerSide(c, s, h);
    SameParts(low, high, multiset(Scan.Pairs(a)), multiset(Scan.Pairs(b)));
  }

  lemma LowerSide(c: seq<Entry>, s: nat, h: set<Key>)
    requires s <= |c| && Grouped(c[..s]) && forall i :: 0 <= i < s ==> c[i].key !in h
    ensures forall p :: p in multiset(Scan.Pairs(c[..s])) ==> p.0 !in h
  {
    IndicesListed(c[..s]);
    forall p | p in multiset(Scan.Pairs(c[..s])) ensures p.0 !in h {
      assert p.0 in KeysOf(multiset(Scan.Pairs(c[..s])));
      var i :| 0 <= i < |c[..s]| && c[..s][i].key == p.0;
      assert c[..s][i] == c[i];
    }
  }

  // ---------------------------------------------------------------- one more item

  lemma GroupMore(k: Key, item: Item, g: seq<Item>)
    ensures multiset(Scan.GroupPairs(k, [item] + g)) == multiset(Scan.GroupPairs(k, g)) + multiset{(k, item)}
  {
    Scan.GroupPairsAdd(k, [item], g);
    Scan.GroupKeys(k, [item]);
    assert Scan.GroupPairs(k, [item]) == [(k, item)];
  }

  /** The entries around and of one group. */
  lemma PairsAround(a: seq<Entry>, mid: seq<Entry>, b: seq<Entry>)
    ensures multiset(Scan.Pairs(a + mid + b)) ==
      multiset(Scan.Pairs(a)) + multiset(Scan.Pairs(mid)) + multiset(Scan.Pairs(b))
  {
    Scan.PairsAdd(a + mid, b);
    Scan.PairsAdd(a, mid);
  }

  /** An item is listed exactly when it is in the group of its index. */
  lemma ListedIff(c: seq<Entry>, k: Key, item: Item)
    requires Ordered(c)
    ensures (k, item) in multiset(Scan.Pairs(c)) <==> item in Group(c, k)
  {
    var r := Rank(c, k);
    if item in Group(c, k) { GroupListed(c, r, item); }
    if (k, item) in Scan.Pairs(c) {
      var i, j := ListedAt(c, (k, item));
      assert c[i].key == k;
      HasIff(c, k);
      assert c[r].key == c[i].key;
      assert r == i;
    }
  }

  lemma {:induction false} ListedAt(c: seq<Entry>, p: Pair) returns (i: nat, j: nat)
    requires p in Scan.Pairs(c)
    ensures i < |c| && j < |c[i].items| && c[i].key == p.0 && c[i].items[j] == p.1
  {
    var g := Scan.GroupPairs(c[0].key, c[0].items);
    Scan.GroupKeys(c[0].key, c[0].items);
    if p in g {
      j :| 0 <= j < |g| && g[j] == p;
      i := 0;
    } else {
      i, j := ListedAt(c[1..], p);
      i := i + 1;
    }
  }

  /** The groups with the item put first in the group of its index. */
  ghost function WithItem(c: seq<Entry>, k: Key, item: Item): seq<Entry> {
    Put(c, k, InsertAt(Group(c, k), 0, item))
  }

  lemma ListsMore(c: seq<Entry>, k: Key, item: Item)
    requires Ordered(c)
    ensures multiset(Scan.Pairs(WithItem(c, k, item))) == multiset(Scan.Pairs(c)) + multiset{(k, item)}
  {
    var r, g := Rank(c, k), Group(c, k);
    var a, b := c[..r], c[if Has(c, k) then r + 1 else r..];
    var e := Entry(k, [item] + g);
    assert InsertAt(g, 0, item) == [item] + g;
    PairsAround(a, [e], b);
    Scan.PairsOne(e);
    GroupMore(k, item, g);
    if Has(c, k) {
      Around(c, r);
      PairsAround(a, [c[r]], b);
      Scan.PairsOne(c[r]);
    } else {
      InTwo(c, r);
      Scan.PairsAdd(a, b);
      assert Scan.GroupPairs(k, []) == [];
    }
  }

  lemma ListsAppend(c: seq<Entry>, m: multiset<Pair>, k: Key, item: Item)
    requires Lists(c, m) && (k, item) !in m
    ensures Lists(WithItem(c, k, item), m + multiset{(k, item)})
      && Grown(c, WithItem(c, k, item), k, item, Stored)
  {
    ListedIff(c, k, item);
    ListsMore(c, k, item);
    PutOrdered(c, k, InsertAt(Group(c, k), 0, item));
  }

  // ---------------------------------------------------------------- one group less

  lemma {:induction false} KeysListed(c: seq<Entry>, p: Pair)
    requires p in multiset(Scan.Pairs(c))
    ensures exists i :: 0 <= i < |c| && c[i].key == p.0
  {
    var i, _ := ListedAt(c, p);
    assert c[i].key == p.0;
  }

  /** Dropping a group takes exactly the entries of its index out. */
  lemma ListsDrop(c: seq<Entry>, m: multiset<Pair>, k: Key, m': multiset<Pair>)
    requires Lists(c, m) && SegmentRemove.Cleared(m, m', k)
    ensures Lists(Drop(c, k), m') && (Has(c, k) <==> k in KeysOf(m))
  {
    DropOrdered(c, k);
    HasIff(c, k);
    ListsCount(c, m);
    var x := multiset(Scan.Pairs(Drop(c, k)));
    forall p: Pair ensures x[p] == m'[p] {
      if p.0 != k { OthersStay(c, k, p); } else { NoneStay(c, k, p); }
    }
    assert x == m';
  }

  lemma OthersStay(c: seq<Entry>, k: Key, p: Pair)
    requires p.0 != k
    ensures multiset(Scan.Pairs(Drop(c, k)))[p] == multiset(Scan.Pairs(c))[p]
  {
    var r := Rank(c, k);
    if Has(c, k) {
      Around(c, r);
      PairsAround(c[..r], [c[r]], c[r + 1..]);
      Scan.PairsAdd(c[..r], c[r + 1..]);
      if p in multiset(Scan.Pairs([c[r]])) { KeysListed([c[r]], p); }
    }
  }

  lemma NoneStay(c: seq<Entry>, k: Key, p: Pair)
    requires Ordered(c) && p.0 == k
    ensures p !in multiset(Scan.Pairs(Drop(c, k)))
  {
    GroupOfDrop(c, k, k);
    DropOrdered(c, k);
    ListedIff(Drop(c, k), k, p.1);
  }

  // ---------------------------------------------------------------- from trees to groups

  /** A valid segment tree and the groups it holds. */
  ghost predicate Of(t: Balance.Tree, c: seq<Entry>) {
    Balance.SoundTree(t) && Lists(c, Segments.Pairs(t.bs))
  }

  ghost predicate LiesBelow(a: seq<Entry>, b: seq<Entry>) {
    a != [] && b != [] && a[|a| - 1].key < b[0].key
  }

  ghost predicate Apart(a: seq<Entry>, b: seq<Entry>) { LiesBelow(a, b) || LiesBelow(b, a) }

  /** The counter of indices is the number of groups. */
  lemma GroupCount(t: Balance.Tree, c: seq<Entry>)
    requires Of(t, c)
    ensures t.uniques == |c| == |KeysOf(Segments.Pairs(t.bs))|
  {
    ListsCount(c, Segments.Pairs(t.bs));
  }

  /** The entries of lists with disjoint ranges have disjoint ranges. */
  lemma EntriesBelow(a: seq<Entry>, x: multiset<Pair>, b: seq<Entry>, y: multiset<Pair>)
    requires Lists(a, x) && Lists(b, y) && LiesBelow(a, b)
    ensures Below(x, y)
  {
    forall p, q | p in x && q in y ensures p.0 < q.0 {
      var i, _ := ListedAt(a, p);
      var j, _ := ListedAt(b, q);
      FarApart(a, b, i, j);
    }
  }

  lemma FarApart(a: seq<Entry>, b: seq<Entry>, i: nat, j: nat)
    requires Ordered(a) && Ordered(b) && LiesBelow(a, b) && i < |a| && j < |b|
    ensures a[i].key < b[j].key
  {
  }

  lemma HasBlocks(t: Balance.Tree, c: seq<Entry>)
    requires Of(t, c) && c != []
    ensures t.bs != []
  {
    GroupListed(c, 0, c[0].items[0]);
    assert (c[0].key, c[0].items[0]) in Segments.Pairs(t.bs);
  }

  /** Groups that lie below others are in blocks that do. */
  lemma BlocksBelow(t: Balance.Tree, a: seq<Entry>, u: Balance.Tree, b: seq<Entry>)
    requires Of(t, a) && Of(u, b) && LiesBelow(a, b)
    ensures Balance.LiesBelow(t, u)
  {
    HasBlocks(t, a);
    HasBlocks(u, b);
    EntriesBelow(a, Segments.Pairs(t.bs), b, Segments.Pairs(u.bs));
    EndBlocks(t.bs, u.bs);
  }

  lemma EndBlocks(low: seq<BlockSpec.Blk>, high: seq<BlockSpec.Blk>)
    requires Segments.Blocks(low) && Segments.Blocks(high) && low != [] && high != []
      && Below(Segments.Pairs(low), Segments.Pairs(high))
    ensures Segments.Max(low[|low| - 1]) < Segments.Min(high[0])
  {
    Balance.EndsListed(low);
    Balance.EndsListed(high);
    var p :| p in Segments.Pairs(low) && p.0 == Segments.Max(low[|low| - 1]);
    var q :| q in Segments.Pairs(high) && q.0 == Segments.Min(high[0]);
  }

  /** Which tree is below is which groups are. */
  lemma WhichBelow(t: Balance.Tree, a: seq<Entry>, u: Balance.Tree, b: seq<Entry>)
    requires Of(t, a) && Of(u, b) && Apart(a, b)
    ensures Balance.LiesBelow(t, u) <==> LiesBelow(a, b)
    ensures Balance.LiesBelow(u, t) <==> !LiesBelow(a, b)
  {
    if LiesBelow(a, b) { BlocksBelow(t, a, u, b); } else { BlocksBelow(u, b, t, a); }
    Balance.OrderTest(t, u);
  }

  lemma JoinedGroups(t: Balance.Tree, a: seq<Entry>, u: Balance.Tree, b: seq<Entry>, c: seq<Entry>)
    requires Of(t, a) && Of(u, b) && Apart(a, b) && c == (if LiesBelow(a, b) then a + b else b + a)
    ensures Lists(c, Segments.Pairs(t.bs) + Segments.Pairs(u.bs))
  {
    var x, y := Segments.Pairs(t.bs), Segments.Pairs(u.bs);
    if LiesBelow(a, b) {
      EntriesBelow(a, x, b, y);
      ListsJoin(a, x, b, y);
    } else {
      EntriesBelow(b, y, a, x);
      ListsJoin(b, y, a, x);
      Balance.Commute(x, y);
    }
  }

  // ---------------------------------------------------------------- the operations of a leaf

  /** A leaf in order: its segment tree is valid, holds these groups, and is kept in its file as it should be. */
  ghost predicate Good(s: State, c: seq<Entry>, data: seq<SegmentFile.Cell>) {
    Of(s.tree, c) && Kept(s, data)
  }

  /** leaf_node_t::append: the outcomes the B+ tree reckons with. The item is dropped exactly if its sizes say
      so, and then the segment tree holds what it held but is not valid any more. */
  method Append(s: State, k: Key, item: Item, ghost c: seq<Entry>, ghost data: seq<SegmentFile.Cell>)
    returns (ok: bool, dropped: bool, s': State)
    requires Good(s, c, data) && |item| > 0
    ensures ok == (item !in Group(c, k)) == ((k, item) !in Segments.Pairs(s.tree.bs)) && Kept(s', data)
    ensures dropped <==> ok && Drops(s.tree.bs, k, item)
    ensures Balance.SoundTree(s'.tree) <==> !dropped
    ensures Lists(if ok && !dropped then WithItem(c, k, item) else c, Segments.Pairs(s'.tree.bs)) && Carried(s, s')
  {
    ok, dropped, s' := LeafFile.Append(s, k, item, 0, data);
    Appended(s.tree, s'.tree, c, k, item, ok, dropped);
  }

  lemma Appended(t: Balance.Tree, t': Balance.Tree, c: seq<Entry>, k: Key, item: Item, ok: bool, dropped: bool)
    requires Of(t, c) && Appends(t, t', k, item, ok, 0) && (dropped <==> ok && Drops(t.bs, k, item))
    ensures ok == (item !in Group(c, k)) && (Balance.SoundTree(t') <==> !dropped)
    ensures Lists(if ok && !dropped then WithItem(c, k, item) else c, Segments.Pairs(t'.bs))
  {
    ListedIff(c, k, item);
    if ok && !dropped { ListsAppend(c, Segments.Pairs(t.bs), k, item); }
  }

  /** Where an item stands in its group makes no difference to what is listed. */
  lemma ListsAnywhere(c: seq<Entry>, k: Key, item: Item, at: nat, m: multiset<Pair>)
    requires Ordered(c) && Grouped(c) && at <= |Group(c, k)| && Lists(WithItem(c, k, item), m)
    ensures Lists(Put(c, k, InsertAt(Group(c, k), at, item)), m)
  {
    var g := Group(c, k);
    PutOrdered(c, k, InsertAt(g, at, item));
    PutPairs(c, k, InsertAt(g, at, item));
    PutPairs(c, k, InsertAt(g, 0, item));
    InsertPairs(k, g, at, item);
    InsertPairs(k, g, 0, item);
  }

  lemma InsertPairs(k: Key, g: seq<Item>, at: nat, item: Item)
    requires at <= |g|
    ensures multiset(Scan.GroupPairs(k, InsertAt(g, at, item))) ==
      multiset(Scan.GroupPairs(k, g)) + multiset{(k, item)}
  {
    InTwo(g, at);
    Scan.GroupPairsAdd(k, g[..at] + [item], g[at..]);
    Scan.GroupPairsAdd(k, g[..at], [item]);
    Scan.GroupPairsAdd(k, g[..at], g[at..]);
    Scan.GroupKeys(k, [item]);
    assert Scan.GroupPairs(k, [item]) == [(k, item)];
  }

  /** The entries around the group of k, and the group. */
  lemma PutPairs(c: seq<Entry>, k: Key, g: seq<Item>)
    ensures var r := Rank(c, k);
      multiset(Scan.Pairs(Put(c, k, g))) == multiset(Scan.Pairs(c[..r])) + multiset(Scan.GroupPairs(k, g))
        + multiset(Scan.Pairs(c[if Has(c, k) then r + 1 else r..]))
  {
    var r := Rank(c, k);
    PairsAround(c[..r], [Entry(k, g)], c[if Has(c, k) then r + 1 else r..]);
    Scan.PairsOne(Entry(k, g));
  }

  /** The first m groups are in one leaf, the others in the other one. */
  ghost predicate Halved(low: Balance.Tree, high: Balance.Tree, c: seq<Entry>, m: nat) {
    m <= |c| && Of(low, c[..m]) && Of(high, c[m..])
  }

  /** The first m groups are in one leaf and the others in the other one, or the leaf is torn. */
  ghost predicate Parted(low: Balance.Tree, high: Balance.Tree, c: seq<Entry>, m: nat, torn: bool) {
    Halved(low, high, c, m) <==> !torn
  }

  /** leaf_node_t::split: the last half of the groups, rounded down, moves to the new leaf, exactly if the
      segment tree is not torn. If it is, the counter of the leaf is one too low, and if a block is cut for it,
      that of the new leaf one too high. */
  method Split(s: State, ghost c: seq<Entry>, ghost m: nat, ghost n: nat, ghost data: seq<SegmentFile.Cell>,
      ghost other: seq<SegmentFile.Cell>)
    returns (low: State, high: State, ghost d: Balance.Division)
    requires Good(s, c, data) && |c| > 1 && m + n == |c| && (m == n || m == n + 1)
    ensures Kept(low, data) && Kept(high, other) && Splits(s.tree, low.tree, high.tree, n, d)
    ensures Parted(low.tree, high.tree, c, m, Balance.Torn(s.tree.bs, n))
    ensures Counts(low.tree, if Balance.Torn(s.tree.bs, n) then 1 else 0)
    ensures Counts(high.tree, if Balance.Torn(s.tree.bs, n) && d.at > 0 then -1 else 0)
    ensures 0 < d.n <= |s.ps| && low.ps == LeafPlaces.Touched(s.ps, d.n - 1, |s.ps|)[..d.n]
    ensures Carried(Empty(), high) && (if d.at == 0 then Carried(s, low) else CarriedBut(s, low, d.n - 1))
  {
    GroupCount(s.tree, c);
    low, high, d := LeafFile.Split(s, n, data, other);
    ghost var torn := Balance.Torn(s.tree.bs, n);
    SplitFacts(s.tree, low.tree, high.tree, n, d, torn);
    SplitCounts(s.tree, low.tree, high.tree, n, d, torn);
    SplitOutcome(s.tree, c, low.tree, high.tree, m, n, torn);
  }

  /** What is needed of a split to see which groups the halves hold. */
  ghost predicate Cleft(t: Balance.Tree, low: Balance.Tree, high: Balance.Tree, n: nat, torn: bool) {
    && Segments.Pairs(low.bs) + Segments.Pairs(high.bs) == Segments.Pairs(t.bs) && high.uniques == n
    && if torn then !Balance.SoundTree(low) else Balance.Settled(low, high)
  }

  lemma SplitFacts(t: Balance.Tree, low: Balance.Tree, high: Balance.Tree, n: nat, d: Balance.Division, torn: bool)
    requires Splits(t, low, high, n, d) && torn == Balance.Torn(t.bs, n)
    ensures Cleft(t, low, high, n, torn)
  {
    if torn { TornCount(low); }
  }

  /** Valid but for the counter of indices, which is d too low. */
  ghost predicate Counts(t: Balance.Tree, d: int) { SoundBut(t.bs, t.meta, t.items, t.uniques, d) }

  lemma SplitCounts(t: Balance.Tree, low: Balance.Tree, high: Balance.Tree, n: nat, d: Balance.Division, torn: bool)
    requires Balance.SoundTree(t) && Splits(t, low, high, n, d) && torn == Balance.Torn(t.bs, n)
    ensures Counts(low, if torn then 1 else 0) && Counts(high, if torn && d.at > 0 then -1 else 0)
  {
    Balance.OnceParts(Segments.Pairs(low.bs), Segments.Pairs(high.bs));
    if torn { TornTells(low, high, d); } else { SettledTells(low, high); }
  }

  lemma TornTells(low: Balance.Tree, high: Balance.Tree, d: Balance.Division)
    requires Balance.TornCounts(d, low, high) && Balance.Listed(low) && Balance.Listed(high)
    requires Segments.Blocks(low.bs) && Segments.Blocks(high.bs)
    requires (forall p :: Segments.Pairs(low.bs)[p] <= 1) && forall p :: Segments.Pairs(high.bs)[p] <= 1
    ensures Counts(low, 1) && Counts(high, if d.at > 0 then -1 else 0)
  {
  }

  lemma SettledTells(low: Balance.Tree, high: Balance.Tree)
    requires Balance.Settled(low, high)
    ensures Counts(low, 0) && Counts(high, 0)
  {
  }

  lemma SplitOutcome(t: Balance.Tree, c: seq<Entry>, low: Balance.Tree, high: Balance.Tree, m: nat, n: nat,
      torn: bool)
    requires Lists(c, Segments.Pairs(t.bs)) && m + n == |c| && Cleft(t, low, high, n, torn)
    ensures Parted(low, high, c, m, torn)
  {
    if torn { NotHalved(low, high, c, m); } else { SplitGroups(c, low, high, m); }
  }

  lemma NotHalved(low: Balance.Tree, high: Balance.Tree, c: seq<Entry>, m: nat)
    requires !Balance.SoundTree(low)
    ensures !Halved(low, high, c, m)
  {
  }

  lemma TornCount(low: Balance.Tree)
    requires Balance.Distinct(low.bs) == low.uniques + 1
    ensures !Balance.SoundTree(low)
  {
  }

  lemma SplitGroups(c: seq<Entry>, low: Balance.Tree, high: Balance.Tree, keep: nat)
    requires Balance.Settled(low, high) && high.uniques == |c| - keep
    requires Lists(c, Segments.Pairs(low.bs) + Segments.Pairs(high.bs))
    ensures Halved(low, high, c, keep)
  {
    ListsSplit(c, Segments.Pairs(low.bs), Segments.Pairs(high.bs), keep);
  }

  /** The upper of two leaves is the smaller one, and the lower one is torn when its largest indices are taken, so
      many that the smaller one has n. */
  ghost predicate Tears(u: Balance.Tree, a: seq<Entry>, b: seq<Entry>, n: nat) {
    !LiesBelow(a, b) && Balance.Torn(u.bs, n - |a|)
  }

  /** What each leaf has after balancing: the one that lies below has the first groups of both. */
  ghost function FirstShare(a: seq<Entry>, b: seq<Entry>, n: nat): seq<Entry>
    requires n <= |a| + |b|
  {
    if LiesBelow(a, b) then (a + b)[..n] else (b + a)[|a| + |b| - n..]
  }

  ghost function OtherShare(a: seq<Entry>, b: seq<Entry>, n: nat): seq<Entry>
    requires n <= |a| + |b|
  {
    if LiesBelow(a, b) then (a + b)[n..] else (b + a)[..|a| + |b| - n]
  }

  /** leaf_node_t::balance, called on the smaller of two neighbours: the one that lies below gets the first groups
      of both, the other the rest, so many that the smaller ends up with half, rounded down; unless the other one
      is torn. */
  method BalanceLeaves(s: State, u: State, ghost a: seq<Entry>, ghost b: seq<Entry>, ghost n: nat,
      ghost data: seq<SegmentFile.Cell>, ghost other: seq<SegmentFile.Cell>)
    returns (s': State, u': State)
    requires Good(s, a, data) && Good(u, b, other) && 0 < |a| < |b| && Apart(a, b) && Half(|a| + |b|, n)
    ensures Kept(s', data) && Kept(u', other)
    ensures Balanced(Tears(u.tree, a, b, n), a, b, n, s'.tree, u'.tree)
    ensures Carried(s, s') && (LiesBelow(a, b) ==> Carried(u, u'))
  {
    GroupCount(s.tree, a);
    GroupCount(u.tree, b);
    WhichBelow(s.tree, a, u.tree, b);
    HalfOf(|a| + |b|, n);
    ghost var d;
    s', u', d := LeafFile.BalanceWith(s, u, data, other);
    BalancedEither(s.tree, u.tree, a, b, n, d, s'.tree, u'.tree, Tears(u.tree, a, b, n));
  }

  lemma BalancedEither(t: Balance.Tree, u: Balance.Tree, a: seq<Entry>, b: seq<Entry>, n: nat, d: Balance.Division,
      t': Balance.Tree, u': Balance.Tree, torn: bool)
    requires Of(t, a) && Of(u, b) && t.uniques == |a| && u.uniques == |b| && Apart(a, b) && n == (|a| + |b|) / 2
    requires torn == Tears(u, a, b, n) && Balance.Balances(t, u, d, t', u')
    requires (Balance.LiesBelow(t, u) <==> LiesBelow(a, b)) && (Balance.LiesBelow(u, t) <==> !LiesBelow(a, b))
    ensures Balanced(torn, a, b, n, t', u')
  {
    var size := Balance.Share(t, u);
    EvenedOut(t, u, d, t', u', size, Balance.Torn(u.bs, size));
    TearsMeans(u, a, b, n, size, Balance.Torn(u.bs, size));
    BalancedLeaves(t, u, a, b, n, t', u', torn);
  }

  lemma TearsMeans(u: Balance.Tree, a: seq<Entry>, b: seq<Entry>, n: nat, size: int, torn: bool)
    requires size == n - |a| && torn == Balance.Torn(u.bs, size)
    ensures Tears(u, a, b, n) <==> !LiesBelow(a, b) && torn
  {
  }

  /** What balance_with makes of the two trees; `torn` tells whether it tears the other one. */
  ghost predicate Evened(t: Balance.Tree, u: Balance.Tree, t': Balance.Tree, u': Balance.Tree, size: int, torn: bool) {
    && (Balance.LiesBelow(t, u) ==>
      && Segments.Pairs(t'.bs) + Segments.Pairs(u'.bs) == Segments.Pairs(t.bs) + Segments.Pairs(u.bs)
      && Balance.Settled(t', u') && u'.uniques == u.uniques - size)
    && (Balance.LiesBelow(u, t) ==>
      && Segments.Pairs(u'.bs) + Segments.Pairs(t'.bs) == Segments.Pairs(u.bs) + Segments.Pairs(t.bs)
      && t'.uniques == t.uniques + size && if torn then !Balance.SoundTree(u') else Balance.Settled(u', t'))
  }

  lemma EvenedOut(t: Balance.Tree, u: Balance.Tree, d: Balance.Division, t': Balance.Tree, u': Balance.Tree, size: int,
      torn: bool)
    requires Balance.Balances(t, u, d, t', u') && size == Balance.Share(t, u) && torn == Balance.Torn(u.bs, size)
    ensures Evened(t, u, t', u', size, torn)
  {
    if Balance.LiesBelow(u, t) { TopFacts(u, t, size, d, u', t', torn); }
  }

  /** What is shown of a balance; `torn` tells whether it tears the other leaf. */
  ghost predicate Balanced(torn: bool, a: seq<Entry>, b: seq<Entry>, n: nat, t': Balance.Tree, u': Balance.Tree)
    requires n <= |a| + |b|
  {
    if torn then !Balance.SoundTree(u') else Of(t', FirstShare(a, b, n)) && Of(u', OtherShare(a, b, n))
  }

  lemma BalancedLeaves(t: Balance.Tree, u: Balance.Tree, a: seq<Entry>, b: seq<Entry>, n: nat, t': Balance.Tree,
      u': Balance.Tree, torn: bool)
    requires Of(t, a) && Of(u, b) && t.uniques == |a| && u.uniques == |b| && Apart(a, b) && n <= |a| + |b|
    requires (LiesBelow(a, b) ==> !torn) && Evened(t, u, t', u', n - |a|, torn)
    requires (Balance.LiesBelow(t, u) <==> LiesBelow(a, b)) && (Balance.LiesBelow(u, t) <==> !LiesBelow(a, b))
    ensures Balanced(torn, a, b, n, t', u')
  {
    if LiesBelow(a, b) {
      BalancedDown(t, u, a, b, n, t', u');
    } else if !torn {
      BalancedUp(t, u, a, b, n, t', u', |a| + |b| - n);
    }
  }

  lemma BalancedDown(t: Balance.Tree, u: Balance.Tree, a: seq<Entry>, b: seq<Entry>, n: nat, t': Balance.Tree,
      u': Balance.Tree)
    requires Of(t, a) && Of(u, b) && LiesBelow(a, b) && n <= |a| + |b| && u'.uniques == |a| + |b| - n
    requires Segments.Pairs(t'.bs) + Segments.Pairs(u'.bs) == Segments.Pairs(t.bs) + Segments.Pairs(u.bs)
    requires Balance.Settled(t', u')
    ensures Balanced(false, a, b, n, t', u')
  {
    LoweredGroups(t, a, u, b, t', u', n);
  }

  lemma BalancedUp(t: Balance.Tree, u: Balance.Tree, a: seq<Entry>, b: seq<Entry>, n: nat, t': Balance.Tree,
      u': Balance.Tree, m: nat)
    requires Of(t, a) && Of(u, b) && LiesBelow(b, a) && !LiesBelow(a, b) && m + n == |a| + |b| && t'.uniques == n
    requires Segments.Pairs(u'.bs) + Segments.Pairs(t'.bs) == Segments.Pairs(u.bs) + Segments.Pairs(t.bs)
    requires Balance.Settled(u', t')
    ensures Balanced(false, a, b, n, t', u')
  {
    RaisedGroups(t, a, u, b, t', u', m);
  }

  lemma TopFacts(u: Balance.Tree, t: Balance.Tree, size: nat, d: Balance.Division, u': Balance.Tree,
      t': Balance.Tree, torn: bool)
    requires Balance.TookTop(u, t, size, d, u', t') && torn == Balance.Torn(u.bs, size)
    ensures Segments.Pairs(u'.bs) + Segments.Pairs(t'.bs) == Segments.Pairs(u.bs) + Segments.Pairs(t.bs)
    ensures t'.uniques == t.uniques + size
    ensures if torn then !Balance.SoundTree(u') else Balance.Settled(u', t')
  {
    if torn { TornCount(u'); }
  }

  lemma LoweredGroups(t: Balance.Tree, a: seq<Entry>, u: Balance.Tree, b: seq<Entry>, t': Balance.Tree,
      u': Balance.Tree, n: nat)
    requires Of(t, a) && Of(u, b) && LiesBelow(a, b)
    requires Segments.Pairs(t'.bs) + Segments.Pairs(u'.bs) == Segments.Pairs(t.bs) + Segments.Pairs(u.bs)
    requires Balance.Settled(t', u') && u'.uniques == |a + b| - n
    ensures Halved(t', u', a + b, n)
  {
    JoinedGroups(t, a, u, b, a + b);
    SplitGroups(a + b, t', u', n);
  }

  lemma RaisedGroups(t: Balance.Tree, a: seq<Entry>, u: Balance.Tree, b: seq<Entry>, t': Balance.Tree,
      u': Balance.Tree, n: nat)
    requires Of(t, a) && Of(u, b) && LiesBelow(b, a) && !LiesBelow(a, b)
    requires Segments.Pairs(u'.bs) + Segments.Pairs(t'.bs) == Segments.Pairs(u.bs) + Segments.Pairs(t.bs)
    requires Balance.Settled(u', t') && t'.uniques == |b + a| - n
    ensures Halved(u', t', b + a, n)
  {
    JoinedGroups(t, a, u, b, b + a);
    Balance.Commute(Segments.Pairs(t.bs), Segments.Pairs(u.bs));
    SplitGroups(b + a, u', t', n);
  }

  /** leaf_node_t::merge: the groups of the other leaf come in front of or behind the own ones. */
  method Merge(s: State, u: State, ghost a: seq<Entry>, ghost b: seq<Entry>, ghost data: seq<SegmentFile.Cell>,
      ghost other: seq<SegmentFile.Cell>)
    returns (s': State)
    requires Good(s, a, data) && Good(u, b, other) && Apart(a, b)
    ensures Good(s', if LiesBelow(a, b) then a + b else b + a, data) && Carried(s, s')
  {
    WhichBelow(s.tree, a, u.tree, b);
    JoinedGroups(s.tree, a, u.tree, b, if LiesBelow(a, b) then a + b else b + a);
    s' := LeafFile.Merge(s, u, data, other);
    Balance.Commute(Segments.Pairs(s.tree.bs), Segments.Pairs(u.tree.bs));
  }

  /** leaf_node_t::remove_index: exactly the group of the index goes. */
  method RemoveIndex(s: State, k: Key, ghost c: seq<Entry>, ghost data: seq<SegmentFile.Cell>)
    returns (fault: bool, ok: bool, s': State, ghost p: SegmentRemove.Clearing)
    requires Good(s, c, data)
    ensures (ok <==> Has(c, k)) && (fault <==> ok && LastMissing(s, p))
    ensures ok ==> Covers(s.tree.bs, k, p.b, p.e)
    ensures Carried(s, s') && if fault then s' == s else Good(s', Drop(c, k), data)
  {
    fault, ok, s', p := LeafFile.RemoveIndex(s, k, data);
    ListsCount(c, Segments.Pairs(s.tree.bs));
    HasIff(c, k);
    if !fault { ListsDrop(c, Segments.Pairs(s.tree.bs), k, Segments.Pairs(s'.tree.bs)); } else { HasListed(c, k); }
  }

  lemma HasListed(c: seq<Entry>, k: Key)
    requires Ordered(c)
    ensures Has(c, k) <==> k in Indices(c)
  {
    HasIff(c, k);
  }
}
