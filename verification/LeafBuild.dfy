/** Every list of indices with an item each is held by some leaf: the one that gets them in order. */
module LeafBuild {
  import opened Multimap
  import opened Sequences
  import Scan
  import Segments
  import opened SegmentAppend
  import SegmentFile
  import LeafFile
  import opened Leaf
  import opened NodeStore
  import opened TreeLeaves

  /** Every group has one item. */
  ghost predicate Singles(c: seq<Entry>) {
    Ordered(c) && forall i :: 0 <= i < |c| ==> |c[i].items| == 1 && |c[i].items[0]| > 0
  }

  /** No block reaches an index above all groups. */
  lemma EndsBelow(t: LeafFile.Tree, c: seq<Entry>, k: Key)
    requires Of(t, c) && AllBelow(c, k)
    ensures forall i :: 0 <= i < |t.bs| ==> Segments.Max(t.bs[i]) < k
  {
    forall i | 0 <= i < |t.bs| ensures Segments.Max(t.bs[i]) < k {
      var p := t.bs[i].es[0];
      assert p in t.bs[i].es;
      InPairs(t.bs, p);
      KeysListed(c, p);
    }
  }

  /** Such an index is never lost. */
  lemma AboveStays(t: LeafFile.Tree, c: seq<Entry>, k: Key, item: Item)
    requires Of(t, c) && AllBelow(c, k)
    ensures !SegmentAppend.Drops(t.bs, k, item)
  {
    EndsBelow(t, c, k);
    if t.bs != [] { NoDrop(t.bs, k, item, |t.bs| - 1); }
  }

  lemma OneBehind(c: seq<Entry>, i: nat)
    requires Singles(c) && i < |c|
    ensures AllBelow(c[..i], c[i].key) && Group(c[..i], c[i].key) == []
    ensures WithItem(c[..i], c[i].key, c[i].items[0]) == c[..i + 1]
  {
    var a, k := c[..i], c[i].key;
    assert a[..|a|] == a;
    OrderedSlice(c, 0, i);
    assert c[0..i] == a;
    RankUnique(a, k, |a|);
    assert InsertAt([], 0, c[i].items[0]) == c[i].items;
    assert a[|a|..] == [];
    Ends(c, i);
    assert Entry(k, c[i].items) == c[i];
    assert a + [c[i]] + [] == a + [c[i]];
  }

  /** The leaf that holds them. */
  method Build(c: seq<Entry>, ghost data: seq<SegmentFile.Cell>) returns (s: State)
    requires Singles(c)
    ensures Good(s, c, data)
  {
    s := LeafFile.Empty();
    LeafFile.EmptyKept(data);
    assert Scan.Pairs([]) == [];
    for i := 0 to |c|
      invariant Good(s, c[..i], data)
    {
      OneBehind(c, i);
      AboveStays(s.tree, c[..i], c[i].key, c[i].items[0]);
      var ok, dropped;
      ok, dropped, s := Leaf.Append(s, c[i].key, c[i].items[0], c[..i], data);
    }
    Whole(c);
  }

  /** Wherever this state is that of a leaf with these groups, the leaf is backed. */
  ghost predicate Serves(s: State, c: seq<Entry>) {
    forall st: Store, lv: Leaves, x: Id {:trigger BackedAt(st, lv, map[], x)} ::
      x in lv && lv[x] == s && EntriesOf(st, x) == c ==> BackedAt(st, lv, map[], x)
  }

  lemma GoodServes(s: State, c: seq<Entry>)
    requires Good(s, c, [])
    ensures Serves(s, c)
  {
  }

  lemma ServesAt(st: Store, lv: Leaves, x: Id, s: State, c: seq<Entry>)
    requires Serves(s, c) && x in lv && lv[x] == s && EntriesOf(st, x) == c
    ensures BackedAt(st, lv, map[], x)
  {
  }

  method BuildServing(c: seq<Entry>) returns (s: State)
    requires Singles(c)
    ensures Serves(s, c)
  {
    s := Build(c, []);
    GoodServes(s, c);
  }
}
