/** What a leaf holds when it is opened again: the groups of the entries its blocks list. */
module LeafLoad {
  import opened Multimap
  import Scan
  import opened BlockSpec
  import Segments
  import opened Leaf
  import LeafQuery

  /** The entries of a list of blocks. */
  function EntriesIn(bs: seq<Blk>): seq<Pair> { if bs == [] then [] else bs[0].es + EntriesIn(bs[1..]) }

  lemma {:induction false} EntriesAre(bs: seq<Blk>)
    ensures multiset(EntriesIn(bs)) == Segments.Pairs(bs)
  {
    if bs != [] { EntriesAre(bs[1..]); }
  }

  /** Entries put together by index. */
  function Gather(ps: seq<Pair>): seq<Entry> {
    if ps == [] then [] else
      var c := Gather(ps[1..]);
      Put(c, ps[0].0, InsertAt(Group(c, ps[0].0), 0, ps[0].1))
  }

  lemma OneMore(c: seq<Entry>, m: multiset<Pair>, k: Key, item: Item)
    requires Lists(c, m)
    ensures Lists(WithItem(c, k, item), m + multiset{(k, item)})
  {
    ListsMore(c, k, item);
    PutOrdered(c, k, InsertAt(Group(c, k), 0, item));
  }

  lemma {:induction false} GatherLists(ps: seq<Pair>)
    ensures Lists(Gather(ps), multiset(ps))
  {
    if ps == [] {
      assert Scan.Pairs([]) == [];
    } else {
      GatherLists(ps[1..]);
      OneMore(Gather(ps[1..]), multiset(ps[1..]), ps[0].0, ps[0].1);
      FirstOut(ps);
    }
  }

  lemma FirstOut(ps: seq<Pair>)
    requires ps != []
    ensures multiset(ps) == multiset(ps[1..]) + multiset{(ps[0].0, ps[0].1)}
  {
    assert ps == [ps[0]] + ps[1..];
  }

  /** The groups a leaf with these blocks holds. */
  function GroupsOf(bs: seq<Blk>): seq<Entry> { Gather(EntriesIn(bs)) }

  lemma GroupsList(bs: seq<Blk>)
    ensures Lists(GroupsOf(bs), Segments.Pairs(bs))
  {
    EntriesAre(bs);
    GatherLists(EntriesIn(bs));
  }

  // ---------------------------------------------------------------- the same groups

  /** The same indices with the same items, the order of items in a group aside. */
  ghost predicate SameGroups(c: seq<Entry>, d: seq<Entry>) {
    && |c| == |d|
    && forall i :: 0 <= i < |c| ==> c[i].key == d[i].key && multiset(c[i].items) == multiset(d[i].items)
  }

  lemma {:induction false} SameKeys(c: seq<Entry>, d: seq<Entry>)
    requires Ordered(c) && Ordered(d) && Indices(c) == Indices(d)
    ensures |c| == |d| && forall i :: 0 <= i < |c| ==> c[i].key == d[i].key
  {
    IndexCount(c);
    IndexCount(d);
    if c != [] {
      FirstIsLeast(c, d);
      FirstIsLeast(d, c);
      LessFirst(c);
      LessFirst(d);
      SameKeys(c[1..], d[1..]);
      forall i | 0 <= i < |c| ensures c[i].key == d[i].key {
        if i > 0 { assert c[i] == c[1..][i - 1] && d[i] == d[1..][i - 1]; }
      }
    }
  }

  lemma FirstIsLeast(c: seq<Entry>, d: seq<Entry>)
    requires Ordered(c) && Ordered(d) && c != [] && d != [] && Indices(c) == Indices(d)
    ensures c[0].key <= d[0].key
  {
    assert d[0].key in Indices(d);
    var i :| 0 <= i < |c| && c[i].key == d[0].key;
  }

  lemma LessFirst(c: seq<Entry>)
    requires Ordered(c) && c != []
    ensures Indices(c[1..]) == Indices(c) - {c[0].key}
  {
    var t := c[1..];
    forall k | k in Indices(t) ensures k in Indices(c) - {c[0].key} {
      var i :| 0 <= i < |t| && t[i].key == k;
      assert c[i + 1].key == k;
    }
    forall k | k in Indices(c) - {c[0].key} ensures k in Indices(t) {
      var i :| 0 <= i < |c| && c[i].key == k;
      assert t[i - 1].key == k;
    }
  }

  /** Lists of the same entries have the same groups. */
  lemma SameListing(c: seq<Entry>, d: seq<Entry>, m: multiset<Pair>)
    requires Lists(c, m) && Lists(d, m)
    ensures SameGroups(c, d)
  {
    ListsCount(c, m);
    ListsCount(d, m);
    SameKeys(c, d);
    forall i | 0 <= i < |c| ensures multiset(c[i].items) == multiset(d[i].items) {
      OwnGroup(c, i);
      OwnGroup(d, i);
      forall x: Item ensures multiset(c[i].items)[x] == multiset(d[i].items)[x] {
        LeafQuery.ListedAmount(c, c[i].key, x);
        LeafQuery.ListedAmount(d, c[i].key, x);
      }
    }
  }

  lemma OwnGroup(c: seq<Entry>, i: nat)
    requires Ordered(c) && i < |c|
    ensures Group(c, c[i].key) == c[i].items
  {
    HasIff(c, c[i].key);
  }

  lemma SameJoined(a: seq<Entry>, b: seq<Entry>, c: seq<Entry>, d: seq<Entry>)
    requires SameGroups(a, c) && SameGroups(b, d)
    ensures SameGroups(a + b, c + d)
  {
  }

  lemma SameOrder(c: seq<Entry>, d: seq<Entry>)
    requires SameGroups(c, d) && Ordered(c) && Grouped(c)
    ensures Ordered(d) && Grouped(d)
  {
    forall i | 0 <= i < |d| ensures d[i].items != [] {
      assert |multiset(c[i].items)| == |c[i].items| && |multiset(d[i].items)| == |d[i].items|;
    }
  }

  lemma {:induction false} SameTotal(c: seq<Entry>, d: seq<Entry>)
    requires SameGroups(c, d)
    ensures Total(c) == Total(d)
  {
    if c != [] {
      SameTotal(c[1..], d[1..]);
      assert |multiset(c[0].items)| == |c[0].items| && |multiset(d[0].items)| == |d[0].items|;
    }
  }

  /** Looking an index up gives the same items. */
  lemma SameLookup(c: seq<Entry>, d: seq<Entry>, k: Key)
    requires SameGroups(c, d) && Ordered(c) && Grouped(c)
    ensures multiset(Group(c, k)) == multiset(Group(d, k))
  {
    SameOrder(c, d);
    HasIff(c, k);
    HasIff(d, k);
    if Has(c, k) {
      var r := Rank(c, k);
      assert d[r].key == k;
      OwnGroup(d, r);
    }
  }
}
