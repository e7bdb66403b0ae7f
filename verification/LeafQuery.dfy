/** leaf_node_t: what the lookups and a removal make of the groups of a leaf. */
module LeafQuery {
  import opened Wrappers
  import opened Multimap
  import Scan
  import opened Sequences
  import Segments
  import SegmentAppend
  import SegmentRemove
  import SegmentFile
  import LeafPlaces
  import BlockSpec
  import opened LeafFile
  import opened Query = SegmentQuery
  import opened Leaf

  lemma {:induction false} GroupAmount(k: Key, g: seq<Item>, x: Item)
    ensures multiset(Scan.GroupPairs(k, g))[(k, x)] == multiset(g)[x]
  {
    if g != [] {
      GroupAmount(k, g[1..], x);
      assert g == [g[0]] + g[1..];
    }
  }

  /** How often an item is listed under an index. */
  lemma ListedAmount(c: seq<Entry>, k: Key, x: Item)
    requires Ordered(c)
    ensures multiset(Scan.Pairs(c))[(k, x)] == multiset(Group(c, k))[x]
  {
    ListedIff(c, k, x);
    if Has(c, k) {
      var r := Rank(c, k);
      Scan.PairsOne(c[r]);
      Around(c, r);
      PairsAround(c[..r], [c[r]], c[r + 1..]);
      Scan.PairsAdd(c[..r], c[r + 1..]);
      NoneStay(c, k, (k, x));
      GroupAmount(k, c[r].items, x);
    }
  }

  /** A list of everything stored under an index is the group of the index. */
  lemma AllIsGroup(c: seq<Entry>, m: multiset<Pair>, k: Key, xs: seq<Item>)
    requires Lists(c, m) && AllOf(xs, m, k)
    ensures multiset(xs) == multiset(Group(c, k)) && |xs| == |Group(c, k)|
  {
    forall x: Item ensures multiset(xs)[x] == multiset(Group(c, k))[x] { ListedAmount(c, k, x); }
    assert multiset(xs) == multiset(Group(c, k));
    assert |multiset(xs)| == |multiset(Group(c, k))|;
  }

  /** The items of an index as get_item numbers them. */
  function ItemsOf(s: State, k: Key): seq<Item> { Numbered(s.tree.bs, k, |s.tree.bs|) }

  /** However an index is spread over blocks, get_item enumerates its group. */
  lemma Enumerates(s: State, c: seq<Entry>, k: Key)
    requires Lists(c, Segments.Pairs(s.tree.bs))
    ensures multiset(ItemsOf(s, k)) == multiset(Group(c, k)) && |ItemsOf(s, k)| == |Group(c, k)|
    ensures |Listed(s.tree.bs, k, |s.tree.bs|)| == |Group(c, k)|
    ensures multiset(Listed(s.tree.bs, k, |s.tree.bs|)) == multiset(Group(c, k))
  {
    EnumeratesGroup(s.tree.bs, k);
    AllIsGroup(c, Segments.Pairs(s.tree.bs), k, ItemsOf(s, k));
    AllIsGroup(c, Segments.Pairs(s.tree.bs), k, Listed(s.tree.bs, k, |s.tree.bs|));
  }

  /** An index in two blocks is there. */
  lemma FaultsHas(s: State, c: seq<Entry>, k: Key)
    requires Of(s.tree, c) && Faults(s, k)
    ensures Has(c, k)
  {
    var bs := s.tree.bs;
    var j: nat :| Missing(s, k, j);
    var i :| 0 <= i < j && InRange(bs[i], k);
    var p := bs[i].es[0];
    assert Segments.Max(bs[i]) <= Segments.Min(bs[j]) && p.0 == k && p in bs[i].es;
    SegmentAppend.InPairs(bs, p);
    ListedIff(c, k, p.1);
  }

  method ContainsIndex(s: State, k: Key, ghost c: seq<Entry>, ghost data: seq<SegmentFile.Cell>)
    returns (here: bool, s': State)
    requires Good(s, c, data)
    ensures here == Has(c, k) && Good(s', c, data) && s'.tree == s.tree && (Faults(s', k) <==> Faults(s, k))
      && Carried(s, s')
  {
    here, s' := Query.ContainsIndex(s, k, data);
    ListsCount(c, Segments.Pairs(s.tree.bs));
    HasListed(c, k);
  }

  method ItemCount(s: State, k: Key, ghost c: seq<Entry>, ghost data: seq<SegmentFile.Cell>)
    returns (fault: bool, n: nat, s': State)
    requires Good(s, c, data)
    ensures fault <==> Faults(s, k)
    ensures s'.tree == s.tree && Good(s', c, data) && (Faults(s', k) <==> Faults(s, k)) && Carried(s, s')
    ensures !fault ==> n == |Group(c, k)|
  {
    fault, n, s' := Query.ItemCount(s, k, data);
    Enumerates(s, c, k);
  }

  method GetItem(s: State, k: Key, pos: nat, ghost c: seq<Entry>, ghost data: seq<SegmentFile.Cell>)
    returns (fault: bool, item: Option<Item>, s': State)
    requires Good(s, c, data)
    ensures fault <==> FaultsBefore(s, k, pos)
    ensures s'.tree == s.tree && Good(s', c, data) && (Faults(s', k) <==> Faults(s, k)) && Carried(s, s')
    ensures !fault ==> item == ItemAt(ItemsOf(s, k), pos)
  {
    fault, item, s' := Query.GetItem(s, k, pos, data);
  }

  method GetItems(s: State, k: Key, ghost c: seq<Entry>, ghost data: seq<SegmentFile.Cell>)
    returns (fault: bool, items: seq<Item>, s': State)
    requires Good(s, c, data)
    ensures fault <==> Faults(s, k)
    ensures s'.tree == s.tree && Good(s', c, data) && Carried(s, s')
    ensures !fault ==> multiset(items) == multiset(Group(c, k))
  {
    fault, items, s' := Query.GetItems(s, k, data);
    Enumerates(s, c, k);
  }

  /** What btree_t::remove_index asks of a leaf: whether the index is there, how many items it has, and to remove
      it. It ends in a block that is not there exactly if a block of the index behind its first is not in memory. */
  method RemoveGroup(s: State, k: Key, ghost c: seq<Entry>, ghost data: seq<SegmentFile.Cell>)
    returns (fault: bool, ok: bool, n: nat, s': State)
    requires Good(s, c, data)
    ensures fault <==> Faults(s, k)
    ensures fault ==> Good(s', c, data)
    ensures !fault ==> ok == Has(c, k) && n == |Group(c, k)| && Good(s', Drop(c, k), data)
    ensures Carried(s, s')
  {
    var here;
    here, s' := ContainsIndex(s, k, c, data);
    if Faults(s, k) { FaultsHas(s, c, k); }
    if !here { return false, false, 0, s'; }
    ghost var first := s';
    fault, n, s' := ItemCount(s', k, c, data);
    CarriedTrans(s, first, s');
    ok := true;
    if fault { return; }
    ghost var before := s';
    var bad;
    ghost var p;
    bad, ok, s', p := Leaf.RemoveIndex(s', k, c, data);
    CarriedTrans(s, before, s');
    NoneMissing(before, k, p);
  }

  lemma NoneMissing(s: State, k: Key, p: SegmentRemove.Clearing)
    requires !Faults(s, k) && |s.ps| == |s.tree.bs| && SegmentAppend.Covers(s.tree.bs, k, p.b, p.e)
    ensures !LastMissing(s, p)
  {
    if LastMissing(s, p) { MissingIff(s, k, p.b, p.e, p.e - 1); }
  }

  // ---------------------------------------------------------------- what a scan brings into memory

  /** A scan up to v goes through the blocks from the first one to the first that reaches beyond v. */
  function EnteredUp(bs: seq<BlockSpec.Blk>, v: Key, from: nat): (n: nat)
    requires from <= |bs|
    ensures from <= n <= |bs|
    decreases |bs| - from
  {
    if from == |bs| || (bs[from].es != [] && Segments.Max(bs[from]) > v) then
      (if from == |bs| then from else from + 1)
    else EnteredUp(bs, v, from + 1)
  }

  function ScannedUp(s: State, v: Key): State { s.(ps := LeafPlaces.Touched(s.ps, 0, EnteredUp(s.tree.bs, v, 0))) }

  /** A scan down to v goes through the blocks from the last one to the first that reaches below v. */
  function EnteredDown(bs: seq<BlockSpec.Blk>, v: Key, to: nat): (n: nat)
    requires to <= |bs|
    ensures n <= to
  {
    if to == 0 then 0
    else if bs[to - 1].es != [] && Segments.Min(bs[to - 1]) < v then to - 1
    else EnteredDown(bs, v, to - 1)
  }

  function ScannedDown(s: State, v: Key): State {
    s.(ps := LeafPlaces.Touched(s.ps, EnteredDown(s.tree.bs, v, |s.tree.bs|), |s.ps|))
  }

  lemma ScannedGood(s: State, c: seq<Entry>, data: seq<SegmentFile.Cell>, v: Key)
    requires Good(s, c, data)
    ensures Good(ScannedUp(s, v), c, data) && Good(ScannedDown(s, v), c, data)
  {
    LeafPlaces.TouchedHoused(s.tree.bs, s.ps, s.gaps, data, 0, EnteredUp(s.tree.bs, v, 0));
    LeafPlaces.TouchedHoused(s.tree.bs, s.ps, s.gaps, data, EnteredDown(s.tree.bs, v, |s.tree.bs|), |s.ps|);
  }

  /** A scan up enters a block exactly if no block in front of it reaches beyond v. */
  lemma {:induction false} EntersUp(bs: seq<BlockSpec.Blk>, v: Key, from: nat, j: nat)
    requires from <= j < |bs| && forall i :: 0 <= i < |bs| ==> bs[i].es != []
    ensures j < EnteredUp(bs, v, from) <==> forall i :: from <= i < j ==> Segments.Max(bs[i]) <= v
    decreases j - from
  {
    if from < j && Segments.Max(bs[from]) <= v { EntersUp(bs, v, from + 1, j); }
  }

  /** A scan down enters a block exactly if no block behind it reaches below v. */
  lemma {:induction false} EntersDown(bs: seq<BlockSpec.Blk>, v: Key, n: nat, j: nat)
    requires j < n <= |bs| && forall i :: 0 <= i < |bs| ==> bs[i].es != []
    ensures j >= EnteredDown(bs, v, n) <==> forall i :: j < i < n ==> Segments.Min(bs[i]) >= v
    decreases n
  {
    if j + 1 < n && Segments.Min(bs[n - 1]) >= v { EntersDown(bs, v, n - 1, j); }
  }

  /** What a scan up to v leaves in memory: what was, and the blocks it enters. */
  lemma ScannedUpLoads(s: State, v: Key, j: nat)
    requires Segments.Blocks(s.tree.bs) && j < |s.ps| == |s.tree.bs|
    ensures ScannedUp(s, v).ps[j].resident <==>
      s.ps[j].resident || forall i :: 0 <= i < j ==> Segments.Max(s.tree.bs[i]) <= v
  {
    EntersUp(s.tree.bs, v, 0, j);
  }

  /** And one down to v. */
  lemma ScannedDownLoads(s: State, v: Key, j: nat)
    requires Segments.Blocks(s.tree.bs) && j < |s.ps| == |s.tree.bs|
    ensures ScannedDown(s, v).ps[j].resident <==>
      s.ps[j].resident || forall i :: j < i < |s.ps| ==> Segments.Min(s.tree.bs[i]) >= v
  {
    EntersDown(s.tree.bs, v, |s.tree.bs|, j);
  }

  /** A scan up or down to an index brings every block of the index into memory. */
  lemma ScanLoads(s: State, v: Key)
    requires Segments.Blocks(s.tree.bs) && |s.ps| == |s.tree.bs|
    ensures !Faults(ScannedUp(s, v), v) && !Faults(ScannedDown(s, v), v)
  {
    forall j: nat ensures !Missing(ScannedUp(s, v), v, j) && !Missing(ScannedDown(s, v), v, j) {
      if j < |s.ps| && Segments.Min(s.tree.bs[j]) <= v <= Segments.Max(s.tree.bs[j]) {
        ScannedUpLoads(s, v, j);
        ScannedDownLoads(s, v, j);
        forall i | 0 <= i < j ensures Segments.Max(s.tree.bs[i]) <= v {
          assert Segments.Max(s.tree.bs[i]) <= Segments.Min(s.tree.bs[j]);
        }
        forall i | j < i < |s.ps| ensures Segments.Min(s.tree.bs[i]) >= v {
          assert Segments.Max(s.tree.bs[j]) <= Segments.Min(s.tree.bs[i]);
        }
      }
    }
  }
}
