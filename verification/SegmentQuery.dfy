/** segment_tree_t::contains_index, item_count, get_item and get_items: lookups that may go through several blocks. */
module SegmentQuery {
  import opened Wrappers
  import opened Multimap
  import opened Sequences
  import opened BlockSpec
  import opened Segments
  import opened SegmentAppend
  import Balance = SegmentBalance
  import opened SegmentFile
  import opened LeafPlaces
  import opened LeafFile

  /** block_t::get_items: the items of an index, in the order of the records. */
  function ItemsIn(es: seq<Pair>, k: Key): seq<Item> {
    if es == [] then [] else (if es[0].0 == k then [es[0].1] else []) + ItemsIn(es[1..], k)
  }

  lemma {:induction false} ItemsAre(es: seq<Pair>, k: Key, x: Item)
    ensures multiset(ItemsIn(es, k))[x] == multiset(es)[(k, x)]
  {
    if es != [] {
      ItemsAre(es[1..], k, x);
      assert es == [es[0]] + es[1..];
    }
  }

  lemma NoItems(es: seq<Pair>, k: Key)
    requires !HasIndex(es, k)
    ensures ItemsIn(es, k) == []
  {
    if es != [] {
      assert es[0].0 != k;
      forall i | 0 <= i < |es[1..]| ensures es[1..][i].0 != k { assert es[1..][i] == es[i + 1]; }
      NoItems(es[1..], k);
    }
  }

  /** The items of an index in the first n blocks: block after block, and for get_item each block backwards. */
  function Listed(bs: seq<Blk>, k: Key, n: nat): seq<Item>
    requires n <= |bs|
  {
    if n == 0 then [] else Listed(bs, k, n - 1) + ItemsIn(bs[n - 1].es, k)
  }

  function Numbered(bs: seq<Blk>, k: Key, n: nat): seq<Item>
    requires n <= |bs|
  {
    if n == 0 then [] else Numbered(bs, k, n - 1) + Reversed(ItemsIn(bs[n - 1].es, k))
  }

  /** These are exactly the items stored under the index. */
  ghost predicate AllOf(xs: seq<Item>, m: multiset<Pair>, k: Key) {
    forall x: Item :: multiset(xs)[x] == m[(k, x)]
  }

  lemma {:induction false} ListedAll(bs: seq<Blk>, k: Key, n: nat)
    requires n <= |bs|
    ensures AllOf(Listed(bs, k, n), Pairs(bs[..n]), k)
  {
    if n > 0 {
      ListedAll(bs, k, n - 1);
      Ends(bs, n - 1);
      PairsAdd(bs[..n - 1], [bs[n - 1]]);
      PairsOne(bs[n - 1]);
      forall x: Item ensures multiset(Listed(bs, k, n))[x] == Pairs(bs[..n])[(k, x)] { ItemsAre(bs[n - 1].es, k, x); }
    }
  }

  lemma {:induction false} NumberedAll(bs: seq<Blk>, k: Key, n: nat)
    requires n <= |bs|
    ensures multiset(Numbered(bs, k, n)) == multiset(Listed(bs, k, n))
  {
    if n > 0 {
      NumberedAll(bs, k, n - 1);
      ReversedItems(ItemsIn(bs[n - 1].es, k));
    }
  }

  /** Both enumerations give every item of the index once, whichever blocks it is in. */
  lemma EnumeratesGroup(bs: seq<Blk>, k: Key)
    ensures AllOf(Listed(bs, k, |bs|), Pairs(bs), k) && AllOf(Numbered(bs, k, |bs|), Pairs(bs), k)
    ensures |Numbered(bs, k, |bs|)| == |Listed(bs, k, |bs|)|
  {
    ListedAll(bs, k, |bs|);
    NumberedAll(bs, k, |bs|);
    Whole(bs);
    assert |multiset(Numbered(bs, k, |bs|))| == |multiset(Listed(bs, k, |bs|))|;
  }

  /** Blocks without the index add nothing. */
  lemma {:induction false} NothingBetween(bs: seq<Blk>, k: Key, i: nat, j: nat)
    requires i <= j <= |bs| && forall n :: i <= n < j ==> !HasIndex(bs[n].es, k)
    ensures Listed(bs, k, j) == Listed(bs, k, i) && Numbered(bs, k, j) == Numbered(bs, k, i)
    decreases j
  {
    if i < j {
      NothingBetween(bs, k, i, j - 1);
      NoItems(bs[j - 1].es, k);
    }
  }

  lemma OutsideRange(bs: seq<Blk>, k: Key, b: nat, e: nat)
    requires Blocks(bs) && Covers(bs, k, b, e)
    ensures Listed(bs, k, b) == [] == Numbered(bs, k, b)
    ensures Listed(bs, k, |bs|) == Listed(bs, k, e) && Numbered(bs, k, |bs|) == Numbered(bs, k, e)
  {
    forall n | 0 <= n < |bs| && HasIndex(bs[n].es, k) ensures b <= n < e { CoveredOnly(bs, k, b, e, n); }
    NothingBetween(bs, k, 0, b);
    NothingBetween(bs, k, e, |bs|);
  }

  // ---------------------------------------------------------------- blocks that are not in memory

  predicate InRange(b: Blk, k: Key) { b.es != [] && Min(b) <= k <= Max(b) }

  /** Block j covers the index behind another one that does, and is not in memory. The loops load the first block
      of the range instead of it, and then use it without a block. */
  ghost predicate Missing(s: State, k: Key, j: nat) {
    && j < |s.tree.bs| == |s.ps| && InRange(s.tree.bs[j], k) && !s.ps[j].resident
    && exists i :: 0 <= i < j && InRange(s.tree.bs[i], k)
  }

  ghost predicate Faults(s: State, k: Key) { exists j: nat :: Missing(s, k, j) }

  /** A block of the range other than its first is not in memory. */
  ghost predicate Absent(ps: seq<Place>, b: nat, e: nat)
    requires e <= |ps|
  {
    exists j :: b < j < e && !ps[j].resident
  }

  lemma MissingIff(s: State, k: Key, b: nat, e: nat, j: nat)
    requires |s.ps| == |s.tree.bs| && Covers(s.tree.bs, k, b, e)
    ensures Missing(s, k, j) <==> b < j < e && !s.ps[j].resident
  {
    if b < j < e { assert InRange(s.tree.bs[b], k); }
  }

  /** The first block of the range has been loaded. */
  function Loaded(s: State, b: nat): State { s.(ps := Touched(s.ps, b, b + 1)) }

  lemma RangeFaults(s: State, k: Key, b: nat, e: nat)
    requires |s.ps| == |s.tree.bs| && Covers(s.tree.bs, k, b, e)
    ensures Faults(s, k) <==> Absent(s.ps, b, e)
  {
    if j: nat :| Missing(s, k, j) { MissingIff(s, k, b, e, j); }
    if Absent(s.ps, b, e) {
      var j :| b < j < e && !s.ps[j].resident;
      MissingIff(s, k, b, e, j);
    }
  }

  lemma LoadedFirst(s: State, k: Key, b: nat, e: nat, data: seq<Cell>)
    requires Kept(s, data) && Covers(s.tree.bs, k, b, e)
    ensures Kept(Loaded(s, b), data) && (Faults(Loaded(s, b), k) <==> Faults(s, k)) && Carried(s, Loaded(s, b))
    ensures Faults(s, k) <==> Absent(s.ps, b, e)
  {
    TouchedHoused(s.tree.bs, s.ps, s.gaps, data, b, b + 1);
    CarriedTouched(s, b, b + 1);
    RangeFaults(s, k, b, e);
    RangeFaults(Loaded(s, b), k, b, e);
  }

  // ---------------------------------------------------------------- the queries

  /** contains_index looks into the first block of the range only. */
  method ContainsIndex(s: State, k: Key, ghost data: seq<Cell>) returns (here: bool, s': State)
    requires Kept(s, data) && Balance.SoundTree(s.tree)
    ensures here <==> k in KeysOf(Pairs(s.tree.bs))
    ensures s'.tree == s.tree && Kept(s', data) && (Faults(s', k) <==> Faults(s, k)) && Carried(s, s')
  {
    var b, e := FindRange(s.tree.meta, k, s.tree.bs);
    IndexSomewhere(s.tree.bs, k, b, e, |s.tree.bs|);
    CarriedSelf(s);
    if b == |s.tree.bs| { return false, s; }
    var x;
    here, x := Probe(s.tree.bs[b].es, k, []);
    s' := Loaded(s, b);
    LoadedFirst(s, k, b, e, data);
    FirstTells(s.tree.bs, k, b, e);
  }

  /** If a block has the index, the first one of the range does. */
  lemma FirstTells(bs: seq<Blk>, k: Key, b: nat, e: nat)
    requires Blocks(bs) && Covers(bs, k, b, e) && b < |bs|
    ensures HasIndex(bs[b].es, k) <==> exists n :: b <= n < |bs| && HasIndex(bs[n].es, k)
  {
    if n :| b <= n < |bs| && HasIndex(bs[n].es, k) {
      CoveredOnly(bs, k, b, e, n);
      if b < n { assert bs[b].es[0].0 == k; }
    }
  }

  /** block_t::item_count, added up. */
  function Amount(bs: seq<Blk>, k: Key, n: nat): nat
    requires n <= |bs|
  {
    if n == 0 then 0 else Amount(bs, k, n - 1) + |ItemsIn(bs[n - 1].es, k)|
  }

  lemma {:induction false} AmountListed(bs: seq<Blk>, k: Key, n: nat)
    requires n <= |bs|
    ensures Amount(bs, k, n) == |Listed(bs, k, n)| == |Numbered(bs, k, n)|
  {
    if n > 0 {
      AmountListed(bs, k, n - 1);
      ReversedAt(ItemsIn(bs[n - 1].es, k));
    }
  }

  /** The loop over the blocks of the range. */
  method CountBlocks(bs: seq<Blk>, ps: seq<Place>, k: Key, b: nat, e: nat) returns (fault: bool, n: nat)
    requires b <= e <= |bs| == |ps| && Amount(bs, k, b) == 0
    ensures fault <==> Absent(ps, b, e)
    ensures !fault ==> n == Amount(bs, k, e)
  {
    fault, n := false, 0;
    for j := b to e
      invariant n == Amount(bs, k, j) && forall i :: b < i < j ==> ps[i].resident
    {
      if b < j && !ps[j].resident { return true, n; }
      n := n + |ItemsIn(bs[j].es, k)|;
    }
  }

  /** item_count. */
  method ItemCount(s: State, k: Key, ghost data: seq<Cell>) returns (fault: bool, n: nat, s': State)
    requires Kept(s, data) && Balance.SoundTree(s.tree)
    ensures fault <==> Faults(s, k)
    ensures s'.tree == s.tree && Kept(s', data) && (Faults(s', k) <==> Faults(s, k)) && Carried(s, s')
    ensures !fault ==> n == |Listed(s.tree.bs, k, |s.tree.bs|)|
  {
    var b, e := FindRange(s.tree.meta, k, s.tree.bs);
    OutsideRange(s.tree.bs, k, b, e);
    AmountListed(s.tree.bs, k, b);
    AmountListed(s.tree.bs, k, e);
    fault, n := CountBlocks(s.tree.bs, s.ps, k, b, e);
    s' := Loaded(s, b);
    LoadedFirst(s, k, b, e, data);
  }

  /** get_item goes through the blocks up to the one that has the position. */
  ghost predicate FaultsBefore(s: State, k: Key, pos: nat) {
    exists j: nat :: Missing(s, k, j) && |Numbered(s.tree.bs, k, j)| <= pos
  }

  /** A block that is not in memory is met before the position. */
  ghost predicate Stuck(bs: seq<Blk>, ps: seq<Place>, k: Key, b: nat, e: nat, pos: nat)
    requires e <= |bs| == |ps|
  {
    exists j :: b < j < e && !ps[j].resident && |Numbered(bs, k, j)| <= pos
  }

  /** The item at the position, if there are that many. */
  function ItemAt(xs: seq<Item>, pos: nat): Option<Item> { if pos < |xs| then Some(xs[pos]) else None }

  /** The loop that looks for the block with the position. */
  method FindItem(bs: seq<Blk>, ps: seq<Place>, k: Key, b: nat, e: nat, pos: nat) returns (fault: bool,
      item: Option<Item>)
    requires b <= e <= |bs| == |ps| && Numbered(bs, k, b) == []
    ensures fault <==> Stuck(bs, ps, k, b, e, pos)
    ensures !fault ==> item == ItemAt(Numbered(bs, k, e), pos)
  {
    fault, item := false, None;
    var skipped := 0;
    for j := b to e
      invariant skipped == |Numbered(bs, k, j)| <= pos && forall i :: b < i < j ==> ps[i].resident
    {
      if b < j && !ps[j].resident { return true, None; }
      var xs := ItemsIn(bs[j].es, k);
      if skipped + |xs| > pos {
        ItemHere(bs, ps, k, b, j, e, pos);
        return false, Some(xs[skipped + |xs| - pos - 1]);
      }
      ReversedAt(xs);
      skipped := skipped + |xs|;
    }
  }

  lemma ItemHere(bs: seq<Blk>, ps: seq<Place>, k: Key, b: nat, j: nat, e: nat, pos: nat)
    requires j < e <= |bs| == |ps| && (forall i :: b < i <= j ==> ps[i].resident)
    requires |Numbered(bs, k, j)| <= pos < |Numbered(bs, k, j)| + |ItemsIn(bs[j].es, k)|
    ensures !Stuck(bs, ps, k, b, e, pos)
    ensures var xs := ItemsIn(bs[j].es, k);
      ItemAt(Numbered(bs, k, e), pos) == Some(xs[|Numbered(bs, k, j)| + |xs| - pos - 1])
  {
    NumberedAt(bs, k, j, e, pos);
    forall i | j < i < e ensures |Numbered(bs, k, i)| > pos { NumberedMore(bs, k, j + 1, i); }
  }

  /** get_item: the items of an index, numbered block by block, each block backwards. */
  method GetItem(s: State, k: Key, pos: nat, ghost data: seq<Cell>) returns (fault: bool, item: Option<Item>, s': State)
    requires Kept(s, data) && Balance.SoundTree(s.tree)
    ensures fault <==> FaultsBefore(s, k, pos)
    ensures s'.tree == s.tree && Kept(s', data) && (Faults(s', k) <==> Faults(s, k)) && Carried(s, s')
    ensures !fault ==> item == ItemAt(Numbered(s.tree.bs, k, |s.tree.bs|), pos)
  {
    var b, e := FindRange(s.tree.meta, k, s.tree.bs);
    OutsideRange(s.tree.bs, k, b, e);
    fault, item := FindItem(s.tree.bs, s.ps, k, b, e, pos);
    s' := Loaded(s, b);
    LoadedFirst(s, k, b, e, data);
    FaultsInRange(s, k, b, e, pos);
  }

  lemma FaultsInRange(s: State, k: Key, b: nat, e: nat, pos: nat)
    requires |s.ps| == |s.tree.bs| && Covers(s.tree.bs, k, b, e)
    ensures FaultsBefore(s, k, pos) <==> Stuck(s.tree.bs, s.ps, k, b, e, pos)
  {
    if j: nat :| Missing(s, k, j) && |Numbered(s.tree.bs, k, j)| <= pos { MissingIff(s, k, b, e, j); }
    if j :| b < j < e && !s.ps[j].resident && |Numbered(s.tree.bs, k, j)| <= pos { MissingIff(s, k, b, e, j); }
  }

  lemma {:induction false} NumberedMore(bs: seq<Blk>, k: Key, i: nat, j: nat)
    requires i <= j <= |bs|
    ensures |Numbered(bs, k, i)| <= |Numbered(bs, k, j)|
      && Numbered(bs, k, j)[..|Numbered(bs, k, i)|] == Numbered(bs, k, i)
    decreases j
  {
    if i < j { NumberedMore(bs, k, i, j - 1); }
  }

  lemma NumberedAt(bs: seq<Blk>, k: Key, j: nat, e: nat, pos: nat)
    requires j < e <= |bs|
    requires |Numbered(bs, k, j)| <= pos < |Numbered(bs, k, j)| + |ItemsIn(bs[j].es, k)|
    ensures var xs, skipped := ItemsIn(bs[j].es, k), |Numbered(bs, k, j)|;
      pos < |Numbered(bs, k, j + 1)| <= |Numbered(bs, k, e)|
      && Numbered(bs, k, e)[pos] == xs[skipped + |xs| - pos - 1]
  {
    var xs, skipped := ItemsIn(bs[j].es, k), |Numbered(bs, k, j)|;
    ReversedAt(xs);
    NumberedMore(bs, k, j + 1, e);
    var w := Numbered(bs, k, j + 1);
    assert w[pos] == Reversed(xs)[pos - skipped];
    assert Numbered(bs, k, e)[..|w|][pos] == Numbered(bs, k, e)[pos];
  }

  /** get_items: the first loop counts, the second one collects. */
  method GetItems(s: State, k: Key, ghost data: seq<Cell>) returns (fault: bool, items: seq<Item>, s': State)
    requires Kept(s, data) && Balance.SoundTree(s.tree)
    ensures fault <==> Faults(s, k)
    ensures s'.tree == s.tree && Kept(s', data) && Carried(s, s')
    ensures !fault ==> items == Listed(s.tree.bs, k, |s.tree.bs|)
  {
    var total;
    fault, total, s' := ItemCount(s, k, data);
    items := [];
    if fault { return; }
    var b, e := FindRange(s.tree.meta, k, s.tree.bs);
    OutsideRange(s.tree.bs, k, b, e);
    items := CollectItems(s.tree.bs, k, b, e);
  }

  method CollectItems(bs: seq<Blk>, k: Key, b: nat, e: nat) returns (items: seq<Item>)
    requires b <= e <= |bs| && Listed(bs, k, b) == []
    ensures items == Listed(bs, k, e)
  {
    items := [];
    for j := b to e
      invariant items == Listed(bs, k, j)
    {
      items := items + ItemsIn(bs[j].es, k);
    }
  }
}
