/** segment_tree_t::append: the ordered list of blocks, the smallest and largest index of each, and where an item
    goes. */
module SegmentAppend {
  import opened Multimap
  import opened BlockSpec
  import opened Segments

  /** block_metadata, as far as it is not about the file. */
  datatype Bounds = Bounds(min: Key, max: Key)

  /** update_metadata_; an empty block has no bounds worth having. */
  function BoundsOf(b: Blk): Bounds {
    if b.es == [] then Bounds(0, 0) else Bounds(Min(b), Max(b))
  }

  ghost predicate Exact(bs: seq<Blk>, meta: seq<Bounds>) {
    |meta| == |bs| && forall i :: 0 <= i < |bs| ==> meta[i] == BoundsOf(bs[i])
  }

  ghost function KeysOf(m: multiset<Pair>): set<Key> {
    set p | p in m :: p.0
  }

  /** The invariant of segment_tree_t on the values of its fields. */
  ghost predicate Sound(bs: seq<Blk>, meta: seq<Bounds>, items: int, uniques: int) {
    && Blocks(bs) && Exact(bs, meta) && (forall p :: Pairs(bs)[p] <= 1)
    && items == |Pairs(bs)| && uniques == |KeysOf(Pairs(bs))|
  }

  /** The same with the counter of indices d too low. */
  ghost predicate SoundBut(bs: seq<Blk>, meta: seq<Bounds>, items: int, uniques: int, d: int) {
    && Blocks(bs) && Exact(bs, meta) && (forall p :: Pairs(bs)[p] <= 1)
    && items == |Pairs(bs)| && uniques + d == |KeysOf(Pairs(bs))|
  }

  // ---------------------------------------------------------------- finding blocks

  /** Blocks b..e are exactly those whose range covers k. */
  ghost predicate Covers(bs: seq<Blk>, k: Key, b: int, e: int) {
    && 0 <= b <= e <= |bs| && (forall i :: 0 <= i < |bs| ==> bs[i].es != [])
    && (forall i :: 0 <= i < b ==> Max(bs[i]) < k)
    && (forall i :: b <= i < e ==> Min(bs[i]) <= k <= Max(bs[i]))
    && (forall i :: e <= i < |bs| ==> k < Min(bs[i]))
  }

  /** Ends and starts of blocks never go down along the list. */
  lemma BoundsAscend(bs: seq<Blk>, meta: seq<Bounds>, i: nat, j: nat)
    requires Blocks(bs) && Exact(bs, meta) && i <= j < |bs|
    ensures meta[i].max <= meta[j].max && meta[i].min <= meta[j].min && meta[i].min <= meta[i].max
  {
    SegBounds(bs[i]);
    SegBounds(bs[j]);
  }

  /** std::lower_bound over the metadata, by largest index or by smallest. */
  method LowerBound(meta: seq<Bounds>, k: Key, from: nat, byMin: bool, ghost bs: seq<Blk>) returns (r: nat)
    requires Blocks(bs) && Exact(bs, meta) && from <= |meta|
    ensures from <= r <= |meta|
    ensures forall i :: from <= i < r ==> (if byMin then meta[i].min <= k else meta[i].max < k)
    ensures forall i :: r <= i < |meta| ==> (if byMin then meta[i].min > k else meta[i].max >= k)
  {
    r := from;
    var n := |meta| - from;
    while n > 0
      invariant from <= r && 0 <= n && r + n <= |meta|
      invariant forall i :: from <= i < r ==> (if byMin then meta[i].min <= k else meta[i].max < k)
      invariant forall i :: r + n <= i < |meta| ==> (if byMin then meta[i].min > k else meta[i].max >= k)
    {
      var half := n / 2;
      forall i | r <= i <= r + half ensures meta[i].max <= meta[r + half].max && meta[i].min <= meta[r + half].min {
        BoundsAscend(bs, meta, i, r + half);
      }
      forall i | r + half <= i < |meta| ensures meta[r + half].max <= meta[i].max && meta[r + half].min <= meta[i].min {
        BoundsAscend(bs, meta, r + half, i);
      }
      if (if byMin then meta[r + half].min <= k else meta[r + half].max < k) {
        r, n := r + half + 1, n - half - 1;
      } else {
        n := half;
      }
    }
  }

  /** find_range_. */
  method FindRange(meta: seq<Bounds>, k: Key, ghost bs: seq<Blk>) returns (b: nat, e: nat)
    requires Blocks(bs) && Exact(bs, meta)
    ensures Covers(bs, k, b, e)
  {
    b := LowerBound(meta, k, 0, false, bs);
    e := LowerBound(meta, k, b, true, bs);
    assert forall i :: 0 <= i < |bs| ==> Seg(bs[i]) && meta[i] == BoundsOf(bs[i]);
  }

  lemma {:induction false} InPairs(bs: seq<Blk>, p: Pair)
    ensures p in Pairs(bs) <==> exists i :: 0 <= i < |bs| && p in bs[i].es
  {
    if bs != [] {
      var t := bs[1..];
      InPairs(t, p);
      if p in Pairs(t) {
        var i :| 0 <= i < |t| && p in t[i].es;
        assert bs[i + 1] == t[i];
      }
      if i :| 0 <= i < |bs| && p in bs[i].es {
        if i > 0 { assert t[i - 1] == bs[i]; }
      }
    }
  }

  /** block_t::contains_index and contains. */
  method Probe(es: seq<Pair>, k: Key, item: Item) returns (index: bool, here: bool)
    ensures (index <==> HasIndex(es, k)) && (here <==> (k, item) in es)
  {
    index, here := false, false;
    for i := 0 to |es|
      invariant index <==> exists n :: 0 <= n < i && es[n].0 == k
      invariant here <==> (k, item) in es[..i]
    {
      assert es[..i + 1] == es[..i] + [es[i]];
      if es[i].0 == k { index := true; }
      if es[i] == (k, item) { here := true; }
    }
    assert es[..|es|] == es;
  }

  /** Only a covering block can hold entries of k. */
  lemma CoveredOnly(bs: seq<Blk>, k: Key, b: nat, e: nat, i: nat)
    requires Blocks(bs) && Covers(bs, k, b, e) && i < |bs| && HasIndex(bs[i].es, k)
    ensures b <= i < e
  {
    var n :| 0 <= n < |bs[i].es| && bs[i].es[n].0 == k;
    assert bs[i].es[n] in bs[i].es;
    MinMax(bs[i], bs[i].es[n]);
  }

  /** The duplicate check of append: the covering blocks and the one behind them. */
  method CheckBlocks(bs: seq<Blk>, k: Key, item: Item, b: nat, e: nat) returns (index: bool, here: bool, seen: nat)
    requires Blocks(bs) && Covers(bs, k, b, e)
    ensures here <==> (k, item) in Pairs(bs)
    ensures !here ==> (index <==> k in KeysOf(Pairs(bs)))
    ensures b <= seen <= |bs| && (b < |bs| ==> b < seen)
  {
    index, here, seen := false, false, b;
    var i := b;
    while i <= e && i != |bs|
      invariant b <= i <= e + 1 && i <= |bs|
      invariant index <==> exists n :: b <= n < i && HasIndex(bs[n].es, k)
      invariant forall n :: b <= n < i ==> (k, item) !in bs[n].es
    {
      var x, y := Probe(bs[i].es, k, item);
      index := index || x;
      if y {
        InPairs(bs, (k, item));
        return index, true, i + 1;
      }
      i := i + 1;
    }
    seen := i;
    NotElsewhere(bs, k, item, b, e, i);
    IndexSomewhere(bs, k, b, e, i);
  }

  lemma NotElsewhere(bs: seq<Blk>, k: Key, item: Item, b: nat, e: nat, i: nat)
    requires Blocks(bs) && Covers(bs, k, b, e) && e <= i && forall n :: b <= n < i && n < |bs| ==>
      (k, item) !in bs[n].es
    ensures (k, item) !in Pairs(bs)
  {
    InPairs(bs, (k, item));
    if (k, item) in Pairs(bs) {
      var n :| 0 <= n < |bs| && (k, item) in bs[n].es;
      var j :| 0 <= j < |bs[n].es| && bs[n].es[j] == (k, item);
      assert HasIndex(bs[n].es, k);
      CoveredOnly(bs, k, b, e, n);
      assert false;
    }
  }

  lemma IndexSomewhere(bs: seq<Blk>, k: Key, b: nat, e: nat, i: nat)
    requires Blocks(bs) && Covers(bs, k, b, e) && e <= i
    ensures k in KeysOf(Pairs(bs)) <==> exists n :: b <= n < i && n < |bs| && HasIndex(bs[n].es, k)
  {
    if k in KeysOf(Pairs(bs)) {
      var p :| p in Pairs(bs) && p.0 == k;
      InPairs(bs, p);
      var n :| 0 <= n < |bs| && p in bs[n].es;
      var j :| 0 <= j < |bs[n].es| && bs[n].es[j] == p;
      assert HasIndex(bs[n].es, k);
      CoveredOnly(bs, k, b, e, n);
    }
    if n :| b <= n < i && n < |bs| && HasIndex(bs[n].es, k) {
      var j :| 0 <= j < |bs[n].es| && bs[n].es[j].0 == k;
      assert bs[n].es[j] in bs[n].es;
      InPairs(bs, bs[n].es[j]);
    }
  }

  // ---------------------------------------------------------------- where an item goes

  predicate HasRoom(b: Blk, item: Item) { |item| + RECORD <= Room(b) }

  /** The index fits between the blocks in front of i and those from j on. */
  ghost predicate FitsBetween(bs: seq<Blk>, i: nat, j: nat, k: Key) {
    && i <= j <= |bs| && Blocks(bs)
    && (i > 0 ==> Max(bs[i - 1]) <= k) && (j < |bs| ==> k <= Min(bs[j]))
  }

  /** The list with the item added. */
  ghost predicate BlocksGrown(bs: seq<Blk>, bs': seq<Blk>, k: Key, item: Item) {
    Blocks(bs') && Pairs(bs') == Pairs(bs) + multiset{(k, item)}
  }

  lemma ReplaceAt(bs: seq<Blk>, i: nat, r: seq<Blk>, k: Key, item: Item)
    requires i < |bs| && FitsBetween(bs, i, i + 1, k) && Replaces(bs[i], r, k, item)
    ensures BlocksGrown(bs, Splice(bs, i, i + 1, r), k, item)
  {
    SegBounds(bs[i]);
    SpliceBlocks(bs, i, i + 1, r);
    ReplacePairs(bs, i, r, multiset{(k, item)});
  }

  lemma ReplacePairs(bs: seq<Blk>, i: nat, r: seq<Blk>, more: multiset<Pair>)
    requires i < |bs| && Pairs(r) == multiset(bs[i].es) + more
    ensures Pairs(Splice(bs, i, i + 1, r)) == Pairs(bs) + more
  {
    SplicePairs(bs, i, i + 1, r);
    assert bs[i..i + 1] == [bs[i]];
    PairsOne(bs[i]);
    Cancel(Pairs(Splice(bs, i, i + 1, r)), multiset(bs[i].es), Pairs(bs), more);
  }

  lemma Cancel(x: multiset<Pair>, m: multiset<Pair>, y: multiset<Pair>, z: multiset<Pair>)
    requires x + m == y + (m + z)
    ensures x == y + z
  {
    forall p ensures x[p] == (y + z)[p] {
      assert (x + m)[p] == (y + (m + z))[p];
    }
  }

  lemma InsertFresh(bs: seq<Blk>, i: nat, k: Key, item: Item)
    requires FitsBetween(bs, i, i, k) && |item| > 0
    ensures BlocksGrown(bs, Splice(bs, i, i, [Fresh(k, item)]), k, item)
  {
    var f := Fresh(k, item);
    FreshFits(k, item);
    SpliceBlocks(bs, i, i, [f]);
    SplicePairs(bs, i, i, [f]);
    assert bs[i..i] == [];
    PairsOne(f);
  }

  lemma AppendReplaces(b: Blk, k: Key, item: Item)
    requires Seg(b) && HasRoom(b, item) && (k, item) !in b.es && |item| > 0
    ensures Replaces(b, [Append(b, k, item)], k, item)
  {
    AppendSeg(b, k, item);
    PairsOne(Append(b, k, item));
  }

  lemma LostAt(bs: seq<Blk>, i: nat, r: seq<Blk>)
    requires i < |bs| && Pairs(r) == multiset(bs[i].es)
    ensures Pairs(Splice(bs, i, i + 1, r)) == Pairs(bs)
  {
    ReplacePairs(bs, i, r, multiset{});
  }

  /** Block i is split to make room: the index lies inside a full block, or between two full ones. */
  ghost predicate SplitsAt(bs: seq<Blk>, k: Key, item: Item, i: int) {
    && 0 <= i < |bs| && bs[i].es != [] && !HasRoom(bs[i], item)
    && (|| Min(bs[i]) < k < Max(bs[i])
        || (&& i + 1 < |bs| && bs[i + 1].es != [] && Max(bs[i]) < k <= Min(bs[i + 1]) && k < Max(bs[i + 1])
            && !HasRoom(bs[i + 1], item)))
  }

  /** The item will be lost although append reports success. */
  ghost predicate Drops(bs: seq<Blk>, k: Key, item: Item) {
    exists i :: SplitsAt(bs, k, item, i) && Loses(bs[i], k, item)
  }

  lemma SplitsOnce(bs: seq<Blk>, k: Key, item: Item, i: int, j: int)
    requires Blocks(bs) && SplitsAt(bs, k, item, i) && SplitsAt(bs, k, item, j)
    ensures i == j
  {
    SegBounds(bs[i]);
    SegBounds(bs[j]);
    if i < j { NotBelow(bs, k, item, i, j); }
    if j < i { NotBelow(bs, k, item, j, i); }
  }

  lemma NotBelow(bs: seq<Blk>, k: Key, item: Item, i: int, j: int)
    requires Blocks(bs) && SplitsAt(bs, k, item, i) && SplitsAt(bs, k, item, j)
    ensures i >= j
  {
    SegBounds(bs[i]);
    SegBounds(bs[j]);
  }

  /** What append does to the list: positions i..j are replaced. */
  ghost predicate Placed(bs: seq<Blk>, k: Key, item: Item, i: nat, j: nat, r: seq<Blk>) {
    && i <= j <= |bs| && r != []
    && (!Drops(bs, k, item) ==> BlocksGrown(bs, Splice(bs, i, j, r), k, item))
    && (Drops(bs, k, item) ==> Pairs(Splice(bs, i, j, r)) == Pairs(bs))
  }

  lemma SplitPlaced(bs: seq<Blk>, k: Key, item: Item, i: nat)
    requires Blocks(bs) && SplitsAt(bs, k, item, i) && |item| > 0 && (k, item) !in bs[i].es
      && FitsBetween(bs, i, i + 1, k) && Min(bs[i]) < k
    ensures Placed(bs, k, item, i, i + 1, SplitAppend(bs[i], k, item))
  {
    var b := bs[i];
    assert Drops(bs, k, item) <==> Loses(b, k, item) by {
      if Drops(bs, k, item) {
        var j :| SplitsAt(bs, k, item, j) && Loses(bs[j], k, item);
        SplitsOnce(bs, k, item, i, j);
      }
    }
    MidHalfway(b);
    EarlyIff(b, k, item, Mid(b.es, b.full / 2));
    if Early(b, k, item) { EarlyKeepsOrLoses(b, k, item); } else { FallbackKeeps(b, k, item); }
    if Loses(b, k, item) {
      LostAt(bs, i, SplitAppend(b, k, item));
    } else {
      ReplaceAt(bs, i, SplitAppend(b, k, item), k, item);
    }
  }

  /** When some block has room next to the index, or there is no block to split, nothing is lost. */
  lemma NoDrop(bs: seq<Blk>, k: Key, item: Item, m: nat)
    requires Blocks(bs) && m < |bs| && (forall i :: 0 <= i < m ==> Max(bs[i]) < k) && (Max(bs[m]) >= k || m == |bs| - 1)
    requires HasRoom(bs[m], item) || Max(bs[m]) <= k || (k <= Min(bs[m]) && (m == 0 || HasRoom(bs[m - 1], item)))
    ensures !Drops(bs, k, item)
  {
    SegBounds(bs[m]);
    forall i ensures !SplitsAt(bs, k, item, i) {
      if 0 <= i < |bs| { SegBounds(bs[i]); }
    }
  }

  lemma NotIn(bs: seq<Blk>, p: Pair, i: nat)
    requires p !in Pairs(bs) && i < |bs|
    ensures p !in bs[i].es
  {
    InPairs(bs, p);
  }

  lemma AppendPlaced(bs: seq<Blk>, k: Key, item: Item, i: nat)
    requires i < |bs| && FitsBetween(bs, i, i + 1, k) && HasRoom(bs[i], item) && (k, item) !in Pairs(bs) && |item| > 0
      && !Drops(bs, k, item)
    ensures Placed(bs, k, item, i, i + 1, [Append(bs[i], k, item)])
  {
    NotIn(bs, (k, item), i);
    AppendReplaces(bs[i], k, item);
    ReplaceAt(bs, i, [Append(bs[i], k, item)], k, item);
  }

  lemma FreshPlaced(bs: seq<Blk>, k: Key, item: Item, i: nat)
    requires FitsBetween(bs, i, i, k) && |item| > 0 && !Drops(bs, k, item)
    ensures Placed(bs, k, item, i, i, [Fresh(k, item)])
  {
    InsertFresh(bs, i, k, item);
  }

  /** At most one block is replaced, by itself changed and new ones behind it, or a new one is put in; the blocks
      from x to y were in memory for that. */
  ghost predicate Edits(bs: seq<Blk>, i: nat, j: nat, r: seq<Blk>, x: nat, y: nat) {
    && i <= j <= i + 1 && j <= |bs| && |r| > 0 && x <= y <= |bs|
    && (if j == i then |r| == 1 else x <= i < y && r[0].full == bs[i].full)
    && (forall n :: j - i <= n < |r| ==> r[n].full > 0 || (j == i + 1 && r[n].full == bs[i].full))
  }

  lemma EditAppend(bs: seq<Blk>, k: Key, item: Item, i: nat, x: nat, y: nat)
    requires x <= i < y <= |bs|
    ensures Edits(bs, i, i + 1, [Append(bs[i], k, item)], x, y)
  {
  }

  lemma EditFresh(bs: seq<Blk>, k: Key, item: Item, i: nat, x: nat, y: nat)
    requires i <= |bs| && x <= y <= |bs|
    ensures Edits(bs, i, i, [Fresh(k, item)], x, y)
  {
  }

  lemma EditSplit(bs: seq<Blk>, k: Key, item: Item, i: nat, x: nat, y: nat)
    requires x <= i < y <= |bs| && bs[i].es != []
    ensures Edits(bs, i, i + 1, SplitAppend(bs[i], k, item), x, y)
  {
  }

  /** The branches of append that look at the neighbour above a full block. */
  method ChooseNext(bs: seq<Blk>, k: Key, item: Item, m: nat) returns (i: nat, j: nat, r: seq<Blk>, y: nat)
    requires Blocks(bs) && m < |bs| && Max(bs[m]) <= k && (m + 1 < |bs| ==> Max(bs[m]) == k)
    requires (k, item) !in Pairs(bs) && |item| > 0 && !Drops(bs, k, item)
    ensures Placed(bs, k, item, i, j, r) && Edits(bs, i, j, r, m, y) && m < y
  {
    y := if m + 1 < |bs| then m + 2 else m + 1;
    if m + 1 < |bs| && HasRoom(bs[m + 1], item) {
      NextFits(bs, k, m);
      AppendPlaced(bs, k, item, m + 1);
      EditAppend(bs, k, item, m + 1, m, y);
      return m + 1, m + 2, [Append(bs[m + 1], k, item)], y;
    }
    NextFits(bs, k, m);
    FreshPlaced(bs, k, item, m + 1);
    EditFresh(bs, k, item, m + 1, m, y);
    return m + 1, m + 1, [Fresh(k, item)], y;
  }

  lemma NextFits(bs: seq<Blk>, k: Key, m: nat)
    requires Blocks(bs) && m < |bs| && Max(bs[m]) <= k && (m + 1 < |bs| ==> Max(bs[m]) == k)
    ensures FitsBetween(bs, m + 1, m + 1, k) && (m + 1 < |bs| ==> FitsBetween(bs, m + 1, m + 2, k))
  {
    if m + 1 < |bs| { SegBounds(bs[m + 1]); }
  }

  /** The branches that look at the neighbour below a full block. */
  method ChoosePrevious(bs: seq<Blk>, k: Key, item: Item, m: nat) returns (i: nat, j: nat, r: seq<Blk>, x: nat)
    requires Blocks(bs) && m < |bs| && k <= Min(bs[m]) && k < Max(bs[m]) && !HasRoom(bs[m], item)
    requires forall n :: 0 <= n < m ==> Max(bs[n]) < k
    requires (k, item) !in Pairs(bs) && |item| > 0 && (m == 0 || HasRoom(bs[m - 1], item) ==> !Drops(bs, k, item))
    ensures Placed(bs, k, item, i, j, r) && Edits(bs, i, j, r, x, m + 1) && x <= m
  {
    if m == 0 {
      FreshPlaced(bs, k, item, 0);
      EditFresh(bs, k, item, 0, 0, 1);
      return 0, 0, [Fresh(k, item)], 0;
    }
    PreviousFits(bs, k, item, m);
    if HasRoom(bs[m - 1], item) {
      AppendPlaced(bs, k, item, m - 1);
      EditAppend(bs, k, item, m - 1, m - 1, m + 1);
      return m - 1, m, [Append(bs[m - 1], k, item)], m - 1;
    }
    SplitPlaced(bs, k, item, m - 1);
    EditSplit(bs, k, item, m - 1, m - 1, m + 1);
    r := SplitAppendBlock(bs[m - 1], k, item);
    return m - 1, m, r, m - 1;
  }

  lemma PreviousFits(bs: seq<Blk>, k: Key, item: Item, m: nat)
    requires Blocks(bs) && 0 < m < |bs| && k <= Min(bs[m]) && k < Max(bs[m]) && !HasRoom(bs[m], item)
    requires Max(bs[m - 1]) < k && (k, item) !in Pairs(bs)
    ensures FitsBetween(bs, m - 1, m, k) && Min(bs[m - 1]) < k && (k, item) !in bs[m - 1].es && bs[m - 1].es != []
    ensures !HasRoom(bs[m - 1], item) ==> SplitsAt(bs, k, item, m - 1)
  {
    SegBounds(bs[m - 1]);
    NotIn(bs, (k, item), m - 1);
    if m > 1 { SegBounds(bs[m - 2]); }
  }

  /** The branches of append after the duplicate check; b is the first block that does not end below k. */
  method Choose(bs: seq<Blk>, meta: seq<Bounds>, k: Key, item: Item, b: nat, ghost e: nat)
    returns (i: nat, j: nat, r: seq<Blk>, x: nat, y: nat)
    requires Blocks(bs) && Exact(bs, meta) && bs != [] && Covers(bs, k, b, e) && (k, item) !in Pairs(bs) && |item| > 0
    ensures Placed(bs, k, item, i, j, r) && Edits(bs, i, j, r, x, y)
    ensures var m := if b == |bs| then b - 1 else b; x <= m < y
  {
    var m := if b == |bs| then b - 1 else b;
    FirstAbove(bs, k, b, e, m);
    x, y := m, m + 1;
    if HasRoom(bs[m], item) {
      NoDrop(bs, k, item, m);
      AppendPlaced(bs, k, item, m);
      EditAppend(bs, k, item, m, m, m + 1);
      return m, m + 1, [Append(bs[m], k, item)], m, m + 1;
    }
    if Max(bs[m]) <= k {
      NoDrop(bs, k, item, m);
      i, j, r, y := ChooseNext(bs, k, item, m);
    } else if meta[m].min >= k {
      if m == 0 || HasRoom(bs[m - 1], item) { NoDrop(bs, k, item, m); }
      i, j, r, x := ChoosePrevious(bs, k, item, m);
    } else {
      NotIn(bs, (k, item), m);
      SplitPlaced(bs, k, item, m);
      EditSplit(bs, k, item, m, m, m + 1);
      r := SplitAppendBlock(bs[m], k, item);
      i, j := m, m + 1;
    }
  }

  lemma FirstAbove(bs: seq<Blk>, k: Key, b: nat, e: nat, m: nat)
    requires Blocks(bs) && bs != [] && Covers(bs, k, b, e) && m == (if b == |bs| then b - 1 else b)
    ensures FitsBetween(bs, m, m + 1, k) && (forall n :: 0 <= n < m ==> Max(bs[n]) < k)
      && (Max(bs[m]) >= k || m == |bs| - 1)
  {
    if b < e { SegBounds(bs[b]); }
    if b < |bs| {
      SegBounds(bs[b]);
      assert Max(bs[b]) >= k;
    }
  }

  // ---------------------------------------------------------------- append

  function BoundsList(bs: seq<Blk>): (r: seq<Bounds>)
    ensures |r| == |bs| && forall i :: 0 <= i < |bs| ==> r[i] == BoundsOf(bs[i])
  {
    seq(|bs|, i requires 0 <= i < |bs| => BoundsOf(bs[i]))
  }

  lemma ExactSplice(bs: seq<Blk>, meta: seq<Bounds>, i: nat, j: nat, r: seq<Blk>)
    requires Exact(bs, meta) && i <= j <= |bs|
    ensures Exact(Splice(bs, i, j, r), meta[..i] + BoundsList(r) + meta[j..])
  {
    var t, m := Splice(bs, i, j, r), meta[..i] + BoundsList(r) + meta[j..];
    forall x | 0 <= x < |t| ensures m[x] == BoundsOf(t[x]) {
      if x < i { assert t[x] == bs[x]; }
      else if x < i + |r| { assert t[x] == r[x - i]; }
      else { assert t[x] == bs[x - i - |r| + j]; }
    }
  }

  lemma GrownCounts(m: multiset<Pair>, p: Pair)
    requires p !in m && forall q :: m[q] <= 1
    ensures |m + multiset{p}| == |m| + 1 && (forall q :: (m + multiset{p})[q] <= 1)
    ensures KeysOf(m + multiset{p}) == KeysOf(m) + {p.0}
  {
    var n := m + multiset{p};
    forall k | k in KeysOf(n) ensures k in KeysOf(m) + {p.0} {
      var q :| q in n && q.0 == k;
      if q != p { assert q in m; }
    }
    assert p in n;
  }

  /** What append does to the list: blocks x..y are in memory, and i..j become r. */
  datatype Plan = Plan(x: nat, y: nat, i: nat, j: nat, r: seq<Blk>)

  ghost predicate Planned(bs: seq<Blk>, p: Plan, bs': seq<Blk>) {
    Edits(bs, p.i, p.j, p.r, p.x, p.y) && bs' == Splice(bs, p.i, p.j, p.r)
  }

  function Lower(a: nat, b: nat): nat { if a < b then a else b }

  function Upper(a: nat, b: nat): nat { if a > b then a else b }

  lemma WiderEdits(bs: seq<Blk>, i: nat, j: nat, r: seq<Blk>, x: nat, y: nat, x': nat, y': nat)
    requires Edits(bs, i, j, r, x, y) && x' <= x && y <= y' <= |bs|
    ensures Edits(bs, i, j, r, x', y')
  {
  }

  /** append, on the fields; the counter of indices may be off. The plan says what it does to the blocks, if the
      item is not there. */
  method AppendTo(bs: seq<Blk>, meta: seq<Bounds>, items: int, uniques: int, k: Key, item: Item, ghost d: int)
    returns (ok: bool, bs': seq<Blk>, meta': seq<Bounds>, items': int, uniques': int, p: Plan)
    requires SoundBut(bs, meta, items, uniques, d) && |item| > 0
    ensures ok <==> (k, item) !in Pairs(bs)
    ensures !ok ==> bs' == bs && SoundBut(bs', meta', items', uniques', d) && p.x <= p.y <= |bs|
    ensures ok ==> Planned(bs, p, bs')
    ensures ok && !Drops(bs, k, item) ==>
      SoundBut(bs', meta', items', uniques', d) && Pairs(bs') == Pairs(bs) + multiset{(k, item)}
    ensures ok && Drops(bs, k, item) ==> Pairs(bs') == Pairs(bs) && items' == |Pairs(bs')| + 1
  {
    ok, bs', meta', items', uniques' := true, bs, meta, items, uniques;
    var i, j, r, index, x, y := 0, 0, [Fresh(k, item)], false, 0, 0;
    if bs == [] {
      assert !Drops(bs, k, item);
      FreshPlaced(bs, k, item, 0);
      assert KeysOf(Pairs(bs)) == {};
    } else {
      var b, e := FindRange(meta, k, bs);
      var here, seen;
      index, here, seen := CheckBlocks(bs, k, item, b, e);
      if here { return false, bs, meta, items, uniques, Plan(b, seen, 0, 0, []); }
      i, j, r, x, y := Choose(bs, meta, k, item, b, e);
      WiderEdits(bs, i, j, r, x, y, Lower(x, b), Upper(y, seen));
      x, y := Lower(x, b), Upper(y, seen);
    }
    p := Plan(x, y, i, j, r);
    bs', meta' := Splice(bs, i, j, r), meta[..i] + BoundsList(r) + meta[j..];
    items', uniques' := items + 1, if index then uniques else uniques + 1;
    AppendedCounts(bs, meta, items, uniques, k, item, d, p, index);
  }

  lemma AppendedCounts(bs: seq<Blk>, meta: seq<Bounds>, items: int, uniques: int, k: Key, item: Item, d: int, p: Plan,
      index: bool)
    requires SoundBut(bs, meta, items, uniques, d) && (k, item) !in Pairs(bs) && (index <==> k in KeysOf(Pairs(bs)))
    requires Placed(bs, k, item, p.i, p.j, p.r)
    ensures var bs', meta' := Splice(bs, p.i, p.j, p.r), meta[..p.i] + BoundsList(p.r) + meta[p.j..];
      && (Drops(bs, k, item) ==> Pairs(bs') == Pairs(bs))
      && (!Drops(bs, k, item) ==> Pairs(bs') == Pairs(bs) + multiset{(k, item)})
      && (!Drops(bs, k, item) ==> SoundBut(bs', meta', items + 1, if index then uniques else uniques + 1, d))
  {
    ExactSplice(bs, meta, p.i, p.j, p.r);
    GrownCounts(Pairs(bs), (k, item));
  }

  lemma SmallFresh(k: Key, item: Item)
    requires 0 < |item| <= DEFAULT_SIZE - HEADER - RECORD
    ensures Fresh(k, item) == Blk(DEFAULT_SIZE, [(k, item)])
      && Room(Fresh(k, item)) == DEFAULT_SIZE - HEADER - RECORD - |item|
  {
    WeightOne((k, item));
  }

  lemma TwoSound(p: Pair, q: Pair, x: Blk, y: Blk)
    requires p.0 < q.0 && Seg(x) && Seg(y) && x.es == [p] && y.es == [q]
    ensures Sound([x, y], BoundsList([x, y]), 2, 2)
  {
    BlocksTwo(x, y);
    PairsTwo(x, y);
    TwoPairs(p, q);
  }

  lemma DropsBetween(x: Blk, y: Blk, k: Key, item: Item)
    requires Seg(x) && Seg(y) && Max(x) < k < Min(y) && !HasRoom(x, item) && !HasRoom(y, item) && Loses(x, k, item)
    ensures Drops([x, y], k, item)
  {
    var bs := [x, y];
    SegBounds(y);
    assert SplitsAt(bs, k, item, 0) && Loses(bs[0], k, item);
  }

  /** A valid tree of two full blocks that loses an item put between them: the lower block is split, and its
      lower half is empty. */
  lemma DropsHappens(a: Item, c: Item, item: Item)
    requires |a| == 131000 && |c| == 200000 && |item| == 131090
    ensures var bs := [Fresh(0, a), Fresh(2, c)];
      Sound(bs, BoundsList(bs), 2, 2) && Drops(bs, 1, item)
  {
    FreshFits(0, a);
    FreshFits(2, c);
    TwoSound((0, a), (2, c), Fresh(0, a), Fresh(2, c));
    SmallFresh(0, a);
    SmallFresh(2, c);
    LosesHappens(0, a, item);
    DropsBetween(Fresh(0, a), Fresh(2, c), 1, item);
  }

  lemma TwoPairs(p: Pair, q: Pair)
    requires p.0 < q.0
    ensures var m := multiset([p]) + multiset([q]);
      |m| == 2 && (forall x :: m[x] <= 1) && |KeysOf(m)| == 2
  {
    var m := multiset([p]) + multiset([q]);
    assert p in m && q in m;
    assert KeysOf(m) == {p.0, q.0};
  }
}
