/** Lists of blocks in index order, and what becomes of one block that has no room for an item. */
module Segments {
  import opened Multimap
  import opened BlockSpec

  // ---------------------------------------------------------------- one block

  ghost predicate Seg(b: Blk) { Good(b) && b.es != [] }

  function Min(b: Blk): Key
    requires b.es != []
  {
    b.es[|b.es| - 1].0
  }

  function Max(b: Blk): Key
    requires b.es != []
  {
    b.es[0].0
  }

  lemma MinMax(b: Blk, p: Pair)
    requires Seg(b) && p in b.es
    ensures Min(b) <= p.0 <= Max(b)
  {
    var i :| 0 <= i < |b.es| && b.es[i] == p;
  }

  /** align_to_block_size. */
  function Align(n: nat): nat { (n + (DEFAULT_SIZE - 1)) / DEFAULT_SIZE * DEFAULT_SIZE }

  /** construct_new_node_: a block just for the item. */
  function Fresh(k: Key, item: Item): Blk {
    Blk(Align(|item| + HEADER + RECORD), [(k, item)])
  }

  /** Its size is the smallest multiple of the default size that holds the item. */
  lemma FreshSmallest(k: Key, item: Item)
    ensures var b := Fresh(k, item);
      b.full % DEFAULT_SIZE == 0 && b.full - DEFAULT_SIZE < |item| + HEADER + RECORD <= b.full
  {
  }

  lemma FreshFits(k: Key, item: Item)
    requires |item| > 0
    ensures Seg(Fresh(k, item)) && CanAppend(Blk(Fresh(k, item).full, []), k, item)
    ensures Append(Blk(Fresh(k, item).full, []), k, item) == Fresh(k, item)
  {
    WeightOne((k, item));
    var none: seq<Pair> := [];
    assert Added(none, k, item) == [(k, item)];
  }

  lemma AppendSeg(b: Blk, k: Key, item: Item)
    requires Good(b) && CanAppend(b, k, item) && |item| > 0
    ensures Seg(Append(b, k, item)) && multiset(Append(b, k, item).es) == multiset(b.es) + multiset{(k, item)}
    ensures b.es != [] ==>
      Min(Append(b, k, item)) == (if k < Min(b) then k else Min(b))
      && Max(Append(b, k, item)) == (if k > Max(b) then k else Max(b))
  {
    var i, j := RangeExists(b.es, k);
    AddedBlk(b, k, item, i, j);
    assert b.es == b.es[..i] + b.es[i..];
    InsertedEnds(b.es, i, (k, item));
    if b.es != [] { RangeEnds(b.es, k, i, j); }
  }

  lemma InsertedEnds(es: seq<Pair>, i: nat, p: Pair)
    requires i <= |es|
    ensures var r := Inserted(es, i, p);
      r[0] == (if i == 0 then p else es[0]) && r[|r| - 1] == (if i == |es| then p else es[|es| - 1])
  {
  }

  lemma RangeEnds(es: seq<Pair>, k: Key, i: nat, j: nat)
    requires IsRange(es, k, i, j) && es != []
    ensures (i == 0 <==> es[0].0 <= k) && (i == |es| <==> es[|es| - 1].0 > k)
  {
  }

  // ---------------------------------------------------------------- lists of blocks

  ghost predicate Blocks(bs: seq<Blk>) {
    && (forall i :: 0 <= i < |bs| ==> Seg(bs[i]))
    && (forall i, j :: 0 <= i < j < |bs| ==> Max(bs[i]) <= Min(bs[j]))
  }

  /** Everything the blocks hold. */
  ghost function Pairs(bs: seq<Blk>): multiset<Pair> {
    if bs == [] then multiset{} else multiset(bs[0].es) + Pairs(bs[1..])
  }

  lemma {:induction false} PairsAdd(a: seq<Blk>, b: seq<Blk>)
    ensures Pairs(a + b) == Pairs(a) + Pairs(b)
  {
    if a == [] {
      assert a + b == b;
    } else {
      assert (a + b)[1..] == a[1..] + b;
      PairsAdd(a[1..], b);
    }
  }

  lemma PairsOne(b: Blk)
    ensures Pairs([b]) == multiset(b.es)
  {
    assert [b][1..] == [];
    assert Pairs([]) == multiset{};
  }

  /** Positions i..j replaced by other blocks. */
  function Splice(bs: seq<Blk>, i: nat, j: nat, new_: seq<Blk>): seq<Blk>
    requires i <= j <= |bs|
  {
    bs[..i] + new_ + bs[j..]
  }

  lemma SplicePairs(bs: seq<Blk>, i: nat, j: nat, new_: seq<Blk>)
    requires i <= j <= |bs|
    ensures Pairs(Splice(bs, i, j, new_)) + Pairs(bs[i..j]) == Pairs(bs) + Pairs(new_)
  {
    PairsThree(bs[..i], new_, bs[j..]);
    PairsSplit(bs, i, j);
    Exchange(Pairs(bs[..i]), Pairs(bs[i..j]), Pairs(bs[j..]), Pairs(new_));
  }

  lemma PairsSplit(bs: seq<Blk>, i: nat, j: nat)
    requires i <= j <= |bs|
    ensures Pairs(bs) == Pairs(bs[..i]) + Pairs(bs[i..j]) + Pairs(bs[j..])
  {
    assert bs == bs[..i] + bs[i..j] + bs[j..];
    PairsThree(bs[..i], bs[i..j], bs[j..]);
  }

  lemma Exchange(x: multiset<Pair>, m: multiset<Pair>, y: multiset<Pair>, n: multiset<Pair>)
    ensures x + n + y + m == x + m + y + n
  {
  }

  lemma PairsThree(a: seq<Blk>, m: seq<Blk>, b: seq<Blk>)
    ensures Pairs(a + m + b) == Pairs(a) + Pairs(m) + Pairs(b)
  {
    PairsAdd(a + m, b);
    PairsAdd(a, m);
  }

  /** New blocks that lie between their neighbours keep the list in order. */
  lemma SpliceBlocks(bs: seq<Blk>, i: nat, j: nat, new_: seq<Blk>)
    requires Blocks(bs) && i <= j <= |bs| && Blocks(new_) && new_ != []
    requires i > 0 ==> Max(bs[i - 1]) <= Min(new_[0])
    requires j < |bs| ==> Max(new_[|new_| - 1]) <= Min(bs[j])
    ensures Blocks(Splice(bs, i, j, new_))
  {
    var t := Splice(bs, i, j, new_);
    forall x | 0 <= x < |t| ensures Seg(t[x]) { SpliceAt(bs, i, j, new_, x); }
    forall x, y | 0 <= x < y < |t| ensures Max(t[x]) <= Min(t[y]) { SpliceOrder(bs, i, j, new_, x, y); }
  }

  lemma SpliceAt(bs: seq<Blk>, i: nat, j: nat, new_: seq<Blk>, x: nat)
    requires i <= j <= |bs| && x < |Splice(bs, i, j, new_)|
    ensures Splice(bs, i, j, new_)[x] ==
      if x < i then bs[x] else if x < i + |new_| then new_[x - i] else bs[x - i - |new_| + j]
  {
  }

  lemma SpliceOrder(bs: seq<Blk>, i: nat, j: nat, new_: seq<Blk>, x: nat, y: nat)
    requires Blocks(bs) && i <= j <= |bs| && Blocks(new_) && new_ != []
    requires i > 0 ==> Max(bs[i - 1]) <= Min(new_[0])
    requires j < |bs| ==> Max(new_[|new_| - 1]) <= Min(bs[j])
    requires x < y < |Splice(bs, i, j, new_)|
    ensures var t := Splice(bs, i, j, new_); Seg(t[x]) && Seg(t[y]) && Max(t[x]) <= Min(t[y])
  {
    var n := |new_|;
    SpliceAt(bs, i, j, new_, x);
    SpliceAt(bs, i, j, new_, y);
    if x < i && i <= y < i + n { BetweenLow(bs, i, new_, x, y - i); }
    if i <= x < i + n && y >= i + n { BetweenHigh(bs, j, new_, x - i, y - i - n + j); }
  }

  lemma BetweenLow(bs: seq<Blk>, i: nat, new_: seq<Blk>, x: nat, y: nat)
    requires Blocks(bs) && 0 < i <= |bs| && Blocks(new_) && new_ != [] && Max(bs[i - 1]) <= Min(new_[0]) && x < i
      && y < |new_|
    ensures Max(bs[x]) <= Min(new_[y])
  {
    SegBounds(bs[i - 1]);
    SegBounds(new_[0]);
    assert x < i - 1 ==> Max(bs[x]) <= Min(bs[i - 1]);
    assert 0 < y ==> Max(new_[0]) <= Min(new_[y]);
  }

  lemma BetweenHigh(bs: seq<Blk>, j: nat, new_: seq<Blk>, x: nat, y: nat)
    requires Blocks(bs) && j < |bs| && Blocks(new_) && new_ != [] && Max(new_[|new_| - 1]) <= Min(bs[j]) && x < |new_|
      && j <= y < |bs|
    ensures Max(new_[x]) <= Min(bs[y])
  {
    var l := |new_| - 1;
    SegBounds(bs[j]);
    SegBounds(new_[l]);
    assert x < l ==> Max(new_[x]) <= Min(new_[l]);
    assert j < y ==> Max(bs[j]) <= Min(bs[y]);
  }

  lemma SegBounds(b: Blk)
    requires Seg(b)
    ensures Min(b) <= Max(b)
  {
    assert b.es[0] in b.es;
    MinMax(b, b.es[0]);
  }

  // ---------------------------------------------------------------- split_append

  /** Entries from the top until half of the block is reached. */
  function Mid(es: seq<Pair>, half: int): (s: nat)
    ensures s <= |es| && (half > 0 && es != [] ==> s > 0)
  {
    if es == [] || half <= 0 then 0 else 1 + Mid(es[1..], half - |es[0].1| - RECORD)
  }

  lemma {:induction false} MidMeans(es: seq<Pair>, half: int)
    ensures Mid(es, half) < |es| ==> Weight(es[..Mid(es, half)]) >= half
    ensures Mid(es, half) > 0 ==> Weight(es[..Mid(es, half) - 1]) < half
  {
    if es != [] && half > 0 {
      var t, w := es[1..], |es[0].1| + RECORD;
      MidMeans(t, half - w);
      var s := Mid(t, half - w);
      assert es[..s + 1][1..] == t[..s];
      if s > 0 { assert es[..s][1..] == t[..s - 1]; }
    } else {
      assert es[..0] == [];
    }
  }

  /** The loop that looks for the middle, and the weight up to and including the entry there. */
  method FindMid(es: seq<Pair>, full: int) returns (s: nat, acc: int)
    ensures s == Mid(es, full / 2)
    ensures acc == Weight(es[..s]) + if s < |es| then |es[s].1| + RECORD else 0
  {
    s, acc := 0, 0;
    assert es[0..] == es && es[..0] == [];
    while s < |es| && acc < full / 2
      invariant 0 <= s <= |es| && acc == Weight(es[..s]) && Mid(es, full / 2) == s + Mid(es[s..], full / 2 - acc)
    {
      assert es[s..][1..] == es[s + 1..];
      assert es[..s + 1] == es[..s] + [es[s]];
      WeightAdd(es[..s], [es[s]]);
      WeightOne(es[s]);
      acc := acc + |es[s].1| + RECORD;
      s := s + 1;
    }
    if s < |es| { acc := acc + |es[s].1| + RECORD; }
  }

  /** What split_append takes for granted from its size estimate. */
  function Estimate(b: Blk): int
  {
    var s := Mid(b.es, b.full / 2);
    Weight(b.es[..s]) + if s < |b.es| then |b.es[s].1| + RECORD else 0
  }

  /** The half the item should go to can take it, by the estimate: the upper half, or the lower one. */
  predicate ToUpper(b: Blk, k: Key)
  {
    var s := Mid(b.es, b.full / 2);
    s == |b.es| || b.es[s].0 < k
  }

  predicate Early(b: Blk, k: Key, item: Item)
    requires b.es != []
  {
    var s := Mid(b.es, b.full / 2);
    if s == |b.es| && Min(b) < k < Max(b) then false
    else if ToUpper(b, k) then b.full - RECORD > |item| + Estimate(b)
    else Room(b) + Estimate(b) > |item| + RECORD
  }

  /** The first position at which the entries in front of it reach half of the block, or the end. */
  ghost predicate Halfway(b: Blk, s: nat) {
    && s <= |b.es| && (s < |b.es| ==> Weight(b.es[..s]) >= b.full / 2)
    && forall t :: 0 <= t < s ==> Weight(b.es[..t]) < b.full / 2
  }

  /** With s halfway, a block without room is split there if the half for the item will take it, counting the entry at
      s for the upper half and for the lower one. An index inside a block that does not reach half is left to the
      fallback. */
  ghost predicate SplitsHalfway(b: Blk, k: Key, item: Item, s: nat)
    requires b.es != [] && s <= |b.es|
  {
    if s == |b.es| then !(Min(b) < k < Max(b)) && |item| + RECORD + Weight(b.es) < b.full
    else if b.es[s].0 < k then |item| + RECORD + Weight(b.es[..s + 1]) < b.full
    else |item| + RECORD < Room(b) + Weight(b.es[..s + 1])
  }

  /** The sizes at which the item is dropped: the lower half has room for it only with the entry at s, which is not
      in it; or there is no lower half, and the header is forgotten. */
  ghost predicate MissesBy(b: Blk, k: Key, item: Item, s: nat)
    requires b.es != [] && s <= |b.es|
  {
    if s == |b.es| then !(Min(b) < k < Max(b)) && |item| + RECORD + Weight(b.es) < b.full
    else k <= b.es[s].0 && Room(b) + Weight(b.es[..s]) < |item| + RECORD < Room(b) + Weight(b.es[..s + 1])
  }

  /** The item is dropped, told by sizes alone. */
  ghost predicate Loses(b: Blk, k: Key, item: Item)
    requires b.es != []
  {
    exists s: nat :: Halfway(b, s) && MissesBy(b, k, item, s)
  }

  lemma {:induction false} WeightGrows(es: seq<Pair>, s: nat, t: nat)
    requires s <= t <= |es|
    ensures Weight(es[..s]) <= Weight(es[..t])
  {
    assert es[..t] == es[..s] + es[s..t];
    WeightAdd(es[..s], es[s..t]);
  }

  lemma WeightNext(es: seq<Pair>, s: nat)
    requires s < |es|
    ensures Weight(es[..s + 1]) == Weight(es[..s]) + |es[s].1| + RECORD
  {
    assert es[..s + 1] == es[..s] + [es[s]];
    WeightAdd(es[..s], [es[s]]);
    WeightOne(es[s]);
  }

  /** The loop finds it, and there is only one. */
  lemma MidHalfway(b: Blk)
    ensures Halfway(b, Mid(b.es, b.full / 2))
    ensures forall s: nat :: Halfway(b, s) ==> s == Mid(b.es, b.full / 2)
  {
    var m := Mid(b.es, b.full / 2);
    MidMeans(b.es, b.full / 2);
    forall t | 0 <= t < m ensures Weight(b.es[..t]) < b.full / 2 { WeightGrows(b.es, t, m - 1); }
  }

  /** The path taken, and the loss, by sizes. */
  lemma EarlyIff(b: Blk, k: Key, item: Item, s: nat)
    requires b.es != [] && Halfway(b, s)
    ensures Early(b, k, item) <==> SplitsHalfway(b, k, item, s)
    ensures Loses(b, k, item) <==> MissesBy(b, k, item, s)
    ensures MissesBy(b, k, item, s) ==> Early(b, k, item)
  {
    MidHalfway(b);
    assert b.es[..|b.es|] == b.es;
    if s < |b.es| { WeightNext(b.es, s); }
  }

  function Halves(b: Blk, n: nat): (Blk, Blk)
    requires n <= |b.es|
  {
    (Blk(b.full, b.es[n..]), Blk(b.full, b.es[..n]))
  }

  /** The blocks split_append leaves, lowest first. */
  function SplitAppend(b: Blk, k: Key, item: Item): seq<Blk>
    requires b.es != []
  {
    if Early(b, k, item) then
      var h := Halves(b, Mid(b.es, b.full / 2));
      if ToUpper(b, k) then [h.0, Append(h.1, k, item)] else [Append(h.0, k, item), h.1]
    else
      var p := Place(b.es, k);
      if p == 0 then [b, Fresh(k, item)]
      else
        var h := Halves(b, p);
        if CanAppend(h.0, k, item) then [Append(h.0, k, item), h.1]
        else if CanAppend(h.1, k, item) then [h.0, Append(h.1, k, item)]
        else [h.0, Fresh(k, item), h.1]
  }

  method SplitAppendBlock(b: Blk, k: Key, item: Item) returns (r: seq<Blk>)
    requires b.es != []
    ensures r == SplitAppend(b, k, item)
  {
    var s, acc := FindMid(b.es, b.full);
    var possible, upper := false, false;
    if s == |b.es| && Min(b) < k < Max(b) {
    } else if s == |b.es| || b.es[s].0 < k {
      possible, upper := b.full - RECORD > |item| + acc, true;
    } else {
      possible := Room(b) + acc > |item| + RECORD;
    }
    if possible {
      var h := Halves(b, s);
      return if upper then [h.0, Append(h.1, k, item)] else [Append(h.0, k, item), h.1];
    }
    var p := Place(b.es, k);
    if p == 0 { return [b, Fresh(k, item)]; }
    var h := Halves(b, p);
    if CanAppend(h.0, k, item) { return [Append(h.0, k, item), h.1]; }
    if CanAppend(h.1, k, item) { return [h.0, Append(h.1, k, item)]; }
    return [h.0, Fresh(k, item), h.1];
  }

  lemma HalvesFacts(b: Blk, n: nat)
    requires Seg(b) && 0 < n < |b.es|
    ensures var h := Halves(b, n);
      && Seg(h.0) && Seg(h.1) && Max(h.0) == b.es[n].0 && Min(h.0) == Min(b) && Max(h.1) == Max(b)
        && Min(h.1) == b.es[n - 1].0
      && multiset(h.0.es) + multiset(h.1.es) == multiset(b.es)
      && Room(h.0) == Room(b) + Weight(b.es[..n]) && Room(h.1) == b.full - HEADER - Weight(b.es[..n])
  {
    HalvesRoom(b, n);
    HalvesSegs(b, n);
    HalvesEnds(b, n);
  }

  lemma HalvesEnds(b: Blk, n: nat)
    requires 0 < n < |b.es|
    ensures var h := Halves(b, n);
      && h.0.es != [] && h.1.es != [] && Max(h.0) == b.es[n].0 && Min(h.0) == Min(b) && Max(h.1) == Max(b)
      && Min(h.1) == b.es[n - 1].0 && multiset(h.0.es) + multiset(h.1.es) == multiset(b.es)
  {
    PartsEntries(b.es, n);
  }

  lemma HalvesRoom(b: Blk, n: nat)
    requires n <= |b.es|
    ensures var h := Halves(b, n);
      Room(h.0) == Room(b) + Weight(b.es[..n]) && Room(h.1) == b.full - HEADER - Weight(b.es[..n])
        && Weight(b.es[..n]) <= Weight(b.es)
  {
    WeightParts(b.es, n);
  }

  lemma HalvesSegs(b: Blk, n: nat)
    requires Seg(b) && 0 < n < |b.es|
    ensures Seg(Halves(b, n).0) && Seg(Halves(b, n).1)
  {
    HalvesRoom(b, n);
    PartsGood(b.es, n);
  }

  lemma PartsEntries(es: seq<Pair>, n: nat)
    requires 0 < n < |es|
    ensures multiset(es[n..]) + multiset(es[..n]) == multiset(es)
    ensures es[n..][0] == es[n] && es[n..][|es| - n - 1] == es[|es| - 1] && es[..n][0] == es[0]
      && es[..n][n - 1] == es[n - 1]
  {
    assert es == es[..n] + es[n..];
  }

  lemma PartsGood(es: seq<Pair>, n: nat)
    requires Descending(es) && NoRepeat(es) && NonEmptyItems(es) && n <= |es|
    ensures Descending(es[..n]) && NoRepeat(es[..n]) && NonEmptyItems(es[..n])
    ensures Descending(es[n..]) && NoRepeat(es[n..]) && NonEmptyItems(es[n..])
  {
    SliceGood(es, 0, n);
    SliceGood(es, n, |es|);
    assert es[0..n] == es[..n] && es[n..|es|] == es[n..];
  }

  lemma HalvesLack(b: Blk, n: nat, p: Pair)
    requires n <= |b.es| && p !in b.es
    ensures p !in Halves(b, n).0.es && p !in Halves(b, n).1.es
  {
  }

  /** What replaces a block: the blocks are in order, start and end where it did up to the new index, and
      hold what it held and the item. */
  ghost predicate Replaces(b: Blk, r: seq<Blk>, k: Key, item: Item)
    requires b.es != []
  {
    && r != [] && Blocks(r) && Pairs(r) == multiset(b.es) + multiset{(k, item)}
    && Min(r[0]) == (if k < Min(b) then k else Min(b)) && Max(r[|r| - 1]) == (if k > Max(b) then k else Max(b))
  }

  lemma PairsTwo(x: Blk, y: Blk)
    ensures Pairs([x, y]) == multiset(x.es) + multiset(y.es)
  {
    assert [x, y] == [x] + [y];
    PairsAdd([x], [y]);
    PairsOne(x);
    PairsOne(y);
  }

  lemma BlocksTwo(x: Blk, y: Blk)
    requires Seg(x) && Seg(y) && Max(x) <= Min(y)
    ensures Blocks([x, y])
  {
  }

  /** Appending to the lower half. */
  lemma LowerTakes(b: Blk, n: nat, k: Key, item: Item)
    requires Seg(b) && 0 < n < |b.es| && |item| > 0 && CanAppend(Halves(b, n).0, k, item)
    requires Min(b) < k <= b.es[n - 1].0 && b.es[n].0 <= b.es[n - 1].0
    ensures Replaces(b, [Append(Halves(b, n).0, k, item), Halves(b, n).1], k, item)
  {
    var h := Halves(b, n);
    HalvesFacts(b, n);
    AppendSeg(h.0, k, item);
    BlocksTwo(Append(h.0, k, item), h.1);
    PairsTwo(Append(h.0, k, item), h.1);
    Swap(multiset(h.0.es), multiset(h.1.es), multiset{(k, item)});
    SegBounds(h.1);
  }

  lemma Swap(x: multiset<Pair>, y: multiset<Pair>, z: multiset<Pair>)
    ensures x + z + y == x + y + z && x + (y + z) == x + y + z
  {
  }

  /** Appending to the upper half. */
  lemma UpperTakes(b: Blk, n: nat, k: Key, item: Item)
    requires Seg(b) && 0 < n < |b.es| && |item| > 0 && CanAppend(Halves(b, n).1, k, item)
    requires Min(b) < k && b.es[n].0 <= k && b.es[n].0 <= b.es[n - 1].0
    ensures Replaces(b, [Halves(b, n).0, Append(Halves(b, n).1, k, item)], k, item)
  {
    var h := Halves(b, n);
    HalvesFacts(b, n);
    AppendSeg(h.1, k, item);
    BlocksTwo(h.0, Append(h.1, k, item));
    PairsTwo(h.0, Append(h.1, k, item));
    Swap(multiset(h.0.es), multiset(h.1.es), multiset{(k, item)});
  }

  lemma BetweenTakes(b: Blk, n: nat, k: Key, item: Item)
    requires Seg(b) && 0 < n < |b.es| && |item| > 0 && b.es[n].0 <= k <= b.es[n - 1].0 && Min(b) < k
    ensures Replaces(b, [Halves(b, n).0, Fresh(k, item), Halves(b, n).1], k, item)
  {
    var h, f := Halves(b, n), Fresh(k, item);
    HalvesFacts(b, n);
    FreshFits(k, item);
    SegBounds(h.0);
    SegBounds(h.1);
    BlocksThree(h.0, f, h.1);
    assert [h.0, f, h.1] == [h.0] + [f] + [h.1];
    PairsThree([h.0], [f], [h.1]);
    PairsOne(h.0);
    PairsOne(f);
    PairsOne(h.1);
    Swap(multiset(h.0.es), multiset(h.1.es), multiset{(k, item)});
  }

  lemma BlocksThree(x: Blk, y: Blk, z: Blk)
    requires Seg(x) && Seg(y) && Seg(z) && Max(x) <= Min(y) && Max(y) <= Min(z) && Min(y) <= Max(y)
    ensures Blocks([x, y, z])
  {
  }

  lemma AboveTakes(b: Blk, k: Key, item: Item)
    requires Seg(b) && |item| > 0 && Max(b) <= k
    ensures Replaces(b, [b, Fresh(k, item)], k, item)
  {
    FreshFits(k, item);
    SegBounds(b);
    BlocksTwo(b, Fresh(k, item));
    PairsTwo(b, Fresh(k, item));
  }

  lemma PlaceMeans(b: Blk, k: Key)
    requires Seg(b) && Min(b) < k
    ensures var p := Place(b.es, k); p < |b.es| && b.es[p].0 <= k && (p > 0 ==> b.es[p - 1].0 > k)
  {
    var i, j := RangeExists(b.es, k);
    PlaceIsRangeStart(b.es, k, i, j);
  }

  /** The fallback of split_append never loses anything. */
  lemma FallbackKeeps(b: Blk, k: Key, item: Item)
    requires Seg(b) && |item| > 0 && (k, item) !in b.es && Min(b) < k && !Early(b, k, item)
    ensures Replaces(b, SplitAppend(b, k, item), k, item)
  {
    var p := Place(b.es, k);
    PlaceMeans(b, k);
    if p == 0 {
      AboveTakes(b, k, item);
    } else if CanAppend(Halves(b, p).0, k, item) {
      LowerTakes(b, p, k, item);
    } else if CanAppend(Halves(b, p).1, k, item) {
      UpperTakes(b, p, k, item);
    } else {
      BetweenTakes(b, p, k, item);
    }
  }

  lemma HalfPositive(b: Blk)
    requires Seg(b)
    ensures b.full / 2 > 0 && Mid(b.es, b.full / 2) > 0
  {
    assert Weight(b.es) >= RECORD;
  }

  /** The early path keeps everything, or drops the item. */
  lemma EarlyKeepsOrLoses(b: Blk, k: Key, item: Item)
    requires Seg(b) && |item| > 0 && (k, item) !in b.es && Min(b) < k && Early(b, k, item) && |item| + RECORD > Room(b)
    ensures !Loses(b, k, item) ==> Replaces(b, SplitAppend(b, k, item), k, item)
    ensures Loses(b, k, item) ==> Pairs(SplitAppend(b, k, item)) == multiset(b.es)
  {
    var s := Mid(b.es, b.full / 2);
    HalfPositive(b);
    MidHalfway(b);
    EarlyIff(b, k, item, s);
    HalvesLack(b, s, (k, item));
    var h := Halves(b, s);
    PairsTwo(h.0, h.1);
    if s == |b.es| {
      assert b.es[..s] == b.es && b.es[s..] == [];
    } else {
      HalvesFacts(b, s);
      assert |b.es[s].1| > 0 && b.es[s].0 <= b.es[s - 1].0;
      if b.es[s].0 < k {
        UpperTakes(b, s, k, item);
      } else if CanAppend(h.0, k, item) {
        LowerTakes(b, s, k, item);
      }
    }
  }

  /** split_append of a block without room, for all sizes: it drops the item exactly at the sizes of MissesBy, and
      otherwise leaves blocks with exactly the item more. */
  lemma LosesIff(b: Blk, k: Key, item: Item, s: nat)
    requires Seg(b) && |item| > 0 && (k, item) !in b.es && Min(b) < k && |item| + RECORD > Room(b) && Halfway(b, s)
    ensures Pairs(SplitAppend(b, k, item)) == multiset(b.es) <==> MissesBy(b, k, item, s)
    ensures !MissesBy(b, k, item, s) ==> Replaces(b, SplitAppend(b, k, item), k, item)
  {
    EarlyIff(b, k, item, s);
    if Early(b, k, item) { EarlyKeepsOrLoses(b, k, item); } else { FallbackKeeps(b, k, item); }
    if !MissesBy(b, k, item, s) { assert (k, item) in Pairs(SplitAppend(b, k, item)); }
  }

  /** Where the blocks are cut: halfway if the half for the item takes it by its sizes, otherwise at the index, with the
      item in front of the upper part, behind the lower one, or in a block of its own. */
  lemma SplitAppendCuts(b: Blk, k: Key, item: Item, s: nat, p: nat)
    requires Seg(b) && Min(b) < k && Halfway(b, s) && p <= |b.es|
    requires (p > 0 ==> b.es[p - 1].0 > k) && (p < |b.es| ==> b.es[p].0 <= k)
    ensures var r, low, high := SplitAppend(b, k, item), Halves(b, s).0, Halves(b, s).1;
      SplitsHalfway(b, k, item, s) ==>
        r == if s == |b.es| || b.es[s].0 < k then [low, Append(high, k, item)] else [Append(low, k, item), high]
    ensures var r, low, high := SplitAppend(b, k, item), Halves(b, p).0, Halves(b, p).1;
      !SplitsHalfway(b, k, item, s) ==>
        if p == 0 then r == [b, Fresh(k, item)]
        else if CanAppend(low, k, item) then r == [Append(low, k, item), high]
        else if CanAppend(high, k, item) then r == [low, Append(high, k, item)]
        else r == [low, Fresh(k, item), high]
  {
    EarlyIff(b, k, item, s);
    MidHalfway(b);
    AtPlace(b.es, k, p);
  }

  lemma AtPlace(es: seq<Pair>, k: Key, p: nat)
    requires Descending(es) && p <= |es| && (p > 0 ==> es[p - 1].0 > k) && (p < |es| ==> es[p].0 <= k)
    ensures Place(es, k) == p
  {
    var i, j := RangeExists(es, k);
    PlaceIsRangeStart(es, k, i, j);
  }

  /** The losing sizes exist: an item that just misses the room left above a single entry. */
  lemma LosesHappens(k: Key, low: Item, item: Item)
    requires |low| == 131000 && |item| == 131090
    ensures var b := Blk(DEFAULT_SIZE, [(k, low)]);
      Seg(b) && |item| + RECORD > Room(b) && Loses(b, k + 1, item)
          && SplitAppend(b, k + 1, item) == [Blk(DEFAULT_SIZE, []), b]
  {
    var b := Blk(DEFAULT_SIZE, [(k, low)]);
    WeightOne((k, low));
    assert b.es[1..] == [] && b.es[..1] == b.es;
    assert Mid(b.es[1..], b.full / 2 - |low| - RECORD) == 0;
    assert Mid(b.es, b.full / 2) == 1;
    MidHalfway(b);
    EarlyIff(b, k + 1, item, 1);
  }
}
