/** What btree_t::append does with a full leaf: it is split, and the item goes to one of the halves. */
module LeafGrow {
  import opened Multimap
  import BlockSpec
  import Segments
  import opened SegmentAppend
  import Balance = SegmentBalance
  import SegmentFile
  import opened LeafFile
  import opened Leaf

  /** The item goes to the new leaf: a root leaf sends it there if it is above the smallest index, any other leaf
      also if it is that index. */
  predicate GoesUp(first: Key, k: Key, strictly: bool) { if strictly then first < k else first <= k }

  /** The blocks of the half of a full leaf that gets the item, as the leaf is divided. */
  function Target(bs: seq<BlockSpec.Blk>, size: nat, k: Key, strictly: bool): seq<BlockSpec.Blk> {
    var d := Balance.DivideTop(bs, size);
    if !Balance.Divides(bs, d) then bs
    else
      var high := Balance.UpperPart(bs, d);
      if high != [] && high[0].es != [] && GoesUp(Segments.Min(high[0]), k, strictly) then high
      else Balance.LowerPart(bs, d)
  }

  /** The groups of that half, if the leaf is not torn and the first m groups stay. */
  function HalfFor(c: seq<Entry>, m: nat, k: Key, strictly: bool): seq<Entry>
    requires m < |c|
  {
    if GoesUp(c[m].key, k, strictly) then c[m..] else c[..m]
  }

  /** The smallest index of a leaf is that of its first group. */
  lemma FirstKey(t: Balance.Tree, c: seq<Entry>)
    requires Of(t, c) && c != []
    ensures t.bs != [] && t.bs[0].es != [] && t.meta != [] && t.meta[0].min == Segments.Min(t.bs[0]) == c[0].key
  {
    HasBlocks(t, c);
    Balance.EndsListed(t.bs);
    var p :| p in Segments.Pairs(t.bs) && p.0 == Segments.Min(t.bs[0]);
    var i, _ := ListedAt(c, p);
    GroupListed(c, 0, c[0].items[0]);
    var q := (c[0].key, c[0].items[0]);
    assert q in Segments.Pairs(t.bs);
    Balance.WithinEnds(t.bs, q);
  }

  /** A half that counts two indices or more has a first block, whether or not it counts right. */
  lemma Starts(t: Balance.Tree, d: int)
    requires Counts(t, d) && t.uniques + d > 0
    ensures t.bs != [] && t.bs[0].es != [] && t.meta != [] && t.meta[0].min == Segments.Min(t.bs[0])
  {
    assert t.bs == [] ==> KeysOf(Segments.Pairs(t.bs)) == {};
  }

  /** The item will be lost: it is not there, and its sizes say so. */
  ghost predicate Loses(bs: seq<BlockSpec.Blk>, k: Key, item: Item) {
    (k, item) !in Segments.Pairs(bs) && Drops(bs, k, item)
  }

  /** The half with the item, and the other one. */
  ghost predicate Holds(x: State, half: seq<Entry>, data: seq<SegmentFile.Cell>, k: Key, item: Item, ok: bool,
      dropped: bool) {
    && (dropped ==> !Balance.SoundTree(x.tree))
    && (!dropped ==> Good(x, if ok then WithItem(half, k, item) else half, data))
  }

  /** What becomes of a full leaf: torn, or its first m groups in one half and the others in the other one, with the
      item in the half that gets it, whose blocks are given. */
  ghost predicate Grew(low: State, high: State, c: seq<Entry>, m: nat, target: seq<BlockSpec.Blk>,
      data: seq<SegmentFile.Cell>, other: seq<SegmentFile.Cell>, k: Key, item: Item, strictly: bool, ok: bool,
      dropped: bool, torn: bool)
    requires m < |c|
  {
    if torn then !Balance.SoundTree(low.tree)
    else
      && ok == (item !in Group(HalfFor(c, m, k, strictly), k)) && (dropped <==> Loses(target, k, item))
      && (dropped ==> ok)
      && if GoesUp(c[m].key, k, strictly) then Good(low, c[..m], data)
        && Holds(high, c[m..], other, k, item, ok, dropped)
        else Good(high, c[m..], other) && Holds(low, c[..m], data, k, item, ok, dropped)
  }

  /** m of the groups are the lower half, n the upper one. */
  ghost predicate UpperHalf(c: seq<Entry>, m: nat, n: nat) { |c| >= 4 && m + n == |c| && (m == n || m == n + 1) }

  /** The same of the halves of a full leaf. */
  ghost predicate GrewFull(s: State, low: State, high: State, c: seq<Entry>, m: nat, n: nat,
      data: seq<SegmentFile.Cell>, other: seq<SegmentFile.Cell>, k: Key, item: Item, strictly: bool, ok: bool,
      dropped: bool)
    requires UpperHalf(c, m, n)
  {
    Grew(low, high, c, m, Target(s.tree.bs, n, k, strictly), data, other, k, item, strictly, ok, dropped,
      Balance.Torn(s.tree.bs, n))
  }

  /** The part of btree_t::append that splits a full leaf and appends to one of the halves. */
  method SplitAppend(s: State, k: Key, item: Item, strictly: bool, ghost c: seq<Entry>, ghost m: nat, ghost n: nat,
      ghost data: seq<SegmentFile.Cell>, ghost other: seq<SegmentFile.Cell>)
    returns (low: State, high: State, ok: bool, dropped: bool)
    requires Good(s, c, data) && UpperHalf(c, m, n) && |item| > 0
    ensures Kept(low, data) && Kept(high, other)
    ensures GrewFull(s, low, high, c, m, n, data, other, k, item, strictly, ok, dropped) && Carried(Empty(), high)
  {
    var up;
    ghost var x, y;
    low, high, up, x, y := SplitHalf(s, k, strictly, c, m, n, data, other);
    low, high, ok, dropped := AppendHalf(low, high, k, item, up, strictly, c, m, Target(s.tree.bs, n, k, strictly),
        data, other, Balance.Torn(s.tree.bs, n), x, y);
  }

  /** What is known before the append: by how much the halves miscount, and which one gets the item. */
  ghost predicate Ready(low: State, high: State, c: seq<Entry>, m: nat, target: seq<BlockSpec.Blk>, k: Key,
      strictly: bool, up: bool, torn: bool, x: int, y: int) {
    && Counts(low.tree, x) && Counts(high.tree, y) && (if torn then x == 1 else x == y == 0)
    && (!torn ==> Halves(low, high, c, m, target, k, strictly, up))
  }

  method SplitHalf(s: State, k: Key, strictly: bool, ghost c: seq<Entry>, ghost m: nat, ghost n: nat,
      ghost data: seq<SegmentFile.Cell>, ghost other: seq<SegmentFile.Cell>)
    returns (low: State, high: State, up: bool, ghost x: int, ghost y: int)
    requires Good(s, c, data) && UpperHalf(c, m, n)
    ensures Kept(low, data) && Kept(high, other)
    ensures Ready(low, high, c, m, Target(s.tree.bs, n, k, strictly), k, strictly, up, Balance.Torn(s.tree.bs, n),
      x, y) && Carried(Empty(), high)
  {
    GroupCount(s.tree, c);
    ghost var d;
    low, high, d := Leaf.Split(s, c, m, n, data, other);
    ghost var torn := Balance.Torn(s.tree.bs, n);
    x, y := if torn then 1 else 0, if torn && d.at > 0 then -1 else 0;
    Starts(high.tree, y);
    up := GoesUp(high.tree.meta[0].min, k, strictly);
    if !torn { HalvesKept(s.tree, low, high, c, k, strictly, up, m, n, d); }
  }

  /** The halves of a leaf that is not torn, and the one for the item. */
  ghost predicate Halves(low: State, high: State, c: seq<Entry>, m: nat, target: seq<BlockSpec.Blk>, k: Key,
      strictly: bool, up: bool) {
    && m < |c| && Of(low.tree, c[..m]) && Of(high.tree, c[m..]) && up == GoesUp(c[m].key, k, strictly)
    && target == (if up then high else low).tree.bs
  }

  method AppendHalf(low0: State, high0: State, k: Key, item: Item, up: bool, ghost strictly: bool, ghost c: seq<Entry>,
      ghost m: nat, ghost target: seq<BlockSpec.Blk>, ghost data: seq<SegmentFile.Cell>,
      ghost other: seq<SegmentFile.Cell>, ghost torn: bool, ghost x: int, ghost y: int)
    returns (low: State, high: State, ok: bool, dropped: bool)
    requires Kept(low0, data) && Kept(high0, other) && |item| > 0 && m < |c|
    requires Ready(low0, high0, c, m, target, k, strictly, up, torn, x, y) && Carried(Empty(), high0)
    ensures Kept(low, data) && Kept(high, other) && Carried(Empty(), high)
    ensures Grew(low, high, c, m, target, data, other, k, item, strictly, ok, dropped, torn)
  {
    low, high := low0, high0;
    if up {
      ok, dropped, high := LeafFile.Append(high0, k, item, y, other);
      CarriedTrans(Empty(), high0, high);
      if torn { OneLow(low.tree); } else { HalfAppended(high0, high, c[m..], k, item, ok, dropped, other); }
    } else {
      ok, dropped, low := LeafFile.Append(low0, k, item, x, data);
      if torn {
        StaysTorn(low0.tree, low.tree, k, item, ok, dropped);
      } else {
        HalfAppended(low0, low, c[..m], k, item, ok, dropped, data);
      }
    }
  }

  lemma OneLow(t: Balance.Tree)
    requires Counts(t, 1)
    ensures !Balance.SoundTree(t)
  {
  }

  /** A counter that is off stays off. */
  lemma StaysTorn(t: Balance.Tree, t': Balance.Tree, k: Key, item: Item, ok: bool, dropped: bool)
    requires Appends(t, t', k, item, ok, 1) && (dropped <==> ok && Drops(t.bs, k, item))
    ensures !Balance.SoundTree(t')
  {
  }

  /** The blocks of the halves are those of the division. */
  lemma TargetIs(t: Balance.Tree, low: Balance.Tree, high: Balance.Tree, k: Key, strictly: bool, first: Key, n: nat,
      d: Balance.Division)
    requires Splits(t, low, high, n, d) && high.bs != [] && high.bs[0].es != [] && Segments.Min(high.bs[0]) == first
    ensures Target(t.bs, n, k, strictly) == (if GoesUp(first, k, strictly) then high else low).bs
  {
  }

  lemma HalvesKept(t: Balance.Tree, low: State, high: State, c: seq<Entry>, k: Key, strictly: bool, up: bool, m: nat,
      n: nat, d: Balance.Division)
    requires t.uniques == |c| && UpperHalf(c, m, n) && Halved(low.tree, high.tree, c, m)
    requires Splits(t, low.tree, high.tree, n, d)
    requires high.tree.meta != [] && up == GoesUp(high.tree.meta[0].min, k, strictly)
    ensures Halves(low, high, c, m, Target(t.bs, n, k, strictly), k, strictly, up)
  {
    FirstKey(high.tree, c[m..]);
    TargetIs(t, low.tree, high.tree, k, strictly, c[m].key, n, d);
  }

  /** What the half with the item holds, if nothing is torn. */
  lemma HalfAppended(was: State, x: State, half: seq<Entry>, k: Key, item: Item, ok: bool,
      dropped: bool, data: seq<SegmentFile.Cell>)
    requires Of(was.tree, half) && Appends(was.tree, x.tree, k, item, ok, 0) && Kept(x, data)
    requires dropped <==> ok && Drops(was.tree.bs, k, item)
    ensures ok == (item !in Group(half, k)) && (dropped <==> Loses(was.tree.bs, k, item))
      && Holds(x, half, data, k, item, ok, dropped)
  {
    Appended(was.tree, x.tree, half, k, item, ok, dropped);
  }
}
