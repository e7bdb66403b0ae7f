/** Moving indices between two segment trees: split, balance_with and merge. */
module SegmentBalance {
  import opened Wrappers
  import opened Sequences
  import opened Multimap
  import opened BlockSpec
  import opened Segments
  import opened SegmentAppend

  /** The fields of a segment tree. */
  datatype Tree = Tree(bs: seq<Blk>, meta: seq<Bounds>, items: int, uniques: int)

  ghost predicate SoundTree(t: Tree) { Sound(t.bs, t.meta, t.items, t.uniques) }

  /** No index is in two blocks. */
  ghost predicate NoSpan(bs: seq<Blk>) {
    forall i, j :: 0 <= i < j < |bs| && bs[i].es != [] && bs[j].es != [] ==> Max(bs[i]) < Min(bs[j])
  }

  /** The number of different indices in a list of blocks. */
  ghost function Distinct(bs: seq<Blk>): nat { |KeysOf(Pairs(bs))| }

  /** The index at which two lists meet is in both. */
  predicate Touch(low: seq<Blk>, high: seq<Blk>) {
    && low != [] && high != [] && low[|low| - 1].es != [] && high[0].es != []
    && Max(low[|low| - 1]) == Min(high[0])
  }

  // ---------------------------------------------------------------- counting indices

  lemma KeysAdd(a: multiset<Pair>, b: multiset<Pair>)
    ensures KeysOf(a + b) == KeysOf(a) + KeysOf(b)
  {
    forall k | k in KeysOf(a + b) ensures k in KeysOf(a) + KeysOf(b) {
      var p :| p in a + b && p.0 == k;
      assert p in a || p in b;
    }
    forall k | k in KeysOf(a) ensures k in KeysOf(a + b) {
      var p :| p in a && p.0 == k;
      assert p in a + b;
    }
    forall k | k in KeysOf(b) ensures k in KeysOf(a + b) {
      var p :| p in b && p.0 == k;
      assert p in a + b;
    }
  }

  lemma KeysOfList(es: seq<Pair>)
    ensures KeysOf(multiset(es)) == Keys(es)
  {
    forall k | k in Keys(es) ensures k in KeysOf(multiset(es)) {
      var i :| 0 <= i < |es| && es[i].0 == k;
      assert es[i] in multiset(es);
    }
    forall k | k in KeysOf(multiset(es)) ensures k in Keys(es) {
      var p :| p in multiset(es) && p.0 == k;
      var i :| 0 <= i < |es| && es[i] == p;
    }
  }

  lemma BlockDistinct(b: Blk)
    requires Seg(b)
    ensures Distinct([b]) == Uniques(b.es)
  {
    PairsOne(b);
    KeysOfList(b.es);
    UniquesCount(b.es);
  }

  lemma OrderedParts(low: seq<Blk>, high: seq<Blk>)
    requires Blocks(low + high)
    ensures Blocks(low) && Blocks(high)
    ensures forall i, j :: 0 <= i < |low| && 0 <= j < |high| ==> Max(low[i]) <= Min(high[j])
  {
    var w := low + high;
    assert forall i :: 0 <= i < |low| ==> low[i] == w[i];
    assert forall j :: 0 <= j < |high| ==> high[j] == w[|low| + j];
  }

  /** Everything in a list lies between its ends. */
  lemma WithinEnds(bs: seq<Blk>, p: Pair)
    requires Blocks(bs) && p in Pairs(bs)
    ensures bs != [] && Min(bs[0]) <= p.0 <= Max(bs[|bs| - 1])
  {
    InPairs(bs, p);
    var i :| 0 <= i < |bs| && p in bs[i].es;
    MinMax(bs[i], p);
    SegBounds(bs[i]);
    SegBounds(bs[0]);
    SegBounds(bs[|bs| - 1]);
  }

  lemma EndsListed(bs: seq<Blk>)
    requires Blocks(bs) && bs != []
    ensures Min(bs[0]) in KeysOf(Pairs(bs)) && Max(bs[|bs| - 1]) in KeysOf(Pairs(bs))
  {
    var a, b := bs[0], bs[|bs| - 1];
    var p, q := a.es[|a.es| - 1], b.es[0];
    assert p in a.es && q in b.es;
    InPairs(bs, p);
    InPairs(bs, q);
  }

  lemma SharedIndex(low: seq<Blk>, high: seq<Blk>, k: Key)
    requires Blocks(low + high) && k in KeysOf(Pairs(low)) && k in KeysOf(Pairs(high))
    ensures Touch(low, high) && k == Max(low[|low| - 1])
  {
    OrderedParts(low, high);
    var p :| p in Pairs(low) && p.0 == k;
    var q :| q in Pairs(high) && q.0 == k;
    WithinEnds(low, p);
    WithinEnds(high, q);
  }

  lemma SharedIndices(low: seq<Blk>, high: seq<Blk>)
    requires Blocks(low + high)
    ensures KeysOf(Pairs(low)) * KeysOf(Pairs(high)) == if Touch(low, high) then {Max(low[|low| - 1])} else {}
  {
    var a, b := KeysOf(Pairs(low)), KeysOf(Pairs(high));
    forall k | k in a * b ensures Touch(low, high) && k == Max(low[|low| - 1]) { SharedIndex(low, high, k); }
    if Touch(low, high) {
      OrderedParts(low, high);
      EndsListed(low);
      EndsListed(high);
    }
  }

  /** Indices of two lists in order: all of both, less the one they may share. */
  lemma DistinctAdd(low: seq<Blk>, high: seq<Blk>)
    requires Blocks(low + high)
    ensures Distinct(low + high) == Distinct(low) + Distinct(high) - (if Touch(low, high) then 1 else 0)
  {
    PairsAdd(low, high);
    KeysAdd(Pairs(low), Pairs(high));
    UnionSize(KeysOf(Pairs(low)), KeysOf(Pairs(high)));
    SharedIndices(low, high);
  }

  lemma UnionSize(a: set<Key>, b: set<Key>)
    ensures |a + b| == |a| + |b| - |a * b|
  {
  }

  lemma NoneDistinct()
    ensures Distinct([]) == 0
  {
    assert KeysOf(Pairs([])) == {};
  }

  lemma DistinctLess(a: seq<Blk>, b: seq<Blk>)
    ensures Distinct(b) <= Distinct(a + b)
  {
    PairsAdd(a, b);
    KeysAdd(Pairs(a), Pairs(b));
    var x, y := KeysOf(Pairs(a)), KeysOf(Pairs(b));
    assert |x + y| == |x - y| + |y| by { assert x + y == (x - y) + y; }
  }

  // ---------------------------------------------------------------- two trees

  /** All indices of one tree are below all of the other. */
  ghost predicate Below(low: Tree, high: Tree) {
    forall p, q :: p in Pairs(low.bs) && q in Pairs(high.bs) ==> p.0 < q.0
  }

  lemma UntouchedBelow(low: Tree, high: Tree)
    requires Blocks(low.bs + high.bs) && !Touch(low.bs, high.bs)
    ensures Below(low, high)
  {
    OrderedParts(low.bs, high.bs);
    forall p, q | p in Pairs(low.bs) && q in Pairs(high.bs) ensures p.0 < q.0 {
      WithinEnds(low.bs, p);
      WithinEnds(high.bs, q);
    }
  }

  /** Everything but the counter of indices is exact. */
  ghost predicate Listed(t: Tree) { Exact(t.bs, t.meta) && t.items == |Pairs(t.bs)| }

  /** A list in order that holds what another one held, with no index in two blocks if none was. */
  ghost predicate Rearranged(bs: seq<Blk>, bs': seq<Blk>) {
    Blocks(bs') && Pairs(bs') == Pairs(bs) && (NoSpan(bs) ==> NoSpan(bs'))
  }

  /** Two trees in order that together hold what two others held, after `size` indices were counted from
      the first to the second, or from the second to the first if `size` is negative. */
  ghost predicate Shifted(low0: Tree, high0: Tree, size: int, low: Tree, high: Tree) {
    && Rearranged(low0.bs + high0.bs, low.bs + high.bs) && Listed(low) && Listed(high)
    && low.uniques == low0.uniques - size && high.uniques == high0.uniques + size
  }

  ghost predicate SideBySide(low: Tree, high: Tree) {
    SoundTree(low) && SoundTree(high) && Blocks(low.bs + high.bs) && !Touch(low.bs, high.bs)
  }

  /** The result of an operation on two trees: both valid, apart, and nothing lost. */
  ghost predicate Settled(low: Tree, high: Tree) { SoundTree(low) && SoundTree(high) && Below(low, high) }

  lemma OnceParts(a: multiset<Pair>, b: multiset<Pair>)
    ensures (forall p :: (a + b)[p] <= 1) ==> (forall p :: a[p] <= 1) && (forall p :: b[p] <= 1)
  {
    if forall p :: (a + b)[p] <= 1 {
      forall p ensures a[p] <= 1 && b[p] <= 1 { assert (a + b)[p] == a[p] + b[p]; }
    }
  }

  lemma OnceSum(low: Tree, high: Tree)
    requires SideBySide(low, high)
    ensures forall p :: Pairs(low.bs + high.bs)[p] <= 1
  {
    UntouchedBelow(low, high);
    PairsAdd(low.bs, high.bs);
    forall p ensures (Pairs(low.bs) + Pairs(high.bs))[p] <= 1 {
      if p in Pairs(low.bs) && p in Pairs(high.bs) { assert false; }
    }
  }

  /** What both trees hold, they hold once. */
  lemma ShiftedOnce(low0: Tree, high0: Tree, low: seq<Blk>, high: seq<Blk>)
    requires SideBySide(low0, high0) && Pairs(low + high) == Pairs(low0.bs + high0.bs)
    ensures (forall p :: Pairs(low)[p] <= 1) && (forall p :: Pairs(high)[p] <= 1)
  {
    OnceSum(low0, high0);
    PairsAdd(low, high);
    OnceParts(Pairs(low), Pairs(high));
  }

  lemma ShiftedCounts(low0: Tree, high0: Tree, low: seq<Blk>, high: seq<Blk>)
    requires SideBySide(low0, high0) && Blocks(low + high) && Pairs(low + high) == Pairs(low0.bs + high0.bs)
    ensures Distinct(low) + Distinct(high) == low0.uniques + high0.uniques + (if Touch(low, high) then 1 else 0)
  {
    DistinctAdd(low0.bs, high0.bs);
    DistinctAdd(low, high);
  }

  /** The counters decide whether the two trees are valid. */
  lemma CountsSettle(low0: Tree, high0: Tree, size: int, low: Tree, high: Tree)
    requires SideBySide(low0, high0) && Shifted(low0, high0, size, low, high)
    ensures Distinct(low.bs) != low.uniques ==> !SoundTree(low)
    ensures Distinct(low.bs) == low.uniques && !Touch(low.bs, high.bs) ==> Settled(low, high)
  {
    ShiftedOnce(low0, high0, low.bs, high.bs);
    ShiftedCounts(low0, high0, low.bs, high.bs);
    OrderedParts(low.bs, high.bs);
    if !Touch(low.bs, high.bs) { UntouchedBelow(low, high); }
  }

  // ---------------------------------------------------------------- part of a block

  /** split_uniques: what stays and what moves when the entries up to n go. */
  function Kept(b: Blk, n: nat): Blk
    requires n <= |b.es|
  {
    Blk(b.full, b.es[n..])
  }

  function SplitOff(b: Blk, n: nat): Blk
    requires n <= |b.es|
  {
    Blk(b.full, Stack(b.es[..n]))
  }

  lemma SplitBlock(b: Blk, n: nat, c: nat)
    requires Seg(b) && 0 < n < |b.es| && IndexBoundary(b.es, n, c)
    ensures Seg(Kept(b, n)) && Seg(SplitOff(b, n)) && Max(Kept(b, n)) < Min(SplitOff(b, n))
    ensures Min(Kept(b, n)) == Min(b) && Max(SplitOff(b, n)) == Max(b)
    ensures Uniques(SplitOff(b, n).es) == c && Uniques(Kept(b, n).es) == Uniques(b.es) - c
    ensures multiset(Kept(b, n).es) + multiset(SplitOff(b, n).es) == multiset(b.es)
      && |Kept(b, n).es| + |SplitOff(b, n).es| == |b.es|
  {
    var up := b.es[..n];
    HalvesFacts(b, n);
    StackGood(up);
    StackContents(up);
    SameEnds(up, Stack(up));
    SameUniques(up, Stack(up));
  }

  /** A block at the seam cut in two between indices, the lower part left below and the upper part above. */
  lemma CutOrdered(x: seq<Blk>, b: Blk, y: seq<Blk>, lower: Blk, upper: Blk)
    requires Blocks(x + [b] + y) && Seg(lower) && Seg(upper) && Max(lower) < Min(upper)
    requires b.es != [] && Min(lower) == Min(b) && Max(upper) == Max(b)
    ensures Blocks(x + [lower] + [upper] + y) && (NoSpan(x + [b] + y) ==> NoSpan(x + [lower] + [upper] + y))
  {
    var w, v := x + [b] + y, x + [lower] + [upper] + y;
    SegBounds(lower);
    SegBounds(upper);
    assert w[|x|] == b;
    forall i, j | 0 <= i < j < |v| ensures Seg(v[i]) && Seg(v[j]) && Max(v[i]) <= Min(v[j])
        && (NoSpan(w) ==> Max(v[i]) < Min(v[j])) {
      PartAt(x, b, y, lower, upper, i);
      PartAt(x, b, y, lower, upper, j);
    }
    forall i | 0 <= i < |v| ensures Seg(v[i]) { PartAt(x, b, y, lower, upper, i); }
  }

  lemma PartAt(x: seq<Blk>, b: Blk, y: seq<Blk>, lower: Blk, upper: Blk, i: nat)
    requires i < |x| + 2 + |y|
    ensures var w, v, n := x + [b] + y, x + [lower] + [upper] + y, |x|;
      v[i] == if i < n then w[i] else if i == n then lower else if i == n + 1 then upper else w[i - 1]
  {
  }

  lemma PartsPairs(x: seq<Blk>, b: Blk, y: seq<Blk>, lower: Blk, upper: Blk)
    requires multiset(lower.es) + multiset(upper.es) == multiset(b.es)
    ensures Pairs(x + [lower] + [upper] + y) == Pairs(x + [b] + y)
  {
    PairsThree(x, [b], y);
    PairsOne(b);
    PairsOne(lower);
    PairsOne(upper);
    Assoc(x, [lower], [upper]);
    PairsThree(x, [lower] + [upper], y);
    PairsAdd([lower], [upper]);
  }

  /** What cutting block b between indices makes of the list. */
  lemma CutList(x: seq<Blk>, b: Blk, y: seq<Blk>, n: nat, c: nat)
    requires Blocks(x + [b] + y) && Seg(b) && 0 < n < |b.es| && IndexBoundary(b.es, n, c)
    ensures var low, high := x + [Kept(b, n)], [SplitOff(b, n)] + y;
      && Blocks(low + high) && Pairs(low + high) == Pairs(x + [b] + y) && !Touch(low, high)
      && (NoSpan(x + [b] + y) ==> NoSpan(low + high))
  {
    SplitBlock(b, n, c);
    CutOrdered(x, b, y, Kept(b, n), SplitOff(b, n));
    PartsPairs(x, b, y, Kept(b, n), SplitOff(b, n));
    assert (x + [Kept(b, n)]) + ([SplitOff(b, n)] + y) == x + [Kept(b, n)] + [SplitOff(b, n)] + y;
  }

  // ---------------------------------------------------------------- whole blocks

  lemma CountPairs(a: seq<Blk>, b: Blk, c: seq<Blk>)
    ensures |Pairs(a + [b])| == |Pairs(a)| + |b.es| && |Pairs([b] + c)| == |b.es| + |Pairs(c)|
  {
    PairsAdd(a, [b]);
    PairsAdd([b], c);
    PairsOne(b);
  }

  /** remove_segment_ of the last or the first block, with what the loops take off the counters. */
  function DropLast(t: Tree, c: int): Tree
    requires t.bs != [] && |t.meta| == |t.bs|
  {
    var n := |t.bs| - 1;
    Tree(t.bs[..n], t.meta[..n], t.items - |t.bs[n].es|, t.uniques - c)
  }

  function DropFirst(t: Tree, c: int): Tree
    requires t.bs != [] && |t.meta| == |t.bs|
  {
    Tree(t.bs[1..], t.meta[1..], t.items - |t.bs[0].es|, t.uniques - c)
  }

  /** insert_segment_ at the front or at the end. */
  function AddFirst(t: Tree, b: Blk, c: int): Tree {
    Tree([b] + t.bs, [BoundsOf(b)] + t.meta, t.items + |b.es|, t.uniques + c)
  }

  function AddLast(t: Tree, b: Blk, c: int): Tree {
    Tree(t.bs + [b], t.meta + [BoundsOf(b)], t.items + |b.es|, t.uniques + c)
  }

  lemma AddListed(t: Tree, b: Blk, c: int)
    requires Listed(t)
    ensures Listed(AddFirst(t, b, c)) && Listed(AddLast(t, b, c))
  {
    CountPairs(t.bs, b, t.bs);
  }

  lemma DropListed(t: Tree, c: int)
    requires Listed(t) && t.bs != []
    ensures Listed(DropLast(t, c)) && Listed(DropFirst(t, c))
  {
    var n := |t.bs| - 1;
    assert t.bs == t.bs[..n] + [t.bs[n]] && t.bs == [t.bs[0]] + t.bs[1..];
    CountPairs(t.bs[..n], t.bs[n], []);
    CountPairs([], t.bs[0], t.bs[1..]);
  }

  // ---------------------------------------------------------------- the largest indices move up

  /** Block i is the one the loop stops in: the blocks above it have no more than `size` indices, with it
      they have more. */
  ghost predicate StopsIn(bs: seq<Blk>, size: int, i: int) {
    0 <= i < |bs| && Distinct(bs[i + 1..]) <= size < Distinct(bs[i..])
  }

  /** That block shares its largest index with the block above it. */
  ghost predicate Torn(bs: seq<Blk>, size: int) {
    exists i :: StopsIn(bs, size, i) && Touch(bs[..i + 1], bs[i + 1..])
  }

  lemma StopsOnce(bs: seq<Blk>, size: int, i: int, j: int)
    requires StopsIn(bs, size, i) && StopsIn(bs, size, j)
    ensures i == j
  {
    if i < j { SuffixLess(bs, i + 1, j); }
    if j < i { SuffixLess(bs, j + 1, i); }
  }

  lemma SuffixLess(bs: seq<Blk>, i: nat, j: nat)
    requires i <= j <= |bs|
    ensures Distinct(bs[j..]) <= Distinct(bs[i..])
  {
    assert bs[i..] == bs[i..j] + bs[j..];
    DistinctLess(bs[i..j], bs[j..]);
  }

  lemma TornAt(bs: seq<Blk>, size: int, i: int)
    requires StopsIn(bs, size, i)
    ensures Torn(bs, size) <==> Touch(bs[..i + 1], bs[i + 1..])
  {
    if Torn(bs, size) {
      var j :| StopsIn(bs, size, j) && Touch(bs[..j + 1], bs[j + 1..]);
      StopsOnce(bs, size, i, j);
    }
  }

  /** One index less where a block touches its neighbour. */
  function Shared(low: seq<Blk>, high: seq<Blk>): int { if Touch(low, high) then 1 else 0 }

  lemma SuffixDistinct(bs: seq<Blk>, n: nat)
    requires Blocks(bs) && n < |bs|
    ensures Distinct(bs[n..]) == Uniques(bs[n].es) + Distinct(bs[n + 1..]) - Shared(bs[..n + 1], bs[n + 1..])
  {
    InTwo(bs, n);
    Ends(bs, n);
    OrderedParts(bs[..n], bs[n..]);
    BlockDistinct(bs[n]);
    DistinctAdd([bs[n]], bs[n + 1..]);
    assert Touch([bs[n]], bs[n + 1..]) <==> Touch(bs[..n + 1], bs[n + 1..]);
  }

  lemma PrefixDistinct(bs: seq<Blk>, n: nat)
    requires Blocks(bs) && n < |bs|
    ensures Distinct(bs[..n + 1]) == Distinct(bs[..n]) + Uniques(bs[n].es) - Shared(bs[..n], bs[n..])
  {
    InTwo(bs, n + 1);
    Ends(bs, n);
    OrderedParts(bs[..n + 1], bs[n + 1..]);
    BlockDistinct(bs[n]);
    DistinctAdd(bs[..n], [bs[n]]);
    assert Touch(bs[..n], [bs[n]]) <==> Touch(bs[..n], bs[n..]);
  }

  /** The lists after the loop has moved the blocks from n on up. */
  ghost predicate UpFrom(bs: seq<Blk>, above: seq<Blk>, n: nat, low: seq<Blk>, high: seq<Blk>) {
    n <= |bs| && low == bs[..n] && high == bs[n..] + above
  }

  lemma UpOne(bs: seq<Blk>, above: seq<Blk>, n: nat, low: seq<Blk>, high: seq<Blk>)
    requires UpFrom(bs, above, n, low, high) && n > 0
    ensures low[n - 1] == bs[n - 1] && UpFrom(bs, above, n - 1, low[..n - 1], [bs[n - 1]] + high)
  {
    assert bs[n - 1..] == [bs[n - 1]] + bs[n..];
  }

  /** The loop of split, and of balance_with when the other tree is below: whole blocks go up as long as
      they have no more indices than are left to move. */
  ghost predicate Rising(low0: Tree, high0: Tree, size0: nat, low: Tree, high: Tree, size: int, n: nat) {
    && UpFrom(low0.bs, high0.bs, n, low.bs, high.bs) && Listed(low) && Listed(high)
    && size == size0 - Distinct(low0.bs[n..]) && size >= 0
    && low.uniques == low0.uniques - (size0 - size) && high.uniques == high0.uniques + (size0 - size)
  }

  lemma Risen(low0: Tree, high0: Tree, size0: nat, low: Tree, high: Tree, size: int, n: nat, c: nat)
    requires Rising(low0, high0, size0, low, high, size, n) && n > 0 && c <= size
    requires Distinct(low0.bs[n - 1..]) == Distinct(low0.bs[n..]) + c
    ensures Rising(low0, high0, size0, DropLast(low, c), AddFirst(high, low.bs[n - 1], c), size - c, n - 1)
  {
    UpOne(low0.bs, high0.bs, n, low.bs, high.bs);
    DropListed(low, c);
    AddListed(high, low.bs[n - 1], c);
  }

  lemma SomeIndex(es: seq<Pair>)
    requires es != []
    ensures Uniques(es) > 0
  {
  }

  lemma OneIndex(b: Blk)
    requires Seg(b) && Min(b) == Max(b)
    ensures Uniques(b.es) == 1
  {
    UniquesOne(b.es, Max(b));
  }

  /** A block that starts where the block above it starts has just that index. */
  lemma StartsAlike(bs: seq<Blk>, n: nat)
    requires Blocks(bs) && 0 < n < |bs| && Min(bs[n - 1]) == Min(bs[n])
    ensures Uniques(bs[n - 1].es) == 1 && Max(bs[n - 1]) == Min(bs[n])
  {
    SegBounds(bs[n - 1]);
    OneIndex(bs[n - 1]);
  }

  /** Where the loop that takes the largest indices stops: the blocks from n on have gone up, and of the block
      below them the first `at` entries. */
  datatype Division = Division(n: nat, at: nat)

  /** What the loop compares and counts, from block m - 1 down. */
  function DivideFrom(bs: seq<Blk>, m: nat, size: nat, prev: Option<Key>): Division
    requires m <= |bs|
    decreases m
  {
    if m == 0 || bs[m - 1].es == [] then Division(m, 0)
    else
      var x := bs[m - 1];
      var c := Uniques(x.es) - (if prev == Some(Max(x)) then 1 else 0);
      var part := size + (if prev == Some(Min(x)) then 1 else 0);
      if c <= size then DivideFrom(bs, m - 1, size - c, Some(Min(x)))
      else if part == 0 || part == Uniques(x.es) then Division(m, 0)
      else Division(m, Boundary(x.es, part))
  }

  function DivideTop(bs: seq<Blk>, size: nat): Division { DivideFrom(bs, |bs|, size, None) }

  predicate Divides(bs: seq<Blk>, d: Division) {
    d.n <= |bs| && (d.at > 0 ==> 0 < d.n && d.at < |bs[d.n - 1].es|)
  }

  /** The lists below and above a division. */
  function LowerPart(bs: seq<Blk>, d: Division): seq<Blk>
    requires Divides(bs, d)
  {
    if d.at == 0 then bs[..d.n] else bs[..d.n - 1] + [Kept(bs[d.n - 1], d.at)]
  }

  function UpperPart(bs: seq<Blk>, d: Division): seq<Blk>
    requires Divides(bs, d)
  {
    if d.at == 0 then bs[d.n..] else [SplitOff(bs[d.n - 1], d.at)] + bs[d.n..]
  }

  /** The two lists are the parts of a list, the upper one in front of what was above. */
  ghost predicate Divided(bs: seq<Blk>, above: seq<Blk>, d: Division, low: seq<Blk>, high: seq<Blk>) {
    Divides(bs, d) && low == LowerPart(bs, d) && high == UpperPart(bs, d) + above
  }

  /** What moving the `size` largest indices up gives: right exactly when the loop does not stop in a block
      that shares its largest index with the block above it. If it does, the lower tree counts one index too
      few; and either no block was cut and that index is in both trees, or the upper tree counts one too many. */
  ghost predicate Raised(low0: Tree, high0: Tree, size: nat, d: Division, low: Tree, high: Tree) {
    && Shifted(low0, high0, size, low, high)
    && Divided(low0.bs, high0.bs, d, low.bs, high.bs) && d == DivideTop(low0.bs, size) && 0 < d.n
    && (Settled(low, high) <==> !Torn(low0.bs, size))
    && (Torn(low0.bs, size) ==> TornCounts(d, low, high))
  }

  ghost predicate TornCounts(d: Division, low: Tree, high: Tree) {
    && Distinct(low.bs) == low.uniques + 1 && (Touch(low.bs, high.bs) <==> d.at == 0)
    && Distinct(high.bs) == high.uniques - (if d.at == 0 then 0 else 1)
  }

  /** The lists when the loop is done: in order, with the same entries, and the lower one counted. */
  ghost predicate Parted(bs: seq<Blk>, above: seq<Blk>, size: nat, uncut: bool, low: seq<Blk>, high: seq<Blk>) {
    && Rearranged(bs + above, low + high)
    && Distinct(low) == Distinct(bs) - size + (if Torn(bs, size) then 1 else 0)
    && (Touch(low, high) <==> Torn(bs, size) && uncut)
  }

  lemma SettledIff(low0: Tree, high0: Tree, size: int, low: Tree, high: Tree, torn: bool)
    requires SideBySide(low0, high0) && Shifted(low0, high0, size, low, high)
    requires Distinct(low.bs) == low.uniques + (if torn then 1 else 0) && (torn || !Touch(low.bs, high.bs))
    ensures Settled(low, high) <==> !torn
    ensures Distinct(high.bs) ==
      high.uniques - (if torn then 1 else 0) + (if Touch(low.bs, high.bs) then 1 else 0)
  {
    CountsSettle(low0, high0, size, low, high);
    ShiftedCounts(low0, high0, low.bs, high.bs);
  }

  lemma PartedRaised(low0: Tree, high0: Tree, size: nat, d: Division, low: Tree, high: Tree)
    requires SideBySide(low0, high0) && Parted(low0.bs, high0.bs, size, d.at == 0, low.bs, high.bs)
    requires Listed(low) && Listed(high)
    requires low.uniques == low0.uniques - size && high.uniques == high0.uniques + size
    requires Divided(low0.bs, high0.bs, d, low.bs, high.bs) && d == DivideTop(low0.bs, size) && 0 < d.n
    ensures Raised(low0, high0, size, d, low, high)
  {
    SettledIff(low0, high0, size, low, high, Torn(low0.bs, size));
  }

  /** The loop stops between two blocks. */
  lemma StopUncut(bs: seq<Blk>, above: seq<Blk>, size: nat, n: nat)
    requires Blocks(bs + above) && Blocks(bs) && !Touch(bs, above) && 0 < n <= |bs|
    requires Distinct(bs[n..]) == size < Distinct(bs[n - 1..])
    ensures Parted(bs, above, size, true, bs[..n], bs[n..] + above)
  {
    Regroup(bs, n, above);
    UncutCount(bs, size, n);
    UncutTouch(bs, above, n);
  }

  lemma UncutCount(bs: seq<Blk>, size: nat, n: nat)
    requires Blocks(bs) && 0 < n <= |bs| && Distinct(bs[n..]) == size < Distinct(bs[n - 1..])
    ensures Distinct(bs[..n]) == Distinct(bs) - size + Shared(bs[..n], bs[n..])
    ensures Torn(bs, size) <==> Touch(bs[..n], bs[n..])
  {
    TornAt(bs, size, n - 1);
    InTwo(bs, n);
    DistinctAdd(bs[..n], bs[n..]);
  }

  lemma UncutTouch(bs: seq<Blk>, above: seq<Blk>, n: nat)
    requires 0 < n <= |bs| && !Touch(bs, above)
    ensures Touch(bs[..n], bs[n..] + above) <==> Touch(bs[..n], bs[n..])
  {
    if n == |bs| { assert bs[..n] == bs && bs[n..] + above == above; }
  }

  /** How many indices the lower part of a cut list has. */
  lemma CutDistinct(x: seq<Blk>, b: Blk, y: seq<Blk>, n: nat, c: nat)
    requires Blocks(x + [b] + y) && Seg(b) && 0 < n < |b.es| && IndexBoundary(b.es, n, c)
    ensures Distinct(x + [Kept(b, n)]) == Distinct(x + [b] + y) - Distinct(y) - c + Shared([b], y)
  {
    var low, high := x + [Kept(b, n)], [SplitOff(b, n)] + y;
    CutList(x, b, y, n, c);
    SplitBlock(b, n, c);
    DistinctAdd(low, high);
    OrderedParts(low, high);
    DistinctAdd([SplitOff(b, n)], y);
    BlockDistinct(SplitOff(b, n));
  }

  /** The loop stops inside block n - 1, which is cut at position `at`. */
  lemma StopCut(bs: seq<Blk>, above: seq<Blk>, size: nat, n: nat, at: nat, c: nat)
    requires Blocks(bs + above) && Blocks(bs) && 0 < n <= |bs| && Distinct(bs[n..]) + c == size < Distinct(bs[n - 1..])
    requires 0 < at < |bs[n - 1].es| && IndexBoundary(bs[n - 1].es, at, c)
    ensures Parted(bs, above, size, false, bs[..n - 1] + [Kept(bs[n - 1], at)],
      [SplitOff(bs[n - 1], at)] + (bs[n..] + above))
  {
    var x := bs[n - 1];
    TornAt(bs, size, n - 1);
    CutAround(bs, above, n);
    CutDistinct(bs[..n - 1], x, bs[n..], at, c);
    CutList(bs[..n - 1], x, bs[n..] + above, at, c);
  }

  lemma CutAround(bs: seq<Blk>, above: seq<Blk>, n: nat)
    requires 0 < n <= |bs|
    ensures bs[..n - 1] + [bs[n - 1]] + bs[n..] == bs && bs[..n - 1] + [bs[n - 1]] + (bs[n..] + above) == bs + above
    ensures Touch([bs[n - 1]], bs[n..]) <==> Touch(bs[..n], bs[n..])
  {
  }

  method CutTop(low: Tree, high: Tree, size: nat) returns (low': Tree, high': Tree, at: nat)
    requires Listed(low) && Listed(high) && low.bs != [] && 0 < size < Uniques(low.bs[|low.bs| - 1].es)
    ensures Listed(low') && Listed(high') && low'.uniques == low.uniques - size && high'.uniques == high.uniques + size
    ensures var x := low.bs[|low.bs| - 1];
      && 0 < at < |x.es| && IndexBoundary(x.es, at, size) && at == Boundary(x.es, size)
      && low'.bs == low.bs[..|low.bs| - 1] + [Kept(x, at)] && high'.bs == [SplitOff(x, at)] + high.bs
  {
    var x := low.bs[|low.bs| - 1];
    at := FindBoundary(x.es, size);
    low', high' := AddLast(DropLast(low, 0), Kept(x, at), 0 - size), AddFirst(high, SplitOff(x, at), size);
    DropListed(low, 0);
    AddListed(DropLast(low, 0), Kept(x, at), 0 - size);
    AddListed(high, SplitOff(x, at), size);
  }

  /** The index the loop remembers is the smallest of the block above. */
  ghost predicate PrevAbove(bs: seq<Blk>, n: nat, prev: Option<Key>) {
    if n < |bs| then bs[n].es != [] && prev == Some(Min(bs[n])) else prev == None
  }

  /** The last block left below, and what the loop sees of it. */
  lemma AtTop(bs: seq<Blk>, above: seq<Blk>, n: nat, low: seq<Blk>, high: seq<Blk>, size: int)
    requires UpFrom(bs, above, n, low, high) && Distinct(bs[n..]) <= size < Distinct(bs)
    ensures n > 0 && |low| == n && low[n - 1] == bs[n - 1]
  {
    Whole(bs);
  }

  lemma CountAbove(bs: seq<Blk>, n: nat, x: Blk, prev: Option<Key>, c: int)
    requires Blocks(bs) && 0 < n <= |bs| && PrevAbove(bs, n, prev) && x == bs[n - 1] && x.es != []
    requires c == Uniques(x.es) - (if prev == Some(Max(x)) then 1 else 0)
    ensures c >= 0 && c == Uniques(x.es) - Shared(bs[..n], bs[n..]) && (c > 0 ==> prev != Some(Min(x)))
  {
    SomeIndex(x.es);
    if prev == Some(Min(x)) { StartsAlike(bs, n); }
  }

  lemma NothingRisen(low: Tree, high: Tree, size: nat)
    requires Listed(low) && Listed(high)
    ensures Rising(low, high, size, low, high, size, |low.bs|)
  {
    NoneDistinct();
    assert low.bs[|low.bs|..] == [];
  }

  /** The loop of split, and of balance_with when the other tree is below: the `size0` largest indices of
      the lower tree go to the upper one. */
  method MoveTop(low0: Tree, high0: Tree, size0: nat) returns (low: Tree, high: Tree, d: Division)
    requires SideBySide(low0, high0) && size0 < low0.uniques
    ensures Raised(low0, high0, size0, d, low, high)
  {
    low, high, d := RaiseBlocks(low0, high0, size0);
    DivideWhole(low0.bs, size0, d);
    PartedRaised(low0, high0, size0, d, low, high);
  }

  method RaiseBlocks(low0: Tree, high0: Tree, size0: nat) returns (low: Tree, high: Tree, d: Division)
    requires Blocks(low0.bs) && Blocks(low0.bs + high0.bs) && !Touch(low0.bs, high0.bs)
    requires Listed(low0) && Listed(high0) && size0 < Distinct(low0.bs)
    ensures Parted(low0.bs, high0.bs, size0, d.at == 0, low.bs, high.bs) && Listed(low) && Listed(high)
    ensures low.uniques == low0.uniques - size0 && high.uniques == high0.uniques + size0
    ensures Divided(low0.bs, high0.bs, d, low.bs, high.bs) && StopsAt(low0.bs, size0, d)
  {
    var size, prev;
    ghost var n;
    BlocksAdd(low0.bs);
    low, high, size, prev, n := RaiseWhole(low0, high0, size0);
    d := Division(|low.bs|, 0);
    var x := low.bs[|low.bs| - 1];
    var part := size + (if prev == Some(Min(x)) then 1 else 0);
    if part == 0 || part == Uniques(x.es) {
      EndUncut(low0.bs, high0.bs, size0, n, low.bs, high.bs);
    } else {
      ghost var was := high.bs;
      var at;
      low, high, at := CutTop(low, high, part);
      EndCut(low0.bs, high0.bs, size0, n, at, part, was, low.bs, high.bs);
      d := Division(d.n, at);
    }
  }

  /** Where the loop stops, said by the indices. */
  ghost predicate StopsAt(bs: seq<Blk>, size: nat, d: Division) {
    && 0 < d.n && StopsIn(bs, size, d.n - 1)
    && d.at == var part := size - Distinct(bs[d.n..]); if part == 0 then 0 else Boundary(bs[d.n - 1].es, part)
  }

  /** What the loop counts in a block is what the block adds. */
  lemma CountAdds(bs: seq<Blk>, m: nat, x: Blk, prev: Option<Key>, c: int)
    requires Blocks(bs) && 0 < m <= |bs| && PrevAbove(bs, m, prev) && x == bs[m - 1] && x.es != []
    requires c == Uniques(x.es) - (if prev == Some(Max(x)) then 1 else 0)
    ensures c >= 0 && Distinct(bs[m - 1..]) == Distinct(bs[m..]) + c && (c > 0 ==> prev != Some(Min(x)))
  {
    CountAbove(bs, m, x, prev, c);
    SuffixDistinct(bs, m - 1);
  }

  lemma BlocksAdd(bs: seq<Blk>)
    requires Blocks(bs)
    ensures Adding(bs)
  {
    forall m | 0 < m <= |bs| ensures AddsAt(bs, m) {
      CountAdds(bs, m, bs[m - 1], PrevOf(bs, m), CountOf(bs, m));
    }
  }

  /** The comparisons of the loop lead there. */
  lemma {:induction false} DivideStops(bs: seq<Blk>, size0: nat, d: Division, m: nat, size: nat)
    requires Adding(bs) && StopsAt(bs, size0, d) && d.n <= m <= |bs| && size == size0 - Distinct(bs[m..])
    ensures DivideFrom(bs, m, size, PrevOf(bs, m)) == d
    decreases m
  {
    if d.n < m {
      DivideMore(bs, size0, d.n, m, size);
      DivideStops(bs, size0, d, m - 1, size - CountOf(bs, m));
    } else {
      DivideEnds(bs, size0, d, size);
    }
  }

  lemma DivideMore(bs: seq<Blk>, size0: nat, n: nat, m: nat, size: nat)
    requires Adding(bs) && n < m <= |bs| && Distinct(bs[n..]) <= size0 && size == size0 - Distinct(bs[m..])
    ensures 0 <= CountOf(bs, m) <= size && size - CountOf(bs, m) == size0 - Distinct(bs[m - 1..])
    ensures DivideFrom(bs, m, size, PrevOf(bs, m)) == DivideFrom(bs, m - 1, size - CountOf(bs, m), PrevOf(bs, m - 1))
  {
    assert AddsAt(bs, m);
    SuffixLess(bs, n, m - 1);
    DivideGoes(bs, m, size);
  }

  lemma DivideEnds(bs: seq<Blk>, size0: nat, d: Division, size: nat)
    requires Adding(bs) && StopsAt(bs, size0, d) && size == size0 - Distinct(bs[d.n..])
    ensures DivideFrom(bs, d.n, size, PrevOf(bs, d.n)) == d
  {
    assert AddsAt(bs, d.n);
    DivideGoes(bs, d.n, size);
    StopsHere(bs, size0, d, size, CountOf(bs, d.n));
  }

  lemma DivideGoes(bs: seq<Blk>, m: nat, size: nat)
    requires 0 < m <= |bs| && bs[m - 1].es != []
    ensures var c, prev := CountOf(bs, m), PrevOf(bs, m);
      && (0 <= c <= size ==> DivideFrom(bs, m, size, prev) == DivideFrom(bs, m - 1, size - c, PrevOf(bs, m - 1)))
      && (c > size && prev != Some(Min(bs[m - 1])) ==>
        (var x := bs[m - 1];
        DivideFrom(bs, m, size, prev) ==
          Division(m, if size == 0 || size == Uniques(x.es) then 0 else Boundary(x.es, size))))
  {
  }

  lemma StopsHere(bs: seq<Blk>, size0: nat, d: Division, size: nat, c: int)
    requires StopsAt(bs, size0, d) && size == size0 - Distinct(bs[d.n..])
    requires Distinct(bs[d.n - 1..]) == Distinct(bs[d.n..]) + c && c <= Uniques(bs[d.n - 1].es)
    ensures c > size && d == Division(d.n, if size == 0 || size == Uniques(bs[d.n - 1].es) then 0
      else Boundary(bs[d.n - 1].es, size))
  {
  }

  lemma DivideWhole(bs: seq<Blk>, size: nat, d: Division)
    requires Blocks(bs) && StopsAt(bs, size, d)
    ensures DivideTop(bs, size) == d
  {
    Whole(bs);
    NoneDistinct();
    BlocksAdd(bs);
    DivideStops(bs, size, d, |bs|, size);
  }

  lemma EndUncut(bs: seq<Blk>, above: seq<Blk>, size: nat, n: nat, low: seq<Blk>, high: seq<Blk>)
    requires Blocks(bs + above) && Blocks(bs) && !Touch(bs, above) && UpFrom(bs, above, n, low, high) && 0 < n
    requires Distinct(bs[n..]) == size < Distinct(bs[n - 1..])
    ensures Parted(bs, above, size, true, low, high) && Divided(bs, above, Division(n, 0), low, high)
    ensures StopsAt(bs, size, Division(n, 0))
  {
    StopUncut(bs, above, size, n);
    UncutDivided(bs, above, n);
  }

  lemma EndCut(bs: seq<Blk>, above: seq<Blk>, size: nat, n: nat, at: nat, c: nat, was: seq<Blk>, low: seq<Blk>,
      high: seq<Blk>)
    requires Blocks(bs + above) && Blocks(bs) && 0 < n <= |bs| && was == bs[n..] + above
    requires Distinct(bs[n..]) + c == size < Distinct(bs[n - 1..])
    requires 0 < at < |bs[n - 1].es| && IndexBoundary(bs[n - 1].es, at, c) && at == Boundary(bs[n - 1].es, c) && c > 0
    requires low == bs[..n - 1] + [Kept(bs[n - 1], at)] && high == [SplitOff(bs[n - 1], at)] + was
    ensures Parted(bs, above, size, false, low, high) && Divided(bs, above, Division(n, at), low, high)
    ensures StopsAt(bs, size, Division(n, at))
  {
    StopCut(bs, above, size, n, at, c);
    CutDivided(bs, above, n, at);
  }

  lemma UncutDivided(bs: seq<Blk>, above: seq<Blk>, n: nat)
    requires n <= |bs|
    ensures Divided(bs, above, Division(n, 0), bs[..n], bs[n..] + above)
  {
  }

  lemma CutDivided(bs: seq<Blk>, above: seq<Blk>, n: nat, at: nat)
    requires 0 < n <= |bs| && 0 < at < |bs[n - 1].es|
    ensures Divided(bs, above, Division(n, at), bs[..n - 1] + [Kept(bs[n - 1], at)],
      [SplitOff(bs[n - 1], at)] + (bs[n..] + above))
  {
    Assoc([SplitOff(bs[n - 1], at)], bs[n..], above);
  }

  /** The index the loop remembers before it looks at block m - 1, and what it then counts. */
  function PrevOf(bs: seq<Blk>, m: nat): Option<Key>
    requires m <= |bs|
  {
    if m < |bs| && bs[m].es != [] then Some(Min(bs[m])) else None
  }

  function CountOf(bs: seq<Blk>, m: nat): int
    requires 0 < m <= |bs| && bs[m - 1].es != []
  {
    Uniques(bs[m - 1].es) - (if PrevOf(bs, m) == Some(Max(bs[m - 1])) then 1 else 0)
  }

  /** At every block the loop counts what the block adds. */
  ghost predicate Adding(bs: seq<Blk>) {
    (forall i :: 0 <= i < |bs| ==> bs[i].es != []) && (forall m :: 0 < m <= |bs| ==> AddsAt(bs, m))
  }

  ghost predicate AddsAt(bs: seq<Blk>, m: nat)
    requires 0 < m <= |bs| && bs[m - 1].es != []
  {
    var c := CountOf(bs, m);
    c >= 0 && Distinct(bs[m - 1..]) == Distinct(bs[m..]) + c && (c > 0 ==> PrevOf(bs, m) != Some(Min(bs[m - 1])))
  }

  /** The loop stops in block n - 1, which has more indices than are left to move. */
  ghost predicate StopsAbove(bs: seq<Blk>, size0: int, size: int, prev: Option<Key>, n: nat, low: seq<Blk>) {
    && 0 < n <= |bs| && Distinct(bs[n - 1..]) > size0
    && |low| == n && low[n - 1] == bs[n - 1] && low[..n - 1] == bs[..n - 1]
    && bs[n - 1].es != [] && size < Uniques(bs[n - 1].es) && prev != Some(Min(bs[n - 1]))
  }

  /** Whole blocks, as long as they fit. */
  method RaiseWhole(low0: Tree, high0: Tree, size0: nat)
    returns (low: Tree, high: Tree, size: nat, prev: Option<Key>, ghost n: nat)
    requires Adding(low0.bs) && Listed(low0) && Listed(high0) && size0 < Distinct(low0.bs)
    ensures Rising(low0, high0, size0, low, high, size, n) && StopsAbove(low0.bs, size0, size, prev, n, low.bs)
  {
    low, high, size, prev, n := low0, high0, size0, None, |low0.bs|;
    NothingRisen(low, high, size0);
    var done := false;
    while !done
      invariant Rising(low0, high0, size0, low, high, size, n) && prev == PrevOf(low0.bs, n)
      invariant done ==> StopsAbove(low0.bs, size0, size, prev, n, low.bs)
      decreases !done, n
    {
      done, low, high, size, prev, n := RaiseOne(low, high, size, prev, low0, high0, size0, n);
    }
  }

  /** One round of the loop. */
  method RaiseOne(low: Tree, high: Tree, size: nat, prev: Option<Key>, ghost low0: Tree, ghost high0: Tree,
      ghost size0: nat, ghost n: nat)
    returns (done: bool, low': Tree, high': Tree, size': nat, prev': Option<Key>, ghost n': nat)
    requires Adding(low0.bs) && size0 < Distinct(low0.bs)
    requires Rising(low0, high0, size0, low, high, size, n) && prev == PrevOf(low0.bs, n)
    ensures Rising(low0, high0, size0, low', high', size', n') && prev' == PrevOf(low0.bs, n')
    ensures if done then StopsAbove(low0.bs, size0, size', prev', n', low'.bs) else n' < n
  {
    AtTop(low0.bs, high0.bs, n, low.bs, high.bs, size0);
    var x := low.bs[|low.bs| - 1];
    var c := Uniques(x.es) - (if prev == Some(Max(x)) then 1 else 0);
    assert AddsAt(low0.bs, n);
    if c > size {
      UpOne(low0.bs, high0.bs, n, low.bs, high.bs);
      return true, low, high, size, prev, n;
    }
    Risen(low0, high0, size0, low, high, size, n, c);
    return false, DropLast(low, c), AddFirst(high, x, c), size - c, Some(Min(x)), n - 1;
  }

  // ---------------------------------------------------------------- the smallest indices move down

  /** The lists after the loop has moved the blocks below n down. */
  ghost predicate DownTo(below: seq<Blk>, bs: seq<Blk>, n: nat, low: seq<Blk>, high: seq<Blk>) {
    n <= |bs| && low == below + bs[..n] && high == bs[n..]
  }

  lemma DownOne(below: seq<Blk>, bs: seq<Blk>, n: nat, low: seq<Blk>, high: seq<Blk>)
    requires DownTo(below, bs, n, low, high) && n < |bs|
    ensures high[0] == bs[n] && DownTo(below, bs, n + 1, low + [bs[n]], high[1..])
  {
    assert bs[..n + 1] == bs[..n] + [bs[n]];
  }

  /** The loop of balance_with when the other tree is above. */
  ghost predicate Sinking(low0: Tree, high0: Tree, size0: nat, low: Tree, high: Tree, size: int, n: nat) {
    && DownTo(low0.bs, high0.bs, n, low.bs, high.bs) && Listed(low) && Listed(high)
    && size == size0 - Distinct(high0.bs[..n]) && size >= 0
    && low.uniques == low0.uniques + (size0 - size) && high.uniques == high0.uniques - (size0 - size)
  }

  lemma Sunk(low0: Tree, high0: Tree, size0: nat, low: Tree, high: Tree, size: int, n: nat, c: nat)
    requires Blocks(high0.bs) && Sinking(low0, high0, size0, low, high, size, n) && n < |high0.bs|
    requires c == Uniques(high0.bs[n].es) - Shared(high0.bs[..n], high0.bs[n..]) && c <= size
    ensures Sinking(low0, high0, size0, AddLast(low, high.bs[0], c), DropFirst(high, c), size - c, n + 1)
  {
    PrefixDistinct(high0.bs, n);
    DownOne(low0.bs, high0.bs, n, low.bs, high.bs);
    DropListed(high, c);
    AddListed(low, high.bs[0], c);
  }

  /** The blocks below n have gone down, and of block n what lies below its first `at` entries. */
  ghost predicate Sunken(below: seq<Blk>, bs: seq<Blk>, d: Division, low: seq<Blk>, high: seq<Blk>) {
    && d.n <= |bs| && (d.at > 0 ==> d.n < |bs| && d.at < |bs[d.n].es|)
    && low == (if d.at == 0 then below + bs[..d.n] else (below + bs[..d.n]) + [Kept(bs[d.n], d.at)])
    && high == (if d.at == 0 then bs[d.n..] else [SplitOff(bs[d.n], d.at)] + bs[d.n + 1..])
  }

  /** What moving the `size` smallest indices down gives. */
  ghost predicate Lowered(low0: Tree, high0: Tree, size: nat, d: Division, low: Tree, high: Tree) {
    && Shifted(low0, high0, 0 - size, low, high) && Settled(low, high)
    && Sunken(low0.bs, high0.bs, d, low.bs, high.bs)
  }

  ghost predicate PartedLow(below: seq<Blk>, bs: seq<Blk>, size: nat, low: seq<Blk>, high: seq<Blk>) {
    Rearranged(below + bs, low + high) && Distinct(low) == Distinct(below) + size && !Touch(low, high)
  }

  lemma PartedLowered(low0: Tree, high0: Tree, size: nat, d: Division, low: Tree, high: Tree)
    requires SideBySide(low0, high0) && PartedLow(low0.bs, high0.bs, size, low.bs, high.bs) && Listed(low)
      && Listed(high)
    requires low.uniques == low0.uniques + size && high.uniques == high0.uniques - size
    requires Sunken(low0.bs, high0.bs, d, low.bs, high.bs)
    ensures Lowered(low0, high0, size, d, low, high)
  {
    CountsSettle(low0, high0, 0 - size, low, high);
  }

  /** The indices of the lower tree and of some of the blocks above it. */
  lemma DistinctOnto(below: seq<Blk>, bs: seq<Blk>, y: seq<Blk>)
    requires !Touch(below, bs) && Blocks(below + y) && bs != [] && bs[0].es != []
    requires y != [] ==> y[0].es != [] && Min(y[0]) == Min(bs[0])
    ensures Distinct(below + y) == Distinct(below) + Distinct(y)
  {
    DistinctAdd(below, y);
  }

  lemma StopBetween(below: seq<Blk>, bs: seq<Blk>, size: nat, n: nat)
    requires Blocks(below + bs) && !Touch(below, bs) && n < |bs| && bs[0].es != [] && Distinct(bs[..n]) == size
    requires !Touch(bs[..n], bs[n..])
    ensures PartedLow(below, bs, size, below + bs[..n], bs[n..])
  {
    Regroup(bs, n, below);
    OrderedParts(below + bs[..n], bs[n..]);
    DistinctOnto(below, bs, bs[..n]);
    BetweenTouch(below, bs, n);
  }

  lemma BetweenTouch(below: seq<Blk>, bs: seq<Blk>, n: nat)
    requires n < |bs| && !Touch(below, bs) && !Touch(bs[..n], bs[n..])
    ensures !Touch(below + bs[..n], bs[n..])
  {
    Whole(below);
    Whole(bs);
  }

  /** The loop stops inside block n, which is cut at position `at`. */
  lemma StopCutLow(below: seq<Blk>, bs: seq<Blk>, size: nat, n: nat, at: nat, c: nat)
    requires Blocks(below + bs) && Blocks(bs) && !Touch(below, bs) && n < |bs| && 0 < at < |bs[n].es|
      && IndexBoundary(bs[n].es, at, c)
    requires Distinct(bs[..n + 1]) == size + c
    ensures PartedLow(below, bs, size, (below + bs[..n]) + [Kept(bs[n], at)], [SplitOff(bs[n], at)] + bs[n + 1..])
  {
    var x, k := bs[n], Kept(bs[n], at);
    RegroupAround(bs, n, below);
    CutList(below + bs[..n], x, bs[n + 1..], at, c);
    OrderedParts((below + bs[..n]) + [k], [SplitOff(x, at)] + bs[n + 1..]);
    SplitBlock(x, at, c);
    KeptDistinct(bs, n, at, c);
    Assoc(below, bs[..n], [k]);
    DistinctOnto(below, bs, bs[..n] + [k]);
  }

  lemma KeptDistinct(bs: seq<Blk>, n: nat, at: nat, c: nat)
    requires Blocks(bs) && n < |bs| && 0 < at < |bs[n].es| && IndexBoundary(bs[n].es, at, c)
    ensures Distinct(bs[..n] + [Kept(bs[n], at)]) == Distinct(bs[..n + 1]) - c
  {
    InTwo(bs, n + 1);
    Ends(bs, n);
    OrderedParts(bs[..n + 1], bs[n + 1..]);
    Whole(bs[..n] + [bs[n]]);
    CutDistinct(bs[..n], bs[n], [], at, c);
    NoneDistinct();
  }

  method CutBottom(low: Tree, high: Tree, size: nat, c: nat) returns (low': Tree, high': Tree, at: nat)
    requires Listed(low) && Listed(high) && high.bs != [] && 0 < c < Uniques(high.bs[0].es)
    ensures Listed(low') && Listed(high') && low'.uniques == low.uniques + size && high'.uniques == high.uniques - size
    ensures var x := high.bs[0];
      && 0 < at < |x.es| && IndexBoundary(x.es, at, c)
      && low'.bs == low.bs + [Kept(x, at)] && high'.bs == [SplitOff(x, at)] + high.bs[1..]
  {
    var x := high.bs[0];
    at := FindBoundary(x.es, c);
    low', high' := AddLast(low, Kept(x, at), size), AddFirst(DropFirst(high, 0), SplitOff(x, at), 0 - size);
    DropListed(high, 0);
    AddListed(DropFirst(high, 0), SplitOff(x, at), 0 - size);
    AddListed(low, Kept(x, at), size);
  }

  ghost predicate PrevBelow(bs: seq<Blk>, n: nat, prev: Option<Key>) {
    if 0 < n <= |bs| then bs[n - 1].es != [] && prev == Some(Max(bs[n - 1])) else prev == None
  }

  lemma AtBottom(below: seq<Blk>, bs: seq<Blk>, n: nat, low: seq<Blk>, high: seq<Blk>, size: int)
    requires DownTo(below, bs, n, low, high) && Blocks(bs) && Distinct(bs[..n]) <= size < Distinct(bs)
    ensures n < |bs| && high != [] && high[0] == bs[n] && Seg(bs[n]) && Seg(bs[0])
  {
    Whole(bs);
  }

  lemma CountBelow(bs: seq<Blk>, n: nat, prev: Option<Key>, c: int)
    requires Blocks(bs) && n < |bs| && PrevBelow(bs, n, prev)
    requires c == Uniques(bs[n].es) - (if prev == Some(Min(bs[n])) then 1 else 0)
    ensures c >= 0 && c == Uniques(bs[n].es) - Shared(bs[..n], bs[n..])
  {
    SomeIndex(bs[n].es);
  }

  lemma NothingSunk(low: Tree, high: Tree, size: nat)
    requires Listed(low) && Listed(high)
    ensures Sinking(low, high, size, low, high, size, 0)
  {
    NoneDistinct();
    assert high.bs[..0] == [] && low.bs + [] == low.bs;
  }

  /** Its `size0` smallest indices go to the lower tree. */
  method MoveBottom(low0: Tree, high0: Tree, size0: nat) returns (low: Tree, high: Tree, d: Division)
    requires SideBySide(low0, high0) && size0 < high0.uniques
    ensures Lowered(low0, high0, size0, d, low, high)
  {
    low, high, d := LowerBlocks(low0, high0, size0);
    PartedLowered(low0, high0, size0, d, low, high);
  }

  method LowerBlocks(low0: Tree, high0: Tree, size0: nat) returns (low: Tree, high: Tree, d: Division)
    requires Blocks(high0.bs) && Blocks(low0.bs + high0.bs) && !Touch(low0.bs, high0.bs)
    requires Listed(low0) && Listed(high0) && size0 < Distinct(high0.bs)
    ensures PartedLow(low0.bs, high0.bs, size0, low.bs, high.bs) && Listed(low) && Listed(high)
    ensures low.uniques == low0.uniques + size0 && high.uniques == high0.uniques - size0
    ensures Sunken(low0.bs, high0.bs, d, low.bs, high.bs)
  {
    var size, c, n;
    low, high, size, c, n := LowerWhole(low0, high0, size0);
    d := Division(n, 0);
    if c - size == 0 || c - size == Uniques(high.bs[0].es) {
      StopBetween(low0.bs, high0.bs, size0, n);
    } else {
      var at;
      low, high, at := CutBottom(low, high, size, c - size);
      DownOne(low0.bs, high0.bs, n, low0.bs + high0.bs[..n], high0.bs[n..]);
      StopCutLow(low0.bs, high0.bs, size0, n, at, c - size);
      d := Division(n, at);
    }
  }

  method LowerWhole(low0: Tree, high0: Tree, size0: nat)
    returns (low: Tree, high: Tree, size: nat, c: nat, n: nat)
    requires Blocks(high0.bs) && Listed(low0) && Listed(high0) && size0 < Distinct(high0.bs)
    ensures Sinking(low0, high0, size0, low, high, size, n) && n < |high0.bs| && Seg(high0.bs[n]) && Seg(high0.bs[0])
    ensures high.bs != [] && high.bs[0] == high0.bs[n]
    ensures c == Uniques(high0.bs[n].es) - Shared(high0.bs[..n], high0.bs[n..]) && c > size
    ensures Distinct(high0.bs[..n + 1]) == size0 - size + c
  {
    low, high, size, n := low0, high0, size0, 0;
    var prev: Option<Key> := None;
    NothingSunk(low, high, size0);
    while true
      invariant Sinking(low0, high0, size0, low, high, size, n) && PrevBelow(high0.bs, n, prev)
      decreases |high0.bs| - n
    {
      AtBottom(low0.bs, high0.bs, n, low.bs, high.bs, size0);
      var x := high.bs[0];
      var count := Uniques(x.es) - (if prev == Some(Min(x)) then 1 else 0);
      CountBelow(high0.bs, n, prev, count);
      c := count;
      if c > size {
        PrefixDistinct(high0.bs, n);
        return;
      }
      Sunk(low0, high0, size0, low, high, size, n, c);
      prev, low, high := Some(Max(x)), AddLast(low, x, c), DropFirst(high, c);
      size, n := size - c, n + 1;
    }
  }

  // ---------------------------------------------------------------- the operations

  /** split: the new tree gets the floor(n / 2) largest of the n indices, entry for entry, unless the block
      it stops in shares its largest index with the one above. */
  method Split(t: Tree) returns (low: Tree, high: Tree, d: Division)
    requires SoundTree(t) && t.uniques > 1
    ensures Pairs(low.bs) + Pairs(high.bs) == Pairs(t.bs) && low.items + high.items == t.items
    ensures high.uniques == t.uniques / 2 && low.uniques == t.uniques - t.uniques / 2
    ensures d == DivideTop(t.bs, t.uniques / 2) && Divides(t.bs, d) && 0 < d.n
    ensures low.bs == LowerPart(t.bs, d) && high.bs == UpperPart(t.bs, d)
    ensures Listed(low) && Listed(high) && Blocks(low.bs) && Blocks(high.bs)
    ensures Settled(low, high) <==> !Torn(t.bs, t.uniques / 2)
    ensures Torn(t.bs, t.uniques / 2) ==> TornCounts(d, low, high)
    ensures NoSpan(t.bs) ==> NoSpan(low.bs + high.bs)
  {
    var none := Tree([], [], 0, 0);
    NoneSound(none);
    assert t.bs + none.bs == t.bs;
    low, high, d := MoveTop(t, none, t.uniques / 2);
    PairsAdd(low.bs, high.bs);
    OrderedParts(low.bs, high.bs);
    Whole(UpperPart(t.bs, d));
  }

  lemma NoneSound(none: Tree)
    requires none == Tree([], [], 0, 0)
    ensures SoundTree(none)
  {
    NoneDistinct();
  }

  /** Without an index in two blocks there is nothing to tear. */
  lemma NoSpanNotTorn(bs: seq<Blk>, size: int)
    requires Blocks(bs) && NoSpan(bs)
    ensures !Torn(bs, size)
  {
    forall i | StopsIn(bs, size, i) ensures !Touch(bs[..i + 1], bs[i + 1..]) {
      if i + 1 < |bs| { assert bs[..i + 1][i] == bs[i] && bs[i + 1..][0] == bs[i + 1]; }
    }
  }

  ghost predicate LiesBelow(low: Tree, high: Tree) {
    && low.bs != [] && high.bs != [] && low.bs[|low.bs| - 1].es != [] && high.bs[0].es != []
    && Max(low.bs[|low.bs| - 1]) < Min(high.bs[0])
  }

  lemma Join(low: Tree, high: Tree)
    requires SoundTree(low) && SoundTree(high) && LiesBelow(low, high)
    ensures SideBySide(low, high) && (NoSpan(low.bs) && NoSpan(high.bs) ==> NoSpan(low.bs + high.bs))
  {
    JoinBlocks(low.bs, high.bs);
  }

  lemma JoinBlocks(low: seq<Blk>, high: seq<Blk>)
    requires Blocks(low) && Blocks(high) && low != [] && high != [] && Max(low[|low| - 1]) < Min(high[0])
    ensures Blocks(low + high) && (NoSpan(low) && NoSpan(high) ==> NoSpan(low + high))
  {
    var w, n := low + high, |low|;
    forall i | 0 <= i < |w| ensures Seg(w[i]) { assert w[i] == if i < n then low[i] else high[i - n]; }
    forall i, j | 0 <= i < j < |w| ensures Max(w[i]) <= Min(w[j]) { JoinOrder(low, high, i, j); }
    if NoSpan(low) && NoSpan(high) {
      forall i, j | 0 <= i < j < |w| ensures Max(w[i]) < Min(w[j]) { JoinOrder(low, high, i, j); }
    }
  }

  lemma JoinOrder(low: seq<Blk>, high: seq<Blk>, i: nat, j: nat)
    requires Blocks(low) && Blocks(high) && low != [] && high != [] && Max(low[|low| - 1]) < Min(high[0])
    requires i < j < |low + high|
    ensures var w := low + high;
      && w[i].es != [] && w[j].es != [] && Max(w[i]) <= Min(w[j])
      && (NoSpan(low) && NoSpan(high) ==> Max(w[i]) < Min(w[j]))
  {
    var n := |low|;
    if i < n <= j { JoinAt(low, high, i, j - n); }
  }

  lemma JoinAt(low: seq<Blk>, high: seq<Blk>, i: nat, j: nat)
    requires Blocks(low) && Blocks(high) && i < |low| && j < |high| && Max(low[|low| - 1]) < Min(high[0])
    ensures Max(low[i]) < Min(high[j])
  {
    SegBounds(low[|low| - 1]);
    SegBounds(high[0]);
  }

  /** The test on the metadata is the test on the blocks. */
  lemma OrderTest(t: Tree, other: Tree)
    requires SoundTree(t) && SoundTree(other) && (LiesBelow(t, other) || LiesBelow(other, t))
    ensures t.meta[0].min > other.meta[|other.meta| - 1].max <==> LiesBelow(other, t)
    ensures LiesBelow(t, other) <==> !LiesBelow(other, t)
  {
    BoundsAscend(t.bs, t.meta, 0, |t.bs| - 1);
    BoundsAscend(other.bs, other.meta, 0, |other.bs| - 1);
    BoundsAscend(t.bs, t.meta, |t.bs| - 1, |t.bs| - 1);
    BoundsAscend(other.bs, other.meta, |other.bs| - 1, |other.bs| - 1);
  }

  /** What balance_with moves: half of what both have, less what this tree has already. */
  function Share(t: Tree, other: Tree): int { (t.uniques + other.uniques) / 2 - t.uniques }

  lemma ShareFits(a: int, b: int)
    requires a < b
    ensures 0 <= (a + b) / 2 - a < b - a && (a >= 0 ==> (a + b) / 2 - a < b)
  {
  }

  /** What balancing leaves alone. */
  ghost predicate Conserved(low0: Tree, high0: Tree, low: Tree, high: Tree) {
    && Pairs(low.bs) + Pairs(high.bs) == Pairs(low0.bs) + Pairs(high0.bs)
    && low.items + high.items == low0.items + high0.items
    && (NoSpan(low0.bs) && NoSpan(high0.bs) ==> NoSpan(low.bs) && NoSpan(high.bs))
  }

  /** The largest indices of the lower tree were taken: both trees are valid and apart exactly if nothing was torn. */
  ghost predicate TookTop(low0: Tree, high0: Tree, size: nat, d: Division, low: Tree, high: Tree) {
    && Conserved(low0, high0, low, high) && low.uniques == low0.uniques - size && high.uniques == high0.uniques + size
    && (Settled(low, high) <==> !Torn(low0.bs, size))
    && (Torn(low0.bs, size) ==> TornCounts(d, low, high))
    && Divided(low0.bs, high0.bs, d, low.bs, high.bs) && d == DivideTop(low0.bs, size) && 0 < d.n
  }

  /** The smallest indices of the upper tree were taken: both trees are valid and apart. */
  ghost predicate TookBottom(low0: Tree, high0: Tree, size: int, d: Division, low: Tree, high: Tree) {
    && Conserved(low0, high0, low, high) && low.uniques == low0.uniques + size && high.uniques == high0.uniques - size
    && Settled(low, high) && Sunken(low0.bs, high0.bs, d, low.bs, high.bs)
  }

  /** What balancing makes of two trees. */
  ghost predicate Balances(t: Tree, other: Tree, d: Division, t': Tree, other': Tree) {
    && (LiesBelow(t, other) ==> TookBottom(t, other, Share(t, other), d, t', other'))
    && (LiesBelow(other, t) ==> Share(t, other) >= 0 && TookTop(other, t, Share(t, other), d, other', t'))
  }

  /** balance_with: indices move from the larger tree to the smaller, which ends up with floor((a + b) / 2). */
  method BalanceWith(t: Tree, other: Tree) returns (t': Tree, other': Tree, d: Division)
    requires SoundTree(t) && SoundTree(other) && (LiesBelow(t, other) || LiesBelow(other, t))
      && t.uniques < other.uniques
    ensures Balances(t, other, d, t', other')
  {
    ShareFits(t.uniques, other.uniques);
    OrderTest(t, other);
    if t.meta[0].min > other.meta[|other.meta| - 1].max {
      other', t', d := TakeTop(other, t, Share(t, other));
    } else {
      t', other', d := TakeBottom(t, other, Share(t, other));
    }
  }

  method TakeTop(low0: Tree, high0: Tree, size: nat) returns (low: Tree, high: Tree, d: Division)
    requires SoundTree(low0) && SoundTree(high0) && LiesBelow(low0, high0) && size < low0.uniques
    ensures TookTop(low0, high0, size, d, low, high)
  {
    Join(low0, high0);
    low, high, d := MoveTop(low0, high0, size);
    ShiftedSums(low0, high0, size, low, high);
  }

  method TakeBottom(low0: Tree, high0: Tree, size: nat) returns (low: Tree, high: Tree, d: Division)
    requires SoundTree(low0) && SoundTree(high0) && LiesBelow(low0, high0) && size < high0.uniques
    ensures TookBottom(low0, high0, size, d, low, high)
  {
    Join(low0, high0);
    low, high, d := MoveBottom(low0, high0, size);
    ShiftedSums(low0, high0, 0 - size, low, high);
  }

  lemma ShiftedSums(low0: Tree, high0: Tree, size: int, low: Tree, high: Tree)
    requires Shifted(low0, high0, size, low, high) && Listed(low0) && Listed(high0)
    requires NoSpan(low0.bs) && NoSpan(high0.bs) ==> NoSpan(low0.bs + high0.bs)
    ensures Conserved(low0, high0, low, high)
  {
    PairsAdd(low.bs, high.bs);
    PairsAdd(low0.bs, high0.bs);
    assert |Pairs(low.bs) + Pairs(high.bs)| == |Pairs(low0.bs) + Pairs(high0.bs)|;
    if NoSpan(low0.bs) && NoSpan(high0.bs) { NoSpanParts(low.bs, high.bs); }
  }

  lemma NoSpanParts(low: seq<Blk>, high: seq<Blk>)
    requires NoSpan(low + high)
    ensures NoSpan(low) && NoSpan(high)
  {
    var w := low + high;
    assert forall i :: 0 <= i < |low| ==> low[i] == w[i];
    assert forall j :: 0 <= j < |high| ==> high[j] == w[|low| + j];
  }

  lemma Commute(a: multiset<Pair>, b: multiset<Pair>)
    ensures a + b == b + a
  {
  }

  /** A valid tree that split tears: two indices, the upper one in both blocks. The new tree gets the second
      block, the first keeps two indices and counts one. */
  lemma TornHappens(a: Item, b: Item, c: Item)
    requires |a| == |b| == |c| == 1 && b != c
    ensures var bs := [Blk(DEFAULT_SIZE, [(1, b), (0, a)]), Fresh(1, c)];
      SoundTree(Tree(bs, BoundsList(bs), 3, 2)) && Torn(bs, 1)
  {
    var x, y := Blk(DEFAULT_SIZE, [(1, b), (0, a)]), Fresh(1, c);
    var bs := [x, y];
    assert x.es[1..] == [(0, a)];
    WeightOne((0, a));
    FreshFits(1, c);
    BlocksTwo(x, y);
    PairsTwo(x, y);
    ThreePairs((1, b), (0, a), (1, c));
    assert bs[0..] == bs && bs[1..] == [y] && bs[..1] == [x];
    BlockDistinct(y);
    assert y.es[1..] == [] && Uniques(y.es) == 1;
    assert StopsIn(bs, 1, 0);
  }

  lemma ThreePairs(p: Pair, q: Pair, r: Pair)
    requires p != r && q.0 < p.0 && r.0 == p.0
    ensures var m := multiset([p, q]) + multiset([r]);
      |m| == 3 && (forall x :: m[x] <= 1) && |KeysOf(m)| == 2
  {
    var m := multiset([p, q]) + multiset([r]);
    assert p in m && q in m && r in m;
    assert KeysOf(m) == {p.0, q.0};
  }

  // ---------------------------------------------------------------- merge

  /** What merging gives: the blocks of both, in order, and the sums of the counters. */
  ghost predicate Merged(low: Tree, high: Tree, t: Tree) {
    && SoundTree(t) && t.bs == low.bs + high.bs && Pairs(t.bs) == Pairs(low.bs) + Pairs(high.bs)
    && t.items == low.items + high.items && t.uniques == low.uniques + high.uniques
    && (NoSpan(low.bs) && NoSpan(high.bs) ==> NoSpan(t.bs))
  }

  lemma MergedOne(low: Tree, high: Tree, t: Tree)
    requires SoundTree(low) && SoundTree(high) && LiesBelow(low, high) && t.bs == low.bs + high.bs
      && Exact(t.bs, t.meta)
    requires t.items == low.items + high.items && t.uniques == low.uniques + high.uniques
    ensures Merged(low, high, t)
  {
    Join(low, high);
    OnceSum(low, high);
    PairsAdd(low.bs, high.bs);
    DistinctAdd(low.bs, high.bs);
  }

  /** merge: everything of the other tree is taken over. */
  method Merge(t: Tree, other: Tree) returns (t': Tree)
    requires SoundTree(t) && SoundTree(other) && (LiesBelow(t, other) || LiesBelow(other, t))
    ensures if LiesBelow(t, other) then Merged(t, other, t') else Merged(other, t, t')
  {
    OrderTest(t, other);
    if t.meta[0].min > other.meta[|other.meta| - 1].max {
      t' := MergeBelow(other, t);
    } else {
      t' := MergeAbove(t, other);
    }
  }

  lemma FrontStep(low: seq<Blk>, n: nat, high: seq<Blk>)
    requires n < |low|
    ensures low[n..] + high == [low[n]] + (low[n + 1..] + high)
  {
  }

  lemma ExactFront(bs: seq<Blk>, meta: seq<Bounds>, b: Blk)
    requires Exact(bs, meta)
    ensures Exact([b] + bs, [BoundsOf(b)] + meta)
  {
  }

  /** The merging loop when the other tree is below: its blocks, last first, to the front. */
  method MergeBelow(low: Tree, high: Tree) returns (t: Tree)
    requires SoundTree(low) && SoundTree(high) && LiesBelow(low, high)
    ensures Merged(low, high, t)
  {
    t := high;
    var n := |low.bs|;
    assert low.bs[n..] + high.bs == high.bs;
    while n > 0
      invariant 0 <= n <= |low.bs| && t.bs == low.bs[n..] + high.bs && Exact(t.bs, t.meta)
    {
      n := n - 1;
      FrontStep(low.bs, n, high.bs);
      ExactFront(t.bs, t.meta, low.bs[n]);
      t := Tree([low.bs[n]] + t.bs, [BoundsOf(low.bs[n])] + t.meta, t.items, t.uniques);
    }
    assert low.bs[0..] == low.bs;
    t := t.(items := high.items + low.items, uniques := high.uniques + low.uniques);
    MergedOne(low, high, t);
  }

  lemma ExactBack(bs: seq<Blk>, meta: seq<Bounds>, b: Blk)
    requires Exact(bs, meta)
    ensures Exact(bs + [b], meta + [BoundsOf(b)])
  {
  }

  lemma BackStep(low: seq<Blk>, high: seq<Blk>, n: nat)
    requires n < |high|
    ensures (low + high[..n]) + [high[n]] == low + high[..n + 1]
  {
  }

  /** The merging loop when it is above: its blocks, first first, to the end. */
  method MergeAbove(low: Tree, high: Tree) returns (t: Tree)
    requires SoundTree(low) && SoundTree(high) && LiesBelow(low, high)
    ensures Merged(low, high, t)
  {
    t := low;
    Whole(low.bs);
    for n := 0 to |high.bs|
      invariant t.bs == low.bs + high.bs[..n] && Exact(t.bs, t.meta)
    {
      BackStep(low.bs, high.bs, n);
      ExactBack(t.bs, t.meta, high.bs[n]);
      t := Tree(t.bs + [high.bs[n]], t.meta + [BoundsOf(high.bs[n])], t.items, t.uniques);
    }
    Whole(high.bs);
    t := t.(items := low.items + high.items, uniques := low.uniques + high.uniques);
    MergedOne(low, high, t);
  }
}
