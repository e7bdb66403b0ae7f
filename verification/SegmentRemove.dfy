/** segment_tree_t::remove_index: all entries of an index go, from however many blocks they are in. */
module SegmentRemove {
  import opened Multimap
  import opened Sequences
  import opened BlockSpec
  import opened Segments
  import opened SegmentAppend
  import Balance = SegmentBalance

  // ---------------------------------------------------------------- one block

  /** How many entries have index k or a larger one. */
  function Past(es: seq<Pair>, k: Key): (p: nat)
    ensures p <= |es|
  {
    if es == [] || es[0].0 < k then 0 else 1 + Past(es[1..], k)
  }

  lemma {:induction false} PastIsRangeEnd(es: seq<Pair>, k: Key, b: int, e: int)
    requires IsRange(es, k, b, e)
    ensures Past(es, k) == e
    decreases |es|
  {
    if e > 0 {
      var t := es[1..];
      assert forall i :: 0 <= i < |t| ==> t[i] == es[i + 1];
      assert es[0].0 >= k;
      PastIsRangeEnd(t, k, if b > 0 then b - 1 else 0, e - 1);
    } else if es != [] {
      assert es[0].0 < k;
    }
  }

  /** block_t::remove_index. */
  function Without(b: Blk, k: Key): Blk {
    var i, j := Place(b.es, k), Past(b.es, k);
    if i <= j then Blk(b.full, Cut(b.es, i, j)) else b
  }

  /** The entries block_t::remove_index takes out. */
  function Taken(b: Blk, k: Key): seq<Pair> {
    var i, j := Place(b.es, k), Past(b.es, k);
    if i <= j then b.es[i..j] else []
  }

  lemma TakenRange(b: Blk, k: Key)
    requires Good(b)
    ensures IsRange(b.es, k, Place(b.es, k), Past(b.es, k))
  {
    var i, j := RangeExists(b.es, k);
    PlaceIsRangeStart(b.es, k, i, j);
    PastIsRangeEnd(b.es, k, i, j);
  }

  lemma TakenAll(b: Blk, k: Key)
    requires Good(b)
    ensures multiset(Without(b, k).es) + multiset(Taken(b, k)) == multiset(b.es)
    ensures (forall i :: 0 <= i < |Taken(b, k)| ==> Taken(b, k)[i].0 == k) && !HasIndex(Without(b, k).es, k)
    ensures |Without(b, k).es| + |Taken(b, k)| == |b.es|
  {
    TakenRange(b, k);
    CutAll(b.es, k, Place(b.es, k), Past(b.es, k));
  }

  lemma CutAll(es: seq<Pair>, k: Key, i: nat, j: nat)
    requires IsRange(es, k, i, j)
    ensures multiset(Cut(es, i, j)) + multiset(es[i..j]) == multiset(es)
    ensures (forall n :: 0 <= n < j - i ==> es[i..j][n].0 == k) && !HasIndex(Cut(es, i, j), k)
  {
    InThree(es, i, j);
    CutLacks(es, k, i, j);
  }

  lemma CutLacks(es: seq<Pair>, k: Key, i: nat, j: nat)
    requires IsRange(es, k, i, j)
    ensures !HasIndex(Cut(es, i, j), k)
  {
    var w := Cut(es, i, j);
    forall n | 0 <= n < |w| ensures w[n].0 != k { assert w[n] == es[if n < i then n else n + (j - i)]; }
  }

  lemma WithoutSome(b: Blk, k: Key)
    requires Good(b) && Uniques(b.es) > 1
    ensures Without(b, k).es != []
  {
    TakenAll(b, k);
    if Without(b, k).es == [] {
      assert Taken(b, k) == b.es;
      UniquesOne(b.es, k);
    }
  }

  lemma FewerWithin(b: Blk, w: Blk, rest: multiset<Pair>)
    requires Seg(b) && w.es != [] && multiset(w.es) + rest == multiset(b.es)
    ensures Min(b) <= Min(w) && Max(w) <= Max(b)
  {
    var p, q := w.es[0], w.es[|w.es| - 1];
    assert p in multiset(w.es) && q in multiset(w.es);
    assert p in multiset(b.es) && q in multiset(b.es);
    MinMax(b, p);
    MinMax(b, q);
  }

  /** A block of several indices stays a good block, inside its old range. */
  lemma WithoutSeg(b: Blk, k: Key)
    requires Seg(b) && Uniques(b.es) > 1
    ensures Seg(Without(b, k)) && Min(b) <= Min(Without(b, k)) && Max(Without(b, k)) <= Max(b)
  {
    WithoutSome(b, k);
    TakenRange(b, k);
    CutBlk(b, Place(b.es, k), Past(b.es, k));
    TakenAll(b, k);
    FewerWithin(b, Without(b, k), multiset(Taken(b, k)));
  }

  /** A block with a single index has no other. */
  lemma OnlyIndex(b: Blk, k: Key, p: Pair)
    requires Seg(b) && Uniques(b.es) == 1 && HasIndex(b.es, k) && p in b.es
    ensures p.0 == k
  {
    UniquesCount(b.es);
    var i :| 0 <= i < |b.es| && b.es[i].0 == k;
    var j :| 0 <= j < |b.es| && b.es[j] == p;
    assert k in Keys(b.es) && p.0 in Keys(b.es);
    OneMember(Keys(b.es), k, p.0);
  }

  lemma OneMember(s: set<Key>, x: Key, y: Key)
    requires |s| == 1 && x in s && y in s
    ensures x == y
  {
    var rest := s - {x};
    assert s == {x} + rest && |rest| == 0;
  }

  // ---------------------------------------------------------------- the list

  /** What is left of a list after entries of index k have gone. */
  ghost predicate Shrunk(bs0: seq<Blk>, bs: seq<Blk>, gone: multiset<Pair>, k: Key) {
    Blocks(bs) && Pairs(bs) + gone == Pairs(bs0) && forall p :: p in gone ==> p.0 == k
  }

  lemma ReplaceBlocks(bs: seq<Blk>, i: nat, x: Blk)
    requires Blocks(bs) && i < |bs| && Seg(x) && Min(bs[i]) <= Min(x) && Max(x) <= Max(bs[i])
    ensures Blocks(bs[i := x])
  {
    SegBounds(x);
  }

  lemma ReplacedPairs(bs: seq<Blk>, i: nat, x: Blk, more: multiset<Pair>)
    requires i < |bs| && multiset(x.es) + more == multiset(bs[i].es)
    ensures Pairs(bs[i := x]) + more == Pairs(bs)
  {
    Around(bs, i);
    assert bs[i := x] == bs[..i] + [x] + bs[i + 1..];
    PairsThree(bs[..i], [x], bs[i + 1..]);
    PairsThree(bs[..i], [bs[i]], bs[i + 1..]);
    PairsOne(x);
    PairsOne(bs[i]);
  }

  lemma ShrinkOne(bs0: seq<Blk>, bs: seq<Blk>, gone: multiset<Pair>, k: Key, i: nat)
    requires Shrunk(bs0, bs, gone, k) && i < |bs| && Uniques(bs[i].es) > 1
    ensures Shrunk(bs0, bs[i := Without(bs[i], k)], gone + multiset(Taken(bs[i], k)), k)
  {
    var w, t := Without(bs[i], k), Taken(bs[i], k);
    WithoutSeg(bs[i], k);
    TakenAll(bs[i], k);
    ReplaceBlocks(bs, i, w);
    ReplacedPairs(bs, i, w, multiset(t));
    Regrouped(Pairs(bs[i := w]), multiset(t), gone, Pairs(bs0));
  }

  lemma Regrouped(a: multiset<Pair>, b: multiset<Pair>, c: multiset<Pair>, d: multiset<Pair>)
    requires a + b + c == d
    ensures a + (c + b) == d
  {
  }

  lemma DeleteBlocks(bs: seq<Blk>, i: nat, j: nat)
    requires Blocks(bs) && i <= j <= |bs|
    ensures Blocks(bs[..i] + bs[j..])
  {
    var w := bs[..i] + bs[j..];
    assert forall n :: 0 <= n < |w| ==> w[n] == bs[if n < i then n else n + (j - i)];
  }

  /** Blocks with no other index are deleted whole. */
  lemma DeleteAll(bs0: seq<Blk>, bs: seq<Blk>, gone: multiset<Pair>, k: Key, i: nat, j: nat)
    requires Shrunk(bs0, bs, gone, k) && i <= j <= |bs| && forall p :: p in Pairs(bs[i..j]) ==> p.0 == k
    ensures Shrunk(bs0, bs[..i] + bs[j..], gone + Pairs(bs[i..j]), k)
  {
    DeleteBlocks(bs, i, j);
    PairsSplit(bs, i, j);
    PairsAdd(bs[..i], bs[j..]);
    var a, m, b := Pairs(bs[..i]), Pairs(bs[i..j]), Pairs(bs[j..]);
    assert a + b + (gone + m) == a + m + b + gone;
  }

  // ---------------------------------------------------------------- the covering blocks

  ghost predicate Only(b: Blk, k: Key) { forall i :: 0 <= i < |b.es| ==> b.es[i].0 == k }

  /** Outside the covering blocks there is nothing of the index. */
  lemma NotOutside(bs: seq<Blk>, k: Key, b: nat, e: nat, i: nat)
    requires Blocks(bs) && Covers(bs, k, b, e) && i < |bs| && !(b <= i < e)
    ensures !HasIndex(bs[i].es, k)
  {
    if HasIndex(bs[i].es, k) { CoveredOnly(bs, k, b, e, i); }
  }

  /** With several covering blocks, the last has the index and the inner ones nothing else. */
  lemma Inner(bs: seq<Blk>, k: Key, b: nat, e: nat, i: nat)
    requires Blocks(bs) && Covers(bs, k, b, e) && b < i < e
    ensures HasIndex(bs[i].es, k) && (i < e - 1 ==> Only(bs[i], k))
  {
    SegBounds(bs[i]);
    assert Max(bs[b]) == k && Min(bs[i]) == k;
    assert bs[i].es[|bs[i].es| - 1].0 == k;
    if i < e - 1 {
      assert Max(bs[i]) <= Min(bs[e - 1]) <= k;
      forall n | 0 <= n < |bs[i].es| ensures bs[i].es[n].0 == k {
        assert bs[i].es[n] in bs[i].es;
        MinMax(bs[i], bs[i].es[n]);
      }
    }
  }

  lemma SingleOnly(b: Blk, k: Key)
    requires Seg(b) && Uniques(b.es) == 1 && HasIndex(b.es, k)
    ensures Only(b, k)
  {
    forall n | 0 <= n < |b.es| ensures b.es[n].0 == k {
      assert b.es[n] in b.es;
      OnlyIndex(b, k, b.es[n]);
    }
  }

  /** The first or the last covering block: cleared of the index, or left to be deleted if it has no other. */
  method ClearEnd(bs: seq<Blk>, meta: seq<Bounds>, k: Key, i: nat, ghost bs0: seq<Blk>, ghost gone: multiset<Pair>)
    returns (bs': seq<Blk>, meta': seq<Bounds>, left: bool, count: nat, ghost gone': multiset<Pair>)
    requires Shrunk(bs0, bs, gone, k) && Exact(bs, meta) && i < |bs| && HasIndex(bs[i].es, k)
    ensures Shrunk(bs0, bs', gone', k) && Exact(bs', meta') && |gone'| == |gone| + count
    ensures |bs'| == |bs| && bs' == bs[i := bs'[i]]
    ensures if left then Only(bs'[i], k) && bs' == bs else !HasIndex(bs'[i].es, k)
    ensures bs'[i].full == bs[i].full
  {
    bs', meta', left, count, gone' := bs, meta, true, 0, gone;
    Balance.SomeIndex(bs[i].es);
    if Uniques(bs[i].es) == 1 {
      SingleOnly(bs[i], k);
    } else {
      var w := Without(bs[i], k);
      ClearOne(bs0, bs, meta, gone, k, i, w);
      bs', meta', left := bs[i := w], meta[i := BoundsOf(w)], false;
      count, gone' := |bs[i].es| - |w.es|, gone + multiset(Taken(bs[i], k));
    }
  }

  lemma ClearOne(bs0: seq<Blk>, bs: seq<Blk>, meta: seq<Bounds>, gone: multiset<Pair>, k: Key, i: nat, w: Blk)
    requires Shrunk(bs0, bs, gone, k) && Exact(bs, meta) && i < |bs| && Uniques(bs[i].es) > 1 && w == Without(bs[i], k)
    ensures Shrunk(bs0, bs[i := w], gone + multiset(Taken(bs[i], k)), k) && Exact(bs[i := w], meta[i := BoundsOf(w)])
    ensures !HasIndex(w.es, k) && |w.es| <= |bs[i].es|
    ensures |gone + multiset(Taken(bs[i], k))| == |gone| + (|bs[i].es| - |w.es|)
  {
    TakenAll(bs[i], k);
    ShrinkOne(bs0, bs, gone, k, i);
    ExactUpdate(bs, meta, i, w);
    MoreGone(gone, Taken(bs[i], k));
  }

  lemma ExactUpdate(bs: seq<Blk>, meta: seq<Bounds>, i: nat, w: Blk)
    requires Exact(bs, meta) && i < |bs|
    ensures Exact(bs[i := w], meta[i := BoundsOf(w)])
  {
  }

  lemma MoreGone(gone: multiset<Pair>, more: seq<Pair>)
    ensures |gone + multiset(more)| == |gone| + |more|
  {
  }

  /** The blocks d..f are all that is left of the index. */
  ghost predicate LeftIn(bs: seq<Blk>, k: Key, d: nat, f: nat) {
    && d <= f <= |bs|
    && (forall x :: d <= x < f ==> Only(bs[x], k))
    && (forall x :: 0 <= x < |bs| && !(d <= x < f) ==> !HasIndex(bs[x].es, k))
  }

  /** Of the blocks b..e the first and the last are changed where they are, or nothing is; d..f are to go. */
  ghost predicate Clears(bs: seq<Blk>, bs': seq<Blk>, b: nat, e: nat, d: nat, f: nat) {
    && b < e <= |bs| && |bs'| == |bs| && b <= d <= b + 1 && e - 1 <= f <= e && d <= f
    && bs' == bs[b := bs'[b]][e - 1 := bs'[e - 1]]
    && bs'[b].full == bs[b].full && bs'[e - 1].full == bs[e - 1].full
    && (d == b ==> bs'[b] == bs[b]) && (f == e && b < e - 1 ==> bs'[e - 1] == bs[e - 1])
    && (e - b == 1 ==> f == e)
  }

  method ClearEnds(bs: seq<Blk>, meta: seq<Bounds>, k: Key, b: nat, e: nat)
    returns (bs': seq<Blk>, meta': seq<Bounds>, d: nat, f: nat, count: nat, ghost gone: multiset<Pair>)
    requires Blocks(bs) && Exact(bs, meta) && Covers(bs, k, b, e) && b < e && HasIndex(bs[b].es, k)
    ensures Shrunk(bs, bs', gone, k) && Exact(bs', meta') && |gone| == count && LeftIn(bs', k, d, f)
    ensures Clears(bs, bs', b, e, d, f)
  {
    NoneGone(bs, k);
    var first, last, more;
    bs', meta', first, count, gone := ClearEnd(bs, meta, k, b, bs, multiset{});
    ghost var half := bs';
    LastHas(bs, half, k, b, e);
    bs', meta', last, more, gone := ClearLast(bs', meta', k, b, e, bs, gone);
    count := count + more;
    d, f := if first then b else b + 1, if last then e else e - 1;
    EndsDone(bs, half, bs', k, b, e, first, last);
  }

  lemma LastHas(bs: seq<Blk>, half: seq<Blk>, k: Key, b: nat, e: nat)
    requires Blocks(bs) && Covers(bs, k, b, e) && b < e && |half| == |bs| && half == bs[b := half[b]]
    ensures e - b > 1 ==> HasIndex(half[e - 1].es, k)
  {
    if e - b > 1 { Inner(bs, k, b, e, e - 1); }
  }

  lemma EndsDone(bs: seq<Blk>, x: seq<Blk>, y: seq<Blk>, k: Key, b: nat, e: nat, first: bool, last: bool)
    requires Blocks(bs) && Covers(bs, k, b, e) && b < e
    requires |x| == |bs| && x == bs[b := x[b]] && x[b].full == bs[b].full
    requires if first then Only(x[b], k) && x == bs else !HasIndex(x[b].es, k)
    requires |y| == |x| && (last ==> y == x)
    requires if e - b > 1 then y == x[e - 1 := y[e - 1]] && y[e - 1].full == x[e - 1].full else last
    requires e - b > 1 ==> if last then Only(y[e - 1], k) else !HasIndex(y[e - 1].es, k)
    ensures Clears(bs, y, b, e, if first then b else b + 1, if last then e else e - 1)
    ensures LeftIn(y, k, if first then b else b + 1, if last then e else e - 1)
  {
    ClearsBoth(bs, x, y, b, e, first, last);
    EndsCleared(bs, y, k, b, e, first, last);
  }

  /** The last of several. */
  method ClearLast(bs: seq<Blk>, meta: seq<Bounds>, k: Key, b: nat, e: nat, ghost bs0: seq<Blk>,
      ghost gone: multiset<Pair>)
    returns (bs': seq<Blk>, meta': seq<Bounds>, last: bool, count: nat, ghost gone': multiset<Pair>)
    requires Shrunk(bs0, bs, gone, k) && Exact(bs, meta) && b < e <= |bs| && (e - b > 1 ==> HasIndex(bs[e - 1].es, k))
    ensures Shrunk(bs0, bs', gone', k) && Exact(bs', meta') && |gone'| == |gone| + count
    ensures |bs'| == |bs| && (last ==> bs' == bs)
    ensures if e - b > 1 then bs' == bs[e - 1 := bs'[e - 1]] && bs'[e - 1].full == bs[e - 1].full else last
    ensures e - b > 1 ==> if last then Only(bs'[e - 1], k) else !HasIndex(bs'[e - 1].es, k)
  {
    bs', meta', last, count, gone' := bs, meta, true, 0, gone;
    if e - b > 1 { bs', meta', last, count, gone' := ClearEnd(bs, meta, k, e - 1, bs0, gone); }
  }

  lemma ClearsBoth(bs: seq<Blk>, x: seq<Blk>, y: seq<Blk>, b: nat, e: nat, first: bool, last: bool)
    requires b < e <= |bs| && |x| == |bs| && x == bs[b := x[b]] && x[b].full == bs[b].full && (first ==> x == bs)
    requires e - b > 1 ==> |y| == |x| && y == x[e - 1 := y[e - 1]] && y[e - 1].full == x[e - 1].full
    requires e - b == 1 ==> y == x && last
    requires last ==> y == x
    ensures Clears(bs, y, b, e, if first then b else b + 1, if last then e else e - 1)
  {
  }

  lemma NoneGone(bs: seq<Blk>, k: Key)
    requires Blocks(bs)
    ensures Shrunk(bs, bs, multiset{}, k)
  {
  }

  lemma EndsCleared(bs: seq<Blk>, bs': seq<Blk>, k: Key, b: nat, e: nat, first: bool, last: bool)
    requires Blocks(bs) && Covers(bs, k, b, e) && b < e && |bs'| == |bs| && (e - b == 1 ==> last)
    requires bs' == bs[b := bs'[b]][e - 1 := bs'[e - 1]]
    requires if first then Only(bs'[b], k) else !HasIndex(bs'[b].es, k)
    requires e - b > 1 ==> if last then Only(bs'[e - 1], k) else !HasIndex(bs'[e - 1].es, k)
    ensures LeftIn(bs', k, if first then b else b + 1, if last then e else e - 1)
  {
    var d, f := if first then b else b + 1, if last then e else e - 1;
    forall x | d <= x < f ensures Only(bs'[x], k) {
      if b < x < e - 1 { Inner(bs, k, b, e, x); }
    }
    forall x | 0 <= x < |bs'| && !(d <= x < f) ensures !HasIndex(bs'[x].es, k) {
      if !(b <= x < e) { NotOutside(bs, k, b, e, x); }
    }
  }

  lemma OnlyListed(bs: seq<Blk>, k: Key, d: nat, f: nat)
    requires LeftIn(bs, k, d, f)
    ensures forall p :: p in Pairs(bs[d..f]) ==> p.0 == k
    ensures k !in KeysOf(Pairs(bs[..d] + bs[f..]))
  {
    OnlyMiddle(bs, k, d, f);
    NotAround(bs, k, d, f);
  }

  lemma OnlyMiddle(bs: seq<Blk>, k: Key, d: nat, f: nat)
    requires LeftIn(bs, k, d, f)
    ensures forall p :: p in Pairs(bs[d..f]) ==> p.0 == k
  {
    var m := bs[d..f];
    forall p | p in Pairs(m) ensures p.0 == k {
      InPairs(m, p);
      var i :| 0 <= i < |m| && p in m[i].es;
      assert m[i] == bs[d + i];
    }
  }

  lemma NotAround(bs: seq<Blk>, k: Key, d: nat, f: nat)
    requires LeftIn(bs, k, d, f)
    ensures k !in KeysOf(Pairs(bs[..d] + bs[f..]))
  {
    var w := bs[..d] + bs[f..];
    forall p | p in Pairs(w) ensures p.0 != k {
      InPairs(w, p);
      var i :| 0 <= i < |w| && p in w[i].es;
      assert w[i] == bs[if i < d then i else i + (f - d)];
      var n :| 0 <= n < |w[i].es| && w[i].es[n] == p;
      assert !HasIndex(w[i].es, k);
    }
  }

  // ---------------------------------------------------------------- the operation

  /** One multiset is the other without the entries of index k. */
  ghost predicate Cleared(m: multiset<Pair>, m': multiset<Pair>, k: Key) {
    forall p: Pair :: m'[p] == if p.0 == k then 0 else m[p]
  }

  lemma ClearedBy(bs0: seq<Blk>, bs: seq<Blk>, gone: multiset<Pair>, k: Key)
    requires Shrunk(bs0, bs, gone, k) && k !in KeysOf(Pairs(bs))
    ensures Cleared(Pairs(bs0), Pairs(bs), k) && |Pairs(bs)| == |Pairs(bs0)| - |gone|
  {
    var m, m' := Pairs(bs0), Pairs(bs);
    assert m == m' + gone;
    forall p: Pair ensures m'[p] == if p.0 == k then 0 else m[p] {
      if p in m' { assert p.0 in KeysOf(m'); }
      assert m[p] == m'[p] + gone[p];
    }
  }

  lemma ClearedKeys(m: multiset<Pair>, m': multiset<Pair>, k: Key)
    requires Cleared(m, m', k) && k in KeysOf(m)
    ensures KeysOf(m') == KeysOf(m) - {k} && |KeysOf(m')| == |KeysOf(m)| - 1
  {
    forall x | x in KeysOf(m') ensures x in KeysOf(m) - {k} {
      var p :| p in m' && p.0 == x;
      assert m'[p] > 0;
      assert p in m;
    }
    forall x | x in KeysOf(m) - {k} ensures x in KeysOf(m') {
      var p :| p in m && p.0 == x;
      assert m[p] > 0;
      assert p in m';
    }
  }

  lemma ClearedSound(t: Balance.Tree, bs: seq<Blk>, meta: seq<Bounds>, gone: multiset<Pair>, k: Key)
    requires Balance.SoundTree(t) && Shrunk(t.bs, bs, gone, k) && Exact(bs, meta)
    requires k in KeysOf(Pairs(t.bs)) && k !in KeysOf(Pairs(bs))
    ensures Sound(bs, meta, t.items - |gone|, t.uniques - 1) && Cleared(Pairs(t.bs), Pairs(bs), k)
  {
    ClearedBy(t.bs, bs, gone, k);
    ClearedKeys(Pairs(t.bs), Pairs(bs), k);
    forall p ensures Pairs(bs)[p] <= 1 { assert Pairs(t.bs)[p] <= 1; }
  }

  method ContainsIndex(es: seq<Pair>, k: Key) returns (r: bool)
    ensures r <==> HasIndex(es, k)
  {
    r := false;
    for i := 0 to |es|
      invariant r <==> exists n :: 0 <= n < i && es[n].0 == k
    {
      if es[i].0 == k { r := true; }
    }
  }

  /** The items of the blocks from d to f. */
  method CountItems(bs: seq<Blk>, d: nat, f: nat) returns (n: nat)
    requires d <= f <= |bs|
    ensures n == |Pairs(bs[d..f])|
  {
    n := 0;
    assert bs[d..d] == [];
    for i := d to f
      invariant n == |Pairs(bs[d..i])|
    {
      CountNext(bs, d, i);
      n := n + |bs[i].es|;
    }
  }

  lemma CountNext(bs: seq<Blk>, d: nat, i: nat)
    requires d <= i < |bs|
    ensures |Pairs(bs[d..i + 1])| == |Pairs(bs[d..i])| + |bs[i].es|
  {
    assert bs[d..i + 1] == bs[d..i] + [bs[i]];
    Balance.CountPairs(bs[d..i], bs[i], []);
  }

  lemma ExactDelete(bs: seq<Blk>, meta: seq<Bounds>, d: nat, f: nat)
    requires Exact(bs, meta) && d <= f <= |bs|
    ensures Exact(bs[..d] + bs[f..], meta[..d] + meta[f..])
  {
    var w, m := bs[..d] + bs[f..], meta[..d] + meta[f..];
    forall x | 0 <= x < |w| ensures m[x] == BoundsOf(w[x]) {
      assert w[x] == bs[if x < d then x else x + (f - d)];
    }
  }

  /** Nothing of the index is in a tree whose first candidate has nothing of it. */
  lemma NotThere(bs: seq<Blk>, k: Key, b: nat, e: nat)
    requires Blocks(bs) && Covers(bs, k, b, e) && (b < |bs| ==> !HasIndex(bs[b].es, k))
    ensures k !in KeysOf(Pairs(bs))
  {
    if k in KeysOf(Pairs(bs)) {
      IndexSomewhere(bs, k, b, e, e);
      var n :| b <= n < e && n < |bs| && HasIndex(bs[n].es, k);
      FirstHas(bs, k, b, e, n);
    }
  }

  lemma FirstHas(bs: seq<Blk>, k: Key, b: nat, e: nat, n: nat)
    requires Blocks(bs) && Covers(bs, k, b, e) && b <= n < e && HasIndex(bs[n].es, k)
    ensures HasIndex(bs[b].es, k)
  {
    if b < n {
      SegBounds(bs[n]);
      assert bs[b].es[0].0 == k;
    }
  }

  lemma There(bs: seq<Blk>, k: Key, i: nat)
    requires i < |bs| && HasIndex(bs[i].es, k)
    ensures k in KeysOf(Pairs(bs))
  {
    var n :| 0 <= n < |bs[i].es| && bs[i].es[n].0 == k;
    assert bs[i].es[n] in bs[i].es;
    InPairs(bs, bs[i].es[n]);
  }

  /** What remove_index does to the list: blocks b..e are looked at; if the index is there, they become those of
      bs, of which d..f are deleted. */
  datatype Clearing = Clearing(b: nat, e: nat, d: nat, f: nat, bs: seq<Blk>)

  ghost predicate Done(bs: seq<Blk>, c: Clearing, ok: bool, bs': seq<Blk>) {
    && c.b <= c.e <= |bs|
    && (if ok then Clears(bs, c.bs, c.b, c.e, c.d, c.f) && bs' == c.bs[..c.d] + c.bs[c.f..] else bs' == bs)
  }

  /** remove_index: the result tells whether the index was there; exactly its entries go, and the tree
      stays valid. */
  method RemoveIndex(t: Balance.Tree, k: Key) returns (ok: bool, t': Balance.Tree, c: Clearing)
    requires Balance.SoundTree(t)
    ensures Balance.SoundTree(t') && Cleared(Pairs(t.bs), Pairs(t'.bs), k) && (ok <==> k in KeysOf(Pairs(t.bs)))
    ensures Done(t.bs, c, ok, t'.bs) && (ok ==> Covers(t.bs, k, c.b, c.e))
  {
    var b, e := FindRange(t.meta, k, t.bs);
    var here := false;
    if b < |t.bs| { here := ContainsIndex(t.bs[b].es, k); }
    if !here {
      NotThere(t.bs, k, b, e);
      NothingCleared(Pairs(t.bs), k);
      return false, t, Clearing(b, if b < |t.bs| then b + 1 else b, b, b, t.bs);
    }
    There(t.bs, k, b);
    CoveredOnly(t.bs, k, b, e, b);
    ok := true;
    t', c := RemoveFound(t, k, b, e);
  }

  lemma NothingCleared(m: multiset<Pair>, k: Key)
    requires k !in KeysOf(m)
    ensures Cleared(m, m, k)
  {
    forall p: Pair ensures m[p] == if p.0 == k then 0 else m[p] {
      if p in m { assert p.0 in KeysOf(m); }
    }
  }

  method RemoveFound(t: Balance.Tree, k: Key, b: nat, e: nat) returns (t': Balance.Tree, c: Clearing)
    requires Balance.SoundTree(t) && Covers(t.bs, k, b, e) && b < e && HasIndex(t.bs[b].es, k)
      && k in KeysOf(Pairs(t.bs))
    ensures Balance.SoundTree(t') && Cleared(Pairs(t.bs), Pairs(t'.bs), k)
    ensures c.b == b && c.e == e && Done(t.bs, c, true, t'.bs)
  {
    var bs, meta, d, f, count;
    ghost var gone;
    bs, meta, d, f, count, gone := ClearEnds(t.bs, t.meta, k, b, e);
    var more := CountItems(bs, d, f);
    FoundRemoved(t, k, bs, meta, d, f, gone);
    t' := Balance.Tree(bs[..d] + bs[f..], meta[..d] + meta[f..], t.items - (count + more), t.uniques - 1);
    c := Clearing(b, e, d, f, bs);
  }

  lemma FoundRemoved(t: Balance.Tree, k: Key, bs: seq<Blk>, meta: seq<Bounds>, d: nat, f: nat, gone: multiset<Pair>)
    requires Balance.SoundTree(t) && Shrunk(t.bs, bs, gone, k) && Exact(bs, meta) && LeftIn(bs, k, d, f)
    requires k in KeysOf(Pairs(t.bs))
    ensures Cleared(Pairs(t.bs), Pairs(bs[..d] + bs[f..]), k)
    ensures Sound(bs[..d] + bs[f..], meta[..d] + meta[f..], t.items - (|gone| + |Pairs(bs[d..f])|), t.uniques - 1)
  {
    OnlyListed(bs, k, d, f);
    DeleteAll(t.bs, bs, gone, k, d, f);
    ExactDelete(bs, meta, d, f);
    ClearedSound(t, bs[..d] + bs[f..], meta[..d] + meta[f..], gone + Pairs(bs[d..f]), k);
  }
}
