/** segment_tree_t with the places of its blocks: what each operation leaves in memory, marks and moves. */
module LeafFile {
  import opened Multimap
  import opened Sequences
  import opened BlockSpec
  import opened Segments
  import opened SegmentAppend
  import Balance = SegmentBalance
  import Remove = SegmentRemove
  import opened GapTracker
  import opened SegmentFile
  import opened LeafPlaces

  type Tree = Balance.Tree

  datatype State = State(tree: Tree, ps: seq<Place>, gaps: seq<Gap>)

  ghost predicate Kept(s: State, data: seq<Cell>) { Housed(s.tree.bs, s.ps, s.gaps, data) }

  /** A new segment tree over a file, whatever the file holds. */
  function Empty(): State { State(Balance.Tree([], [], 0, 0), [], [Gap(LO, 1)]) }

  lemma EmptyKept(data: seq<Cell>)
    ensures Kept(Empty(), data) && Balance.SoundTree(Empty().tree)
  {
    Balance.NoneSound(Empty().tree);
    var gs := [Gap(LO, 1)];
    assert gs[1..] == [];
    forall a | LO <= a < LO + 1 ensures Holds(gs, a) { HoldsOne(gs[0], a); }
  }

  /** Blocks that are in the file have a size. */
  lemma FullPositive(bs: seq<Blk>, ps: seq<Place>, gaps: seq<Gap>, i: nat)
    requires Shelved(ps, gaps) && Fits(bs, ps) && i < |bs|
    ensures bs[i].full > 0
  {
    assert Spots(ps)[i].size > 0;
  }

  /** Every block is one of those there were, where it was and marked as it was, or it is in memory and marked; but
      perhaps for block n. */
  ghost predicate Carried(s: State, s': State) { Accounted(Slots(s.tree.bs, s.ps), s'.tree.bs, s'.ps) }

  ghost predicate CarriedBut(s: State, s': State, n: nat) {
    && |s'.tree.bs| == |s'.ps|
    && forall i :: 0 <= i < |s'.ps| && i != n ==>
      AsItWas(Slots(s.tree.bs, s.ps), s'.tree.bs[i], s'.ps[i]) || Renewed(s'.ps[i])
  }

  lemma CarriedTrans(s: State, t: State, u: State)
    requires Carried(s, t) && Carried(t, u)
    ensures Carried(s, u)
  {
    AccountedTrans(Slots(s.tree.bs, s.ps), t.tree.bs, t.ps, u.tree.bs, u.ps);
  }

  lemma CarriedSelf(s: State)
    requires |s.tree.bs| == |s.ps|
    ensures Carried(s, s)
  {
    AccountedSelf(s.tree.bs, s.ps);
  }

  /** Bringing blocks into memory changes nothing else. */
  lemma CarriedTouched(s: State, x: nat, y: nat)
    requires |s.tree.bs| == |s.ps|
    ensures Carried(s, s.(ps := Touched(s.ps, x, y)))
  {
    AccountedSelf(s.tree.bs, s.ps);
    TouchedPasses(s.tree.bs, s.ps, x, y);
  }

  // ---------------------------------------------------------------- append

  /** The blocks from n on of r go in behind block i, the last one first. */
  method PutBehind(ps: seq<Place>, gaps: seq<Gap>, i: nat, r: seq<Blk>, ghost bs: seq<Blk>, ghost data: seq<Cell>)
    returns (ps': seq<Place>, gaps': seq<Gap>)
    requires Housed(bs, ps, gaps, data) && i <= |bs| && forall n :: 0 <= n < |r| ==> r[n].full > 0
    ensures Housed(bs[..i] + r + bs[i..], ps', gaps', data) && Passes(bs, ps, bs[..i] + r + bs[i..], ps')
  {
    ps', gaps' := ps, gaps;
    var n := |r|;
    NoneBetween(bs, i, r);
    while n > 0
      invariant 0 <= n <= |r| && Housed(bs[..i] + r[n..] + bs[i..], ps', gaps', data)
      invariant Passes(bs, ps, bs[..i] + r[n..] + bs[i..], ps')
    {
      n := n - 1;
      BetweenMore(bs, i, r, n);
      ps', gaps' := PutIn(ps', gaps', i, r[n], bs[..i] + r[n + 1..] + bs[i..], data);
    }
    assert r[0..] == r;
  }

  lemma NoneBetween(bs: seq<Blk>, i: nat, r: seq<Blk>)
    requires i <= |bs|
    ensures bs[..i] + r[|r|..] + bs[i..] == bs
  {
  }

  lemma BetweenMore(bs: seq<Blk>, i: nat, r: seq<Blk>, n: nat)
    requires i <= |bs| && n < |r|
    ensures var w := bs[..i] + r[n + 1..] + bs[i..];
      i <= |w| && w[..i] + [r[n]] + w[i..] == bs[..i] + r[n..] + bs[i..]
  {
    var w := bs[..i] + r[n + 1..] + bs[i..];
    assert w[..i] == bs[..i] && w[i..] == r[n + 1..] + bs[i..];
    assert r[n..] == [r[n]] + r[n + 1..];
  }

  /** What a plan does to the places. */
  method EditPlaces(ps: seq<Place>, gaps: seq<Gap>, p: Plan, ghost bs: seq<Blk>, ghost data: seq<Cell>)
    returns (ps': seq<Place>, gaps': seq<Gap>)
    requires Housed(bs, ps, gaps, data) && Edits(bs, p.i, p.j, p.r, p.x, p.y)
    ensures Housed(Splice(bs, p.i, p.j, p.r), ps', gaps', data) && Passes(bs, ps, Splice(bs, p.i, p.j, p.r), ps')
  {
    TouchedHoused(bs, ps, gaps, data, p.x, p.y);
    TouchedPasses(bs, ps, p.x, p.y);
    ps', gaps' := Touched(ps, p.x, p.y), gaps;
    if p.i == p.j {
      ps', gaps' := PutIn(ps', gaps', p.i, p.r[0], bs, data);
      assert p.r == [p.r[0]];
    } else {
      FullPositive(bs, ps, gaps, p.i);
      ps' := ChangeOne(ps', gaps', p.i, p.r[0], bs, data);
      ReplacedSplice(bs, p.i, p.r);
      ps', gaps' := PutBehind(ps', gaps', p.i + 1, p.r[1..], bs[p.i := p.r[0]], data);
    }
  }

  /** A block is changed where it is, and marked. */
  method ChangeOne(ps: seq<Place>, gaps: seq<Gap>, i: nat, b: Blk, ghost bs: seq<Blk>, ghost data: seq<Cell>)
    returns (ps': seq<Place>)
    requires Housed(bs, ps, gaps, data) && i < |bs| && b.full == bs[i].full
    ensures Housed(bs[i := b], ps', gaps, data) && Passes(bs, ps, bs[i := b], ps') && ps' == Changed(ps, i, true)
  {
    ChangedHoused(bs, ps, gaps, data, i, b, true);
    ChangedPasses(bs, ps, i, b);
    ps' := Changed(ps, i, true);
  }

  lemma ReplacedSplice(bs: seq<Blk>, i: nat, r: seq<Blk>)
    requires i < |bs| && |r| > 0
    ensures var w := bs[i := r[0]]; w[..i + 1] + r[1..] + w[i + 1..] == Splice(bs, i, i + 1, r)
  {
    var w := bs[i := r[0]];
    assert w[..i + 1] == bs[..i] + [r[0]] && w[i + 1..] == bs[i + 1..] && r == [r[0]] + r[1..];
  }

  /** The number of entries in all blocks. */
  function Stock(bs: seq<Blk>): nat { if bs == [] then 0 else |bs[0].es| + Stock(bs[1..]) }

  lemma {:induction false} StockPairs(bs: seq<Blk>)
    ensures Stock(bs) == |Pairs(bs)|
  {
    if bs != [] {
      StockPairs(bs[1..]);
      assert |multiset(bs[0].es)| == |bs[0].es|;
    }
  }

  /** append: the tree as its blocks say, whatever the counter of indices is off by. The item was dropped if
      success is reported and there are no more entries than before. */
  method Append(s: State, k: Key, item: Item, ghost d: int, ghost data: seq<Cell>)
    returns (ok: bool, dropped: bool, s': State)
    requires Kept(s, data) && SoundBut(s.tree.bs, s.tree.meta, s.tree.items, s.tree.uniques, d) && |item| > 0
    ensures Kept(s', data) && Appends(s.tree, s'.tree, k, item, ok, d) && Carried(s, s')
    ensures dropped <==> ok && Drops(s.tree.bs, k, item)
  {
    StockPairs(s.tree.bs);
    AccountedSelf(s.tree.bs, s.ps);
    var t := s.tree;
    var bs, meta, items, uniques, p;
    ok, bs, meta, items, uniques, p := AppendTo(t.bs, t.meta, t.items, t.uniques, k, item, d);
    if ok {
      var ps, gaps := EditPlaces(s.ps, s.gaps, p, t.bs, data);
      s' := State(Balance.Tree(bs, meta, items, uniques), ps, gaps);
    } else {
      TouchedHoused(t.bs, s.ps, s.gaps, data, p.x, p.y);
      TouchedPasses(t.bs, s.ps, p.x, p.y);
      s' := State(Balance.Tree(bs, meta, items, uniques), Touched(s.ps, p.x, p.y), s.gaps);
    }
    StockPairs(s'.tree.bs);
    dropped := ok && Stock(s'.tree.bs) == Stock(s.tree.bs);
  }

  /** What append makes of the tree. */
  ghost predicate Appends(t: Tree, t': Tree, k: Key, item: Item, ok: bool, d: int) {
    && (ok <==> (k, item) !in Pairs(t.bs))
    && (!ok || !Drops(t.bs, k, item) ==> SoundBut(t'.bs, t'.meta, t'.items, t'.uniques, d))
    && (ok && Drops(t.bs, k, item) ==> t'.items == |Pairs(t'.bs)| + 1)
    && Pairs(t'.bs) == if ok && !Drops(t.bs, k, item) then Pairs(t.bs) + multiset{(k, item)} else Pairs(t.bs)
  }

  // ---------------------------------------------------------------- split and balance_with

  /** Whole blocks from the end of one list to the front of another, then the part cut off the last one left.
      The block that is cut, or at which the loop stops, is in memory, but not marked. */
  method RaisePlaces(ps: seq<Place>, gaps: seq<Gap>, hps: seq<Place>, hgaps: seq<Gap>, d: Balance.Division,
      bs: seq<Blk>, ghost hbs: seq<Blk>, ghost data: seq<Cell>, ghost hdata: seq<Cell>)
    returns (ps': seq<Place>, gaps': seq<Gap>, hps': seq<Place>, hgaps': seq<Gap>)
    requires Housed(bs, ps, gaps, data) && Housed(hbs, hps, hgaps, hdata) && Balance.Divides(bs, d) && 0 < d.n
    ensures Housed(Balance.LowerPart(bs, d), ps', gaps', data)
    ensures Housed(Balance.UpperPart(bs, d) + hbs, hps', hgaps', hdata)
    ensures ps' == Touched(ps, d.n - 1, |ps|)[..d.n] && Passes(hbs, hps, Balance.UpperPart(bs, d) + hbs, hps')
  {
    ps', gaps', hps', hgaps' := RaiseWhole(ps, gaps, hps, hgaps, d.n, bs, hbs, data, hdata);
    if d.at > 0 {
      var b := bs[d.n - 1];
      FullPositive(bs, ps, gaps, d.n - 1);
      ChangedHoused(bs[..d.n], ps', gaps', data, d.n - 1, Balance.Kept(b, d.at), false);
      CutLists(bs, d, hbs);
      assert Changed(ps', d.n - 1, false) == ps';
      hps', hgaps' := PutIn(hps', hgaps', 0, Balance.SplitOff(b, d.at), bs[d.n..] + hbs, hdata);
    }
  }

  /** The lower list keeps its places; only a block that is cut is not the one it was. */
  lemma LowerAccounted(bs: seq<Blk>, ps: seq<Place>, d: Balance.Division, ps': seq<Place>)
    requires |bs| == |ps| && Balance.Divides(bs, d) && 0 < d.n && ps' == Touched(ps, d.n - 1, |ps|)[..d.n]
    ensures |Balance.LowerPart(bs, d)| == |ps'| && forall i :: 0 <= i < |ps'| && (d.at == 0 || i != d.n - 1) ==>
      AsItWas(Slots(bs, ps), Balance.LowerPart(bs, d)[i], ps'[i])
  {
    var low, o := Balance.LowerPart(bs, d), Slots(bs, ps);
    forall i | 0 <= i < |ps'| && (d.at == 0 || i != d.n - 1) ensures AsItWas(o, low[i], ps'[i]) {
      assert SameSlot(o, i, low[i], ps'[i]);
    }
  }

  lemma CutLists(bs: seq<Blk>, d: Balance.Division, hbs: seq<Blk>)
    requires Balance.Divides(bs, d) && d.at > 0
    ensures bs[..d.n][d.n - 1 := Balance.Kept(bs[d.n - 1], d.at)] == Balance.LowerPart(bs, d)
    ensures var w, x := bs[d.n..] + hbs, Balance.SplitOff(bs[d.n - 1], d.at);
      w[..0] + [x] + w[0..] == Balance.UpperPart(bs, d) + hbs
  {
    var w, x := bs[d.n..] + hbs, Balance.SplitOff(bs[d.n - 1], d.at);
    assert w[..0] == [] && w[0..] == w;
    Assoc([x], bs[d.n..], hbs);
  }

  method RaiseWhole(ps: seq<Place>, gaps: seq<Gap>, hps: seq<Place>, hgaps: seq<Gap>, n: nat,
      bs: seq<Blk>, ghost hbs: seq<Blk>, ghost data: seq<Cell>, ghost hdata: seq<Cell>)
    returns (ps': seq<Place>, gaps': seq<Gap>, hps': seq<Place>, hgaps': seq<Gap>)
    requires Housed(bs, ps, gaps, data) && Housed(hbs, hps, hgaps, hdata) && 0 < n <= |bs|
    ensures Housed(bs[..n], ps', gaps', data) && Housed(bs[n..] + hbs, hps', hgaps', hdata)
    ensures ps' == Touched(ps, n - 1, |ps|)[..n] && Passes(hbs, hps, bs[n..] + hbs, hps')
  {
    TouchedHoused(bs, ps, gaps, data, n - 1, |ps|);
    var t, m := Touched(ps, n - 1, |ps|), |bs|;
    ps', gaps', hps', hgaps' := t, gaps, hps, hgaps;
    AllBelow(bs, hbs);
    Whole(t);
    while m > n
      invariant n <= m <= |bs| == |t| && ps' == t[..m]
      invariant Across(bs, m, hbs, hps, ps', gaps', hps', hgaps', data, hdata)
    {
      ps', gaps', hps', hgaps' := RaiseBlock(ps', gaps', hps', hgaps', m, bs, hbs, hps, data, hdata);
      m := m - 1;
      Shorter(t, m);
    }
  }

  /** Housed, said so that the details stay out of sight. */
  ghost predicate Settles(bs: seq<Blk>, ps: seq<Place>, gaps: seq<Gap>, data: seq<Cell>) {
    forall d: seq<Cell> {:trigger Housed(bs, ps, gaps, d)} :: d == data ==> Housed(bs, ps, gaps, d)
  }

  /** The blocks from m on have gone to the front of the other list. */
  ghost predicate Across(bs: seq<Blk>, m: nat, hbs: seq<Blk>, hps0: seq<Place>, ps: seq<Place>, gaps: seq<Gap>,
      hps: seq<Place>, hgaps: seq<Gap>, data: seq<Cell>, hdata: seq<Cell>) {
    && m <= |bs| && Settles(bs[..m], ps, gaps, data) && Settles(bs[m..] + hbs, hps, hgaps, hdata)
    && Passes(hbs, hps0, bs[m..] + hbs, hps)
  }

  lemma Shorter(ps: seq<Place>, m: nat)
    requires m < |ps|
    ensures ps[..m + 1][..m] == ps[..m]
  {
  }

  /** The last block of what is left of the one list becomes the first of the other. */
  method RaiseBlock(ps: seq<Place>, gaps: seq<Gap>, hps: seq<Place>, hgaps: seq<Gap>, m: nat, bs: seq<Blk>,
      ghost hbs: seq<Blk>, ghost hps0: seq<Place>, ghost data: seq<Cell>, ghost hdata: seq<Cell>)
    returns (ps': seq<Place>, gaps': seq<Gap>, hps': seq<Place>, hgaps': seq<Gap>)
    requires 0 < m && Across(bs, m, hbs, hps0, ps, gaps, hps, hgaps, data, hdata)
    ensures Across(bs, m - 1, hbs, hps0, ps', gaps', hps', hgaps', data, hdata) && |ps| == m && ps' == ps[..m - 1]
  {
    OneAcross(bs, hbs, m - 1);
    assert Housed(bs[..m], ps, gaps, data) && Housed(bs[m..] + hbs, hps, hgaps, hdata);
    FullPositive(bs[..m], ps, gaps, m - 1);
    ps', gaps' := TakeOut(ps, gaps, m - 1, bs[..m], data);
    hps', hgaps' := PutIn(hps, hgaps, 0, bs[m - 1], bs[m..] + hbs, hdata);
  }

  lemma AllBelow(bs: seq<Blk>, hbs: seq<Blk>)
    ensures bs[..|bs|] == bs && bs[|bs|..] + hbs == hbs
  {
  }

  lemma OneAcross(bs: seq<Blk>, hbs: seq<Blk>, m: nat)
    requires m < |bs|
    ensures bs[..m + 1][..m] + bs[..m + 1][m + 1..] == bs[..m]
    ensures var w := bs[m + 1..] + hbs; w[..0] + [bs[m]] + w[0..] == bs[m..] + hbs
  {
    var w := bs[m + 1..] + hbs;
    assert w[..0] == [] && w[0..] == w;
  }

  /** n is half of the number, rounded down. */
  ghost predicate Half(all: int, n: nat) { 2 * n == all || 2 * n + 1 == all }

  lemma HalfOf(all: int, n: nat)
    requires Half(all, n)
    ensures n == all / 2 && all - n == all - all / 2
  {
  }

  /** split, into a new file; n of the indices move, d is where the loop stops. */
  method Split(s: State, ghost n: nat, ghost data: seq<Cell>, ghost fresh_: seq<Cell>)
    returns (low: State, high: State, ghost d: Balance.Division)
    requires Kept(s, data) && Balance.SoundTree(s.tree) && s.tree.uniques > 1 && Half(s.tree.uniques, n)
    ensures Kept(low, data) && Kept(high, fresh_) && Splits(s.tree, low.tree, high.tree, n, d)
    ensures 0 < d.n <= |s.ps| && low.ps == Touched(s.ps, d.n - 1, |s.ps|)[..d.n]
    ensures Carried(Empty(), high) && (if d.at == 0 then Carried(s, low) else CarriedBut(s, low, d.n - 1))
  {
    EmptyKept(fresh_);
    HalfOf(s.tree.uniques, n);
    var e := Empty();
    AccountedSelf(e.tree.bs, e.ps);
    var l, h, where := Balance.Split(s.tree);
    d := where;
    var ps, gaps, hps, hgaps := RaisePlaces(s.ps, s.gaps, e.ps, e.gaps, where, s.tree.bs, [], data, fresh_);
    Whole(Balance.UpperPart(s.tree.bs, d));
    low, high := State(l, ps, gaps), State(h, hps, hgaps);
    LowerAccounted(s.tree.bs, s.ps, d, ps);
  }

  /** What split makes of the tree. */
  ghost predicate Splits(t: Tree, low: Tree, high: Tree, n: nat, d: Balance.Division) {
    && d == Balance.DivideTop(t.bs, n) && Balance.Divides(t.bs, d)
    && low.bs == Balance.LowerPart(t.bs, d) && high.bs == Balance.UpperPart(t.bs, d)
    && Pairs(low.bs) + Pairs(high.bs) == Pairs(t.bs) && low.items + high.items == t.items
    && high.uniques == n && low.uniques == t.uniques - n
    && Balance.Listed(low) && Balance.Listed(high) && Blocks(low.bs) && Blocks(high.bs)
    && (Balance.Settled(low, high) <==> !Balance.Torn(t.bs, n))
    && (Balance.Torn(t.bs, n) ==> Balance.TornCounts(d, low, high))
  }

  /** Whole blocks from the front of one list to the end of another, then the lower part of the next one; the part
      that is left of it is marked. */
  method LowerPlaces(lps: seq<Place>, lgaps: seq<Gap>, ps: seq<Place>, gaps: seq<Gap>, d: Balance.Division,
      bs: seq<Blk>, ghost lbs: seq<Blk>, ghost ldata: seq<Cell>, ghost data: seq<Cell>, ghost low: seq<Blk>,
      ghost high: seq<Blk>)
    returns (lps': seq<Place>, lgaps': seq<Gap>, ps': seq<Place>, gaps': seq<Gap>)
    requires Housed(bs, ps, gaps, data) && Housed(lbs, lps, lgaps, ldata) && Balance.Sunken(lbs, bs, d, low, high)
    ensures Housed(low, lps', lgaps', ldata) && Housed(high, ps', gaps', data)
    ensures Passes(lbs, lps, low, lps') && Passes(bs, ps, high, ps')
  {
    TouchedHoused(bs, ps, gaps, data, 0, d.n + 1);
    TouchedPasses(bs, ps, 0, d.n + 1);
    lps', lgaps', ps', gaps' := lps, lgaps, Touched(ps, 0, d.n + 1), gaps;
    NoneSunk(bs, lbs);
    for m := 0 to d.n
      invariant Housed(lbs + bs[..m], lps', lgaps', ldata) && Housed(bs[m..], ps', gaps', data)
      invariant Passes(lbs, lps, lbs + bs[..m], lps') && Passes(bs, ps, bs[m..], ps')
    {
      lps', lgaps', ps', gaps' := LowerBlock(lps', lgaps', ps', gaps', m, bs, lbs, ldata, data);
    }
    if d.at > 0 {
      lps', lgaps', ps' := LowerRest(lps', lgaps', ps', gaps', d, bs, lbs, ldata, data);
    }
  }

  /** The first block of what is left of the one list becomes the last of the other. */
  method LowerBlock(lps: seq<Place>, lgaps: seq<Gap>, ps: seq<Place>, gaps: seq<Gap>, m: nat, bs: seq<Blk>,
      ghost lbs: seq<Blk>, ghost ldata: seq<Cell>, ghost data: seq<Cell>)
    returns (lps': seq<Place>, lgaps': seq<Gap>, ps': seq<Place>, gaps': seq<Gap>)
    requires m < |bs| && Housed(lbs + bs[..m], lps, lgaps, ldata) && Housed(bs[m..], ps, gaps, data)
    ensures Housed(lbs + bs[..m + 1], lps', lgaps', ldata) && Housed(bs[m + 1..], ps', gaps', data)
    ensures Passes(lbs + bs[..m], lps, lbs + bs[..m + 1], lps') && Passes(bs[m..], ps, bs[m + 1..], ps')
  {
    OneDown(bs, lbs, m);
    FullPositive(bs[m..], ps, gaps, 0);
    lps', lgaps' := PutIn(lps, lgaps, |lps|, bs[m], lbs + bs[..m], ldata);
    ps', gaps' := TakeOut(ps, gaps, 0, bs[m..], data);
  }

  /** The lower part of the next block. */
  method LowerRest(lps: seq<Place>, lgaps: seq<Gap>, ps: seq<Place>, gaps: seq<Gap>, d: Balance.Division, bs: seq<Blk>,
      ghost lbs: seq<Blk>, ghost ldata: seq<Cell>, ghost data: seq<Cell>)
    returns (lps': seq<Place>, lgaps': seq<Gap>, ps': seq<Place>)
    requires d.n < |bs| && 0 < d.at < |bs[d.n].es|
    requires Housed(lbs + bs[..d.n], lps, lgaps, ldata) && Housed(bs[d.n..], ps, gaps, data)
    ensures var low, high := lbs + bs[..d.n] + [Balance.Kept(bs[d.n], d.at)],
        [Balance.SplitOff(bs[d.n], d.at)] + bs[d.n + 1..];
      && Housed(low, lps', lgaps', ldata) && Housed(high, ps', gaps, data)
      && Passes(lbs + bs[..d.n], lps, low, lps') && Passes(bs[d.n..], ps, high, ps')
  {
    var b := bs[d.n];
    FullPositive(bs[d.n..], ps, gaps, 0);
    LastDown(bs, lbs, d);
    lps', lgaps' := PutIn(lps, lgaps, |lps|, Balance.Kept(b, d.at), lbs + bs[..d.n], ldata);
    ps' := ChangeOne(ps, gaps, 0, Balance.SplitOff(b, d.at), bs[d.n..], data);
  }

  lemma NoneSunk(bs: seq<Blk>, lbs: seq<Blk>)
    ensures lbs + bs[..0] == lbs && bs[0..] == bs
  {
  }

  lemma OneDown(bs: seq<Blk>, lbs: seq<Blk>, m: nat)
    requires m < |bs|
    ensures var w := lbs + bs[..m]; w[..|w|] + [bs[m]] + w[|w|..] == lbs + bs[..m + 1]
    ensures var w := bs[m..]; w[..0] + w[1..] == bs[m + 1..]
  {
    var w := lbs + bs[..m];
    assert w[..|w|] == w && w[|w|..] == [];
  }

  lemma LastDown(bs: seq<Blk>, lbs: seq<Blk>, d: Balance.Division)
    requires d.n < |bs| && 0 < d.at < |bs[d.n].es|
    ensures var w := lbs + bs[..d.n];
      w[..|w|] + [Balance.Kept(bs[d.n], d.at)] + w[|w|..] == w + [Balance.Kept(bs[d.n], d.at)]
    ensures bs[d.n..][0 := Balance.SplitOff(bs[d.n], d.at)] == [Balance.SplitOff(bs[d.n], d.at)] + bs[d.n + 1..]
  {
    var w := lbs + bs[..d.n];
    assert w[..|w|] == w && w[|w|..] == [];
  }

  /** balance_with: the first of the two trees has fewer indices. */
  method BalanceWith(s: State, u: State, ghost data: seq<Cell>, ghost udata: seq<Cell>)
    returns (s': State, u': State, ghost d: Balance.Division)
    requires Kept(s, data) && Kept(u, udata) && Balance.SoundTree(s.tree) && Balance.SoundTree(u.tree)
    requires (Balance.LiesBelow(s.tree, u.tree) || Balance.LiesBelow(u.tree, s.tree))
      && s.tree.uniques < u.tree.uniques
    ensures Kept(s', data) && Kept(u', udata) && Balance.Balances(s.tree, u.tree, d, s'.tree, u'.tree)
    ensures Carried(s, s') && (if Balance.LiesBelow(s.tree, u.tree) || d.at == 0 then Carried(u, u')
      else CarriedBut(u, u', d.n - 1))
  {
    var t, v, p := Balance.BalanceWith(s.tree, u.tree);
    d := p;
    Balance.OrderTest(s.tree, u.tree);
    BalanceParts(s.tree, u.tree, p, t, v);
    if s.tree.meta[0].min > u.tree.meta[|u.tree.meta| - 1].max {
      u', s' := CarryUp(u, s, v, t, p, udata, data);
    } else {
      s', u' := CarryDown(s, u, t, v, p, data, udata);
    }
  }

  lemma BalanceParts(t: Tree, u: Tree, d: Balance.Division, t': Tree, u': Tree)
    requires Balance.Balances(t, u, d, t', u')
    ensures Balance.LiesBelow(u, t) ==> 0 < d.n && Balance.Divided(u.bs, t.bs, d, u'.bs, t'.bs)
    ensures Balance.LiesBelow(t, u) ==> Balance.Sunken(t.bs, u.bs, d, t'.bs, u'.bs)
  {
  }

  method CarryUp(low: State, high: State, l: Tree, h: Tree, d: Balance.Division, ghost ldata: seq<Cell>,
      ghost hdata: seq<Cell>)
    returns (low': State, high': State)
    requires Kept(low, ldata) && Kept(high, hdata) && 0 < d.n
      && Balance.Divided(low.tree.bs, high.tree.bs, d, l.bs, h.bs)
    ensures Kept(low', ldata) && Kept(high', hdata) && low'.tree == l && high'.tree == h
    ensures Carried(high, high') && (if d.at == 0 then Carried(low, low') else CarriedBut(low, low', d.n - 1))
  {
    AccountedSelf(high.tree.bs, high.ps);
    var ps, gaps, hps, hgaps :=
      RaisePlaces(low.ps, low.gaps, high.ps, high.gaps, d, low.tree.bs, high.tree.bs, ldata, hdata);
    low', high' := State(l, ps, gaps), State(h, hps, hgaps);
    LowerAccounted(low.tree.bs, low.ps, d, ps);
  }

  method CarryDown(low: State, high: State, l: Tree, h: Tree, d: Balance.Division, ghost ldata: seq<Cell>,
      ghost hdata: seq<Cell>)
    returns (low': State, high': State)
    requires Kept(low, ldata) && Kept(high, hdata) && Balance.Sunken(low.tree.bs, high.tree.bs, d, l.bs, h.bs)
    ensures Kept(low', ldata) && Kept(high', hdata) && low'.tree == l && high'.tree == h
    ensures Carried(low, low') && Carried(high, high')
  {
    AccountedSelf(low.tree.bs, low.ps);
    AccountedSelf(high.tree.bs, high.ps);
    var lps, lgaps, ps, gaps :=
      LowerPlaces(low.ps, low.gaps, high.ps, high.gaps, d, high.tree.bs, low.tree.bs, ldata, hdata, l.bs, h.bs);
    low', high' := State(l, lps, lgaps), State(h, ps, gaps);
  }

  // ---------------------------------------------------------------- merge

  /** All blocks of another list to the front, the last one first. */
  method FrontPlaces(ps: seq<Place>, gaps: seq<Gap>, r: seq<Blk>, ghost bs: seq<Blk>, ghost data: seq<Cell>)
    returns (ps': seq<Place>, gaps': seq<Gap>)
    requires Housed(bs, ps, gaps, data) && forall n :: 0 <= n < |r| ==> r[n].full > 0
    ensures Housed(r + bs, ps', gaps', data) && Passes(bs, ps, r + bs, ps')
  {
    ps', gaps' := PutBehind(ps, gaps, 0, r, bs, data);
    assert bs[..0] + r + bs[0..] == r + bs;
  }

  /** All blocks of another list to the end, the first one first. */
  method BackPlaces(ps: seq<Place>, gaps: seq<Gap>, r: seq<Blk>, ghost bs: seq<Blk>, ghost data: seq<Cell>)
    returns (ps': seq<Place>, gaps': seq<Gap>)
    requires Housed(bs, ps, gaps, data) && forall n :: 0 <= n < |r| ==> r[n].full > 0
    ensures Housed(bs + r, ps', gaps', data) && Passes(bs, ps, bs + r, ps')
  {
    ps', gaps' := ps, gaps;
    NoneSunk(r, bs);
    for n := 0 to |r|
      invariant Housed(bs + r[..n], ps', gaps', data) && Passes(bs, ps, bs + r[..n], ps')
    {
      OneDown(r, bs, n);
      ps', gaps' := PutIn(ps', gaps', |ps'|, r[n], bs + r[..n], data);
    }
    Whole(r);
  }

  /** merge: the blocks of the other tree, in memory and marked. */
  method Merge(s: State, u: State, ghost data: seq<Cell>, ghost udata: seq<Cell>) returns (s': State)
    requires Kept(s, data) && Kept(u, udata) && Balance.SoundTree(s.tree) && Balance.SoundTree(u.tree)
    requires Balance.LiesBelow(s.tree, u.tree) || Balance.LiesBelow(u.tree, s.tree)
    ensures Kept(s', data) && Carried(s, s')
    ensures if Balance.LiesBelow(s.tree, u.tree) then Balance.Merged(s.tree, u.tree, s'.tree)
      else Balance.Merged(u.tree, s.tree, s'.tree)
  {
    AccountedSelf(s.tree.bs, s.ps);
    var t := Balance.Merge(s.tree, u.tree);
    Balance.OrderTest(s.tree, u.tree);
    forall n | 0 <= n < |u.tree.bs| ensures u.tree.bs[n].full > 0 { FullPositive(u.tree.bs, u.ps, u.gaps, n); }
    var ps, gaps;
    if s.tree.meta[0].min > u.tree.meta[|u.tree.meta| - 1].max {
      ps, gaps := FrontPlaces(s.ps, s.gaps, u.tree.bs, s.tree.bs, data);
    } else {
      ps, gaps := BackPlaces(s.ps, s.gaps, u.tree.bs, s.tree.bs, data);
    }
    s' := State(t, ps, gaps);
  }

  // ---------------------------------------------------------------- remove_index

  /** The last of several covering blocks is not in memory: the source uses it without looking. */
  predicate LastMissing(s: State, c: Remove.Clearing) {
    c.e - c.b > 1 && c.e <= |s.ps| && !s.ps[c.e - 1].resident
  }

  /** The blocks from d to f go. */
  method DeletePlaces(ps: seq<Place>, gaps: seq<Gap>, d: nat, f: nat, ghost bs: seq<Blk>, ghost data: seq<Cell>)
    returns (ps': seq<Place>, gaps': seq<Gap>)
    requires Housed(bs, ps, gaps, data) && d <= f <= |bs|
    ensures Housed(bs[..d] + bs[f..], ps', gaps', data) && Passes(bs, ps, bs[..d] + bs[f..], ps')
  {
    ps', gaps' := ps, gaps;
    assert bs[..d] + bs[d..] == bs;
    for n := d to f
      invariant Housed(bs[..d] + bs[n..], ps', gaps', data) && Passes(bs, ps, bs[..d] + bs[n..], ps')
    {
      OneGone(bs, d, n);
      ps', gaps' := TakeOut(ps', gaps', d, bs[..d] + bs[n..], data);
    }
  }

  lemma OneGone(bs: seq<Blk>, d: nat, n: nat)
    requires d <= n < |bs|
    ensures var w := bs[..d] + bs[n..]; w[..d] + w[d + 1..] == bs[..d] + bs[n + 1..]
  {
  }

  method ClearPlaces(ps: seq<Place>, gaps: seq<Gap>, c: Remove.Clearing, ghost bs: seq<Blk>, ghost data: seq<Cell>)
    returns (ps': seq<Place>, gaps': seq<Gap>)
    requires Housed(bs, ps, gaps, data) && Remove.Clears(bs, c.bs, c.b, c.e, c.d, c.f)
    ensures Housed(c.bs[..c.d] + c.bs[c.f..], ps', gaps', data)
    ensures Passes(bs, ps, c.bs[..c.d] + c.bs[c.f..], ps')
  {
    ps' := ClearedEnds(ps, gaps, c, bs, data);
    ps', gaps' := DeletePlaces(ps', gaps, c.d, c.f, c.bs, data);
  }

  /** The ends that keep other indices are changed and marked. */
  method ClearedEnds(ps: seq<Place>, gaps: seq<Gap>, c: Remove.Clearing, ghost bs: seq<Blk>, ghost data: seq<Cell>)
    returns (ps': seq<Place>)
    requires Housed(bs, ps, gaps, data) && Remove.Clears(bs, c.bs, c.b, c.e, c.d, c.f)
    ensures Housed(c.bs, ps', gaps, data) && Passes(bs, ps, c.bs, ps')
  {
    TouchedHoused(bs, ps, gaps, data, c.b, c.e);
    TouchedPasses(bs, ps, c.b, c.e);
    ps' := Touched(ps, c.b, c.e);
    ghost var x := bs[c.b := c.bs[c.b]];
    if c.d > c.b {
      ps' := ChangeOne(ps', gaps, c.b, c.bs[c.b], bs, data);
    } else {
      assert x == bs;
    }
    assert Housed(x, ps', gaps, data);
    if c.f < c.e {
      ps' := ChangeOne(ps', gaps, c.e - 1, c.bs[c.e - 1], x, data);
    } else {
      assert c.bs == x;
    }
  }

  /** remove_index. */
  method RemoveIndex(s: State, k: Key, ghost data: seq<Cell>)
    returns (fault: bool, ok: bool, s': State, ghost c: Remove.Clearing)
    requires Kept(s, data) && Balance.SoundTree(s.tree)
    ensures Kept(s', data) && Balance.SoundTree(s'.tree) && (ok <==> k in KeysOf(Pairs(s.tree.bs)))
    ensures ok ==> SegmentAppend.Covers(s.tree.bs, k, c.b, c.e)
    ensures fault <==> ok && LastMissing(s, c)
    ensures if fault then s' == s else Remove.Cleared(Pairs(s.tree.bs), Pairs(s'.tree.bs), k)
    ensures Carried(s, s')
  {
    AccountedSelf(s.tree.bs, s.ps);
    var t, p;
    ok, t, p := Remove.RemoveIndex(s.tree, k);
    c := p;
    fault := ok && LastMissing(s, p);
    s' := s;
    if !fault { s' := CarryRemoval(s, t, ok, p, data); }
  }

  method CarryRemoval(s: State, t: Tree, ok: bool, p: Remove.Clearing, ghost data: seq<Cell>) returns (s': State)
    requires Kept(s, data) && Remove.Done(s.tree.bs, p, ok, t.bs)
    ensures Kept(s', data) && s'.tree == t && Carried(s, s')
  {
    AccountedSelf(s.tree.bs, s.ps);
    if ok {
      var ps, gaps := ClearPlaces(s.ps, s.gaps, p, s.tree.bs, data);
      s' := State(t, ps, gaps);
    } else {
      TouchedHoused(s.tree.bs, s.ps, s.gaps, data, p.b, p.e);
      TouchedPasses(s.tree.bs, s.ps, p.b, p.e);
      s' := State(t, Touched(s.ps, p.b, p.e), s.gaps);
    }
  }
}
