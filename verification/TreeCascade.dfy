/** One round of the loop in btree_t::append that hands a new node to its parent, splitting the
    parent when it is full. */
module TreeCascade {
  import opened Multimap
  import opened NodeStore
  import opened TreeSearch
  import opened TreeInsert
  import opened TreeGrow
  import opened TreeSplit

  /** Leaf contents survive; stores may gain nodes. */
  ghost predicate SameLeaves(st: Store, st': Store) {
    forall x :: x in st ==>
      && x in st' && st'[x].Leaf? == st[x].Leaf?
      && (st[x].Leaf? ==> st'[x].entries == st[x].entries && st'[x].file == st[x].file)
  }

  lemma SameLeavesFlat(st: Store, st': Store, l: seq<Id>)
    requires SameLeaves(st, st') && forall i :: 0 <= i < |l| ==> l[i] in st
    ensures FlatE(st', l) == FlatE(st, l)
  {
    FlatESame(st, st', l);
  }

  /** Apart from the named nodes, every node keeps its children. */
  ghost predicate KidsKept(st: Store, st': Store, s: set<Id>) {
    forall x :: x in st && x !in s ==> x in st' && KidsOf(st', x) == KidsOf(st, x)
  }

  lemma KidsKeptTrans(a: Store, b: Store, c: Store, s: set<Id>, t: set<Id>, u: set<Id>)
    requires KidsKept(a, b, s) && KidsKept(b, c, t) && forall x :: x in a && (x in s || x in t) ==> x in u
    ensures KidsKept(a, c, u)
  {
  }

  lemma InsertKidsKept(st: Store, p: Id, j: nat, ins: Id)
    requires p in st && st[p].Inner? && 0 < j <= |st[p].kids| && ins in st
    ensures KidsKept(st, InsertChild(st, p, j, ins), {p})
  {
    var s1 := AddKid(st, p, j, ins);
    RelinkContent(s1, LeftOf(st, st[p].kids, j), ins, RightOf(st, st[p].kids, j));
  }

  lemma SplitKidsKept(st: Store, p: Id, y: Id)
    requires p in st && st[p].Inner? && y !in st
    ensures KidsKept(st, SplitInner(st, p, y), {p})
  {
  }

  lemma HangLeaves(st: Store, p: Id, j: nat, ins: Id)
    requires p in st && st[p].Inner? && 0 < j <= |st[p].kids| && ins in st
    ensures SameLeaves(st, InsertChild(st, p, j, ins)) && InsertChild(st, p, j, ins).Keys == st.Keys
  {
    var s1 := AddKid(st, p, j, ins);
    RelinkContent(s1, LeftOf(st, st[p].kids, j), ins, RightOf(st, st[p].kids, j));
  }

  /** A sorted run of siblings, split after position q by a node that starts at m. */
  ghost predicate SplitAt(st: Store, g: nat, b: seq<Id>, q: nat, m: Key) {
    && MinsSorted(st, g, b)
    && (forall x :: 0 <= x < |b| && x <= q ==> MinAt(st, g, b[x]) < m)
    && (forall x :: 0 <= x < |b| && x > q ==> m < MinAt(st, g, b[x]))
  }

  lemma RestSorted(st: Store, lower: Levels, g: nat, q: nat)
    requires Tower(st, lower) && Ordered(FlatE(st, lower[0])) && |lower| == g + 1 && q + 1 < |lower[g]|
    ensures MinsSorted(st, g, Without(lower[g], q + 1))
  {
    var l := lower[g];
    var b := Without(l, q + 1);
    forall x, y | 0 <= x < y < |b| ensures MinAt(st, g, b[x]) < MinAt(st, g, b[y]) {
      var x', y' := if x <= q then x else x + 1, if y <= q then y else y + 1;
      assert b[x] == l[x'] && b[y] == l[y'];
      MinsAscend(st, lower, g, x', y');
    }
  }

  /** Level g with the unfinished node left out is split by that node. */
  lemma BaseSorted(st: Store, lower: Levels, g: nat, q: nat)
    requires Tower(st, lower) && Ordered(FlatE(st, lower[0])) && |lower| == g + 1 && q + 1 < |lower[g]|
    ensures SplitAt(st, g, Without(lower[g], q + 1), q, MinAt(st, g, lower[g][q + 1]))
  {
    var l := lower[g];
    var b := Without(l, q + 1);
    RestSorted(st, lower, g, q);
    forall x | 0 <= x <= q ensures MinAt(st, g, b[x]) < MinAt(st, g, l[q + 1]) {
      assert b[x] == l[x];
      MinsAscend(st, lower, g, x, q + 1);
    }
    forall x | q < x < |b| ensures MinAt(st, g, l[q + 1]) < MinAt(st, g, b[x]) {
      assert b[x] == l[x + 1];
      MinsAscend(st, lower, g, q + 1, x + 1);
    }
  }

  ghost predicate RunOf(b: seq<Id>, ks: seq<Id>, s: nat) {
    s + |ks| <= |b| && forall a :: 0 <= a < |ks| ==> ks[a] == b[s + a]
  }

  lemma RunSorted(st: Store, g: nat, b: seq<Id>, q: nat, m: Key, ks: seq<Id>, s: nat)
    requires SplitAt(st, g, b, q, m) && RunOf(b, ks, s)
    ensures MinsSorted(st, g, ks)
    ensures forall a :: 0 <= a < |ks| ==> if s + a <= q then MinAt(st, g, ks[a]) < m else m < MinAt(st, g, ks[a])
  {
  }

  /** std::lower_bound on the children of a node that reaches position q+1 finds it. */
  lemma SpotFound(st: Store, g: nat, b: seq<Id>, q: nat, m: Key, ks: seq<Id>, s: nat, j: nat)
    requires SplitAt(st, g, b, q, m) && RunOf(b, ks, s) && s <= q + 1 <= s + |ks|
    requires j <= |ks| && (forall a :: 0 <= a < j ==> MinAt(st, g, ks[a]) < m)
    requires forall a :: j <= a < |ks| ==> m <= MinAt(st, g, ks[a])
    ensures s + j == q + 1
  {
    RunSorted(st, g, b, q, m, ks, s);
    if j < |ks| { assert m <= MinAt(st, g, ks[j]); }
    if j > 0 { assert MinAt(st, g, ks[j - 1]) < m; }
  }

  lemma RunInLevel(l: seq<Id>, q: nat, ks: seq<Id>, s: nat)
    requires q < |l| && RunOf(Without(l, q), ks, s)
    ensures forall a :: 0 <= a < |ks| ==> ks[a] in l
  {
    WithoutIn(l, q);
    forall a | 0 <= a < |ks| ensures ks[a] in l { assert ks[a] == Without(l, q)[s + a]; }
  }

  /** inner_node_t::insert: find the place by the smallest indices, then hang the node in. */
  method InsertNode(st: Store, p: Id, ins: Id, ghost lower: Levels, ghost g: nat, ghost q: nat, ghost s: nat)
    returns (st': Store, ghost j: nat)
    requires Tower(st, lower) && Ordered(FlatE(st, lower[0])) && |lower| == g + 1
    requires q + 1 < |lower[g]| && ins == lower[g][q + 1] && p in st && st[p].Inner?
    requires RunOf(Without(lower[g], q + 1), st[p].kids, s) && s <= q < s + |st[p].kids|
    ensures 0 < j <= |st[p].kids| && s + j == q + 1 && ins in st && st' == InsertChild(st, p, j, ins)
  {
    ghost var m := MinAt(st, g, ins);
    BaseSorted(st, lower, g, q);
    RunSorted(st, g, Without(lower[g], q + 1), q, m, st[p].kids, s);
    RunInLevel(lower[g], q + 1, st[p].kids, s);
    var k := MinIndex(st, ins, lower, g);
    var i := LowerBound(st, st[p].kids, k, lower, g);
    SpotFound(st, g, Without(lower[g], q + 1), q, m, st[p].kids, s, i);
    j, st' := i, InsertChild(st, p, i, ins);
  }

  /** Position q of a level is among the children of position r of the level `up` above it. */
  ghost predicate ChildOf(st: Store, up: seq<Id>, r: nat, q: nat) {
    r < |up| && |Flat(st, up[..r])| <= q < |Flat(st, up[..r])| + |KidsOf(st, up[r])|
  }

  ghost predicate SameAbove(st: Store, st': Store, ls: Levels, u: nat) {
    forall h :: u < h < |ls| ==> SameOn(st, st', ls[h])
  }

  lemma HangAbove(st: Store, ls: Levels, g: nat, q: nat, t: nat, j: nat)
    requires HangSpot(st, ls, g, q, t, j) && Distinct(ls)
    requires forall h :: g + 1 < h < |ls| ==> LevelOk(st, ls[h], false)
    ensures SameAbove(st, Hang(st, ls, g, q, t, j), ls, g + 1)
  {
    forall h | g + 1 < h < |ls| ensures SameOn(st, Hang(st, ls, g, q, t, j), ls[h]) {
      FarFrom(ls, g, q, t, h);
      HangSame(st, Without(ls[g], q + 1), ls[g + 1], q, t, j, ls[g][q + 1], ls[h]);
    }
  }

  lemma ShapeLevels(st: Store, ls: Levels, cap: nat, hole: Hole)
    requires Shape(st, ls, cap, hole)
    ensures forall h :: 0 <= h < |ls| ==> LevelOk(st, ls[h], h == 0)
  {
    forall h | 0 <= h < |ls| ensures LevelOk(st, ls[h], h == 0) { assert LevelGood(st, ls, cap, hole, h); }
  }

  lemma RunOfKids(st: Store, up: seq<Id>, r: nat)
    requires r < |up|
    ensures RunOf(Flat(st, up), KidsOf(st, up[r]), |Flat(st, up[..r])|)
  {
    KidsAt(st, up, r);
  }

  /** The parent has room: the cascade ends here. */
  method HandUp(st: Store, cap: nat, p: Id, ins: Id, ghost ls: Levels, ghost g: nat, ghost q: nat, ghost r: nat)
    returns (st': Store)
    requires Shape(st, ls, cap, Hole(g, q)) && Ordered(FlatE(st, ls[0])) && g + 1 < |ls|
    requires ins == ls[g][q + 1] && ChildOf(st, ls[g + 1], r, q) && p == ls[g + 1][r]
    requires CountOf(st, p) < cap
    ensures Shape(st', ls, cap, NoHole) && SameLeaves(st, st') && st'.Keys == st.Keys && SameAbove(st, st', ls, g + 1)
    ensures KidsKept(st, st', {p})
  {
    HandReady(st, ls, cap, g, q, r);
    ghost var j;
    st', j := InsertNode(st, p, ins, ls[..g + 1], g, q, |Flat(st, ls[g + 1][..r])|);
    HandedUp(st, ls, cap, g, q, r, j);
    InsertKidsKept(st, p, j, ins);
  }

  lemma HandReady(st: Store, ls: Levels, cap: nat, g: nat, q: nat, r: nat)
    requires Shape(st, ls, cap, Hole(g, q)) && g + 1 < |ls| && r < |ls[g + 1]|
    ensures Tower(st, ls[..g + 1]) && q + 1 < |ls[g]| && ls[g + 1][r] in st && st[ls[g + 1][r]].Inner?
    ensures RunOf(Without(ls[g], q + 1), KidsOf(st, ls[g + 1][r]), |Flat(st, ls[g + 1][..r])|)
  {
    ShapeLower(st, ls, cap, Hole(g, q));
    HoleAbove(st, ls, cap, g, q);
    RunOfKids(st, ls[g + 1], r);
  }

  lemma HoleAbove(st: Store, ls: Levels, cap: nat, g: nat, q: nat)
    requires Shape(st, ls, cap, Hole(g, q)) && g + 1 < |ls|
    ensures q + 1 < |ls[g]| && Flat(st, ls[g + 1]) == Without(ls[g], q + 1) && LevelOk(st, ls[g + 1], false)
  {
    assert LevelGood(st, ls, cap, Hole(g, q), g + 1);
  }

  lemma HandedUp(st: Store, ls: Levels, cap: nat, g: nat, q: nat, r: nat, j: nat)
    requires Shape(st, ls, cap, Hole(g, q)) && g + 1 < |ls| && r < |ls[g + 1]| && CountOf(st, ls[g + 1][r]) < cap
    requires ls[g + 1][r] in st && st[ls[g + 1][r]].Inner? && 0 < j <= |st[ls[g + 1][r]].kids|
      && |Flat(st, ls[g + 1][..r])| + j == q + 1
    requires ls[g][q + 1] in st
    ensures var st' := Hang(st, ls, g, q, r, j);
      Shape(st', ls, cap, NoHole) && SameLeaves(st, st') && st'.Keys == st.Keys && SameAbove(st, st', ls, g + 1)
  {
    SpotHangs(st, ls, cap, g, q, r, j);
    HangShape(st, ls, cap, g, q, r, j);
    HangLeaves(st, ls[g + 1][r], j, ls[g][q + 1]);
    ShapeLevels(st, ls, cap, Hole(g, q));
    HangAbove(st, ls, g, q, r, j);
  }

  lemma SplitSpot(st: Store, ls: Levels, g: nat, q: nat, t: nat, j: nat)
    requires g + 1 < |ls| && q + 1 < |ls[g]| && Distinct(ls)
    requires Linked(st, Without(ls[g], q + 1)) && ls[g][q + 1] in st
    requires Flat(st, ls[g + 1]) == Without(ls[g], q + 1) && t < |ls[g + 1]|
    requires 0 < j <= |KidsOf(st, ls[g + 1][t])| && |Flat(st, ls[g + 1][..t])| + j == q + 1
    ensures HangSpot(st, ls, g, q, t, j)
  {
    SpotApart(ls, g, q);
    SpotReady(st, Without(ls[g], q + 1), ls[g + 1], q, t, j, ls[g][q + 1]);
  }

  lemma LowerFromOthers(st: Store, ls: Levels, cap: nat, g: nat, q: nat, hole: Hole)
    requires g + 1 < |ls| && q + 1 < |ls[g]| && LevelGood(st, ls, cap, Hole(g, q), g)
    requires hole.Hole? && hole.g == g + 1 && OtherLevels(st, ls, cap, g + 1, hole)
    ensures Tower(st, ls[..g + 1])
  {
    var lo := ls[..g + 1];
    forall h | 0 <= h < |lo| ensures LevelOk(st, lo[h], h == 0) && (h > 0 ==> Flat(st, lo[h]) == lo[h - 1]) {
      if h < g { assert LevelGood(st, ls, cap, hole, h); }
    }
  }

  lemma SplitLeaves(st: Store, p: Id, y: Id)
    requires p in st && st[p].Inner? && y !in st
    ensures SameLeaves(st, SplitInner(st, p, y)) && SplitInner(st, p, y).Keys == st.Keys + {y}
  {
  }

  /** Where the two halves of a split parent begin. */
  lemma HalfStarts(st: Store, l: seq<Id>, r: nat, y: Id)
    requires r < |l| && NoDup(l) && y !in l && l[r] in st && st[l[r]].Inner?
    ensures var st', l' := SplitInner(st, l[r], y), Insert(l, r + 1, y);
      && |Flat(st', l'[..r])| == |Flat(st, l[..r])|
      && |Flat(st', l'[..r + 1])| == |Flat(st, l[..r])| + |KidsOf(st', l[r])|
  {
    var st', l' := SplitInner(st, l[r], y), Insert(l, r + 1, y);
    assert l'[..r] == l[..r];
    NotIn(l, r);
    FlatSame(st, st', l[..r]);
    StartNext(st', l', r);
  }

  lemma AboveSplit(st: Store, ls: Levels, cap: nat, hole: Hole, u: nat, r: nat, y: Id)
    requires Shape(st, ls, cap, hole) && u < |ls| && r < |ls[u]| && y !in st && ls[u][r] in st && st[ls[u][r]].Inner?
    ensures SameAbove(st, SplitInner(st, ls[u][r], y), ls, u)
  {
    FreshAbsent(st, ls, cap, hole, y);
    ShapeLevels(st, ls, cap, hole);
    var st' := SplitInner(st, ls[u][r], y);
    forall h | u < h < |ls| ensures SameOn(st, st', ls[h]) {
      NotInLevel(ls, u, r, h);
      SameOnUpdate2(st, ls[h], ls[u][r], st'[ls[u][r]], y, st'[y]);
    }
  }

  /** Everything the second half of the step needs to know about the split parent. */
  lemma SplitReady(st: Store, ls: Levels, cap: nat, g: nat, q: nat, r: nat, y: Id, hole: Hole)
    requires Shape(st, ls, cap, Hole(g, q)) && cap >= 4 && g + 1 < |ls| && r < |ls[g + 1]| && hole == Hole(g + 1, r)
    requires CountOf(st, ls[g + 1][r]) == cap && y !in st
    ensures ls[g + 1][r] in st && st[ls[g + 1][r]].Inner?
    ensures var st', ls' := SplitInner(st, ls[g + 1][r], y), ls[g + 1 := Insert(ls[g + 1], r + 1, y)];
      && Distinct(ls') && HalfLevel(st', ls'[g + 1], Without(ls[g], q + 1), r, cap)
      && LevelGood(st', ls', cap, Hole(g, q), g) && OtherLevels(st', ls', cap, g + 1, hole)
      && Tower(st', ls[..g + 1])
  {
    assert LevelGood(st, ls, cap, Hole(g, q), g + 1);
    FreshAbsent(st, ls, cap, Hole(g, q), y);
    DistinctInsert(ls, g + 1, r + 1, y);
    SplitParentLevel(st, ls, cap, Hole(g, q), g + 1, r, y);
    SplitParentOthers(st, ls, cap, Hole(g, q), hole, g + 1, r, y);
    var st', ls' := SplitInner(st, ls[g + 1][r], y), ls[g + 1 := Insert(ls[g + 1], r + 1, y)];
    LowerFromOthers(st', ls', cap, g, q, hole);
    assert ls'[..g + 1] == ls[..g + 1];
  }

  /** Which half the new child belongs to, decided as the code does by smallest indices. */
  method PickHalf(st: Store, p: Id, y: Id, ins: Id, ghost lower: Levels, ghost g: nat, ghost q: nat, ghost s: nat,
      ghost e: nat)
    returns (t: Id)
    requires Tower(st, lower) && Ordered(FlatE(st, lower[0])) && |lower| == g + 1
    requires q + 1 < |lower[g]| && ins == lower[g][q + 1]
    requires p in st && st[p].Inner? && y in st && st[y].Inner? && p != y && st[y].kids != []
    requires RunOf(Without(lower[g], q + 1), st[p].kids, s) && e == s + |st[p].kids|
    requires RunOf(Without(lower[g], q + 1), st[y].kids, e) && s <= q < e + |st[y].kids|
    ensures t == (if e <= q then y else p)
  {
    ghost var m := MinAt(st, g, ins);
    BaseSorted(st, lower, g, q);
    RunSorted(st, g, Without(lower[g], q + 1), q, m, st[y].kids, e);
    RunInLevel(lower[g], q + 1, st[y].kids, e);
    var a := MinIndex(st, st[y].kids[0], lower, g);
    var b := MinIndex(st, ins, lower, g);
    t := if a < b then y else p;
  }

  lemma SplitHung(st: Store, ls: Levels, cap: nat, g: nat, q: nat, r: nat, t: nat, j: nat, hole: Hole)
    requires g + 1 < |ls| && q + 1 < |ls[g]| && Distinct(ls) && LevelGood(st, ls, cap, Hole(g, q), g)
    requires HalfLevel(st, ls[g + 1], Without(ls[g], q + 1), r, cap) && (t == r || t == r + 1)
    requires hole == Hole(g + 1, r) && OtherLevels(st, ls, cap, g + 1, hole) && HangSpot(st, ls, g, q, t, j)
    ensures Shape(Hang(st, ls, g, q, t, j), ls, cap, hole)
    ensures SameAbove(st, Hang(st, ls, g, q, t, j), ls, g + 1)
    ensures SameLeaves(st, Hang(st, ls, g, q, t, j)) && Hang(st, ls, g, q, t, j).Keys == st.Keys
  {
    SplitHangShape(st, ls, cap, g, q, r, t, j, hole);
    forall h | g + 1 < h < |ls| ensures LevelOk(st, ls[h], false) { assert LevelGood(st, ls, cap, hole, h); }
    HangAbove(st, ls, g, q, t, j);
    HangLeaves(st, ls[g + 1][t], j, ls[g][q + 1]);
  }

  lemma HalfRuns(st: Store, up: seq<Id>, lo: seq<Id>, r: nat)
    requires r + 1 < |up| && Flat(st, up) == lo
    ensures RunOf(lo, KidsOf(st, up[r]), |Flat(st, up[..r])|)
    ensures |Flat(st, up[..r + 1])| == |Flat(st, up[..r])| + |KidsOf(st, up[r])|
    ensures RunOf(lo, KidsOf(st, up[r + 1]), |Flat(st, up[..r + 1])|)
  {
    RunOfKids(st, up, r);
    RunOfKids(st, up, r + 1);
    StartNext(st, up, r);
  }

  method InsertHalf(st: Store, p: Id, y: Id, ins: Id, ghost lower: Levels, ghost g: nat, ghost q: nat, ghost s: nat,
      ghost e: nat)
    returns (st': Store, ghost j: nat)
    requires Tower(st, lower) && Ordered(FlatE(st, lower[0])) && |lower| == g + 1
    requires q + 1 < |lower[g]| && ins == lower[g][q + 1]
    requires p in st && st[p].Inner? && y in st && st[y].Inner? && p != y && st[y].kids != []
    requires RunOf(Without(lower[g], q + 1), st[p].kids, s) && e == s + |st[p].kids|
    requires RunOf(Without(lower[g], q + 1), st[y].kids, e) && s <= q < e + |st[y].kids|
    ensures ins in st && var t := if e <= q then y else p;
      0 < j <= |st[t].kids| && (if e <= q then e else s) + j == q + 1 && st' == InsertChild(st, t, j, ins)
  {
    var target := PickHalf(st, p, y, ins, lower, g, q, s, e);
    st', j := InsertNode(st, target, ins, lower, g, q, if e <= q then e else s);
  }

  lemma HoleLinked(st: Store, ls: Levels, cap: nat, g: nat, q: nat)
    requires g < |ls| && q + 1 < |ls[g]| && LevelGood(st, ls, cap, Hole(g, q), g)
    ensures Linked(st, Without(ls[g], q + 1))
  {
    assert Settled(ls, Hole(g, q), g) == Without(ls[g], q + 1);
  }

  lemma HalfHung(st: Store, st': Store, ls: Levels, cap: nat, g: nat, q: nat, r: nat, t: nat, j: nat, hole: Hole)
    requires g + 1 < |ls| && q + 1 < |ls[g]| && Distinct(ls) && LevelGood(st, ls, cap, Hole(g, q), g)
    requires HalfLevel(st, ls[g + 1], Without(ls[g], q + 1), r, cap) && (t == r || t == r + 1)
    requires hole == Hole(g + 1, r) && OtherLevels(st, ls, cap, g + 1, hole)
    requires ls[g + 1][t] in st && st[ls[g + 1][t]].Inner? && ls[g][q + 1] in st
    requires 0 < j <= |st[ls[g + 1][t]].kids| && |Flat(st, ls[g + 1][..t])| + j == q + 1
    requires st' == InsertChild(st, ls[g + 1][t], j, ls[g][q + 1])
    ensures Shape(st', ls, cap, hole) && SameLeaves(st, st') && st'.Keys == st.Keys && SameAbove(st, st', ls, g + 1)
  {
    HoleLinked(st, ls, cap, g, q);
    SplitSpot(st, ls, g, q, t, j);
    SplitHung(st, ls, cap, g, q, r, t, j, hole);
  }

  method HangHalf(st: Store, cap: nat, p: Id, y: Id, ins: Id, ghost ls: Levels, ghost g: nat, ghost q: nat,
      ghost r: nat, ghost hole: Hole)
    returns (st': Store)
    requires g + 1 < |ls| && q + 1 < |ls[g]| && Distinct(ls) && LevelGood(st, ls, cap, Hole(g, q), g)
    requires HalfLevel(st, ls[g + 1], Without(ls[g], q + 1), r, cap)
    requires hole == Hole(g + 1, r) && OtherLevels(st, ls, cap, g + 1, hole)
    requires Tower(st, ls[..g + 1]) && Ordered(FlatE(st, ls[0]))
    requires p == ls[g + 1][r] && y == ls[g + 1][r + 1] && p != y && ins == ls[g][q + 1]
    requires |Flat(st, ls[g + 1][..r])| <= q < |Flat(st, ls[g + 1][..r + 1])| + |KidsOf(st, y)|
    ensures Shape(st', ls, cap, hole) && SameLeaves(st, st') && st'.Keys == st.Keys && SameAbove(st, st', ls, g + 1)
    ensures KidsKept(st, st', {p, y})
  {
    ghost var up := ls[g + 1];
    HalfRuns(st, up, Without(ls[g], q + 1), r);
    ghost var e := |Flat(st, up[..r + 1])|;
    ghost var j;
    st', j := InsertHalf(st, p, y, ins, ls[..g + 1], g, q, |Flat(st, up[..r])|, e);
    HalfHung(st, st', ls, cap, g, q, r, if e <= q then r + 1 else r, j, hole);
    InsertKidsKept(st, if e <= q then y else p, j, ins);
  }

  lemma SameAboveTrans(a: Store, b: Store, c: Store, ls: Levels, ls': Levels, u: nat)
    requires u < |ls| && |ls'| == |ls| && (forall h :: u < h < |ls| ==> ls'[h] == ls[h])
    requires SameAbove(a, b, ls, u) && SameAbove(b, c, ls', u)
    ensures SameAbove(a, c, ls, u)
  {
    forall h | u < h < |ls| ensures SameOn(a, c, ls[h]) { assert SameOn(a, b, ls[h]) && SameOn(b, c, ls'[h]); }
  }

  lemma SplitRange(st: Store, l: seq<Id>, r: nat, q: nat, y: Id)
    requires NoDup(l) && y !in l && ChildOf(st, l, r, q)
    ensures l[r] in st && st[l[r]].Inner?
    ensures var st', l' := SplitInner(st, l[r], y), Insert(l, r + 1, y);
      |Flat(st', l'[..r])| <= q < |Flat(st', l'[..r + 1])| + |KidsOf(st', y)|
  {
    HalfStarts(st, l, r, y);
  }

  /** The parent is full: it is split, the child goes to its half, and the new half moves on up. */
  method SplitUp(st: Store, cap: nat, p: Id, ins: Id, y: Id, ghost ls: Levels, ghost g: nat, ghost q: nat, ghost r: nat)
    returns (st': Store, ghost ls': Levels)
    requires Shape(st, ls, cap, Hole(g, q)) && Ordered(FlatE(st, ls[0])) && g + 1 < |ls| && cap >= 4
    requires ins == ls[g][q + 1] && ChildOf(st, ls[g + 1], r, q) && p == ls[g + 1][r]
    requires CountOf(st, p) == cap && y !in st
    ensures ls' == ls[g + 1 := Insert(ls[g + 1], r + 1, y)]
    ensures Shape(st', ls', cap, Hole(g + 1, r)) && SameLeaves(st, st') && st'.Keys == st.Keys + {y}
    ensures SameAbove(st, st', ls, g + 1) && KidsKept(st, st', {p})
  {
    ls' := ls[g + 1 := Insert(ls[g + 1], r + 1, y)];
    SplitPrepared(st, ls, ls', cap, g, q, r, y);
    var s1 := SplitInner(st, p, y);
    st' := HangHalf(s1, cap, p, y, ins, ls', g, q, r, Hole(g + 1, r));
    SameAboveTrans(st, s1, st', ls, ls', g + 1);
    SplitKidsKept(st, p, y);
    KidsKeptTrans(st, s1, st', {p}, {p, y}, {p});
  }

  /** Everything the second half of a split needs. */
  lemma SplitPrepared(st: Store, ls: Levels, ls': Levels, cap: nat, g: nat, q: nat, r: nat, y: Id)
    requires Shape(st, ls, cap, Hole(g, q)) && Ordered(FlatE(st, ls[0])) && g + 1 < |ls| && cap >= 4
      && ChildOf(st, ls[g + 1], r, q)
    requires CountOf(st, ls[g + 1][r]) == cap && y !in st && ls' == ls[g + 1 := Insert(ls[g + 1], r + 1, y)]
    ensures ls[g + 1][r] in st && st[ls[g + 1][r]].Inner? && ls[g + 1][r] != y && q + 1 < |ls[g]|
    ensures var s1, up := SplitInner(st, ls[g + 1][r], y), ls'[g + 1];
      && Distinct(ls') && LevelGood(s1, ls', cap, Hole(g, q), g) && HalfLevel(s1, up, Without(ls[g], q + 1), r, cap)
      && OtherLevels(s1, ls', cap, g + 1, Hole(g + 1, r)) && Tower(s1, ls'[..g + 1]) && Ordered(FlatE(s1, ls'[0]))
      && up[r] == ls[g + 1][r] && up[r + 1] == y && |Flat(s1, up[..r])| <= q < |Flat(s1, up[..r + 1])| + |KidsOf(s1, y)|
      && SameLeaves(st, s1) && s1.Keys == st.Keys + {y} && SameAbove(st, s1, ls, g + 1)
  {
    HoleAbove(st, ls, cap, g, q);
    SplitReady(st, ls, cap, g, q, r, y, Hole(g + 1, r));
    SplitPlaced(st, ls, ls', cap, g, q, r, y);
  }

  lemma SplitPlaced(st: Store, ls: Levels, ls': Levels, cap: nat, g: nat, q: nat, r: nat, y: Id)
    requires Shape(st, ls, cap, Hole(g, q)) && Ordered(FlatE(st, ls[0])) && g + 1 < |ls| && ChildOf(st, ls[g + 1], r, q)
    requires y !in st && ls' == ls[g + 1 := Insert(ls[g + 1], r + 1, y)] && ls[g + 1][r] in st
      && st[ls[g + 1][r]].Inner?
    ensures ls[g + 1][r] != y && ls'[..g + 1] == ls[..g + 1]
    ensures var s1, up := SplitInner(st, ls[g + 1][r], y), ls'[g + 1];
      && Ordered(FlatE(s1, ls'[0])) && |Flat(s1, up[..r])| <= q < |Flat(s1, up[..r + 1])| + |KidsOf(s1, y)|
      && SameLeaves(st, s1) && s1.Keys == st.Keys + {y} && SameAbove(st, s1, ls, g + 1)
  {
    SplitLeaves(st, ls[g + 1][r], y);
    SplitOrdered(st, SplitInner(st, ls[g + 1][r], y), ls, ls', cap, g, q, y);
    SplitRange(st, ls[g + 1], r, q, y);
    AboveSplit(st, ls, cap, Hole(g, q), g + 1, r, y);
  }

  lemma SplitOrdered(st: Store, s1: Store, ls: Levels, ls': Levels, cap: nat, g: nat, q: nat, y: Id)
    requires Shape(st, ls, cap, Hole(g, q)) && Ordered(FlatE(st, ls[0])) && g + 1 < |ls| && SameLeaves(st, s1)
      && y !in st
    requires |ls'| == |ls| && forall h :: 0 <= h <= g ==> ls'[h] == ls[h]
    ensures Ordered(FlatE(s1, ls'[0])) && ls'[..g + 1] == ls[..g + 1] && y !in ls[g + 1] && NoDup(ls[g + 1])
  {
    ShapeLevels(st, ls, cap, Hole(g, q));
    SameLeavesFlat(st, s1, ls[0]);
    FreshAbsent(st, ls, cap, Hole(g, q), y);
  }
}
