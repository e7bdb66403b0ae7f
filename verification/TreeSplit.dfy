/** Splitting a full node: the moment a level has a member nobody points to yet. */
module TreeSplit {
  import opened Wrappers
  import opened NodeStore
  import opened TreeInsert
  import opened TreeGrow

  /** The level of the split node: same chain, two nodes of legal size instead of one. */
  lemma SplitLevel(st: Store, st': Store, l: seq<Id>, r: nat, y: Id, n: Node, m: Node, leaf: bool, floor: nat,
      lo: nat, cap: nat)
    requires r < |l| && NoDup(l) && y !in l && LevelOk(st, l, leaf) && LevelSized(st, l, floor, cap) && Linked(st, l)
    requires st' == st[l[r] := n][y := m] && n.Leaf? == leaf == m.Leaf?
    requires n.left == st[l[r]].left && n.right == st[l[r]].right
    requires 0 < lo <= Count(n) <= cap && lo <= Count(m) <= cap && (|l| > 1 ==> lo <= floor)
    ensures LevelOk(st', Insert(l, r + 1, y), leaf) && LevelSized(st', Insert(l, r + 1, y), lo, cap) && Linked(st', l)
  {
    var l' := Insert(l, r + 1, y);
    forall i | 0 <= i < |l'|
      ensures l'[i] in st' && st'[l'[i]].Leaf? == leaf && Count(st'[l'[i]]) > 0 && lo <= CountOf(st', l'[i]) <= cap
    {
      if i == r + 1 { assert l'[i] == y; }
      else { var o := if i <= r then i else i - 1; assert l'[i] == l[o]; assert o != r ==> l[o] != l[r] && l[o] != y; }
    }
    forall i | 0 <= i < |l|
      ensures l[i] in st && l[i] in st' && st'[l[i]].left == st[l[i]].left && st'[l[i]].right == st[l[i]].right
    {
      assert l[i] != y;
    }
    LinkedBySame(st, st', l, l);
  }

  lemma WithoutInsert(l: seq<Id>, i: nat, y: Id)
    requires i <= |l|
    ensures Without(Insert(l, i, y), i) == l
  {
  }

  lemma DistinctInsert(ls: Levels, h: nat, i: nat, y: Id)
    requires Distinct(ls) && h < |ls| && i <= |ls[h]| && (forall g :: 0 <= g < |ls| ==> y !in ls[g])
    ensures Distinct(ls[h := Insert(ls[h], i, y)])
  {
    var l' := Insert(ls[h], i, y);
    forall a, b | 0 <= a < b < |l'| ensures l'[a] != l'[b] {
      assert a != i ==> l'[a] == ls[h][if a < i then a else a - 1];
      assert b != i ==> l'[b] == ls[h][if b < i then b else b - 1];
    }
    forall x | x in l' ensures x == y || x in ls[h] {
      var a :| 0 <= a < |l'| && l'[a] == x;
      assert a != i ==> l'[a] == ls[h][if a < i then a else a - 1];
    }
  }

  lemma FreshAbsent(st: Store, ls: Levels, cap: nat, hole: Hole, y: Id)
    requires Shape(st, ls, cap, hole) && y !in st
    ensures forall g :: 0 <= g < |ls| ==> y !in ls[g]
  {
    forall g | 0 <= g < |ls| ensures y !in ls[g] {
      assert LevelGood(st, ls, cap, hole, g);
    }
  }

  lemma SameOnUpdate2(st: Store, l: seq<Id>, x: Id, n: Node, y: Id, m: Node)
    requires (forall i :: 0 <= i < |l| ==> l[i] in st) && x !in l && y !in l
    ensures SameOn(st, st[x := n][y := m], l)
  {
  }

  /** Levels other than the split one do not notice. */
  lemma SplitElsewhere(st: Store, st': Store, ls: Levels, ls': Levels, cap: nat, hole: Hole, g: nat, r: nat, y: Id,
      h: nat)
    requires g < |ls| && r < |ls[g]| && ls' == ls[g := Insert(ls[g], r + 1, y)]
    requires HoleOk(ls, hole) && (hole.Hole? ==> hole.g + 1 == g)
    requires h < |ls| && h != g && (hole.Hole? ==> h != hole.g)
    requires LevelGood(st, ls, cap, hole, h) && SameOn(st, st', ls[h])
    ensures LevelGood(st', ls', cap, Hole(g, r), h)
  {
    WithoutInsert(ls[g], r + 1, y);
    LevelFrame(st, st', ls, ls', cap, hole, Hole(g, r), h);
  }

  lemma NotInLevel(ls: Levels, g: nat, r: nat, h: nat)
    requires Distinct(ls) && g < |ls| && h < |ls| && g != h && r < |ls[g]|
    ensures ls[g][r] !in ls[h]
  {
    assert ls[g][r] in ls[g];
  }

  /** Splitting a full leaf leaves exactly one new leaf to be hung in. */
  lemma SplitLeafShape(st: Store, ls: Levels, cap: nat, q: nat, y: Id, file: nat)
    requires Shape(st, ls, cap, NoHole) && cap >= 4 && q < |ls[0]| && CountOf(st, ls[0][q]) == cap && y !in st
    requires ls[0][q] in st && st[ls[0][q]].Leaf?
    ensures Shape(SplitLeaf(st, ls[0][q], y, file), ls[0 := Insert(ls[0], q + 1, y)], cap, Hole(0, q))
    ensures FlatE(SplitLeaf(st, ls[0][q], y, file), Insert(ls[0], q + 1, y)) == FlatE(st, ls[0])
  {
    var st', ls' := SplitLeaf(st, ls[0][q], y, file), ls[0 := Insert(ls[0], q + 1, y)];
    FreshAbsent(st, ls, cap, NoHole, y);
    DistinctInsert(ls, 0, q + 1, y);
    assert LevelGood(st, ls, cap, NoHole, 0);
    FlatESplit(st, ls[0], q, y, file);
    forall h | 0 <= h < |ls'| ensures LevelGood(st', ls', cap, Hole(0, q), h) {
      assert LevelGood(st, ls, cap, NoHole, h);
      if h == 0 { SplitLeafLevel(st, ls, cap, q, y, file); } else { SplitLeafElse(st, ls, cap, q, y, file, h); }
    }
  }

  lemma SplitLeafLevel(st: Store, ls: Levels, cap: nat, q: nat, y: Id, file: nat)
    requires |ls| > 0 && LevelGood(st, ls, cap, NoHole, 0) && NoDup(ls[0]) && cap >= 4 && q < |ls[0]|
      && CountOf(st, ls[0][q]) == cap && y !in ls[0]
    requires ls[0][q] in st && st[ls[0][q]].Leaf?
    ensures LevelGood(SplitLeaf(st, ls[0][q], y, file), ls[0 := Insert(ls[0], q + 1, y)], cap, Hole(0, q), 0)
  {
    var x := ls[0][q];
    var st' := SplitLeaf(st, x, y, file);
    WithoutInsert(ls[0], q + 1, y);
    SplitLevel(st, st', ls[0], q, y, st'[x], st'[y], true, Floor(ls, 0, cap), cap / 4, cap);
  }

  lemma SplitLeafElse(st: Store, ls: Levels, cap: nat, q: nat, y: Id, file: nat, h: nat)
    requires 0 < h < |ls| && LevelGood(st, ls, cap, NoHole, h) && Distinct(ls) && q < |ls[0]| && y !in ls[h]
    requires ls[0][q] in st && st[ls[0][q]].Leaf?
    ensures LevelGood(SplitLeaf(st, ls[0][q], y, file), ls[0 := Insert(ls[0], q + 1, y)], cap, Hole(0, q), h)
  {
    var x := ls[0][q];
    var st' := SplitLeaf(st, x, y, file);
    NotInLevel(ls, 0, q, h);
    SameOnUpdate2(st, ls[h], x, st'[x], y, st'[y]);
    SplitElsewhere(st, st', ls, ls[0 := Insert(ls[0], q + 1, y)], cap, NoHole, 0, q, y, h);
  }

  /** A full parent has been split at position r of its level; `lo` is what its level's children read. */
  ghost predicate HalfLevel(st: Store, l: seq<Id>, lo: seq<Id>, r: nat, cap: nat) {
    && r + 1 < |l| && LevelOk(st, l, false) && LevelSized(st, l, cap / 4, cap)
    && Linked(st, Without(l, r + 1)) && Flat(st, l) == lo
    && st[l[r + 1]].left == None && st[l[r + 1]].right == None
    && CountOf(st, l[r]) < cap && CountOf(st, l[r + 1]) < cap
  }

  /** Every level but u and the one below it is as it should be once the hole is on level u. */
  ghost predicate OtherLevels(st: Store, ls: Levels, cap: nat, u: nat, hole: Hole) {
    HoleOk(ls, hole) && forall h :: 0 <= h < |ls| && h != u && h + 1 != u ==> LevelGood(st, ls, cap, hole, h)
  }

  lemma SplitHalves(st: Store, l: seq<Id>, lo: seq<Id>, r: nat, y: Id, floor: nat, cap: nat)
    requires LevelOk(st, l, false) && Linked(st, l) && LevelSized(st, l, floor, cap) && Flat(st, l) == lo && NoDup(l)
    requires cap >= 4 && r < |l| && l[r] in st && st[l[r]].Inner? && CountOf(st, l[r]) == cap && y !in l
    requires |l| > 1 ==> cap / 4 <= floor
    ensures HalfLevel(SplitInner(st, l[r], y), Insert(l, r + 1, y), lo, r, cap)
  {
    var st' := SplitInner(st, l[r], y);
    SplitLevel(st, st', l, r, y, st'[l[r]], st'[y], false, floor, cap / 4, cap);
    FlatSplit(st, l, r, y);
    WithoutInsert(l, r + 1, y);
  }

  lemma SplitParentLevel(st: Store, ls: Levels, cap: nat, hole: Hole, u: nat, r: nat, y: Id)
    requires Shape(st, ls, cap, hole) && hole.Hole? && u == hole.g + 1 < |ls| && r < |ls[u]| && cap >= 4
    requires ls[u][r] in st && st[ls[u][r]].Inner? && CountOf(st, ls[u][r]) == cap && y !in ls[u]
    ensures HalfLevel(SplitInner(st, ls[u][r], y), Insert(ls[u], r + 1, y), Settled(ls, hole, hole.g), r, cap)
  {
    assert LevelGood(st, ls, cap, hole, u);
    SplitHalves(st, ls[u], Settled(ls, hole, hole.g), r, y, Floor(ls, u, cap), cap);
  }

  lemma SplitParentOthers(st: Store, ls: Levels, cap: nat, hole: Hole, hole': Hole, u: nat, r: nat, y: Id)
    requires Shape(st, ls, cap, hole) && hole.Hole? && u == hole.g + 1 < |ls| && r < |ls[u]| && hole' == Hole(u, r)
    requires ls[u][r] in st && st[ls[u][r]].Inner? && (forall g :: 0 <= g < |ls| ==> y !in ls[g])
    ensures var st', ls' := SplitInner(st, ls[u][r], y), ls[u := Insert(ls[u], r + 1, y)];
      OtherLevels(st', ls', cap, u, hole') && LevelGood(st', ls', cap, hole, hole.g)
  {
    var x := ls[u][r];
    var st', ls' := SplitInner(st, x, y), ls[u := Insert(ls[u], r + 1, y)];
    forall h | 0 <= h < |ls| && h != u ensures SameOn(st, st', ls[h]) {
      NotInLevel(ls, u, r, h);
      assert LevelGood(st, ls, cap, hole, h);
      SameOnUpdate2(st, ls[h], x, st'[x], y, st'[y]);
    }
    forall h | 0 <= h < |ls| && h != u && h + 1 != u ensures LevelGood(st', ls', cap, hole', h) {
      assert LevelGood(st, ls, cap, hole, h);
      SplitElsewhere(st, st', ls, ls', cap, hole, u, r, y, h);
    }
    assert LevelGood(st, ls, cap, hole, hole.g);
    LevelFrame(st, st', ls, ls', cap, hole, hole, hole.g);
  }

  lemma HungHalf(st: Store, lo: seq<Id>, up: seq<Id>, q: nat, r: nat, t: nat, j: nat, ins: Id, cap: nat)
    requires HalfLevel(st, up, lo, r, cap) && (t == r || t == r + 1) && CanHang(st, lo, up, q, t, j, ins)
    ensures var st' := InsertChild(st, up[t], j, ins);
      && LevelOk(st', up, false) && LevelSized(st', up, cap / 4, cap) && Linked(st', Without(up, r + 1))
      && Flat(st', up) == Insert(lo, q + 1, ins)
      && up[r + 1] in st' && st'[up[r + 1]].left == None && st'[up[r + 1]].right == None
  {
    HangUpper(st, lo, up, q, t, j, ins);
    HungUp(st, lo, up, q, t, j, ins, cap / 4, cap);
    WithoutIn(up, r + 1);
    LinkedBySame(st, InsertChild(st, up[t], j, ins), up, Without(up, r + 1));
  }

  lemma HungFar(st: Store, ls: Levels, cap: nat, g: nat, q: nat, t: nat, j: nat, hole: Hole, h: nat)
    requires HangSpot(st, ls, g, q, t, j) && Distinct(ls) && HoleOk(ls, hole)
    requires h < |ls| && h != g && h != g + 1 && LevelGood(st, ls, cap, hole, h)
    ensures LevelGood(Hang(st, ls, g, q, t, j), ls, cap, hole, h)
  {
    FarFrom(ls, g, q, t, h);
    HangSame(st, Without(ls[g], q + 1), ls[g + 1], q, t, j, ls[g][q + 1], ls[h]);
    LevelFrame(st, Hang(st, ls, g, q, t, j), ls, ls, cap, hole, hole, h);
  }

  lemma HungUpGood(st: Store, ls: Levels, cap: nat, g: nat, q: nat, r: nat, t: nat, j: nat, hole: Hole)
    requires HangSpot(st, ls, g, q, t, j) && (t == r || t == r + 1) && hole == Hole(g + 1, r)
    requires HalfLevel(st, ls[g + 1], Without(ls[g], q + 1), r, cap)
    ensures LevelGood(Hang(st, ls, g, q, t, j), ls, cap, hole, g + 1)
    ensures var n, st' := ls[g + 1][r + 1], Hang(st, ls, g, q, t, j);
      n in st' && st'[n].left == None && st'[n].right == None
  {
    InsertWithout(ls[g], q + 1);
    HungHalf(st, Without(ls[g], q + 1), ls[g + 1], q, r, t, j, ls[g][q + 1], cap);
  }

  /** Hanging the child into a half finishes level g and leaves the new half one level up. */
  lemma SplitHangShape(st: Store, ls: Levels, cap: nat, g: nat, q: nat, r: nat, t: nat, j: nat, hole: Hole)
    requires HangSpot(st, ls, g, q, t, j) && (t == r || t == r + 1) && Distinct(ls) && hole == Hole(g + 1, r)
    requires HalfLevel(st, ls[g + 1], Without(ls[g], q + 1), r, cap)
    requires LevelGood(st, ls, cap, Hole(g, q), g) && OtherLevels(st, ls, cap, g + 1, hole)
    ensures Shape(Hang(st, ls, g, q, t, j), ls, cap, hole)
  {
    var st' := Hang(st, ls, g, q, t, j);
    HungUpGood(st, ls, cap, g, q, r, t, j, hole);
    HungLevel(st, ls, cap, g, q, t, j);
    forall h | 0 <= h < |ls| ensures LevelGood(st', ls, cap, hole, h) {
      if h != g && h != g + 1 { HungFar(st, ls, cap, g, q, t, j, hole, h); }
    }
  }

  /** inner_node_t::initialize: a new root over the two halves of the old one. */
  function NewRoot(st: Store, root: Id, a: Id, b: Id): Store
    requires a in st && b in st
  {
    var s1 := st[a := st[a].(right := Some(b))];
    s1[b := s1[b].(left := Some(a))][root := Inner([a, b], None, None)]
  }

  lemma RootFar(st: Store, ls: Levels, cap: nat, top: nat, root: Id, h: nat)
    requires Shape(st, ls, cap, Hole(top, 0)) && |ls| == top + 1 && |ls[top]| == 2 && h < top && root !in st
    requires ls[top][0] in st && ls[top][1] in st
    ensures LevelGood(NewRoot(st, root, ls[top][0], ls[top][1]), ls + [[root]], cap, NoHole, h)
  {
    var st' := NewRoot(st, root, ls[top][0], ls[top][1]);
    assert LevelGood(st, ls, cap, Hole(top, 0), h);
    NotInLevel(ls, top, 0, h);
    NotInLevel(ls, top, 1, h);
    LevelFrame(st, st', ls, ls + [[root]], cap, Hole(top, 0), NoHole, h);
  }

  lemma RootPair(st: Store, l: seq<Id>, root: Id)
    requires |l| == 2 && l[0] != l[1] && l[0] in st && l[1] in st && root !in st
    requires st[l[0]].left == None && st[l[1]].right == None
    ensures var st' := NewRoot(st, root, l[0], l[1]);
      Linked(st', l) && OnlyLinks(st, st', l[0]) && OnlyLinks(st, st', l[1])
  {
    var st' := NewRoot(st, root, l[0], l[1]);
    assert LinkedAt(st', l, 0) && LinkedAt(st', l, 1);
  }

  lemma RootTop(st: Store, ls: Levels, cap: nat, top: nat, root: Id)
    requires Shape(st, ls, cap, Hole(top, 0)) && |ls| == top + 1 && |ls[top]| == 2 && root !in st
    requires ls[top][0] in st && ls[top][1] in st
    ensures LevelGood(NewRoot(st, root, ls[top][0], ls[top][1]), ls + [[root]], cap, NoHole, top)
  {
    var l := ls[top];
    assert LevelGood(st, ls, cap, Hole(top, 0), top);
    assert Without(l, 1) == [l[0]];
    assert LinkedAt(st, [l[0]], 0);
    RootPair(st, l, root);
    SameContentLevel(st, NewRoot(st, root, l[0], l[1]), l, top == 0, cap / 4, cap);
  }

  /** A split root gets a new root above it, and the tree is one level taller. */
  lemma NewRootShape(st: Store, ls: Levels, cap: nat, top: nat, root: Id)
    requires Shape(st, ls, cap, Hole(top, 0)) && |ls| == top + 1 && |ls[top]| == 2 && cap >= 4 && root !in st
    ensures ls[top][0] in st && ls[top][1] in st
    ensures Shape(NewRoot(st, root, ls[top][0], ls[top][1]), ls + [[root]], cap, NoHole)
  {
    assert LevelGood(st, ls, cap, Hole(top, 0), top);
    var st', ls' := NewRoot(st, root, ls[top][0], ls[top][1]), ls + [[root]];
    FreshAbsent(st, ls, cap, Hole(top, 0), root);
    FlatOne(st', root);
    assert ls[top] == [ls[top][0], ls[top][1]];
    assert LinkedAt(st', [root], 0);
    forall h | 0 <= h < |ls'| ensures LevelGood(st', ls', cap, NoHole, h) {
      if h < top { RootFar(st, ls, cap, top, root, h); }
      else if h == top { RootTop(st, ls, cap, top, root); }
      else { assert ls'[h] == [root]; }
    }
  }
}
