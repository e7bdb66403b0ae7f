/** The split cascade of btree_t::append, one level at a time. */
module TreeGrow {
  import opened Wrappers
  import opened NodeStore
  import opened TreeInsert

  ghost predicate Disjoint(a: seq<Id>, b: seq<Id>) {
    forall x :: x in a ==> x !in b
  }

  ghost predicate OnlyLinks(st: Store, st': Store, x: Id) {
    x in st && x in st' && st'[x] == st[x].(left := st'[x].left, right := st'[x].right)
  }

  /** `ins` may be hung into child position j of up[r], right after position q of the level `lo`
      that the children of `up` form. */
  ghost predicate CanHang(st: Store, lo: seq<Id>, up: seq<Id>, q: nat, r: nat, j: nat, ins: Id) {
    && NoDup(lo) && NoDup(up) && Disjoint(up, lo) && ins !in lo && ins !in up
    && Linked(st, lo) && Flat(st, up) == lo
    && q < |lo| && r < |up| && ins in st && up[r] in st && st[up[r]].Inner?
    && 0 < j <= |st[up[r]].kids| && |Flat(st, up[..r])| + j == q + 1
  }

  lemma KidsAt(st: Store, up: seq<Id>, r: nat)
    requires r < |up|
    ensures |Flat(st, up[..r])| + |KidsOf(st, up[r])| <= |Flat(st, up)|
    ensures forall a :: 0 <= a < |KidsOf(st, up[r])| ==> KidsOf(st, up[r])[a] == Flat(st, up)[|Flat(st, up[..r])| + a]
  {
    StartNext(st, up, r);
    StartBound(st, up, r + 1);
    forall a | 0 <= a < |KidsOf(st, up[r])|
      ensures KidsOf(st, up[r])[a] == Flat(st, up)[|Flat(st, up[..r])| + a]
    { KidAt(st, up, r, a); }
  }

  /** The displaced child supplies exactly the neighbours that the level order prescribes. */
  lemma InsertChildNeighbours(st: Store, lo: seq<Id>, up: seq<Id>, q: nat, r: nat, j: nat, ins: Id)
    requires CanHang(st, lo, up, q, r, j, ins)
    ensures LeftOf(st, st[up[r]].kids, j) == Some(lo[q]) && RightOf(st, st[up[r]].kids, j) == After(lo, q)
  {
    KidsAt(st, up, r);
    NeighboursAgree(st, lo, st[up[r]].kids, |Flat(st, up[..r])|, j);
  }

  lemma LinkedUpdate(st: Store, l: seq<Id>, x: Id, n: Node)
    requires Linked(st, l) && x !in l
    ensures Linked(st[x := n], l)
  {
    var st' := st[x := n];
    forall i | 0 <= i < |l| ensures LinkedAt(st', l, i) { assert LinkedAt(st, l, i); }
  }

  /** Hanging a new node in restores the chain of its level ... */
  lemma HangLower(st: Store, lo: seq<Id>, up: seq<Id>, q: nat, r: nat, j: nat, ins: Id)
    requires CanHang(st, lo, up, q, r, j, ins)
    ensures Linked(InsertChild(st, up[r], j, ins), Insert(lo, q + 1, ins))
  {
    InsertChildNeighbours(st, lo, up, q, r, j, ins);
    var s1 := AddKid(st, up[r], j, ins);
    LinkedUpdate(st, lo, up[r], s1[up[r]]);
    RelinkLinked(s1, lo, q, ins);
  }

  /** ... and makes the children of the level above read exactly that chain. */
  lemma HangUpper(st: Store, lo: seq<Id>, up: seq<Id>, q: nat, r: nat, j: nat, ins: Id)
    requires CanHang(st, lo, up, q, r, j, ins)
    ensures Flat(InsertChild(st, up[r], j, ins), up) == Insert(lo, q + 1, ins)
  {
    InsertChildNeighbours(st, lo, up, q, r, j, ins);
    var s1 := AddKid(st, up[r], j, ins);
    FlatAddKid(st, up, r, j, ins);
    RelinkContent(s1, Some(lo[q]), ins, After(lo, q));
    SameContentFlat(s1, InsertChild(st, up[r], j, ins), up);
  }

  lemma HangElse(st: Store, lo: seq<Id>, up: seq<Id>, q: nat, r: nat, j: nat, ins: Id, x: Id)
    requires CanHang(st, lo, up, q, r, j, ins) && x in st && x != up[r]
    ensures OnlyLinks(st, InsertChild(st, up[r], j, ins), x)
    ensures x !in lo && x != ins ==> InsertChild(st, up[r], j, ins)[x] == st[x]
  {
    InsertChildNeighbours(st, lo, up, q, r, j, ins);
    RelinkContent(AddKid(st, up[r], j, ins), Some(lo[q]), ins, After(lo, q));
  }

  lemma HangOnlyLinks(st: Store, lo: seq<Id>, up: seq<Id>, q: nat, r: nat, j: nat, ins: Id, l: seq<Id>)
    requires CanHang(st, lo, up, q, r, j, ins)
    requires forall i :: 0 <= i < |l| ==> l[i] in st && l[i] != up[r]
    ensures forall i :: 0 <= i < |l| ==> OnlyLinks(st, InsertChild(st, up[r], j, ins), l[i])
  {
    forall i | 0 <= i < |l| ensures OnlyLinks(st, InsertChild(st, up[r], j, ins), l[i]) {
      HangElse(st, lo, up, q, r, j, ins, l[i]);
    }
  }

  lemma HangSame(st: Store, lo: seq<Id>, up: seq<Id>, q: nat, r: nat, j: nat, ins: Id, l: seq<Id>)
    requires CanHang(st, lo, up, q, r, j, ins)
    requires forall i :: 0 <= i < |l| ==> l[i] in st && l[i] != up[r] && l[i] !in lo && l[i] != ins
    ensures SameOn(st, InsertChild(st, up[r], j, ins), l)
  {
    forall i | 0 <= i < |l|
      ensures l[i] in st && l[i] in InsertChild(st, up[r], j, ins) && st[l[i]] == InsertChild(st, up[r], j, ins)[l[i]]
    {
      HangElse(st, lo, up, q, r, j, ins, l[i]);
    }
  }

  lemma HangParent(st: Store, lo: seq<Id>, up: seq<Id>, q: nat, r: nat, j: nat, ins: Id)
    requires CanHang(st, lo, up, q, r, j, ins)
    ensures up[r] in InsertChild(st, up[r], j, ins)
    ensures InsertChild(st, up[r], j, ins)[up[r]] == st[up[r]].(kids := Insert(st[up[r]].kids, j, ins))
  {
    InsertChildNeighbours(st, lo, up, q, r, j, ins);
    assert up[r] in up && lo[q] in lo && (q + 1 < |lo| ==> lo[q + 1] in lo);
    RelinkContent(AddKid(st, up[r], j, ins), Some(lo[q]), ins, After(lo, q));
  }

  /** The nodes of the upper level keep their kind and pointers; only the parent grows. */
  lemma HangUpperNodes(st: Store, lo: seq<Id>, up: seq<Id>, q: nat, r: nat, j: nat, ins: Id, i: nat)
    requires CanHang(st, lo, up, q, r, j, ins) && i < |up| && up[i] in st && st[up[i]].Inner?
    ensures var st' := InsertChild(st, up[r], j, ins);
      && up[i] in st' && st'[up[i]].Inner? && st'[up[i]].left == st[up[i]].left && st'[up[i]].right == st[up[i]].right
      && Count(st'[up[i]]) == Count(st[up[i]]) + if i == r then 1 else 0
  {
    if i == r {
      HangParent(st, lo, up, q, r, j, ins);
    } else {
      assert up[i] in up && up[i] != up[r];
      HangElse(st, lo, up, q, r, j, ins, up[i]);
    }
  }

  lemma InsertWithout<T>(l: seq<T>, i: nat)
    requires i < |l|
    ensures Insert(Without(l, i), i, l[i]) == l
  {
  }

  lemma WithoutNoDup(l: seq<Id>, i: nat)
    requires NoDup(l) && i < |l|
    ensures NoDup(Without(l, i)) && l[i] !in Without(l, i)
    ensures forall x :: x in Without(l, i) ==> x in l
  {
    var w := Without(l, i);
    forall a, b | 0 <= a < b < |w| ensures w[a] != w[b] {
      assert w[a] == l[if a < i then a else a + 1] && w[b] == l[if b < i then b else b + 1];
    }
    forall a | 0 <= a < |w| ensures w[a] in l && w[a] != l[i] {
      assert w[a] == l[if a < i then a else a + 1];
    }
  }

  lemma SameContentLevel(st: Store, st': Store, l: seq<Id>, leaf: bool, lo: nat, hi: nat)
    requires LevelOk(st, l, leaf) && LevelSized(st, l, lo, hi)
    requires forall i :: 0 <= i < |l| ==> OnlyLinks(st, st', l[i])
    ensures LevelOk(st', l, leaf) && LevelSized(st', l, lo, hi) && Flat(st', l) == Flat(st, l)
      && FlatE(st', l) == FlatE(st, l)
  {
    FlatSame(st, st', l);
    FlatESame(st, st', l);
  }

  /** The level that gains the node: complete, chained, otherwise unchanged in content. */
  lemma HungLow(st: Store, lo: seq<Id>, up: seq<Id>, q: nat, r: nat, j: nat, ins: Id, l: seq<Id>, leaf: bool,
      floor: nat, cap: nat)
    requires CanHang(st, lo, up, q, r, j, ins) && l == Insert(lo, q + 1, ins)
    requires LevelOk(st, l, leaf) && LevelSized(st, l, floor, cap) && (forall i :: 0 <= i < |l| ==> l[i] != up[r])
    ensures var st' := InsertChild(st, up[r], j, ins);
      && LevelOk(st', l, leaf) && LevelSized(st', l, floor, cap) && Linked(st', l)
      && Flat(st', l) == Flat(st, l) && FlatE(st', l) == FlatE(st, l)
  {
    HangLower(st, lo, up, q, r, j, ins);
    HangOnlyLinks(st, lo, up, q, r, j, ins, l);
    SameContentLevel(st, InsertChild(st, up[r], j, ins), l, leaf, floor, cap);
  }

  /** The level above: one parent gained the child, the chain of the level is untouched. */
  lemma HungUp(st: Store, lo: seq<Id>, up: seq<Id>, q: nat, r: nat, j: nat, ins: Id, floor: nat, cap: nat)
    requires CanHang(st, lo, up, q, r, j, ins)
    requires LevelOk(st, up, false) && LevelSized(st, up, floor, cap) && CountOf(st, up[r]) < cap
    ensures var st' := InsertChild(st, up[r], j, ins);
      && LevelOk(st', up, false) && LevelSized(st', up, floor, cap) && SameLinks(st, st', up)
  {
    var st' := InsertChild(st, up[r], j, ins);
    forall i | 0 <= i < |up|
      ensures up[i] in st' && st'[up[i]].Inner? && st'[up[i]].left == st[up[i]].left
        && st'[up[i]].right == st[up[i]].right
      ensures Count(st'[up[i]]) == Count(st[up[i]]) + if i == r then 1 else 0
    {
      HangUpperNodes(st, lo, up, q, r, j, ins, i);
    }
  }

  lemma HungHigh(st: Store, lo: seq<Id>, up: seq<Id>, q: nat, r: nat, j: nat, ins: Id, l: seq<Id>, floor: nat, cap: nat)
    requires CanHang(st, lo, up, q, r, j, ins) && l == Insert(lo, q + 1, ins) && Linked(st, up)
    requires LevelOk(st, up, false) && LevelSized(st, up, floor, cap) && CountOf(st, up[r]) < cap
    ensures var st' := InsertChild(st, up[r], j, ins);
      && LevelOk(st', up, false) && LevelSized(st', up, floor, cap) && Linked(st', up) && Flat(st', up) == l
  {
    HangUpper(st, lo, up, q, r, j, ins);
    HungUp(st, lo, up, q, r, j, ins, floor, cap);
    LinkedBySame(st, InsertChild(st, up[r], j, ins), up, up);
  }

  lemma NotAbove(ls: Levels, g: nat, r: nat)
    requires Distinct(ls) && g + 1 < |ls| && r < |ls[g + 1]|
    ensures forall i :: 0 <= i < |ls[g]| ==> ls[g][i] != ls[g + 1][r]
  {
    forall i | 0 <= i < |ls[g]| ensures ls[g][i] != ls[g + 1][r] {
      assert ls[g][i] in ls[g] && ls[g + 1][r] in ls[g + 1];
    }
  }

  lemma FarFrom(ls: Levels, g: nat, q: nat, r: nat, h: nat)
    requires Distinct(ls) && g + 1 < |ls| && r < |ls[g + 1]| && q + 1 < |ls[g]| && h < |ls| && h != g && h != g + 1
    ensures forall i :: 0 <= i < |ls[h]| ==>
      ls[h][i] != ls[g + 1][r] && ls[h][i] !in Without(ls[g], q + 1) && ls[h][i] != ls[g][q + 1]
  {
    WithoutNoDup(ls[g], q + 1);
    forall i | 0 <= i < |ls[h]|
      ensures ls[h][i] != ls[g + 1][r] && ls[h][i] !in Without(ls[g], q + 1) && ls[h][i] != ls[g][q + 1]
    {
      assert ls[h][i] in ls[h];
      assert h < g ==> ls[h][i] !in ls[g] && ls[h][i] !in ls[g + 1];
      assert ls[g + 1][r] in ls[g + 1] && ls[g][q + 1] in ls[g];
    }
  }

  /** The unfinished node at position q+1 of level g can be hung into child position j of
      position r of the level above. */
  ghost predicate HangSpot(st: Store, ls: Levels, g: nat, q: nat, r: nat, j: nat) {
    && g + 1 < |ls| && q + 1 < |ls[g]| && r < |ls[g + 1]|
    && CanHang(st, Without(ls[g], q + 1), ls[g + 1], q, r, j, ls[g][q + 1])
  }

  lemma SpotApart(ls: Levels, g: nat, q: nat)
    requires Distinct(ls) && g + 1 < |ls| && q + 1 < |ls[g]|
    ensures NoDup(Without(ls[g], q + 1)) && NoDup(ls[g + 1]) && Disjoint(ls[g + 1], Without(ls[g], q + 1))
    ensures ls[g][q + 1] !in Without(ls[g], q + 1) && ls[g][q + 1] !in ls[g + 1]
  {
    WithoutNoDup(ls[g], q + 1);
    assert ls[g][q + 1] in ls[g];
  }

  lemma SpotHangs(st: Store, ls: Levels, cap: nat, g: nat, q: nat, r: nat, j: nat)
    requires Shape(st, ls, cap, Hole(g, q)) && g + 1 < |ls| && r < |ls[g + 1]|
    requires 0 < j <= |KidsOf(st, ls[g + 1][r])| && |Flat(st, ls[g + 1][..r])| + j == q + 1
    ensures HangSpot(st, ls, g, q, r, j)
  {
    SpotApart(ls, g, q);
    assert LevelGood(st, ls, cap, Hole(g, q), g) && LevelGood(st, ls, cap, Hole(g, q), g + 1);
    SpotReady(st, Without(ls[g], q + 1), ls[g + 1], q, r, j, ls[g][q + 1]);
  }

  lemma SpotReady(st: Store, lo: seq<Id>, up: seq<Id>, q: nat, r: nat, j: nat, ins: Id)
    requires NoDup(lo) && NoDup(up) && Disjoint(up, lo) && ins !in lo && ins !in up && ins in st
    requires Linked(st, lo) && Flat(st, up) == lo && r < |up| && q < |lo|
    requires 0 < j <= |KidsOf(st, up[r])| && |Flat(st, up[..r])| + j == q + 1
    ensures CanHang(st, lo, up, q, r, j, ins)
  {
  }

  function Hang(st: Store, ls: Levels, g: nat, q: nat, r: nat, j: nat): Store
    requires g + 1 < |ls| && q + 1 < |ls[g]| && r < |ls[g + 1]|
    requires ls[g + 1][r] in st && st[ls[g + 1][r]].Inner? && 0 < j <= |st[ls[g + 1][r]].kids| && ls[g][q + 1] in st
  {
    InsertChild(st, ls[g + 1][r], j, ls[g][q + 1])
  }

  lemma HungLevel(st: Store, ls: Levels, cap: nat, g: nat, q: nat, r: nat, j: nat)
    requires HangSpot(st, ls, g, q, r, j) && LevelGood(st, ls, cap, Hole(g, q), g) && Distinct(ls)
    ensures LevelGood(Hang(st, ls, g, q, r, j), ls, cap, NoHole, g)
  {
    InsertWithout(ls[g], q + 1);
    NotAbove(ls, g, r);
    HungLow(st, Without(ls[g], q + 1), ls[g + 1], q, r, j, ls[g][q + 1], ls[g], g == 0, Floor(ls, g, cap), cap);
    LevelFrom(Hang(st, ls, g, q, r, j), ls, cap, g);
  }

  lemma LevelFrom(st: Store, ls: Levels, cap: nat, h: nat)
    requires h < |ls| && LevelOk(st, ls[h], h == 0) && Linked(st, ls[h])
      && LevelSized(st, ls[h], Floor(ls, h, cap), cap)
    requires h > 0 ==> Flat(st, ls[h]) == ls[h - 1]
    ensures LevelGood(st, ls, cap, NoHole, h)
  {
  }

  lemma HungParent(st: Store, ls: Levels, cap: nat, g: nat, q: nat, r: nat, j: nat)
    requires HangSpot(st, ls, g, q, r, j) && LevelGood(st, ls, cap, Hole(g, q), g + 1)
      && CountOf(st, ls[g + 1][r]) < cap
    ensures LevelGood(Hang(st, ls, g, q, r, j), ls, cap, NoHole, g + 1)
  {
    InsertWithout(ls[g], q + 1);
    HungHigh(st, Without(ls[g], q + 1), ls[g + 1], q, r, j, ls[g][q + 1], ls[g], Floor(ls, g + 1, cap), cap);
    LevelFrom(Hang(st, ls, g, q, r, j), ls, cap, g + 1);
  }

  lemma HungElsewhere(st: Store, ls: Levels, cap: nat, g: nat, q: nat, r: nat, j: nat, h: nat)
    requires HangSpot(st, ls, g, q, r, j) && Distinct(ls)
    requires h < |ls| && h != g && h != g + 1 && LevelGood(st, ls, cap, Hole(g, q), h)
    ensures LevelGood(Hang(st, ls, g, q, r, j), ls, cap, NoHole, h)
  {
    FarFrom(ls, g, q, r, h);
    HangSame(st, Without(ls[g], q + 1), ls[g + 1], q, r, j, ls[g][q + 1], ls[h]);
    LevelFrame(st, Hang(st, ls, g, q, r, j), ls, ls, cap, Hole(g, q), NoHole, h);
  }

  /** Handing the new node to a parent with room completes the tree. */
  lemma HangShape(st: Store, ls: Levels, cap: nat, g: nat, q: nat, r: nat, j: nat)
    requires Shape(st, ls, cap, Hole(g, q)) && HangSpot(st, ls, g, q, r, j) && CountOf(st, ls[g + 1][r]) < cap
    ensures Shape(Hang(st, ls, g, q, r, j), ls, cap, NoHole)
  {
    forall h | 0 <= h < |ls| ensures LevelGood(Hang(st, ls, g, q, r, j), ls, cap, NoHole, h) {
      assert LevelGood(st, ls, cap, Hole(g, q), h);
      HungAt(st, ls, cap, g, q, r, j, h);
    }
    AllLevels(Hang(st, ls, g, q, r, j), ls, cap);
  }

  lemma HungAt(st: Store, ls: Levels, cap: nat, g: nat, q: nat, r: nat, j: nat, h: nat)
    requires HangSpot(st, ls, g, q, r, j) && Distinct(ls) && CountOf(st, ls[g + 1][r]) < cap && h < |ls|
      && LevelGood(st, ls, cap, Hole(g, q), h)
    ensures LevelGood(Hang(st, ls, g, q, r, j), ls, cap, NoHole, h)
  {
    if h == g { HungLevel(st, ls, cap, g, q, r, j); }
    else if h == g + 1 { HungParent(st, ls, cap, g, q, r, j); }
    else { HungElsewhere(st, ls, cap, g, q, r, j, h); }
  }

  lemma AllLevels(st: Store, ls: Levels, cap: nat)
    requires |ls| > 0 && Distinct(ls) && forall h :: 0 <= h < |ls| ==> LevelGood(st, ls, cap, NoHole, h)
    ensures Shape(st, ls, cap, NoHole)
  {
  }
}
