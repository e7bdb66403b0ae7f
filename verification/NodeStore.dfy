/** The nodes of the B+ tree, kept by identity. A node's children and its two sibling
    pointers are identities, so sharing, relinking and stale pointers are all expressible.

    The shape of a tree is described level by level, leaves first: level h lists, left to
    right, the nodes that are h steps above the leaves. `Tower` says that the children of
    each level, read left to right, are exactly the level below. */
module NodeStore {
  import opened Wrappers
  import opened Multimap

  type Id = nat
  datatype Node =
    | Leaf(entries: seq<Entry>, file: nat, left: Option<Id>, right: Option<Id>)
    | Inner(kids: seq<Id>, left: Option<Id>, right: Option<Id>)

  type Store = map<Id, Node>
  type Levels = seq<seq<Id>>

  function KidsOf(st: Store, id: Id): seq<Id> {
    if id in st && st[id].Inner? then st[id].kids else []
  }

  function EntriesOf(st: Store, id: Id): seq<Entry> {
    if id in st && st[id].Leaf? then st[id].entries else []
  }

  function Count(n: Node): nat {
    match n
    case Leaf(es, _, _, _) => |es|
    case Inner(ks, _, _) => |ks|
  }

  function CountOf(st: Store, id: Id): nat {
    if id in st then Count(st[id]) else 0
  }

  /** The children of the listed nodes, left to right. */
  ghost function Flat(st: Store, l: seq<Id>): seq<Id> {
    if l == [] then [] else KidsOf(st, l[0]) + Flat(st, l[1..])
  }

  /** The groups of the listed leaves, left to right. */
  ghost function FlatE(st: Store, l: seq<Id>): seq<Entry> {
    if l == [] then [] else EntriesOf(st, l[0]) + FlatE(st, l[1..])
  }

  lemma {:induction false} FlatAdd(st: Store, a: seq<Id>, b: seq<Id>)
    ensures Flat(st, a + b) == Flat(st, a) + Flat(st, b)
  {
    if a == [] {
      assert a + b == b;
    } else {
      assert (a + b)[1..] == a[1..] + b;
      FlatAdd(st, a[1..], b);
    }
  }

  lemma {:induction false} FlatEAdd(st: Store, a: seq<Id>, b: seq<Id>)
    ensures FlatE(st, a + b) == FlatE(st, a) + FlatE(st, b)
  {
    if a == [] {
      assert a + b == b;
    } else {
      assert (a + b)[1..] == a[1..] + b;
      FlatEAdd(st, a[1..], b);
    }
  }

  lemma FlatOne(st: Store, id: Id)
    ensures Flat(st, [id]) == KidsOf(st, id)
    ensures FlatE(st, [id]) == EntriesOf(st, id)
  {
    assert [id][1..] == [];
  }

  lemma FlatAt(st: Store, l: seq<Id>, q: nat)
    requires q < |l|
    ensures Flat(st, l) == Flat(st, l[..q]) + KidsOf(st, l[q]) + Flat(st, l[q + 1..])
  {
    assert l == l[..q] + l[q..];
    FlatAdd(st, l[..q], l[q..]);
    assert l[q..][1..] == l[q + 1..];
  }

  lemma FlatEAt(st: Store, l: seq<Id>, q: nat)
    requires q < |l|
    ensures FlatE(st, l) == FlatE(st, l[..q]) + EntriesOf(st, l[q]) + FlatE(st, l[q + 1..])
  {
    assert l == l[..q] + l[q..];
    FlatEAdd(st, l[..q], l[q..]);
    assert l[q..][1..] == l[q + 1..];
  }

  lemma {:induction false} FlatSame(st: Store, st': Store, l: seq<Id>)
    requires forall i :: 0 <= i < |l| ==> KidsOf(st, l[i]) == KidsOf(st', l[i])
    ensures Flat(st, l) == Flat(st', l)
  {
    if l != [] { FlatSame(st, st', l[1..]); }
  }

  lemma {:induction false} FlatESame(st: Store, st': Store, l: seq<Id>)
    requires forall i :: 0 <= i < |l| ==> EntriesOf(st, l[i]) == EntriesOf(st', l[i])
    ensures FlatE(st, l) == FlatE(st', l)
  {
    if l != [] { FlatESame(st, st', l[1..]); }
  }

  // ---------------------------------------------------------------- shape

  ghost predicate NoDup(l: seq<Id>) {
    forall i, j :: 0 <= i < j < |l| ==> l[i] != l[j]
  }

  /** Level 0 lists leaves, every other level inner nodes, none of them empty. */
  ghost predicate LevelOk(st: Store, l: seq<Id>, leaf: bool) {
    forall i :: 0 <= i < |l| ==> l[i] in st && st[l[i]].Leaf? == leaf && Count(st[l[i]]) > 0
  }

  ghost predicate Tower(st: Store, ls: Levels) {
    && |ls| > 0
    && (forall h :: 0 <= h < |ls| ==> LevelOk(st, ls[h], h == 0))
    && (forall h :: 0 < h < |ls| ==> Flat(st, ls[h]) == ls[h - 1])
  }

  function Before(l: seq<Id>, i: nat): Option<Id> {
    if 0 < i <= |l| then Some(l[i - 1]) else None
  }

  function After(l: seq<Id>, i: nat): Option<Id> {
    if i + 1 < |l| then Some(l[i + 1]) else None
  }

  /** The sibling pointers of a level chain it left to right. */
  ghost predicate Linked(st: Store, l: seq<Id>) {
    forall i :: 0 <= i < |l| ==> LinkedAt(st, l, i)
  }

  ghost predicate LinkedAt(st: Store, l: seq<Id>, i: nat)
    requires i < |l|
  {
    l[i] in st && st[l[i]].left == Before(l, i) && st[l[i]].right == After(l, i)
  }

  // ---------------------------------------------------------------- smallest and largest index of a node

  ghost function MinAt(st: Store, h: nat, id: Id): Key {
    if h == 0 then
      (if EntriesOf(st, id) == [] then 0 else EntriesOf(st, id)[0].key)
    else
      (if KidsOf(st, id) == [] then 0 else MinAt(st, h - 1, KidsOf(st, id)[0]))
  }

  ghost function MaxAt(st: Store, h: nat, id: Id): Key {
    if h == 0 then
      (var es := EntriesOf(st, id); if es == [] then 0 else es[|es| - 1].key)
    else
      (var ks := KidsOf(st, id); if ks == [] then 0 else MaxAt(st, h - 1, ks[|ks| - 1]))
  }

  /** The position in level 0 of the first leaf under position i of level h. */
  ghost function Lo(st: Store, ls: Levels, h: nat, i: nat): nat
    requires h < |ls| && i <= |ls[h]|
    requires forall g :: 0 < g <= h ==> Flat(st, ls[g]) == ls[g - 1]
    decreases h
  {
    if h == 0 then i else
      StartBound(st, ls[h], i);
      Lo(st, ls, h - 1, |Flat(st, ls[h][..i])|)
  }

  lemma StartBound(st: Store, l: seq<Id>, i: nat)
    requires i <= |l|
    ensures |Flat(st, l[..i])| <= |Flat(st, l)|
  {
    assert l == l[..i] + l[i..];
    FlatAdd(st, l[..i], l[i..]);
  }

  lemma Middle<T>(a: seq<T>, b: seq<T>, c: seq<T>)
    ensures (a + b + c)[|a|..|a| + |b|] == b
  {
  }

  lemma StartNext(st: Store, l: seq<Id>, i: nat)
    requires i < |l|
    ensures |Flat(st, l[..i + 1])| == |Flat(st, l[..i])| + |KidsOf(st, l[i])|
  {
    assert l[..i + 1] == l[..i] + [l[i]];
    FlatAdd(st, l[..i], [l[i]]);
    FlatOne(st, l[i]);
  }

  /** The children of position i occupy consecutive positions of the level below. */
  lemma StartStep(st: Store, l: seq<Id>, i: nat)
    requires i < |l|
    ensures |Flat(st, l[..i + 1])| == |Flat(st, l[..i])| + |KidsOf(st, l[i])| <= |Flat(st, l)|
    ensures Flat(st, l)[|Flat(st, l[..i])|..|Flat(st, l[..i + 1])|] == KidsOf(st, l[i])
  {
    StartNext(st, l, i);
    FlatAt(st, l, i);
    Middle(Flat(st, l[..i]), KidsOf(st, l[i]), Flat(st, l[i + 1..]));
  }

  lemma KidAt(st: Store, l: seq<Id>, i: nat, c: nat)
    requires i < |l| && c < |KidsOf(st, l[i])|
    ensures |Flat(st, l[..i])| + c < |Flat(st, l[..i + 1])| <= |Flat(st, l)|
    ensures Flat(st, l)[|Flat(st, l[..i])| + c] == KidsOf(st, l[i])[c]
  {
    StartStep(st, l, i);
    var s, e := |Flat(st, l[..i])|, |Flat(st, l[..i + 1])|;
    assert Flat(st, l)[s + c] == Flat(st, l)[s..e][c];
  }

  lemma {:induction false} LoMono(st: Store, ls: Levels, h: nat, i: nat, j: nat)
    requires Tower(st, ls) && h < |ls| && i < j <= |ls[h]|
    ensures Lo(st, ls, h, i) < Lo(st, ls, h, j) <= |ls[0]|
    decreases h, j
  {
    if h == 0 {
    } else {
      StartStep(st, ls[h], j - 1);
      LoMono(st, ls, h - 1, |Flat(st, ls[h][..j - 1])|, |Flat(st, ls[h][..j])|);
      if i < j - 1 { LoMono(st, ls, h, i, j - 1); }
    }
  }

  /** The smallest index of a node is that of its first leaf. */
  lemma {:induction false} MinAtLeaf(st: Store, ls: Levels, h: nat, i: nat)
    requires Tower(st, ls) && h < |ls| && i < |ls[h]|
    ensures Lo(st, ls, h, i) < |ls[0]|
    ensures MinAt(st, h, ls[h][i]) == MinAt(st, 0, ls[0][Lo(st, ls, h, i)])
    decreases h
  {
    if h > 0 {
      KidAt(st, ls[h], i, 0);
      MinAtLeaf(st, ls, h - 1, |Flat(st, ls[h][..i])|);
    }
  }

  lemma LastKid(st: Store, ls: Levels, h: nat, i: nat)
    requires Tower(st, ls) && 0 < h < |ls| && i < |ls[h]|
    ensures 0 < |Flat(st, ls[h][..i + 1])| <= |ls[h - 1]|
    ensures MaxAt(st, h, ls[h][i]) == MaxAt(st, h - 1, ls[h - 1][|Flat(st, ls[h][..i + 1])| - 1])
  {
    StartNext(st, ls[h], i);
    KidAt(st, ls[h], i, |KidsOf(st, ls[h][i])| - 1);
  }

  /** The largest index of a node is that of its last leaf. */
  lemma {:induction false} MaxAtLeaf(st: Store, ls: Levels, h: nat, i: nat)
    requires Tower(st, ls) && h < |ls| && i < |ls[h]|
    ensures 0 < Lo(st, ls, h, i + 1) <= |ls[0]|
    ensures MaxAt(st, h, ls[h][i]) == MaxAt(st, 0, ls[0][Lo(st, ls, h, i + 1) - 1])
    decreases h
  {
    if h > 0 {
      var k := |Flat(st, ls[h][..i + 1])|;
      LastKid(st, ls, h, i);
      MaxAtLeaf(st, ls, h - 1, k - 1);
      assert Lo(st, ls, h, i + 1) == Lo(st, ls, h - 1, k);
    }
  }

  /** Leaves further right hold larger keys. */
  lemma LeafBefore(st: Store, l: seq<Id>, a: nat, b: nat, i: nat, j: nat)
    requires Ordered(FlatE(st, l)) && a < b < |l|
    requires i < |EntriesOf(st, l[a])| && j < |EntriesOf(st, l[b])|
    ensures EntriesOf(st, l[a])[i].key < EntriesOf(st, l[b])[j].key
  {
    FlatEAt(st, l, b);
    FlatEAt(st, l[..b], a);
    var x, y, z := FlatE(st, l[..b]), EntriesOf(st, l[b]), FlatE(st, l[b + 1..]);
    OrderedParts(x + y, z);
    OrderedParts(x, y);
    var p := FlatE(st, l[..b][..a]);
    assert x[|p| + i] == EntriesOf(st, l[a])[i];
  }

  lemma MinMax(st: Store, l: seq<Id>, a: nat, b: nat)
    requires LevelOk(st, l, true) && Ordered(FlatE(st, l)) && a <= b < |l|
    ensures MinAt(st, 0, l[a]) <= MaxAt(st, 0, l[b])
  {
    if a < b { LeafBefore(st, l, a, b, 0, |EntriesOf(st, l[b])| - 1); }
    else { LeafOrdered(st, l, a); }
  }

  lemma MaxMin(st: Store, l: seq<Id>, a: nat, b: nat)
    requires LevelOk(st, l, true) && Ordered(FlatE(st, l)) && a < b < |l|
    ensures MaxAt(st, 0, l[a]) < MinAt(st, 0, l[b])
  {
    LeafBefore(st, l, a, b, |EntriesOf(st, l[a])| - 1, 0);
  }

  /** On any level of an ordered tower a node lies wholly below its right neighbours. */
  lemma MinsAscend(st: Store, ls: Levels, h: nat, i: nat, j: nat)
    requires Tower(st, ls) && Ordered(FlatE(st, ls[0])) && h < |ls| && i < j < |ls[h]|
    ensures MinAt(st, h, ls[h][i]) <= MaxAt(st, h, ls[h][i]) < MinAt(st, h, ls[h][j])
  {
    MinBelowMax(st, ls, h, i);
    MaxBelowNext(st, ls, h, i, j);
  }

  lemma MinBelowMax(st: Store, ls: Levels, h: nat, i: nat)
    requires Tower(st, ls) && Ordered(FlatE(st, ls[0])) && h < |ls| && i < |ls[h]|
    ensures MinAt(st, h, ls[h][i]) <= MaxAt(st, h, ls[h][i])
  {
    MinAtLeaf(st, ls, h, i);
    MaxAtLeaf(st, ls, h, i);
    LoMono(st, ls, h, i, i + 1);
    MinMax(st, ls[0], Lo(st, ls, h, i), Lo(st, ls, h, i + 1) - 1);
  }

  lemma MaxBelowNext(st: Store, ls: Levels, h: nat, i: nat, j: nat)
    requires Tower(st, ls) && Ordered(FlatE(st, ls[0])) && h < |ls| && i < j < |ls[h]|
    ensures MaxAt(st, h, ls[h][i]) < MinAt(st, h, ls[h][j])
  {
    MinAtLeaf(st, ls, h, j);
    MaxAtLeaf(st, ls, h, i);
    if i + 1 < j { LoMono(st, ls, h, i + 1, j); }
    MaxMin(st, ls[0], Lo(st, ls, h, i + 1) - 1, Lo(st, ls, h, j));
  }

  lemma LeafOrdered(st: Store, l: seq<Id>, a: nat)
    requires Ordered(FlatE(st, l)) && a < |l|
    ensures Ordered(EntriesOf(st, l[a]))
  {
    FlatEAt(st, l, a);
    var x, y, z := FlatE(st, l[..a]), EntriesOf(st, l[a]), FlatE(st, l[a + 1..]);
    OrderedParts(x + y, z);
    OrderedParts(x, y);
  }

  // ---------------------------------------------------------------- whole-tree shape

  /** A level in the making: `Hole(g, q)` says that the node at position q+1 of level g has been
      created but not yet linked to its siblings nor handed to a parent. */
  datatype Hole = NoHole | Hole(g: nat, q: nat)

  function Insert<T>(l: seq<T>, i: nat, x: T): (r: seq<T>)
    requires i <= |l|
    ensures |r| == |l| + 1 && r[i] == x
    ensures forall j :: 0 <= j < i ==> r[j] == l[j]
    ensures forall j :: i < j < |r| ==> r[j] == l[j - 1]
  {
    l[..i] + [x] + l[i..]
  }

  function Without<T>(l: seq<T>, i: nat): (r: seq<T>)
    requires i < |l|
    ensures |r| == |l| - 1
    ensures forall j :: 0 <= j < i ==> r[j] == l[j]
    ensures forall j :: i <= j < |r| ==> r[j] == l[j + 1]
  {
    l[..i] + l[i + 1..]
  }

  ghost predicate HoleOk(ls: Levels, hole: Hole) {
    hole.Hole? ==> hole.g < |ls| && hole.q + 1 < |ls[hole.g]|
  }

  /** The part of level h that is already linked and owned by the level above. */
  ghost function Settled(ls: Levels, hole: Hole, h: nat): seq<Id>
    requires h < |ls| && HoleOk(ls, hole)
  {
    if hole.Hole? && hole.g == h then Without(ls[h], hole.q + 1) else ls[h]
  }

  ghost predicate Distinct(ls: Levels) {
    && (forall h :: 0 <= h < |ls| ==> NoDup(ls[h]))
    && (forall g, h, x :: 0 <= g < h < |ls| && x in ls[g] ==> x !in ls[h])
  }

  /** The least number of children (or groups) of a node on level h: a root may be small. */
  function Floor(ls: Levels, h: nat, cap: nat): nat
    requires h < |ls|
  {
    if h + 1 == |ls| && |ls[h]| <= 1 then (if h == 0 then 1 else 2) else cap / 4
  }

  ghost predicate LevelSized(st: Store, l: seq<Id>, lo: nat, hi: nat) {
    forall i :: 0 <= i < |l| ==> lo <= CountOf(st, l[i]) <= hi
  }

  ghost predicate LevelGood(st: Store, ls: Levels, cap: nat, hole: Hole, h: nat)
    requires h < |ls| && HoleOk(ls, hole)
  {
    && LevelOk(st, ls[h], h == 0)
    && Linked(st, Settled(ls, hole, h))
    && LevelSized(st, ls[h], Floor(ls, h, cap), cap)
    && (h > 0 ==> Flat(st, ls[h]) == Settled(ls, hole, h - 1))
  }

  ghost predicate Shape(st: Store, ls: Levels, cap: nat, hole: Hole) {
    && |ls| > 0 && HoleOk(ls, hole) && Distinct(ls)
    && (forall h :: 0 <= h < |ls| ==> LevelGood(st, ls, cap, hole, h))
    && (hole.Hole? ==> var n := ls[hole.g][hole.q + 1]; n in st && st[n].left == None && st[n].right == None)
  }

  ghost predicate SameOn(st: Store, st': Store, l: seq<Id>) {
    forall i :: 0 <= i < |l| ==> l[i] in st && l[i] in st' && st[l[i]] == st'[l[i]]
  }

  lemma SameOnFlat(st: Store, st': Store, l: seq<Id>)
    requires SameOn(st, st', l)
    ensures Flat(st, l) == Flat(st', l) && FlatE(st, l) == FlatE(st', l)
  {
    FlatSame(st, st', l);
    FlatESame(st, st', l);
  }

  ghost predicate SameLinks(st: Store, st': Store, l: seq<Id>) {
    forall i :: 0 <= i < |l| ==>
      l[i] in st && l[i] in st' && st'[l[i]].left == st[l[i]].left && st'[l[i]].right == st[l[i]].right
  }

  lemma LinkedBySame(st: Store, st': Store, l: seq<Id>, w: seq<Id>)
    requires SameLinks(st, st', l) && Linked(st, w) && (forall x :: x in w ==> x in l)
    ensures Linked(st', w)
  {
    forall i | 0 <= i < |w| ensures LinkedAt(st', w, i) {
      assert LinkedAt(st, w, i) && w[i] in l;
    }
  }

  lemma WithoutIn(l: seq<Id>, i: nat)
    requires i < |l|
    ensures forall x :: x in Without(l, i) ==> x in l
  {
  }

  lemma SettledIn(ls: Levels, hole: Hole, h: nat)
    requires h < |ls| && HoleOk(ls, hole)
    ensures forall x :: x in Settled(ls, hole, h) ==> x in ls[h]
  {
    if hole.Hole? && hole.g == h { WithoutIn(ls[h], hole.q + 1); }
  }

  /** A level whose own nodes did not change stays good. */
  lemma LevelFrame(st: Store, st': Store, ls: Levels, ls': Levels, cap: nat, hole: Hole, hole': Hole, h: nat)
    requires h < |ls| && HoleOk(ls, hole) && h < |ls'| && HoleOk(ls', hole')
    requires LevelGood(st, ls, cap, hole, h) && SameOn(st, st', ls[h])
    requires ls'[h] == ls[h] && Settled(ls', hole', h) == Settled(ls, hole, h)
    requires h > 0 ==> Settled(ls', hole', h - 1) == Settled(ls, hole, h - 1)
    requires Floor(ls', h, cap) == Floor(ls, h, cap)
    ensures LevelGood(st', ls', cap, hole', h)
  {
    SameOnFlat(st, st', ls[h]);
    SettledIn(ls, hole, h);
    LinkedBySame(st, st', ls[h], Settled(ls, hole, h));
  }

  lemma ShapeTower(st: Store, ls: Levels, cap: nat)
    requires Shape(st, ls, cap, NoHole)
    ensures Tower(st, ls)
  {
    forall h | 0 <= h < |ls| ensures LevelOk(st, ls[h], h == 0) && (h > 0 ==> Flat(st, ls[h]) == ls[h - 1]) {
      assert LevelGood(st, ls, cap, NoHole, h);
    }
  }

  /** Below and at the unfinished level the tower is complete. */
  lemma ShapeLower(st: Store, ls: Levels, cap: nat, hole: Hole)
    requires Shape(st, ls, cap, hole) && hole.Hole?
    ensures Tower(st, ls[..hole.g + 1])
  {
    var lo := ls[..hole.g + 1];
    forall h | 0 <= h < |lo| ensures LevelOk(st, lo[h], h == 0) && (h > 0 ==> Flat(st, lo[h]) == lo[h - 1]) {
      assert LevelGood(st, ls, cap, hole, h);
    }
  }
}
