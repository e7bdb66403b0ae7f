/** The shrinking half of the tree: merging a node into a sibling, removing it from its parent,
    and evening out two siblings. */
module TreeShrink {
  import opened Wrappers
  import opened NodeStore
  import opened TreeInsert
  import opened TreeGrow
  import opened TreeSplit

  /** The pointer part of inner_node_t::remove: the siblings of x close ranks, x goes. */
  function Unlink(st: Store, x: Id): Store
    requires x in st
  {
    var l, r := st[x].left, st[x].right;
    var s1 := if l.Some? && l.value in st then st[l.value := st[l.value].(right := r)] else st;
    var s2 := if r.Some? && r.value in s1 then s1[r.value := s1[r.value].(left := l)] else s1;
    s2 - {x}
  }

  lemma UnlinkAt(st: Store, x: Id, y: Id)
    requires x in st && y in st && y != x && st[x].left != Some(x) && st[x].right != Some(x)
    ensures y in Unlink(st, x) && OnlyLinks(st, Unlink(st, x), y)
    ensures Unlink(st, x)[y].left == if st[x].right == Some(y) then st[x].left else st[y].left
    ensures Unlink(st, x)[y].right == if st[x].left == Some(y) then st[x].right else st[y].right
  {
  }

  lemma UnlinkLinked(st: Store, l: seq<Id>, q: nat)
    requires Linked(st, l) && NoDup(l) && q < |l|
    ensures l[q] in st && Linked(Unlink(st, l[q]), Without(l, q))
  {
    assert LinkedAt(st, l, q);
    var x := l[q];
    var st', l' := Unlink(st, x), Without(l, q);
    forall i | 0 <= i < |l'| ensures LinkedAt(st', l', i) {
      var o := if i < q then i else i + 1;
      assert l'[i] == l[o] && LinkedAt(st, l, o);
      UnlinkAt(st, x, l[o]);
    }
  }

  lemma UnlinkElse(st: Store, l: seq<Id>, q: nat, y: Id)
    requires Linked(st, l) && NoDup(l) && q < |l| && y in st && y != l[q]
    ensures l[q] in st && y in Unlink(st, l[q]) && OnlyLinks(st, Unlink(st, l[q]), y)
    ensures y !in l ==> Unlink(st, l[q])[y] == st[y]
  {
    assert LinkedAt(st, l, q);
    UnlinkAt(st, l[q], y);
  }

  /** base_node_t::merge: n takes over the content of m, in front of or behind its own. */
  function Absorb(n: Node, m: Node, front: bool): Node {
    match (n, m)
    case (Leaf(es, _, _, _), Leaf(ds, _, _, _)) => n.(entries := if front then ds + es else es + ds)
    case (Inner(ks, _, _), Inner(js, _, _)) => n.(kids := if front then js + ks else ks + js)
    case _ => n
  }

  function DropKid(st: Store, p: Id, i: nat): Store
    requires p in st && st[p].Inner? && i < |st[p].kids|
  {
    st[p := st[p].(kids := Without(st[p].kids, i))]
  }

  /** Merge src into its sibling dst, then remove it from its parent (its child number i). */
  function MergeRemove(st: Store, p: Id, i: nat, dst: Id, src: Id, front: bool): Store
    requires p in st && st[p].Inner? && i < |st[p].kids| && dst in st && src in st && p != dst && p != src
  {
    Unlink(DropKid(st[dst := Absorb(st[dst], st[src], front)], p, i), src)
  }

  // ---------------------------------------------------------------- one node of a special size

  ghost predicate SizedBut(st: Store, l: seq<Id>, q: nat, c: nat, lo: nat, hi: nat) {
    forall i :: 0 <= i < |l| ==> if i == q then CountOf(st, l[i]) == c else lo <= CountOf(st, l[i]) <= hi
  }

  ghost predicate LevelBut(st: Store, ls: Levels, cap: nat, h: nat, q: nat, c: nat)
    requires h < |ls|
  {
    && LevelOk(st, ls[h], h == 0) && Linked(st, ls[h])
    && SizedBut(st, ls[h], q, c, Floor(ls, h, cap), cap)
    && (h > 0 ==> Flat(st, ls[h]) == ls[h - 1])
  }

  /** A complete tree in which the node at position q of level h has exactly c members, legal or not. */
  ghost predicate ShapeBut(st: Store, ls: Levels, cap: nat, h: nat, q: nat, c: nat) {
    && h < |ls| && q < |ls[h]| && Distinct(ls) && LevelBut(st, ls, cap, h, q, c)
    && (forall g :: 0 <= g < |ls| && g != h ==> LevelGood(st, ls, cap, NoHole, g))
  }

  lemma ButShape(st: Store, ls: Levels, cap: nat, h: nat, q: nat, c: nat)
    requires ShapeBut(st, ls, cap, h, q, c) && Floor(ls, h, cap) <= c <= cap
    ensures Shape(st, ls, cap, NoHole)
  {
    forall g | 0 <= g < |ls| ensures LevelGood(st, ls, cap, NoHole, g) {
      if g == h { assert LevelSized(st, ls[h], Floor(ls, h, cap), cap); }
    }
  }

  lemma ButTower(st: Store, ls: Levels, cap: nat, h: nat, q: nat, c: nat)
    requires ShapeBut(st, ls, cap, h, q, c)
    ensures Tower(st, ls)
  {
    forall g | 0 <= g < |ls| ensures LevelOk(st, ls[g], g == 0) && (g > 0 ==> Flat(st, ls[g]) == ls[g - 1]) {
      if g != h { assert LevelGood(st, ls, cap, NoHole, g); }
    }
  }

  // ---------------------------------------------------------------- merging

  /** l[q] can be merged into its sibling l[d] and removed from its parent up[r], whose child
      number i it is. */
  ghost predicate CanMerge(st: Store, l: seq<Id>, up: seq<Id>, q: nat, d: nat, r: nat, i: nat) {
    && NoDup(l) && NoDup(up) && Disjoint(up, l) && Linked(st, l) && Flat(st, up) == l
    && q < |l| && d < |l| && (d == q + 1 || d + 1 == q) && r < |up|
    && l[q] in st && l[d] in st && st[l[q]].Leaf? == st[l[d]].Leaf?
    && up[r] in st && st[up[r]].Inner? && i < |st[up[r]].kids| && |Flat(st, up[..r])| + i == q
  }

  function Merged(st: Store, l: seq<Id>, up: seq<Id>, q: nat, d: nat, r: nat, i: nat): Store
    requires q < |l| && d < |l| && r < |up| && l[q] in st && l[d] in st && up[r] in st && st[up[r]].Inner?
    requires i < |st[up[r]].kids| && up[r] != l[q] && up[r] != l[d]
  {
    MergeRemove(st, up[r], i, l[d], l[q], d == q + 1)
  }

  lemma MergeApart(st: Store, l: seq<Id>, up: seq<Id>, q: nat, d: nat, r: nat, i: nat)
    requires CanMerge(st, l, up, q, d, r, i)
    ensures up[r] !in l && up[r] != l[q] && up[r] != l[d] && l[q] != l[d]
  {
    assert up[r] in up && l[q] in l && l[d] in l;
  }

  /** The store before the last step, in which src still stands. */
  function BeforeUnlink(st: Store, l: seq<Id>, up: seq<Id>, q: nat, d: nat, r: nat, i: nat): Store
    requires q < |l| && d < |l| && r < |up| && l[q] in st && l[d] in st && up[r] in st && st[up[r]].Inner?
    requires i < |st[up[r]].kids| && up[r] != l[q] && up[r] != l[d]
  {
    DropKid(st[l[d] := Absorb(st[l[d]], st[l[q]], d == q + 1)], up[r], i)
  }

  lemma BeforeLinked(st: Store, l: seq<Id>, up: seq<Id>, q: nat, d: nat, r: nat, i: nat)
    requires CanMerge(st, l, up, q, d, r, i)
    ensures up[r] !in l && up[r] != l[q] && up[r] != l[d] && l[q] != l[d]
    ensures Linked(BeforeUnlink(st, l, up, q, d, r, i), l)
  {
    MergeApart(st, l, up, q, d, r, i);
    var s2 := BeforeUnlink(st, l, up, q, d, r, i);
    forall j | 0 <= j < |l| ensures LinkedAt(s2, l, j) { assert LinkedAt(st, l, j); }
  }

  /** The level closes ranks. */
  lemma MergedLinked(st: Store, l: seq<Id>, up: seq<Id>, q: nat, d: nat, r: nat, i: nat)
    requires CanMerge(st, l, up, q, d, r, i)
    ensures up[r] !in l && up[r] != l[q] && up[r] != l[d]
    ensures Linked(Merged(st, l, up, q, d, r, i), Without(l, q))
  {
    BeforeLinked(st, l, up, q, d, r, i);
    UnlinkLinked(BeforeUnlink(st, l, up, q, d, r, i), l, q);
  }

  lemma MergedElse(st: Store, l: seq<Id>, up: seq<Id>, q: nat, d: nat, r: nat, i: nat, y: Id)
    requires CanMerge(st, l, up, q, d, r, i) && y in st && y != l[q]
    ensures up[r] !in l && up[r] != l[q] && up[r] != l[d]
    ensures var st' := Merged(st, l, up, q, d, r, i);
      && y in st'
      && (y != l[d] && y != up[r] ==> OnlyLinks(st, st', y))
      && (y !in l && y != up[r] ==> st'[y] == st[y])
      && (y == up[r] ==> st'[y] == st[y].(kids := Without(st[y].kids, i)))
      && (y == l[d] ==> st'[y] == Absorb(st[y], st[l[q]], d == q + 1).(left := st'[y].left, right := st'[y].right))
  {
    BeforeLinked(st, l, up, q, d, r, i);
    UnlinkElse(BeforeUnlink(st, l, up, q, d, r, i), l, q, y);
    assert y == l[d] ==> y in l;
  }

  lemma AroundPair(l: seq<Id>, q: nat, d: nat, m: nat)
    requires q < |l| && d < |l| && (d == q + 1 || d + 1 == q) && m == (if d < q then d else q)
    ensures l == l[..m] + [l[m], l[m + 1]] + l[m + 2..]
    ensures Without(l, q) == l[..m] + [l[d]] + l[m + 2..]
  {
  }

  lemma FlatSingle(st: Store, a: seq<Id>, x: Id, b: seq<Id>)
    ensures Flat(st, a + [x] + b) == Flat(st, a) + KidsOf(st, x) + Flat(st, b)
    ensures FlatE(st, a + [x] + b) == FlatE(st, a) + EntriesOf(st, x) + FlatE(st, b)
  {
    FlatAdd(st, a + [x], b);
    FlatAdd(st, a, [x]);
    FlatEAdd(st, a + [x], b);
    FlatEAdd(st, a, [x]);
    FlatOne(st, x);
  }

  lemma MergedContent(st: Store, l: seq<Id>, up: seq<Id>, q: nat, d: nat, r: nat, i: nat)
    requires CanMerge(st, l, up, q, d, r, i)
    ensures up[r] !in l && up[r] != l[q] && up[r] != l[d]
    ensures var st', m := Merged(st, l, up, q, d, r, i), if d < q then d else q;
      && KidsOf(st', l[d]) == KidsOf(st, l[m]) + KidsOf(st, l[m + 1])
      && EntriesOf(st', l[d]) == EntriesOf(st, l[m]) + EntriesOf(st, l[m + 1])
      && l[d] in st' && st'[l[d]].Leaf? == st[l[d]].Leaf? && Count(st'[l[d]]) == Count(st[l[d]]) + Count(st[l[q]])
  {
    MergeApart(st, l, up, q, d, r, i);
    MergedElse(st, l, up, q, d, r, i, l[d]);
  }

  lemma MergedFar(st: Store, l: seq<Id>, up: seq<Id>, q: nat, d: nat, r: nat, i: nat, w: seq<Id>)
    requires CanMerge(st, l, up, q, d, r, i)
    requires forall j :: 0 <= j < |w| ==> w[j] in st && w[j] != l[q] && w[j] != l[d] && w[j] != up[r]
    ensures up[r] !in l && up[r] != l[q] && up[r] != l[d]
    ensures var st' := Merged(st, l, up, q, d, r, i);
      && (forall j :: 0 <= j < |w| ==> OnlyLinks(st, st', w[j]))
      && Flat(st', w) == Flat(st, w) && FlatE(st', w) == FlatE(st, w)
  {
    MergeApart(st, l, up, q, d, r, i);
    var st' := Merged(st, l, up, q, d, r, i);
    forall j | 0 <= j < |w| ensures OnlyLinks(st, st', w[j]) { MergedElse(st, l, up, q, d, r, i, w[j]); }
    FlatSame(st, st', w);
    FlatESame(st, st', w);
  }

  lemma AwayFromPair(l: seq<Id>, q: nat, d: nat, m: nat, a: seq<Id>, b: seq<Id>)
    requires NoDup(l) && q < |l| && d < |l| && (d == q + 1 || d + 1 == q) && m == (if d < q then d else q)
    requires a == l[..m] && b == l[m + 2..]
    ensures forall j :: 0 <= j < |a| ==> a[j] in l && a[j] != l[q] && a[j] != l[d]
    ensures forall j :: 0 <= j < |b| ==> b[j] in l && b[j] != l[q] && b[j] != l[d]
  {
  }

  /** What the level holds, read left to right, does not change. */
  lemma MergedFlat(st: Store, l: seq<Id>, up: seq<Id>, q: nat, d: nat, r: nat, i: nat)
    requires CanMerge(st, l, up, q, d, r, i) && forall j :: 0 <= j < |l| ==> l[j] in st
    ensures up[r] !in l && up[r] != l[q] && up[r] != l[d]
    ensures var st' := Merged(st, l, up, q, d, r, i);
      Flat(st', Without(l, q)) == Flat(st, l) && FlatE(st', Without(l, q)) == FlatE(st, l)
  {
    MergeApart(st, l, up, q, d, r, i);
    var st', m := Merged(st, l, up, q, d, r, i), if d < q then d else q;
    AroundPair(l, q, d, m);
    AwayFromPair(l, q, d, m, l[..m], l[m + 2..]);
    MergedFar(st, l, up, q, d, r, i, l[..m]);
    MergedFar(st, l, up, q, d, r, i, l[m + 2..]);
    MergedContent(st, l, up, q, d, r, i);
    FlatPair(st, l[..m], l[m], l[m + 1], l[m + 2..]);
    FlatEPair(st, l[..m], l[m], l[m + 1], l[m + 2..]);
    FlatSingle(st', l[..m], l[d], l[m + 2..]);
  }

  /** The level's nodes keep kind and legal size. */
  lemma MergedLevel(st: Store, l: seq<Id>, up: seq<Id>, q: nat, d: nat, r: nat, i: nat, c: nat, leaf: bool, lo: nat,
      cap: nat)
    requires CanMerge(st, l, up, q, d, r, i) && LevelOk(st, l, leaf) && SizedBut(st, l, q, c, lo, cap)
    requires Count(st[l[d]]) + c <= cap
    ensures up[r] !in l && up[r] != l[q] && up[r] != l[d]
    ensures var st' := Merged(st, l, up, q, d, r, i);
      LevelOk(st', Without(l, q), leaf) && LevelSized(st', Without(l, q), lo, cap)
  {
    MergeApart(st, l, up, q, d, r, i);
    var st', w := Merged(st, l, up, q, d, r, i), Without(l, q);
    MergedContent(st, l, up, q, d, r, i);
    forall j | 0 <= j < |w|
      ensures w[j] in st' && st'[w[j]].Leaf? == leaf && Count(st'[w[j]]) > 0 && lo <= CountOf(st', w[j]) <= cap
    {
      var o := if j < q then j else j + 1;
      assert w[j] == l[o] && o != q && l[o] != l[q];
      if o != d { MergedElse(st, l, up, q, d, r, i, l[o]); }
    }
  }

  /** The level above: one parent lost a child, the chain is untouched. */
  lemma MergedUp(st: Store, l: seq<Id>, up: seq<Id>, q: nat, d: nat, r: nat, i: nat, lo: nat, cap: nat)
    requires CanMerge(st, l, up, q, d, r, i) && LevelOk(st, up, false) && LevelSized(st, up, lo, cap)
      && |st[up[r]].kids| > 1
    ensures up[r] !in l && up[r] != l[q] && up[r] != l[d]
    ensures var st' := Merged(st, l, up, q, d, r, i);
      LevelOk(st', up, false) && SizedBut(st', up, r, |st[up[r]].kids| - 1, lo, cap) && SameLinks(st, st', up)
  {
    MergeApart(st, l, up, q, d, r, i);
    var st' := Merged(st, l, up, q, d, r, i);
    forall j | 0 <= j < |up|
      ensures up[j] in st' && (j != r ==> st'[up[j]] == st[up[j]])
      ensures j == r ==> st'[up[j]] == st[up[j]].(kids := Without(st[up[j]].kids, i))
    {
      assert up[j] in up && l[q] in l;
      MergedElse(st, l, up, q, d, r, i, up[j]);
    }
  }

  lemma WithoutMiddle<T>(a: seq<T>, b: seq<T>, c: seq<T>, j: nat)
    requires j < |b|
    ensures Without(a + b + c, |a| + j) == a + Without(b, j) + c
  {
  }

  lemma FlatPatched(st: Store, st': Store, up: seq<Id>, r: nat)
    requires r < |up| && AgreeBut(st, st', up, r)
    ensures Flat(st', up) == Flat(st, up[..r]) + KidsOf(st', up[r]) + Flat(st, up[r + 1..])
  {
    AgreeSlices(st, st', up, r);
    FlatAt(st', up, r);
  }

  lemma FlatDropped(st: Store, st': Store, up: seq<Id>, r: nat, i: nat, l: seq<Id>)
    requires r < |up| && AgreeBut(st, st', up, r) && i < |KidsOf(st, up[r])| && l == Flat(st, up)
    requires KidsOf(st', up[r]) == Without(KidsOf(st, up[r]), i) && |Flat(st, up[..r])| + i < |l|
    ensures Flat(st', up) == Without(l, |Flat(st, up[..r])| + i)
  {
    FlatPatched(st, st', up, r);
    FlatAt(st, up, r);
    WithoutMiddle(Flat(st, up[..r]), KidsOf(st, up[r]), Flat(st, up[r + 1..]), i);
  }

  lemma MergedUpFlat(st: Store, l: seq<Id>, up: seq<Id>, q: nat, d: nat, r: nat, i: nat)
    requires CanMerge(st, l, up, q, d, r, i) && LevelOk(st, up, false)
    ensures up[r] !in l && up[r] != l[q] && up[r] != l[d]
    ensures Flat(Merged(st, l, up, q, d, r, i), up) == Without(l, q)
  {
    MergeApart(st, l, up, q, d, r, i);
    MergedUpAgree(st, l, up, q, d, r, i);
    DroppedAt(st, Merged(st, l, up, q, d, r, i), up, r, i, l, q);
  }

  lemma DroppedAt(st: Store, st': Store, up: seq<Id>, r: nat, i: nat, l: seq<Id>, q: nat)
    requires r < |up| && AgreeBut(st, st', up, r) && i < |KidsOf(st, up[r])| && l == Flat(st, up)
    requires KidsOf(st', up[r]) == Without(KidsOf(st, up[r]), i) && |Flat(st, up[..r])| + i == q && q < |l|
    ensures Flat(st', up) == Without(l, q)
  {
    FlatDropped(st, st', up, r, i, l);
  }

  lemma MergedUpAgree(st: Store, l: seq<Id>, up: seq<Id>, q: nat, d: nat, r: nat, i: nat)
    requires CanMerge(st, l, up, q, d, r, i) && LevelOk(st, up, false)
    ensures up[r] !in l && up[r] != l[q] && up[r] != l[d]
    ensures AgreeBut(st, Merged(st, l, up, q, d, r, i), up, r)
    ensures KidsOf(Merged(st, l, up, q, d, r, i), up[r]) == Without(KidsOf(st, up[r]), i)
  {
    MergeApart(st, l, up, q, d, r, i);
    var st' := Merged(st, l, up, q, d, r, i);
    forall j | 0 <= j < |up|
      ensures j != r ==> KidsOf(st, up[j]) == KidsOf(st', up[j]) && EntriesOf(st, up[j]) == EntriesOf(st', up[j])
      ensures j == r ==> KidsOf(st', up[j]) == Without(KidsOf(st, up[j]), i)
    {
      assert up[j] in up && l[q] in l && l[d] in l;
      MergedElse(st, l, up, q, d, r, i, up[j]);
    }
  }

  lemma DistinctWithout(ls: Levels, h: nat, q: nat)
    requires Distinct(ls) && h < |ls| && q < |ls[h]|
    ensures Distinct(ls[h := Without(ls[h], q)])
  {
    WithoutNoDup(ls[h], q);
  }

  /** A place to merge: position q of level h into its sibling at d, child number i of position r. */
  ghost predicate MergeSpot(st: Store, ls: Levels, h: nat, q: nat, d: nat, r: nat, i: nat) {
    && h + 1 < |ls| && CanMerge(st, ls[h], ls[h + 1], q, d, r, i)
    && ls[h + 1][r] != ls[h][q] && ls[h + 1][r] != ls[h][d] && |st[ls[h + 1][r]].kids| > 1
  }

  lemma MergeReady(st: Store, ls: Levels, cap: nat, h: nat, q: nat, c: nat, d: nat, r: nat, i: nat)
    requires ShapeBut(st, ls, cap, h, q, c) && h + 1 < |ls| && r < |ls[h + 1]| && d < |ls[h]|
      && (d == q + 1 || d + 1 == q)
    requires i < |KidsOf(st, ls[h + 1][r])| && |Flat(st, ls[h + 1][..r])| + i == q && |KidsOf(st, ls[h + 1][r])| > 1
    ensures MergeSpot(st, ls, h, q, d, r, i)
  {
    assert LevelGood(st, ls, cap, NoHole, h + 1);
    LevelsApart(ls, h);
    MergeReadyList(st, ls[h], ls[h + 1], q, d, r, i);
  }

  lemma LevelsApart(ls: Levels, h: nat)
    requires Distinct(ls) && h + 1 < |ls|
    ensures NoDup(ls[h]) && NoDup(ls[h + 1]) && Disjoint(ls[h + 1], ls[h])
  {
  }

  lemma MergeReadyList(st: Store, l: seq<Id>, up: seq<Id>, q: nat, d: nat, r: nat, i: nat)
    requires NoDup(l) && NoDup(up) && Disjoint(up, l) && Linked(st, l) && Flat(st, up) == l
    requires q < |l| && d < |l| && (d == q + 1 || d + 1 == q) && r < |up|
    requires l[q] in st && l[d] in st && st[l[q]].Leaf? == st[l[d]].Leaf?
    requires i < |KidsOf(st, up[r])| && |Flat(st, up[..r])| + i == q
    ensures CanMerge(st, l, up, q, d, r, i) && up[r] != l[q] && up[r] != l[d]
  {
    assert up[r] in up && l[q] in l && l[d] in l;
  }

  function MergedAt(st: Store, ls: Levels, h: nat, q: nat, d: nat, r: nat, i: nat): Store
    requires MergeSpot(st, ls, h, q, d, r, i)
  {
    Merged(st, ls[h], ls[h + 1], q, d, r, i)
  }

  lemma MergedHere(st: Store, ls: Levels, cap: nat, h: nat, q: nat, c: nat, d: nat, r: nat, i: nat)
    requires MergeSpot(st, ls, h, q, d, r, i) && LevelBut(st, ls, cap, h, q, c) && Count(st[ls[h][d]]) + c <= cap
    ensures LevelGood(MergedAt(st, ls, h, q, d, r, i), ls[h := Without(ls[h], q)], cap, NoHole, h)
    ensures FlatE(MergedAt(st, ls, h, q, d, r, i), Without(ls[h], q)) == FlatE(st, ls[h])
  {
    MergedLevel(st, ls[h], ls[h + 1], q, d, r, i, c, h == 0, Floor(ls, h, cap), cap);
    MergedLinked(st, ls[h], ls[h + 1], q, d, r, i);
    MergedFlat(st, ls[h], ls[h + 1], q, d, r, i);
  }

  lemma MergedAbove(st: Store, ls: Levels, cap: nat, h: nat, q: nat, d: nat, r: nat, i: nat)
    requires MergeSpot(st, ls, h, q, d, r, i) && LevelGood(st, ls, cap, NoHole, h + 1)
    ensures LevelBut(MergedAt(st, ls, h, q, d, r, i), ls[h := Without(ls[h], q)], cap, h + 1, r,
      |st[ls[h + 1][r]].kids| - 1)
  {
    MergedUp(st, ls[h], ls[h + 1], q, d, r, i, Floor(ls, h + 1, cap), cap);
    MergedUpFlat(st, ls[h], ls[h + 1], q, d, r, i);
    LinkedBySame(st, MergedAt(st, ls, h, q, d, r, i), ls[h + 1], ls[h + 1]);
  }

  lemma MergedElsewhere(st: Store, ls: Levels, cap: nat, h: nat, q: nat, d: nat, r: nat, i: nat, g: nat)
    requires MergeSpot(st, ls, h, q, d, r, i) && Distinct(ls) && g < |ls| && g != h && g != h + 1
    requires LevelGood(st, ls, cap, NoHole, g)
    ensures SameOn(st, MergedAt(st, ls, h, q, d, r, i), ls[g])
    ensures LevelGood(MergedAt(st, ls, h, q, d, r, i), ls[h := Without(ls[h], q)], cap, NoHole, g)
  {
    var st', ls' := MergedAt(st, ls, h, q, d, r, i), ls[h := Without(ls[h], q)];
    NotInLevel(ls, h + 1, r, g);
    forall j | 0 <= j < |ls[g]| ensures ls[g][j] in st' && st'[ls[g][j]] == st[ls[g][j]] {
      NotInLevel(ls, g, j, h);
      assert ls[h][q] in ls[h];
      MergedElse(st, ls[h], ls[h + 1], q, d, r, i, ls[g][j]);
    }
    LevelFrame(st, st', ls, ls', cap, NoHole, NoHole, g);
  }

  /** Merging a node away repairs its level and moves the question to its parent. */
  lemma MergeShape(st: Store, ls: Levels, cap: nat, h: nat, q: nat, c: nat, d: nat, r: nat, i: nat)
    requires ShapeBut(st, ls, cap, h, q, c) && MergeSpot(st, ls, h, q, d, r, i) && Count(st[ls[h][d]]) + c <= cap
    ensures ShapeBut(MergedAt(st, ls, h, q, d, r, i), ls[h := Without(ls[h], q)], cap, h + 1, r,
      |st[ls[h + 1][r]].kids| - 1)
    ensures FlatE(MergedAt(st, ls, h, q, d, r, i), Without(ls[h], q)) == FlatE(st, ls[h])
    ensures forall g :: h + 1 < g < |ls| ==> SameOn(st, MergedAt(st, ls, h, q, d, r, i), ls[g])
  {
    var st', ls' := MergedAt(st, ls, h, q, d, r, i), ls[h := Without(ls[h], q)];
    DistinctWithout(ls, h, q);
    MergedHere(st, ls, cap, h, q, c, d, r, i);
    MergedAbove(st, ls, cap, h, q, d, r, i);
    forall g | 0 <= g < |ls| && g != h + 1
      ensures LevelGood(st', ls', cap, NoHole, g) && (g > h + 1 ==> SameOn(st, st', ls[g]))
    {
      if g != h {
        assert LevelGood(st, ls, cap, NoHole, g);
        MergedElsewhere(st, ls, cap, h, q, d, r, i, g);
      }
    }
  }

  // ---------------------------------------------------------------- evening out two siblings

  /** base_node_t::balance on adjacent siblings x, y: together they keep their content, x the
      first k members of it. */
  function Rebalance(st: Store, x: Id, y: Id, k: nat): Store
    requires x in st && y in st && x != y && st[x].Leaf? == st[y].Leaf? && k <= Count(st[x]) + Count(st[y])
  {
    match st[x]
    case Leaf(_, _, _, _) =>
      var c := st[x].entries + st[y].entries;
      st[x := st[x].(entries := c[..k])][y := st[y].(entries := c[k..])]
    case Inner(_, _, _) =>
      var c := st[x].kids + st[y].kids;
      st[x := st[x].(kids := c[..k])][y := st[y].(kids := c[k..])]
  }

  lemma RebalanceContent(st: Store, x: Id, y: Id, k: nat)
    requires x in st && y in st && x != y && st[x].Leaf? == st[y].Leaf? && k <= Count(st[x]) + Count(st[y])
    ensures var st' := Rebalance(st, x, y, k);
      && KidsOf(st', x) + KidsOf(st', y) == KidsOf(st, x) + KidsOf(st, y)
      && EntriesOf(st', x) + EntriesOf(st', y) == EntriesOf(st, x) + EntriesOf(st, y)
      && Count(st'[x]) == k && Count(st'[y]) == Count(st[x]) + Count(st[y]) - k
      && st'[x].Leaf? == st[x].Leaf? && st'[y].Leaf? == st[y].Leaf?
      && st'[x].left == st[x].left && st'[x].right == st[x].right && st'[y].left == st[y].left
        && st'[y].right == st[y].right
  {
  }

  ghost predicate SameStuff(st: Store, st': Store, l: seq<Id>) {
    forall i :: 0 <= i < |l| ==> KidsOf(st, l[i]) == KidsOf(st', l[i]) && EntriesOf(st, l[i]) == EntriesOf(st', l[i])
  }

  lemma PairFlatSame(st: Store, st': Store, a: seq<Id>, x: Id, y: Id, b: seq<Id>)
    requires SameStuff(st, st', a) && SameStuff(st, st', b)
    requires KidsOf(st', x) + KidsOf(st', y) == KidsOf(st, x) + KidsOf(st, y)
    requires EntriesOf(st', x) + EntriesOf(st', y) == EntriesOf(st, x) + EntriesOf(st, y)
    ensures Flat(st', a + [x, y] + b) == Flat(st, a + [x, y] + b)
    ensures FlatE(st', a + [x, y] + b) == FlatE(st, a + [x, y] + b)
  {
    FlatSame(st, st', a);
    FlatSame(st, st', b);
    FlatESame(st, st', a);
    FlatESame(st, st', b);
    FlatPair(st, a, x, y, b);
    FlatPair(st', a, x, y, b);
    FlatEPair(st, a, x, y, b);
    FlatEPair(st', a, x, y, b);
  }

  lemma RebalanceAway(st: Store, l: seq<Id>, m: nat, k: nat, w: seq<Id>)
    requires m + 1 < |l| && l[m] in st && l[m + 1] in st && st[l[m]].Leaf? == st[l[m + 1]].Leaf? && l[m] != l[m + 1]
    requires k <= Count(st[l[m]]) + Count(st[l[m + 1]]) && l[m] !in w && l[m + 1] !in w
    ensures SameStuff(st, Rebalance(st, l[m], l[m + 1], k), w)
  {
  }

  lemma RebalanceFlat(st: Store, l: seq<Id>, m: nat, k: nat)
    requires NoDup(l) && m + 1 < |l| && l[m] in st && l[m + 1] in st && st[l[m]].Leaf? == st[l[m + 1]].Leaf?
    requires k <= Count(st[l[m]]) + Count(st[l[m + 1]])
    ensures l[m] != l[m + 1]
    ensures var st' := Rebalance(st, l[m], l[m + 1], k); Flat(st', l) == Flat(st, l) && FlatE(st', l) == FlatE(st, l)
  {
    AwayFromPair(l, m, m + 1, m, l[..m], l[m + 2..]);
    RebalanceContent(st, l[m], l[m + 1], k);
    RebalanceAway(st, l, m, k, l[..m]);
    RebalanceAway(st, l, m, k, l[m + 2..]);
    AroundPair(l, m, m + 1, m);
    PairFlatSame(st, Rebalance(st, l[m], l[m + 1], k), l[..m], l[m], l[m + 1], l[m + 2..]);
  }

  lemma RebalanceLevel(st: Store, l: seq<Id>, m: nat, k: nat, q: nat, c: nat, leaf: bool, lo: nat, cap: nat)
    requires NoDup(l) && m + 1 < |l| && LevelOk(st, l, leaf) && Linked(st, l) && SizedBut(st, l, q, c, lo, cap)
    requires q == m || q == m + 1
    requires 0 < lo <= k <= cap && lo <= Count(st[l[m]]) + Count(st[l[m + 1]]) - k <= cap
    ensures l[m] != l[m + 1]
    ensures var st' := Rebalance(st, l[m], l[m + 1], k);
      LevelOk(st', l, leaf) && Linked(st', l) && LevelSized(st', l, lo, cap)
  {
    assert l[m] != l[m + 1];
    var st' := Rebalance(st, l[m], l[m + 1], k);
    RebalanceContent(st, l[m], l[m + 1], k);
    forall i | 0 <= i < |l|
      ensures l[i] in st' && st'[l[i]].Leaf? == leaf && Count(st'[l[i]]) > 0 && lo <= CountOf(st', l[i]) <= cap
      ensures st'[l[i]].left == st[l[i]].left && st'[l[i]].right == st[l[i]].right
    {
      if i != m && i != m + 1 { assert l[i] != l[m] && l[i] != l[m + 1]; }
    }
    LinkedBySame(st, st', l, l);
  }

  lemma RebalanceOther(st: Store, ls: Levels, h: nat, m: nat, k: nat, g: nat)
    requires Distinct(ls) && h < |ls| && g < |ls| && g != h && m + 1 < |ls[h]|
    requires ls[h][m] in st && ls[h][m + 1] in st && ls[h][m] != ls[h][m + 1]
      && st[ls[h][m]].Leaf? == st[ls[h][m + 1]].Leaf?
    requires k <= Count(st[ls[h][m]]) + Count(st[ls[h][m + 1]]) && forall i :: 0 <= i < |ls[g]| ==> ls[g][i] in st
    ensures SameOn(st, Rebalance(st, ls[h][m], ls[h][m + 1], k), ls[g])
  {
    NotInLevel(ls, h, m, g);
    NotInLevel(ls, h, m + 1, g);
  }

  lemma PairIn(st: Store, ls: Levels, cap: nat, h: nat, q: nat, c: nat, m: nat)
    requires ShapeBut(st, ls, cap, h, q, c) && m + 1 < |ls[h]|
    ensures ls[h][m] in st && ls[h][m + 1] in st && st[ls[h][m]].Leaf? == st[ls[h][m + 1]].Leaf?
      && ls[h][m] != ls[h][m + 1]
  {
  }

  /** Borrowing from a sibling mends the tree: no level gains or loses a node. */
  lemma RebalanceShape(st: Store, ls: Levels, cap: nat, h: nat, q: nat, c: nat, m: nat, k: nat)
    requires ShapeBut(st, ls, cap, h, q, c) && h + 1 < |ls| && m + 1 < |ls[h]| && (q == m || q == m + 1) && cap >= 4
    requires ls[h][m] in st && ls[h][m + 1] in st && st[ls[h][m]].Leaf? == st[ls[h][m + 1]].Leaf?
      && ls[h][m] != ls[h][m + 1]
    requires cap / 4 <= k <= cap && cap / 4 <= Count(st[ls[h][m]]) + Count(st[ls[h][m + 1]]) - k <= cap
    ensures var st' := Rebalance(st, ls[h][m], ls[h][m + 1], k);
      Shape(st', ls, cap, NoHole) && FlatE(st', ls[0]) == FlatE(st, ls[0])
  {
    var st' := Rebalance(st, ls[h][m], ls[h][m + 1], k);
    RebalanceLevel(st, ls[h], m, k, q, c, h == 0, cap / 4, cap);
    RebalanceFlat(st, ls[h], m, k);
    forall g | 0 <= g < |ls| ensures LevelGood(st', ls, cap, NoHole, g) && FlatE(st', ls[g]) == FlatE(st, ls[g]) {
      if g != h {
        assert LevelGood(st, ls, cap, NoHole, g);
        RebalanceOther(st, ls, h, m, k, g);
        SameOnFlat(st, st', ls[g]);
        LevelFrame(st, st', ls, ls, cap, NoHole, NoHole, g);
      }
    }
  }

  // ---------------------------------------------------------------- the root gives way

  lemma CollapseLevel(st: Store, ls: Levels, cap: nat, top: nat, root: Id, g: nat)
    requires |ls| == top + 1 && g < top && LevelGood(st, ls, cap, NoHole, g) && root !in ls[g] && cap >= 8
    ensures LevelGood(st - {root}, ls[..top], cap, NoHole, g) && SameOn(st, st - {root}, ls[g])
  {
    var st', ls' := st - {root}, ls[..top];
    SameOnFlat(st, st', ls[g]);
    LinkedBySame(st, st', ls[g], ls[g]);
    assert Floor(ls', g, cap) <= Floor(ls, g, cap);
  }

  /** A root with a single child is replaced by that child. */
  lemma CollapseShape(st: Store, ls: Levels, cap: nat, top: nat, root: Id)
    requires 0 < top && |ls| == top + 1 && ShapeBut(st, ls, cap, top, 0, 1) && ls[top] == [root] && cap >= 8
    ensures |KidsOf(st, root)| == 1 && ls[top - 1] == [KidsOf(st, root)[0]]
    ensures Shape(st - {root}, ls[..top], cap, NoHole) && FlatE(st - {root}, ls[0]) == FlatE(st, ls[0])
  {
    assert CountOf(st, ls[top][0]) == 1;
    FlatOne(st, root);
    assert KidsOf(st, root) == [KidsOf(st, root)[0]];
    forall g | 0 <= g < top ensures LevelGood(st - {root}, ls[..top], cap, NoHole, g)
        && SameOn(st, st - {root}, ls[g]) {
      assert LevelGood(st, ls, cap, NoHole, g);
      NotInLevel(ls, top, 0, g);
      CollapseLevel(st, ls, cap, top, root, g);
    }
    SameOnFlat(st, st - {root}, ls[0]);
  }
}
