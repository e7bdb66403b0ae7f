/** The growing half of the tree: splitting nodes and hanging the new half in. */
module TreeInsert {
  import opened Wrappers
  import opened NodeStore

  /** Two stores that agree on everything but sibling pointers. */
  ghost predicate SameContent(st: Store, st': Store) {
    && st.Keys == st'.Keys
    && forall x :: x in st ==> st'[x] == st[x].(left := st'[x].left, right := st'[x].right)
  }

  /** Hang `ins` between its two neighbours (inner_node_t::insert, the pointer part). */
  function Relink(st: Store, prv: Option<Id>, ins: Id, nxt: Option<Id>): Store
    requires ins in st
  {
    var s1 := st[ins := st[ins].(left := prv, right := nxt)];
    var s2 := if prv.Some? && prv.value in s1 then s1[prv.value := s1[prv.value].(right := Some(ins))] else s1;
    if nxt.Some? && nxt.value in s2 then s2[nxt.value := s2[nxt.value].(left := Some(ins))] else s2
  }

  lemma RelinkContent(st: Store, prv: Option<Id>, ins: Id, nxt: Option<Id>)
    requires ins in st
    ensures SameContent(st, Relink(st, prv, ins, nxt))
    ensures forall x :: x in st && x != ins && prv != Some(x) && nxt != Some(x) ==>
      Relink(st, prv, ins, nxt)[x] == st[x]
  {
  }

  lemma RelinkAt(st: Store, prv: Option<Id>, ins: Id, nxt: Option<Id>, x: Id)
    requires ins in st && prv != Some(ins) && nxt != Some(ins) && x in st
    ensures x in Relink(st, prv, ins, nxt)
    ensures Relink(st, prv, ins, nxt)[x].left ==
      if x == ins then prv else if nxt == Some(x) then Some(ins) else st[x].left
    ensures Relink(st, prv, ins, nxt)[x].right ==
      if x == ins then nxt else if prv == Some(x) then Some(ins) else st[x].right
  {
  }

  lemma RelinkLinked(st: Store, l: seq<Id>, q: nat, ins: Id)
    requires Linked(st, l) && NoDup(l) && q < |l| && ins in st && ins !in l
    ensures Linked(Relink(st, Some(l[q]), ins, After(l, q)), Insert(l, q + 1, ins))
  {
    var st', l' := Relink(st, Some(l[q]), ins, After(l, q)), Insert(l, q + 1, ins);
    forall i | 0 <= i < |l'| ensures LinkedAt(st', l', i) {
      var o := if i <= q then i else i - 1;
      assert LinkedAt(st, l, o);
      assert i != q + 1 ==> l'[i] == l[o];
      RelinkAt(st, Some(l[q]), ins, After(l, q), l'[i]);
    }
  }

  lemma SameContentFlat(st: Store, st': Store, l: seq<Id>)
    requires SameContent(st, st')
    ensures Flat(st', l) == Flat(st, l) && FlatE(st', l) == FlatE(st, l)
    ensures forall leaf :: LevelOk(st, l, leaf) ==> LevelOk(st', l, leaf)
    ensures forall i :: 0 <= i < |l| ==> CountOf(st', l[i]) == CountOf(st, l[i])
  {
    FlatSame(st, st', l);
    FlatESame(st, st', l);
  }

  // ---------------------------------------------------------------- the steps of the cascade

  /** segment_tree_t::split on the leaf's groups: the upper half moves to a new leaf. */
  function SplitLeaf(st: Store, id: Id, new_: Id, file: nat): Store
    requires id in st && st[id].Leaf?
  {
    var es := st[id].entries;
    var keep := |es| - |es| / 2;
    st[id := st[id].(entries := es[..keep])][new_ := Leaf(es[keep..], file, None, None)]
  }

  /** inner_node_t::split: the upper half of the children moves to a new node. */
  function SplitInner(st: Store, id: Id, new_: Id): Store
    requires id in st && st[id].Inner?
  {
    var ks := st[id].kids;
    var keep := |ks| - |ks| / 2;
    st[id := st[id].(kids := ks[..keep])][new_ := Inner(ks[keep..], None, None)]
  }

  function AddKid(st: Store, p: Id, j: nat, ins: Id): Store
    requires p in st && st[p].Inner? && j <= |st[p].kids|
  {
    st[p := st[p].(kids := Insert(st[p].kids, j, ins))]
  }

  /** The neighbours that a node hung in at position j gets: those of the child it displaces,
      or those of the last child when it goes to the end. */
  function LeftOf(st: Store, ks: seq<Id>, j: nat): Option<Id>
    requires 0 < j <= |ks|
  {
    if j == |ks| then Some(ks[j - 1]) else if ks[j] in st then st[ks[j]].left else None
  }

  function RightOf(st: Store, ks: seq<Id>, j: nat): Option<Id>
    requires 0 < j <= |ks|
  {
    if j < |ks| then Some(ks[j]) else if ks[j - 1] in st then st[ks[j - 1]].right else None
  }

  /** inner_node_t::insert at the position lower_bound found. */
  function InsertChild(st: Store, p: Id, j: nat, ins: Id): Store
    requires p in st && st[p].Inner? && 0 < j <= |st[p].kids| && ins in st
  {
    var ks := st[p].kids;
    Relink(AddKid(st, p, j, ins), LeftOf(st, ks, j), ins, RightOf(st, ks, j))
  }

  /** They are the neighbours that the order of the level prescribes. */
  lemma NeighboursAgree(st: Store, lo: seq<Id>, ks: seq<Id>, s: nat, j: nat)
    requires Linked(st, lo) && 0 < j <= |ks| && s + |ks| <= |lo|
    requires forall a :: 0 <= a < |ks| ==> ks[a] == lo[s + a]
    ensures LeftOf(st, ks, j) == Some(lo[s + j - 1]) && RightOf(st, ks, j) == After(lo, s + j - 1)
  {
    assert ks[j - 1] == lo[s + j - 1] && LinkedAt(st, lo, s + j - 1);
    if j < |ks| { assert ks[j] == lo[s + j] && LinkedAt(st, lo, s + j); }
  }

  lemma NotIn(l: seq<Id>, r: nat)
    requires NoDup(l) && r < |l|
    ensures l[r] !in l[..r] && l[r] !in l[r + 1..]
  {
  }

  /** Two stores that agree on a list of nodes except at position r. */
  ghost predicate AgreeBut(st: Store, st': Store, l: seq<Id>, r: nat) {
    forall i :: 0 <= i < |l| && i != r ==>
      KidsOf(st, l[i]) == KidsOf(st', l[i]) && EntriesOf(st, l[i]) == EntriesOf(st', l[i])
  }

  lemma AgreeUpdate(st: Store, l: seq<Id>, r: nat, n: Node)
    requires NoDup(l) && r < |l|
    ensures AgreeBut(st, st[l[r] := n], l, r)
  {
  }

  lemma AgreeFresh(st: Store, st': Store, l: seq<Id>, r: nat, y: Id, n: Node)
    requires AgreeBut(st, st', l, r) && y !in l
    ensures AgreeBut(st, st'[y := n], l, r)
  {
  }

  lemma AgreeSlices(st: Store, st': Store, l: seq<Id>, r: nat)
    requires r < |l| && AgreeBut(st, st', l, r)
    ensures Flat(st', l[..r]) == Flat(st, l[..r]) && Flat(st', l[r + 1..]) == Flat(st, l[r + 1..])
    ensures FlatE(st', l[..r]) == FlatE(st, l[..r]) && FlatE(st', l[r + 1..]) == FlatE(st, l[r + 1..])
  {
    FlatSame(st, st', l[..r]);
    FlatSame(st, st', l[r + 1..]);
    FlatESame(st, st', l[..r]);
    FlatESame(st, st', l[r + 1..]);
  }

  lemma FlatPair(st: Store, a: seq<Id>, x: Id, y: Id, b: seq<Id>)
    ensures Flat(st, a + [x, y] + b) == Flat(st, a) + (KidsOf(st, x) + KidsOf(st, y)) + Flat(st, b)
  {
    FlatAdd(st, a + [x, y], b);
    FlatAdd(st, a, [x, y]);
    assert [x, y][1..] == [y];
    FlatOne(st, y);
  }

  lemma FlatEPair(st: Store, a: seq<Id>, x: Id, y: Id, b: seq<Id>)
    ensures FlatE(st, a + [x, y] + b) == FlatE(st, a) + (EntriesOf(st, x) + EntriesOf(st, y)) + FlatE(st, b)
  {
    FlatEAdd(st, a + [x, y], b);
    FlatEAdd(st, a, [x, y]);
    assert [x, y][1..] == [y];
    FlatOne(st, y);
  }

  lemma InsertAfter(l: seq<Id>, r: nat, y: Id)
    requires r < |l|
    ensures Insert(l, r + 1, y) == l[..r] + [l[r], y] + l[r + 1..]
  {
  }

  lemma InsertMiddle<T>(a: seq<T>, b: seq<T>, c: seq<T>, j: nat, x: T)
    requires j <= |b|
    ensures Insert(a + b + c, |a| + j, x) == a + Insert(b, j, x) + c
  {
  }

  /** Adding a child in one node adds it at the matching position of the level below. */
  lemma FlatAddKid(st: Store, l: seq<Id>, r: nat, j: nat, ins: Id)
    requires NoDup(l) && r < |l| && l[r] in st && st[l[r]].Inner? && j <= |st[l[r]].kids|
    ensures |Flat(st, l[..r])| + j <= |Flat(st, l)|
    ensures Flat(AddKid(st, l[r], j, ins), l) == Insert(Flat(st, l), |Flat(st, l[..r])| + j, ins)
  {
    var st' := AddKid(st, l[r], j, ins);
    AgreeUpdate(st, l, r, st'[l[r]]);
    AgreeSlices(st, st', l, r);
    FlatAt(st, l, r);
    FlatAt(st', l, r);
    InsertMiddle(Flat(st, l[..r]), st[l[r]].kids, Flat(st, l[r + 1..]), j, ins);
  }

  lemma SplitAgrees(st: Store, st': Store, l: seq<Id>, r: nat, n: Node, y: Id, m: Node)
    requires NoDup(l) && r < |l| && y !in l && st' == st[l[r] := n][y := m]
    ensures AgreeBut(st, st', l, r)
  {
    AgreeUpdate(st, l, r, n);
    AgreeFresh(st, st[l[r] := n], l, r, y, m);
  }

  lemma FlatReplace(st: Store, st': Store, l: seq<Id>, r: nat, y: Id)
    requires r < |l| && AgreeBut(st, st', l, r)
    requires KidsOf(st', l[r]) + KidsOf(st', y) == KidsOf(st, l[r])
    ensures Flat(st', l[..r] + [l[r], y] + l[r + 1..]) == Flat(st, l)
  {
    AgreeSlices(st, st', l, r);
    FlatPair(st', l[..r], l[r], y, l[r + 1..]);
    FlatAt(st, l, r);
  }

  /** Splitting a node leaves the level below as it was. */
  lemma FlatSplit(st: Store, l: seq<Id>, r: nat, new_: Id)
    requires NoDup(l) && r < |l| && l[r] in st && st[l[r]].Inner? && new_ !in l
    ensures Flat(SplitInner(st, l[r], new_), Insert(l, r + 1, new_)) == Flat(st, l)
  {
    var st' := SplitInner(st, l[r], new_);
    SplitAgrees(st, st', l, r, st'[l[r]], new_, st'[new_]);
    FlatReplace(st, st', l, r, new_);
    InsertAfter(l, r, new_);
  }

  lemma FlatESplit(st: Store, l: seq<Id>, r: nat, new_: Id, file: nat)
    requires NoDup(l) && r < |l| && l[r] in st && st[l[r]].Leaf? && new_ !in l
    ensures FlatE(SplitLeaf(st, l[r], new_, file), Insert(l, r + 1, new_)) == FlatE(st, l)
  {
    var st', es := SplitLeaf(st, l[r], new_, file), st[l[r]].entries;
    SplitAgrees(st, st', l, r, st'[l[r]], new_, st'[new_]);
    AgreeSlices(st, st', l, r);
    InsertAfter(l, r, new_);
    FlatEPair(st', l[..r], l[r], new_, l[r + 1..]);
    FlatEAt(st, l, r);
    assert EntriesOf(st', l[r]) + EntriesOf(st', new_) == es;
  }
}
