/** Merging and evening out two neighbouring leaves, on their segment trees. */
module LeafRepair {
  import opened Multimap
  import opened NodeStore
  import opened TreeInsert
  import opened TreeShrink
  import Balance = SegmentBalance
  import SegmentFile
  import LeafNode = Leaf
  import opened TreeLeaves

  // ---------------------------------------------------------------- what the store says

  /** Neighbouring leaves of an ordered tree lie apart, in their order. */
  lemma LeavesApart(st: Store, l: seq<Id>, q: nat, d: nat)
    requires LevelOk(st, l, true) && Ordered(FlatE(st, l)) && q < |l| && d < |l| && q != d
    ensures LeafNode.LiesBelow(EntriesOf(st, l[q]), EntriesOf(st, l[d])) <==> q < d
    ensures LeafNode.Apart(EntriesOf(st, l[q]), EntriesOf(st, l[d]))
  {
    var a, b := EntriesOf(st, l[q]), EntriesOf(st, l[d]);
    if q < d {
      LeafBefore(st, l, q, d, |a| - 1, 0);
    } else {
      LeafBefore(st, l, d, q, |b| - 1, 0);
      LeafBefore(st, l, d, q, 0, |a| - 1);
    }
  }

  /** All leaves but the named two are as they were, and no leaf but x changes its file. */
  ghost predicate OthersSame(st: Store, st': Store, x: Id, y: Id) {
    && (forall z :: z != x && z != y ==> EntriesOf(st', z) == EntriesOf(st, z))
    && (forall z :: z != x ==> FileOf(st', z) == FileOf(st, z))
  }

  lemma UnlinkEntries(st: Store, x: Id)
    requires x in st
    ensures forall z :: z != x ==>
      EntriesOf(Unlink(st, x), z) == EntriesOf(st, z) && FileOf(Unlink(st, x), z) == FileOf(st, z)
  {
  }

  /** The groups of both leaves, in order. */
  function Absorbed(st: Store, dst: Id, src: Id, front: bool): seq<Entry> {
    if front then EntriesOf(st, src) + EntriesOf(st, dst) else EntriesOf(st, dst) + EntriesOf(st, src)
  }

  lemma AbsorbEntries(st: Store, p: Id, i: nat, dst: Id, src: Id, front: bool)
    requires p in st && st[p].Inner? && i < |st[p].kids| && dst in st && src in st && p != dst && p != src && dst != src
    ensures var s1 := DropKid(st[dst := Absorb(st[dst], st[src], front)], p, i);
      && OthersSame(st, s1, src, dst) && src in s1
      && (st[dst].Leaf? && st[src].Leaf? ==> EntriesOf(s1, dst) == Absorbed(st, dst, src, front))
      && (st[dst].Inner? ==> EntriesOf(s1, dst) == EntriesOf(st, dst))
  {
  }

  /** What a merge makes of the leaves. */
  lemma MergeEntries(st: Store, p: Id, i: nat, dst: Id, src: Id, front: bool)
    requires p in st && st[p].Inner? && i < |st[p].kids| && dst in st && src in st && p != dst && p != src && dst != src
    ensures var st' := MergeRemove(st, p, i, dst, src, front);
      && OthersSame(st, st', src, dst)
      && (st[dst].Leaf? && st[src].Leaf? ==> EntriesOf(st', dst) == Absorbed(st, dst, src, front))
      && (st[dst].Inner? ==> EntriesOf(st', dst) == EntriesOf(st, dst))
  {
    AbsorbEntries(st, p, i, dst, src, front);
    UnlinkEntries(DropKid(st[dst := Absorb(st[dst], st[src], front)], p, i), src);
  }

  /** And what a rebalancing does. */
  lemma RebalanceEntries(st: Store, x: Id, y: Id, k: nat)
    requires x in st && y in st && x != y && st[x].Leaf? == st[y].Leaf? && k <= Count(st[x]) + Count(st[y])
    ensures var st' := Rebalance(st, x, y, k); var c := EntriesOf(st, x) + EntriesOf(st, y);
      && (forall z :: z != x && z != y ==> EntriesOf(st', z) == EntriesOf(st, z))
      && (forall z :: FileOf(st', z) == FileOf(st, z))
      && (st[x].Leaf? ==> k <= |c| && EntriesOf(st', x) == c[..k] && EntriesOf(st', y) == c[k..])
      && (st[x].Inner? ==> forall z :: EntriesOf(st', z) == EntriesOf(st, z))
  {
  }

  // ---------------------------------------------------------------- merging

  /** leaf_node_t::merge: the leaf at d takes over the groups of the one at q. */
  method MergeStates(st: Store, lv: Leaves, files: Files, dst: Id, src: Id, ghost l: seq<Id>, ghost q: nat,
      ghost d: nat)
    returns (s: State)
    requires LevelOk(st, l, true) && Ordered(FlatE(st, l)) && q < |l| && d < |l| && q != d
    requires l[q] == src && l[d] == dst && Backed(st, lv, files, l)
    ensures LeafNode.Good(s, Absorbed(st, dst, src, q < d), DataOf(files, FileOf(st, dst)))
    ensures dst in lv && LeafFile.Carried(lv[dst], s)
  {
    assert BackedAt(st, lv, files, l[q]) && BackedAt(st, lv, files, l[d]);
    LeavesApart(st, l, d, q);
    s := LeafNode.Merge(lv[dst], lv[src], EntriesOf(st, dst), EntriesOf(st, src), DataOf(files, FileOf(st, dst)),
        DataOf(files, FileOf(st, src)));
  }

  lemma MergedBacked(st: Store, st': Store, lv: Leaves, files: Files, l: seq<Id>, q: nat, d: nat, s: State)
    requires Backed(st, lv, files, l) && NoDup(l) && q < |l| && d < |l| && q != d && OthersSame(st, st', l[q], l[d])
    requires LeafNode.Good(s, EntriesOf(st', l[d]), DataOf(files, FileOf(st, l[d])))
    ensures Backed(st', lv[l[d] := s], files, Without(l, q))
  {
    var w := Without(l, q);
    forall i | 0 <= i < |w| ensures BackedAt(st', lv[l[d] := s], files, w[i]) {
      var o := if i < q then i else i + 1;
      assert w[i] == l[o] && l[o] != l[q];
      if o != d { KeptBacked(st, st', lv, files, l, q, d, s, o); }
    }
  }

  lemma KeptBacked(st: Store, st': Store, lv: Leaves, files: Files, l: seq<Id>, q: nat, d: nat, s: State, o: nat)
    requires Backed(st, lv, files, l) && NoDup(l) && q < |l| && d < |l| && OthersSame(st, st', l[q], l[d])
    requires o < |l| && o != q && o != d
    ensures BackedAt(st', lv[l[d] := s], files, l[o])
  {
    assert BackedAt(st, lv, files, l[o]) && l[o] != l[d] && l[o] != l[q];
  }

  // ---------------------------------------------------------------- evening out

  /** The neighbour is torn when it lends its largest indices, so many that the other leaf has n. */
  ghost predicate TornLend(st: Store, lv: Leaves, cur: Id, nb: Id, n: nat)
    requires nb in lv
  {
    Balance.Torn(lv[nb].tree.bs, n - CountOf(st, cur))
  }

  /** leaf_node_t::balance of the smaller leaf at q with its neighbour at d. It goes wrong exactly if the neighbour
      lies below and is torn when its largest indices are taken. */
  method BalanceStates(st: Store, lv: Leaves, files: Files, cur: Id, nb: Id, ghost l: seq<Id>, ghost q: nat,
      ghost d: nat, ghost n: nat)
    returns (s: State, u: State)
    requires LevelOk(st, l, true) && Ordered(FlatE(st, l)) && q < |l| && d < |l| && q != d
    requires l[q] == cur && l[d] == nb && Backed(st, lv, files, l) && 0 < CountOf(st, cur) < CountOf(st, nb)
    requires LeafFile.Half(CountOf(st, cur) + CountOf(st, nb), n)
    ensures nb in lv && n <= |EntriesOf(st, cur)| + |EntriesOf(st, nb)|
    ensures LeafNode.Balanced(d < q && TornLend(st, lv, cur, nb, n), EntriesOf(st, cur), EntriesOf(st, nb), n, s.tree,
      u.tree)
    ensures LeafFile.Kept(s, DataOf(files, FileOf(st, cur))) && LeafFile.Kept(u, DataOf(files, FileOf(st, nb)))
    ensures cur in lv && LeafFile.Carried(lv[cur], s) && (q < d ==> LeafFile.Carried(lv[nb], u))
  {
    assert BackedAt(st, lv, files, l[q]) && BackedAt(st, lv, files, l[d]);
    LeavesApart(st, l, q, d);
    s, u := LeafNode.BalanceLeaves(lv[cur], lv[nb], EntriesOf(st, cur), EntriesOf(st, nb), n,
        DataOf(files, FileOf(st, cur)), DataOf(files, FileOf(st, nb)));
    LendTears(st, lv, cur, nb, EntriesOf(st, cur), EntriesOf(st, nb), n);
  }

  lemma LendTears(st: Store, lv: Leaves, cur: Id, nb: Id, a: seq<Entry>, b: seq<Entry>, n: nat)
    requires nb in lv && |a| == CountOf(st, cur)
    ensures LeafNode.Tears(lv[nb].tree, a, b, n) <==> !LeafNode.LiesBelow(a, b) && TornLend(st, lv, cur, nb, n)
  {
  }

  /** What the store says of the two. */
  ghost predicate Evened(st: Store, st': Store, cur: Id, nb: Id, n: nat) {
    var a, b := EntriesOf(st, cur), EntriesOf(st, nb);
    && n <= |a| + |b|
    && EntriesOf(st', cur) == LeafNode.FirstShare(a, b, n) && EntriesOf(st', nb) == LeafNode.OtherShare(a, b, n)
    && (forall z :: z != cur && z != nb ==> EntriesOf(st', z) == EntriesOf(st, z))
    && (forall z :: FileOf(st', z) == FileOf(st, z))
  }

  lemma EvenedGood(a: seq<Entry>, b: seq<Entry>, n: nat, s: State, u: State, data: seq<SegmentFile.Cell>,
      other: seq<SegmentFile.Cell>, torn: bool)
    requires n <= |a| + |b| && LeafNode.Balanced(torn, a, b, n, s.tree, u.tree)
    requires LeafFile.Kept(s, data) && LeafFile.Kept(u, other)
    ensures torn ==> !LeafNode.Good(u, LeafNode.OtherShare(a, b, n), other)
    ensures !torn ==> LeafNode.Good(s, LeafNode.FirstShare(a, b, n), data)
    ensures !torn ==> LeafNode.Good(u, LeafNode.OtherShare(a, b, n), other)
  {
  }

  lemma EvenedBacked(st: Store, st': Store, lv: Leaves, files: Files, l: seq<Id>, q: nat, d: nat, s: State, u: State,
      torn: bool)
    requires Backed(st, lv, files, l) && NoDup(l) && q < |l| && d < |l| && q != d
    requires forall z :: z != l[q] && z != l[d] ==> EntriesOf(st', z) == EntriesOf(st, z)
    requires forall z :: FileOf(st', z) == FileOf(st, z)
    requires torn ==> !LeafNode.Good(u, EntriesOf(st', l[d]), DataOf(files, FileOf(st, l[d])))
    requires !torn ==> LeafNode.Good(s, EntriesOf(st', l[q]), DataOf(files, FileOf(st, l[q])))
    requires !torn ==> LeafNode.Good(u, EntriesOf(st', l[d]), DataOf(files, FileOf(st, l[d])))
    ensures Backed(st', Replaced(lv, l[q], s, l[d], u), files, l) <==> !torn
  {
    var lv' := Replaced(lv, l[q], s, l[d], u);
    if torn {
      assert !BackedAt(st', lv', files, l[d]);
    } else {
      forall i | 0 <= i < |l| ensures BackedAt(st', lv', files, l[i]) {
        if i != q && i != d { StaysBacked(st, st', lv, files, l, q, d, s, u, i); }
      }
    }
  }

  lemma StaysBacked(st: Store, st': Store, lv: Leaves, files: Files, l: seq<Id>, q: nat, d: nat, s: State, u: State,
      o: nat)
    requires Backed(st, lv, files, l) && NoDup(l) && q < |l| && d < |l| && q != d && o < |l| && o != q && o != d
    requires forall z :: z != l[q] && z != l[d] ==> EntriesOf(st', z) == EntriesOf(st, z)
    requires forall z :: FileOf(st', z) == FileOf(st, z)
    ensures BackedAt(st', Replaced(lv, l[q], s, l[d], u), files, l[o])
  {
    assert BackedAt(st, lv, files, l[o]) && l[o] != l[d] && l[o] != l[q];
  }

  /** After evening out, the tree is backed unless the neighbour was torn. */
  lemma BalanceBacked(st: Store, st': Store, lv: Leaves, files: Files, l: seq<Id>, q: nat, d: nat, s: State, u: State,
      torn: bool, n: nat)
    requires NoDup(l) && q < |l| && d < |l| && q != d && Backed(st, lv, files, l) && Evened(st, st', l[q], l[d], n)
    requires LeafNode.Balanced(torn, EntriesOf(st, l[q]), EntriesOf(st, l[d]), n, s.tree, u.tree)
    requires LeafFile.Kept(s, DataOf(files, FileOf(st, l[q]))) && LeafFile.Kept(u, DataOf(files, FileOf(st, l[d])))
    ensures Backed(st', Replaced(lv, l[q], s, l[d], u), files, l) <==> !torn
  {
    EvenedGood(EntriesOf(st, l[q]), EntriesOf(st, l[d]), n, s, u, DataOf(files, FileOf(st, l[q])),
        DataOf(files, FileOf(st, l[d])), torn);
    EvenedBacked(st, st', lv, files, l, q, d, s, u, torn);
  }
}
