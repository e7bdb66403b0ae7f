/** The leaves of the tree and their segment trees. A leaf of the store has the groups it is meant to hold and the
    number of its file; beside the store is the segment tree of every leaf, with the places of its blocks, and the
    files. The tree is right if every segment tree is valid and holds those groups. */
module TreeLeaves {
  import opened Multimap
  import opened NodeStore
  import opened TreeInsert
  import Segments
  import opened BlockSpec
  import Balance = SegmentBalance
  import SegmentFile
  import LeafFile
  import LeafDisk
  import LeafGrow
  import LeafNode = Leaf

  type State = LeafFile.State
  type Leaves = map<Id, State>
  type Files = map<nat, LeafDisk.LeafDisk>

  function FileOf(st: Store, id: Id): nat {
    if id in st && st[id].Leaf? then st[id].file else 0
  }

  /** What is in a segment file; nothing if there is none. */
  function DataOf(files: Files, n: nat): seq<SegmentFile.Cell> { if n in files then files[n].data else [] }

  ghost predicate BackedAt(st: Store, lv: Leaves, files: Files, x: Id) {
    x in lv && LeafNode.Good(lv[x], EntriesOf(st, x), DataOf(files, FileOf(st, x)))
  }

  ghost predicate Backed(st: Store, lv: Leaves, files: Files, l: seq<Id>) {
    forall i {:trigger BackedAt(st, lv, files, l[i])} :: 0 <= i < |l| ==> BackedAt(st, lv, files, l[i])
  }

  /** The same segment trees, whatever of them is in memory. */
  ghost predicate SameTrees(lv: Leaves, lv': Leaves) {
    lv'.Keys == lv.Keys && forall x :: x in lv ==> lv'[x].tree == lv[x].tree
  }

  // ---------------------------------------------------------------- what becomes of blocks and marks

  /** Every block of the leaf y is one it had, where it was and marked as it was, or it is in memory and marked. */
  ghost predicate TracedTo(lv: Leaves, l: seq<Id>, s: State, y: Id) {
    (y in l && y in lv && LeafFile.Carried(lv[y], s)) || LeafFile.Carried(LeafFile.Empty(), s)
  }

  /** So it is with all leaves, but perhaps for x. */
  ghost predicate Traced(lv: Leaves, l: seq<Id>, lv': Leaves, l': seq<Id>, x: Id, all: bool) {
    forall y :: y in l' && (all || y != x) ==> y in lv' && TracedTo(lv, l, lv'[y], y)
  }

  ghost predicate Renews(lv: Leaves, l: seq<Id>, lv': Leaves, l': seq<Id>, all: bool) {
    exists x :: Traced(lv, l, lv', l', x, all)
  }

  lemma LeafSelf(st: Store, lv: Leaves, files: Files, l: seq<Id>, y: Id)
    requires Backed(st, lv, files, l) && y in l
    ensures y in lv && LeafFile.Carried(lv[y], lv[y])
  {
    var i :| 0 <= i < |l| && l[i] == y;
    assert BackedAt(st, lv, files, l[i]);
    LeafFile.CarriedSelf(lv[y]);
  }

  lemma TracedAny(lv: Leaves, l: seq<Id>, lv': Leaves, l': seq<Id>, x: Id, y: Id, all: bool)
    requires Traced(lv, l, lv', l', x, true)
    ensures Traced(lv, l, lv', l', y, all)
  {
  }

  /** No leaf changes. */
  lemma TracedSelf(st: Store, lv: Leaves, files: Files, l: seq<Id>, x: Id)
    requires Backed(st, lv, files, l)
    ensures Traced(lv, l, lv, l, x, true)
  {
    forall y | y in l ensures y in lv && TracedTo(lv, l, lv[y], y) { LeafSelf(st, lv, files, l, y); }
  }

  /** One leaf changes, and some may go. */
  lemma TracedSome(st: Store, lv: Leaves, files: Files, l: seq<Id>, x: Id, s: State, l': seq<Id>)
    requires Backed(st, lv, files, l) && x in l && x in lv && LeafFile.Carried(lv[x], s)
    requires forall z :: z in l' ==> z in l
    ensures Traced(lv, l, lv[x := s], l', x, true)
  {
    TracedOne(st, lv, files, l, x, s);
  }

  /** One leaf changes. */
  lemma TracedOne(st: Store, lv: Leaves, files: Files, l: seq<Id>, x: Id, s: State)
    requires Backed(st, lv, files, l) && x in l && x in lv && LeafFile.Carried(lv[x], s)
    ensures Traced(lv, l, lv[x := s], l, x, true)
  {
    forall y | y in l ensures y in lv[x := s] && TracedTo(lv, l, lv[x := s][y], y) { LeafSelf(st, lv, files, l, y); }
  }

  /** Two leaves change, and some may go; for the second one nothing is said unless it is carried too. */
  lemma TracedTwo(st: Store, lv: Leaves, files: Files, l: seq<Id>, x: Id, s: State, y: Id, u: State, l': seq<Id>,
      all: bool)
    requires Backed(st, lv, files, l) && x != y && (forall z :: z in l' ==> z in l || z == x)
    requires TracedTo(lv, l, s, x) && (all ==> TracedTo(lv, l, u, y))
    ensures Traced(lv, l, Replaced(lv, x, s, y, u), l', y, all)
  {
    forall z | z in l' && (all || z != y)
      ensures var r := Replaced(lv, x, s, y, u); z in r && TracedTo(lv, l, r[z], z)
    {
      if z != x && z != y { LeafSelf(st, lv, files, l, z); }
    }
  }

  lemma TracedTrans(lv: Leaves, l: seq<Id>, lv1: Leaves, l1: seq<Id>, lv2: Leaves, l2: seq<Id>, x: Id, all: bool)
    requires Traced(lv, l, lv1, l1, x, true) && Traced(lv1, l1, lv2, l2, x, all)
    ensures Traced(lv, l, lv2, l2, x, all)
  {
    forall y | y in l2 && (all || y != x) ensures TracedTo(lv, l, lv2[y], y) {
      if !LeafFile.Carried(LeafFile.Empty(), lv2[y]) {
        if LeafFile.Carried(LeafFile.Empty(), lv1[y]) {
          LeafFile.CarriedTrans(LeafFile.Empty(), lv1[y], lv2[y]);
        } else {
          LeafFile.CarriedTrans(lv[y], lv1[y], lv2[y]);
        }
      }
    }
  }

  /** Every block of the leaf is in memory, and marked unless the file has it where it is. */
  ghost predicate CurrentAt(st: Store, lv: Leaves, files: Files, x: Id) {
    x in lv && LeafDisk.UpToDate(lv[x], DataOf(files, FileOf(st, x)))
  }

  ghost predicate AllCurrent(st: Store, lv: Leaves, files: Files, l: seq<Id>) {
    forall i {:trigger CurrentAt(st, lv, files, l[i])} :: 0 <= i < |l| ==> CurrentAt(st, lv, files, l[i])
  }

  /** Leaves that stay keep their files. */
  ghost predicate FilesKept(st: Store, l: seq<Id>, st': Store, l': seq<Id>) {
    forall y :: y in l && y in l' ==> FileOf(st', y) == FileOf(st, y)
  }

  /** If every block is accounted for, leaves that were so are so. */
  lemma CurrentStays(st: Store, lv: Leaves, files: Files, l: seq<Id>, st': Store, lv': Leaves, l': seq<Id>, x: Id)
    requires AllCurrent(st, lv, files, l) && Traced(lv, l, lv', l', x, true) && FilesKept(st, l, st', l')
    ensures AllCurrent(st', lv', files, l')
  {
    forall i | 0 <= i < |l'| ensures CurrentAt(st', lv', files, l'[i]) {
      var y := l'[i];
      var data := DataOf(files, FileOf(st', y));
      if LeafFile.Carried(LeafFile.Empty(), lv'[y]) {
        LeafDisk.StaysUpToDate(LeafFile.Empty(), lv'[y], data);
      } else {
        var n :| 0 <= n < |l| && l[n] == y;
        assert CurrentAt(st, lv, files, l[n]);
        LeafDisk.StaysUpToDate(lv[y], lv'[y], data);
      }
    }
  }

  /** In particular if one leaf changes like that. */
  lemma CurrentOne(st: Store, lv: Leaves, files: Files, l: seq<Id>, x: Id, s: State)
    requires Backed(st, lv, files, l) && x in l && x in lv && LeafFile.Carried(lv[x], s)
    ensures AllCurrent(st, lv, files, l) ==> AllCurrent(st, lv[x := s], files, l)
  {
    if AllCurrent(st, lv, files, l) {
      TracedOne(st, lv, files, l, x, s);
      CurrentStays(st, lv, files, l, st, lv[x := s], l, x);
    }
  }

  /** One leaf has more of its blocks in memory. */
  lemma LeafTouched(st: Store, lv: Leaves, files: Files, l: seq<Id>, q: nat, s: State)
    requires Backed(st, lv, files, l) && q < |l| && l[q] in lv && LeafFile.Carried(lv[l[q]], s)
    requires s.tree == lv[l[q]].tree && LeafNode.Good(s, EntriesOf(st, l[q]), DataOf(files, FileOf(st, l[q])))
    ensures Backed(st, lv[l[q] := s], files, l) && SameTrees(lv, lv[l[q] := s])
    ensures AllCurrent(st, lv, files, l) ==> AllCurrent(st, lv[l[q] := s], files, l)
  {
    StillBacked(st, lv, files, l, q, s);
    CurrentOne(st, lv, files, l, l[q], s);
  }

  /** Only what the leaves hold and where matters. */
  lemma SameBacked(st: Store, st': Store, lv: Leaves, files: Files, l: seq<Id>)
    requires forall i :: 0 <= i < |l| ==>
      EntriesOf(st', l[i]) == EntriesOf(st, l[i]) && FileOf(st', l[i]) == FileOf(st, l[i])
    ensures Backed(st', lv, files, l) <==> Backed(st, lv, files, l)
  {
    forall i | 0 <= i < |l| ensures BackedAt(st', lv, files, l[i]) <==> BackedAt(st, lv, files, l[i]) { }
  }

  /** A leaf that is as it was. */
  ghost predicate SameAt(st: Store, lv: Leaves, st': Store, lv': Leaves, x: Id) {
    && EntriesOf(st', x) == EntriesOf(st, x) && FileOf(st', x) == FileOf(st, x)
    && (x in lv ==> x in lv' && lv'[x] == lv[x])
  }

  lemma ElseBacked(st: Store, lv: Leaves, files: Files, x: Id, s: State, y: Id)
    requires BackedAt(st, lv, files, y) && y != x
    ensures BackedAt(st, lv[x := s], files, y)
  {
  }

  /** One leaf changes and is backed again. */
  lemma OneChanged(st: Store, st': Store, lv: Leaves, files: Files, l: seq<Id>, p: nat, s: State)
    requires Backed(st, lv, files, l) && p < |l|
    requires forall z :: z != l[p] ==> EntriesOf(st', z) == EntriesOf(st, z)
    requires forall z :: FileOf(st', z) == FileOf(st, z)
    requires LeafNode.Good(s, EntriesOf(st', l[p]), DataOf(files, FileOf(st, l[p])))
    ensures Backed(st', lv[l[p] := s], files, l)
  {
    forall i | 0 <= i < |l| ensures BackedAt(st', lv[l[p] := s], files, l[i]) {
      if l[i] != l[p] {
        assert BackedAt(st, lv, files, l[i]);
        ElseBacked(st, lv, files, l[p], s, l[i]);
      }
    }
  }

  /** One leaf stays backed with another state of the same groups. */
  lemma StillBacked(st: Store, lv: Leaves, files: Files, l: seq<Id>, p: nat, s: State)
    requires Backed(st, lv, files, l) && p < |l|
      && LeafNode.Good(s, EntriesOf(st, l[p]), DataOf(files, FileOf(st, l[p])))
    ensures Backed(st, lv[l[p] := s], files, l)
  {
    OneChanged(st, st, lv, files, l, p, s);
  }

  // ---------------------------------------------------------------- an item for a leaf with room

  function PutLeaf(st: Store, id: Id, k: Key, g: seq<Item>): Store
    requires id in st && st[id].Leaf?
  {
    st[id := st[id].(entries := Put(st[id].entries, k, g))]
  }

  /** segment_tree_t::append as the tree sees it: an item already stored under k is refused, any other joins
      the group of k at a place the tree does not control, or is dropped. */
  method AppendToLeaf(st: Store, id: Id, k: Key, item: Item, dropped: bool)
    returns (out: Outcome, st': Store, ghost at: nat)
    requires id in st && st[id].Leaf?
    ensures LeafAppended(st, st', id, k, item, out, at) && (out.Dropped? <==> !out.Refused? && dropped)
  {
    var g := Group(st[id].entries, k);
    at := 0;
    if item in g {
      return Refused, st, 0;
    }
    if dropped {
      return Dropped, st, 0;
    }
    var place: nat :| place <= |g|;
    out, st', at := Stored, PutLeaf(st, id, k, InsertAt(g, place, item)), place;
  }

  ghost predicate LeafAppended(st: Store, st': Store, id: Id, k: Key, item: Item, out: Outcome, at: nat)
    requires id in st && st[id].Leaf?
  {
    && out.Refused? == (item in Group(st[id].entries, k))
    && (!out.Stored? ==> st' == st)
    && (out.Stored? ==> at <= |Group(st[id].entries, k)|)
    && (out.Stored? ==> st' == PutLeaf(st, id, k, InsertAt(Group(st[id].entries, k), at, item)))
  }

  /** What the segment tree makes of it. */
  ghost predicate AppendedTo(s: State, s': State, c: seq<Entry>, data: seq<SegmentFile.Cell>, k: Key, item: Item,
      ok: bool, dropped: bool) {
    && ok == (item !in Group(c, k)) && (dropped <==> LeafGrow.Loses(s.tree.bs, k, item)) && (dropped ==> ok)
    && LeafGrow.Holds(s', c, data, k, item, ok, dropped)
  }

  method AppendState(s: State, k: Key, item: Item, ghost c: seq<Entry>, ghost data: seq<SegmentFile.Cell>)
    returns (ok: bool, dropped: bool, s': State)
    requires LeafNode.Good(s, c, data) && |item| > 0
    ensures AppendedTo(s, s', c, data, k, item, ok, dropped) && LeafFile.Carried(s, s')
  {
    ok, dropped, s' := LeafNode.Append(s, k, item, c, data);
  }

  /** A half or a leaf with the item, wherever in its group the item is put, holds what the store says. */
  lemma HoldsStored(s': State, c: seq<Entry>, data: seq<SegmentFile.Cell>, k: Key, item: Item, at: nat)
    requires Ordered(c) && Grouped(c) && at <= |Group(c, k)| && item !in Group(c, k)
    requires LeafNode.Good(s', LeafNode.WithItem(c, k, item), data)
    ensures LeafNode.Good(s', Put(c, k, InsertAt(Group(c, k), at, item)), data)
  {
    LeafNode.ListsAnywhere(c, k, item, at, SegmentsOf(s'));
  }

  ghost function SegmentsOf(s: State): multiset<(Key, Item)> { Segments.Pairs(s.tree.bs) }

  /** What the store says of the leaf then. */
  function AfterAppend(c: seq<Entry>, k: Key, item: Item, out: Outcome, at: nat): seq<Entry> {
    if out.Stored? && at <= |Group(c, k)| then Put(c, k, InsertAt(Group(c, k), at, item)) else c
  }

  lemma AppendedStore(st: Store, st': Store, x: Id, k: Key, item: Item, out: Outcome, at: nat)
    requires x in st && st[x].Leaf? && LeafAppended(st, st', x, k, item, out, at)
    ensures EntriesOf(st', x) == AfterAppend(st[x].entries, k, item, out, at)
    ensures forall y :: y != x ==> EntriesOf(st', y) == EntriesOf(st, y)
    ensures forall y :: FileOf(st', y) == FileOf(st, y)
  {
  }

  /** Its segment tree is valid and holds that unless the item is dropped. */
  lemma AppendedGood(s': State, c: seq<Entry>, data: seq<SegmentFile.Cell>, k: Key, item: Item, dropped: bool,
      out: Outcome, at: nat)
    requires Ordered(c) && Grouped(c) && out.Refused? == (item in Group(c, k)) && (out.Dropped? <==> dropped)
    requires (out.Stored? ==> at <= |Group(c, k)|)
    requires LeafGrow.Holds(s', c, data, k, item, !out.Refused?, dropped)
    ensures LeafNode.Good(s', AfterAppend(c, k, item, out, at), data) <==> !out.Dropped?
  {
    if out.Stored? { HoldsStored(s', c, data, k, item, at); }
    if out.Dropped? { NotGood(s', c, data); }
  }

  lemma NotGood(s: State, c: seq<Entry>, data: seq<SegmentFile.Cell>)
    requires !Balance.SoundTree(s.tree)
    ensures !LeafNode.Good(s, c, data)
  {
  }

  /** The leaf that gets the item is backed unless the item is dropped. */
  lemma AppendedAt(st: Store, st': Store, lv': Leaves, files: Files, x: Id, k: Key, item: Item, ok: bool, dropped: bool,
      out: Outcome, at: nat)
    requires x in st && st[x].Leaf? && Ordered(st[x].entries) && Grouped(st[x].entries) && x in lv'
    requires LeafAppended(st, st', x, k, item, out, at) && (dropped ==> ok)
    requires out.Dropped? <==> !out.Refused? && dropped
    requires ok == (item !in Group(st[x].entries, k))
    requires LeafGrow.Holds(lv'[x], st[x].entries, DataOf(files, st[x].file), k, item, ok, dropped)
    ensures BackedAt(st', lv', files, x) <==> !out.Dropped?
  {
    AppendedStore(st, st', x, k, item, out, at);
    AppendedGood(lv'[x], st[x].entries, DataOf(files, st[x].file), k, item, dropped, out, at);
  }

  /** Every leaf but one is backed. */
  ghost predicate BackedBut(st: Store, lv: Leaves, files: Files, l: seq<Id>, p: nat) {
    forall i {:trigger BackedAt(st, lv, files, l[i])} :: 0 <= i < |l| && i != p ==> BackedAt(st, lv, files, l[i])
  }

  /** So the tree is backed unless it is dropped. */
  lemma AppendBacked(st: Store, st': Store, lv': Leaves, files: Files, l: seq<Id>, p: nat, k: Key, item: Item, ok: bool,
      dropped: bool, out: Outcome, at: nat)
    requires p < |l| && NoDup(l) && l[p] in st && st[l[p]].Leaf? && Ordered(st[l[p]].entries)
      && Grouped(st[l[p]].entries)
    requires BackedBut(st, lv', files, l, p)
    requires LeafAppended(st, st', l[p], k, item, out, at) && l[p] in lv' && (dropped ==> ok)
    requires out.Dropped? <==> !out.Refused? && dropped
    requires ok == (item !in Group(st[l[p]].entries, k))
    requires LeafGrow.Holds(lv'[l[p]], st[l[p]].entries, DataOf(files, st[l[p]].file), k, item, ok, dropped)
    ensures ok == !out.Refused? && (Backed(st', lv', files, l) <==> !out.Dropped?)
  {
    AppendedStore(st, st', l[p], k, item, out, at);
    AppendedAt(st, st', lv', files, l[p], k, item, ok, dropped, out, at);
    OthersBacked(st, st', lv', files, l, p);
    OneDecides(st', lv', files, l, p);
  }

  lemma OthersBacked(st: Store, st': Store, lv: Leaves, files: Files, l: seq<Id>, p: nat)
    requires BackedBut(st, lv, files, l, p) && p < |l| && NoDup(l)
    requires forall y :: y != l[p] ==> EntriesOf(st', y) == EntriesOf(st, y)
    requires forall y :: FileOf(st', y) == FileOf(st, y)
    ensures BackedBut(st', lv, files, l, p)
  {
    forall i | 0 <= i < |l| && i != p ensures BackedAt(st', lv, files, l[i]) {
      assert BackedAt(st, lv, files, l[i]) && l[i] != l[p];
    }
  }

  lemma OneDecides(st: Store, lv: Leaves, files: Files, l: seq<Id>, p: nat)
    requires p < |l| && BackedBut(st, lv, files, l, p)
    ensures Backed(st, lv, files, l) <==> BackedAt(st, lv, files, l[p])
  {
  }

  // ---------------------------------------------------------------- an item for a full leaf

  /** Neither half of a leaf that was torn is both valid and right. */
  lemma TornBacked(st': Store, lv': Leaves, files: Files, l: seq<Id>, p: nat)
    requires p < |l| && l[p] in lv' && !Balance.SoundTree(lv'[l[p]].tree)
    ensures !Backed(st', lv', files, l)
  {
    assert !BackedAt(st', lv', files, l[p]);
  }

  lemma SplitStore(st: Store, leaf: Id, y: Id, file: nat, m: nat, n: nat)
    requires leaf in st && st[leaf].Leaf? && y != leaf && LeafGrow.UpperHalf(st[leaf].entries, m, n)
    ensures var s1, es := SplitLeaf(st, leaf, y, file), st[leaf].entries;
      && leaf in s1 && s1[leaf].Leaf? && y in s1 && s1[y].Leaf?
      && s1[leaf].entries == es[..m] && s1[y].entries == es[m..] && s1[leaf].file == st[leaf].file && s1[y].file == file
      && (forall x :: x != leaf && x != y ==> EntriesOf(s1, x) == EntriesOf(st, x) && FileOf(s1, x) == FileOf(st, x))
  {
    LeafFile.HalfOf(|st[leaf].entries|, n);
  }

  /** The segment trees with two of them replaced. */
  function Replaced(lv: Leaves, x: Id, s: State, y: Id, u: State): (r: Leaves)
    requires x != y
    ensures x in r && y in r && r[x] == s && r[y] == u && forall z :: z != x && z != y ==>
      (z in r <==> z in lv) && (z in lv ==> r[z] == lv[z])
  {
    lv[x := s][y := u]
  }

  /** The halves of a number. */
  lemma HalfNumbers(cap: nat) returns (m: nat, n: nat)
    ensures m + n == cap && (m == n || m == n + 1)
  {
    n := cap / 2;
    m := cap - n;
  }

  /** Where the item goes. */
  function Half(es: seq<Entry>, m: nat, k: Key, strictly: bool, leaf: Id, y: Id): Id
    requires m < |es|
  {
    if LeafGrow.GoesUp(es[m].key, k, strictly) then y else leaf
  }

  /** Apart from the two halves everything is as it was. */
  ghost predicate ElseSame(st: Store, lv: Leaves, s1: Store, lv': Leaves, x: Id, y: Id) {
    forall z :: z != x && z != y ==> SameAt(st, lv, s1, lv', z)
  }

  /** The halves of a leaf that is not torn, in the store and beside it: z is the one that does not get the item. */
  lemma HalvesBacked(st: Store, lv: Leaves, s1: Store, lv': Leaves, files: Files, l: seq<Id>, q: nat, y: Id, p: nat,
      z: Id)
    requires q < |l| && NoDup(l) && y !in l && Backed(st, lv, files, l) && ElseSame(st, lv, s1, lv', l[q], y)
    requires (p == q && z == y) || (p == q + 1 && z == l[q])
    requires BackedAt(s1, lv', files, z)
    ensures BackedBut(s1, lv', files, Insert(l, q + 1, y), p)
  {
    var l' := Insert(l, q + 1, y);
    forall i | 0 <= i < |l'| && i != p ensures BackedAt(s1, lv', files, l'[i]) {
      var x := l'[i];
      if x != z {
        InsertedElse(l, q, y, p, z, i);
        OtherBacked(st, lv, s1, lv', files, l, q, y, if i < q then i else i - 1);
      }
    }
  }

  lemma InsertedElse(l: seq<Id>, q: nat, y: Id, p: nat, z: Id, i: nat)
    requires q < |l| && i <= |l| && i != p && Insert(l, q + 1, y)[i] != z
    requires (p == q && z == y) || (p == q + 1 && z == l[q])
    ensures (i < q || i > q + 1) && Insert(l, q + 1, y)[i] == l[if i < q then i else i - 1]
  {
  }

  lemma OtherBacked(st: Store, lv: Leaves, s1: Store, lv': Leaves, files: Files, l: seq<Id>, q: nat, y: Id, o: nat)
    requires q < |l| && NoDup(l) && y !in l && Backed(st, lv, files, l) && ElseSame(st, lv, s1, lv', l[q], y)
    requires o < |l| && o != q
    ensures BackedAt(s1, lv', files, l[o])
  {
    assert BackedAt(st, lv, files, l[o]) && SameAt(st, lv, s1, lv', l[o]);
  }

  /** x is the half that gets the item. */
  lemma HalfBacked(st: Store, lv: Leaves, s1: Store, lv': Leaves, st': Store, files: Files, l: seq<Id>, q: nat, y: Id,
      p: nat, x: Id, z: Id, k: Key, item: Item, ok: bool, dropped: bool, out: Outcome, at: nat)
    requires q < |l| && NoDup(l) && y !in l && Backed(st, lv, files, l) && ElseSame(st, lv, s1, lv', l[q], y)
    requires (p == q && x == l[q] && z == y) || (p == q + 1 && x == y && z == l[q])
    requires BackedAt(s1, lv', files, z)
    requires x in s1 && s1[x].Leaf? && x in lv' && Ordered(s1[x].entries) && Grouped(s1[x].entries)
    requires LeafAppended(s1, st', x, k, item, out, at) && (dropped ==> ok)
    requires out.Dropped? <==> !out.Refused? && dropped
    requires ok == (item !in Group(s1[x].entries, k))
    requires LeafGrow.Holds(lv'[x], s1[x].entries, DataOf(files, s1[x].file), k, item, ok, dropped)
    ensures ok == !out.Refused? && (Backed(st', lv', files, Insert(l, q + 1, y)) <==> !out.Dropped?)
  {
    var l' := Insert(l, q + 1, y);
    assert l'[q] == l[q] && l'[q + 1] == y;
    InsertNoDup(l, q + 1, y);
    HalvesBacked(st, lv, s1, lv', files, l, q, y, p, z);
    AppendBacked(s1, st', lv', files, l', p, k, item, ok, dropped, out, at);
  }

  /** The store and the segment trees after the split, and what the leaf held. */
  ghost predicate Cloven(st: Store, lv: Leaves, s1: Store, lv': Leaves, x: Id, y: Id, es: seq<Entry>, m: nat,
      file: nat) {
    && m <= |es| && ElseSame(st, lv, s1, lv', x, y) && Ordered(es) && Grouped(es)
    && x in s1 && s1[x].Leaf? && y in s1 && s1[y].Leaf? && x in lv' && y in lv' && x in st && st[x].Leaf?
    && s1[x].entries == es[..m] && s1[y].entries == es[m..] && s1[x].file == st[x].file && s1[y].file == file
  }

  /** The tree is backed again unless the item is dropped. */
  lemma SplitWhole(st: Store, lv: Leaves, s1: Store, lv': Leaves, st': Store, files: Files, l: seq<Id>, q: nat, y: Id,
      es: seq<Entry>, m: nat, file: nat, k: Key, item: Item, strictly: bool, ok: bool, dropped: bool, out: Outcome,
      at: nat, target: seq<Blk>)
    requires q < |l| && NoDup(l) && y !in l && Backed(st, lv, files, l) && Cloven(st, lv, s1, lv', l[q], y, es, m, file)
    requires m < |es| && LeafAppended(s1, st', Half(es, m, k, strictly, l[q], y), k, item, out, at)
    requires out.Dropped? <==> !out.Refused? && dropped
    requires LeafGrow.Grew(lv'[l[q]], lv'[y], es, m, target, DataOf(files, st[l[q]].file), DataOf(files, file), k, item,
      strictly, ok, dropped, false)
    ensures Backed(st', lv', files, Insert(l, q + 1, y)) <==> !out.Dropped?
    ensures ok == !out.Refused? && (out.Dropped? <==> LeafGrow.Loses(target, k, item))
  {
    HalvesOrdered(es, m);
    if LeafGrow.GoesUp(es[m].key, k, strictly) {
      HalfBacked(st, lv, s1, lv', st', files, l, q, y, q + 1, y, l[q], k, item, ok, dropped, out, at);
    } else {
      HalfBacked(st, lv, s1, lv', st', files, l, q, y, q, l[q], y, k, item, ok, dropped, out, at);
    }
  }

  lemma HalvesOrdered(es: seq<Entry>, m: nat)
    requires Ordered(es) && Grouped(es) && m <= |es|
    ensures Ordered(es[..m]) && Grouped(es[..m]) && Ordered(es[m..]) && Grouped(es[m..])
  {
  }

  lemma InsertNoDup(l: seq<Id>, i: nat, y: Id)
    requires NoDup(l) && i <= |l| && y !in l
    ensures NoDup(Insert(l, i, y))
  {
  }

  // ---------------------------------------------------------------- what a caller can tell beforehand

  /** The leaf is full, and splitting it tears it. */
  ghost predicate Tears(s: State, cap: nat) { s.tree.uniques == cap && Balance.Torn(s.tree.bs, cap / 2) }

  /** The blocks that get the item: those of the leaf, or of one half if it is full. */
  function TargetOf(s: State, cap: nat, k: Key, strictly: bool): seq<Blk> {
    if s.tree.uniques == cap then LeafGrow.Target(s.tree.bs, cap / 2, k, strictly) else s.tree.bs
  }

  /** They lose the item. */
  ghost predicate Drops(s: State, cap: nat, k: Key, item: Item, strictly: bool) {
    LeafGrow.Loses(TargetOf(s, cap, k, strictly), k, item)
  }

  /** How an append ends on the segment trees. */
  ghost predicate Backs(st: Store, lv: Leaves, files: Files, l: seq<Id>, tears: bool, drops: bool, ok: bool,
      out: Outcome) {
    && (Backed(st, lv, files, l) <==> !tears && !out.Dropped?)
    && (!tears ==> ok == !out.Refused? && (out.Dropped? <==> drops))
  }

  /** All of it: whether every leaf is right, and which blocks and marks are left. */
  ghost predicate LeavesEnd(lv: Leaves, files: Files, l: seq<Id>, leaf: Id, cap: nat, k: Key, item: Item,
      strictly: bool, all: bool, st': Store, lv': Leaves, l': seq<Id>, ok: bool, out: Outcome) {
    && leaf in lv && Traced(lv, l, lv', l', leaf, all)
    && Backs(st', lv', files, l', Tears(lv[leaf], cap), Drops(lv[leaf], cap, k, item, strictly), ok, out)
  }

  /** A leaf that is not full neither tears nor has a half to choose. */
  lemma NotFull(s: State, c: seq<Entry>, cap: nat, k: Key, item: Item, strictly: bool)
    requires LeafNode.Of(s.tree, c) && |c| < cap
    ensures !Tears(s, cap) && (Drops(s, cap, k, item, strictly) <==> LeafGrow.Loses(s.tree.bs, k, item))
  {
    LeafNode.GroupCount(s.tree, c);
  }

  lemma IsFull(s: State, c: seq<Entry>, cap: nat, n: nat, k: Key, item: Item, strictly: bool)
    requires LeafNode.Of(s.tree, c) && |c| == cap && LeafFile.Half(cap, n)
    ensures Tears(s, cap) <==> Balance.Torn(s.tree.bs, n)
    ensures Drops(s, cap, k, item, strictly) <==> LeafGrow.Loses(LeafGrow.Target(s.tree.bs, n, k, strictly), k, item)
  {
    LeafNode.GroupCount(s.tree, c);
    LeafFile.HalfOf(cap, n);
  }

  lemma ButOne(st: Store, lv: Leaves, files: Files, l: seq<Id>, p: nat, s: State)
    requires Backed(st, lv, files, l) && NoDup(l) && p < |l|
    ensures BackedBut(st, lv[l[p] := s], files, l, p)
  {
    forall i | 0 <= i < |l| && i != p ensures BackedAt(st, lv[l[p] := s], files, l[i]) {
      ElseBacked(st, lv, files, l[p], s, l[i]);
    }
  }

  /** An append to a leaf with room. */
  lemma RoomBacks(st: Store, st': Store, lv: Leaves, s': State, files: Files, l: seq<Id>, p: nat, cap: nat, k: Key,
      item: Item, strictly: bool, ok: bool, dropped: bool, out: Outcome, at: nat)
    requires Backed(st, lv, files, l) && NoDup(l) && p < |l| && l[p] in st && st[l[p]].Leaf? && l[p] in lv
    requires Ordered(st[l[p]].entries) && Grouped(st[l[p]].entries) && |st[l[p]].entries| < cap
    requires AppendedTo(lv[l[p]], s', st[l[p]].entries, DataOf(files, st[l[p]].file), k, item, ok, dropped)
    requires LeafAppended(st, st', l[p], k, item, out, at) && (out.Dropped? <==> !out.Refused? && dropped)
    ensures Backs(st', lv[l[p] := s'], files, l, Tears(lv[l[p]], cap), Drops(lv[l[p]], cap, k, item, strictly), ok, out)
  {
    assert BackedAt(st, lv, files, l[p]);
    NotFull(lv[l[p]], st[l[p]].entries, cap, k, item, strictly);
    ButOne(st, lv, files, l, p, s');
    AppendBacked(st, st', lv[l[p] := s'], files, l, p, k, item, ok, dropped, out, at);
  }

  lemma ClovenHere(st: Store, lv: Leaves, leaf: Id, y: Id, file: nat, low: State, high: State, m: nat, n: nat)
    requires leaf in st && st[leaf].Leaf? && y != leaf && LeafGrow.UpperHalf(st[leaf].entries, m, n)
    requires Ordered(st[leaf].entries) && Grouped(st[leaf].entries)
    ensures Cloven(st, lv, SplitLeaf(st, leaf, y, file), Replaced(lv, leaf, low, y, high), leaf, y, st[leaf].entries, m,
      file)
  {
    SplitStore(st, leaf, y, file, m, n);
  }

  /** The segment trees and the store after an append to a full leaf. */
  lemma GrownBacks(st: Store, lv: Leaves, s1: Store, lv': Leaves, st': Store, files: Files, l: seq<Id>, q: nat, y: Id,
      es: seq<Entry>, m: nat, file: nat, k: Key, item: Item, strictly: bool, ok: bool, dropped: bool, out: Outcome,
      at: nat, target: seq<Blk>, torn: bool)
    requires q < |l| && NoDup(l) && y !in l && Backed(st, lv, files, l) && Cloven(st, lv, s1, lv', l[q], y, es, m, file)
    requires m < |es| && LeafAppended(s1, st', Half(es, m, k, strictly, l[q], y), k, item, out, at)
    requires out.Dropped? <==> !out.Refused? && dropped
    requires LeafGrow.Grew(lv'[l[q]], lv'[y], es, m, target, DataOf(files, st[l[q]].file), DataOf(files, file), k, item,
      strictly, ok, dropped, torn)
    ensures Backs(st', lv', files, Insert(l, q + 1, y), torn, LeafGrow.Loses(target, k, item), ok, out)
  {
    if torn {
      assert Insert(l, q + 1, y)[q] == l[q];
      TornBacked(st', lv', files, Insert(l, q + 1, y), q);
    } else {
      SplitWhole(st, lv, s1, lv', st', files, l, q, y, es, m, file, k, item, strictly, ok, dropped, out, at, target);
    }
  }

  /** The same, said of the leaf before. */
  lemma FullBacks(st: Store, lv: Leaves, s1: Store, lv': Leaves, st': Store, files: Files, l: seq<Id>, q: nat, y: Id,
      es: seq<Entry>, m: nat, n: nat, file: nat, cap: nat, k: Key, item: Item, strictly: bool, ok: bool, dropped: bool,
      out: Outcome, at: nat)
    requires q < |l| && NoDup(l) && y !in l && Backed(st, lv, files, l) && Cloven(st, lv, s1, lv', l[q], y, es, m, file)
    requires l[q] in lv && LeafNode.Of(lv[l[q]].tree, es) && LeafGrow.UpperHalf(es, m, n) && |es| == cap
    requires LeafAppended(s1, st', Half(es, m, k, strictly, l[q], y), k, item, out, at)
    requires out.Dropped? <==> !out.Refused? && dropped
    requires LeafGrow.GrewFull(lv[l[q]], lv'[l[q]], lv'[y], es, m, n, DataOf(files, st[l[q]].file), DataOf(files, file),
      k, item, strictly, ok, dropped)
    ensures Backs(st', lv', files, Insert(l, q + 1, y), Tears(lv[l[q]], cap), Drops(lv[l[q]], cap, k, item, strictly),
      ok, out)
  {
    IsFull(lv[l[q]], es, cap, n, k, item, strictly);
    GrownBacks(st, lv, s1, lv', st', files, l, q, y, es, m, file, k, item, strictly, ok, dropped, out, at,
        LeafGrow.Target(lv[l[q]].tree.bs, n, k, strictly), Balance.Torn(lv[l[q]].tree.bs, n));
  }

  /** The comparison with the smallest index of the new leaf is that with the first group of the upper half. */
  lemma TargetHalf(st: Store, leaf: Id, y: Id, file: nat, m: nat, n: nat, k: Key, strictly: bool)
    requires leaf in st && st[leaf].Leaf? && y != leaf && LeafGrow.UpperHalf(st[leaf].entries, m, n)
    ensures m < |st[leaf].entries|
    ensures var s1 := SplitLeaf(st, leaf, y, file);
      && y in s1 && s1[y].Leaf? && s1[y].entries != [] && s1[y].entries[0].key == st[leaf].entries[m].key
  {
    SplitStore(st, leaf, y, file, m, n);
  }
}
