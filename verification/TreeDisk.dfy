/** btree_t::flush and load: the leaves go to their segment files in order, and the tree is rebuilt above them. */
module TreeDisk {
  import opened Wrappers
  import opened Multimap
  import opened NodeStore
  import opened TreeSearch
  import opened TreeLeaves
  import opened BlockSpec
  import Segments
  import LeafDisk
  import LeafNode = Leaf
  import opened LeafLoad
  import opened TreeAppend
  import opened TreeLoad
  import opened Intervals
  import opened B = BTree

  /** The metadata file: the number of items and the segment file of every leaf, in order. */
  datatype Meta = Meta(items: nat, ids: seq<nat>)

  datatype Disk = Disk(meta: Option<Meta>, files: Files)

  function Numbers(st: Store, l: seq<Id>): (r: seq<nat>)
    ensures |r| == |l| && forall i :: 0 <= i < |l| ==> r[i] == FileOf(st, l[i])
  {
    seq(|l|, i requires 0 <= i < |l| => FileOf(st, l[i]))
  }

  ghost predicate DistinctFiles(st: Store, l: seq<Id>) {
    forall i, j :: 0 <= i < j < |l| ==> FileOf(st, l[i]) != FileOf(st, l[j])
  }

  // ---------------------------------------------------------------- flushing the leaves

  /** The leaf was flushed to its file. */
  ghost predicate Flushed(st: Store, lv: Leaves, files: Files, lv': Leaves, files': Files, x: Id) {
    && x in lv && x in lv' && FileOf(st, x) in files'
    && LeafDisk.Flushes(lv[x], DataOf(files, FileOf(st, x)), lv'[x], files'[FileOf(st, x)])
  }

  /** The first n leaves were flushed, the others and their files are as they were. */
  ghost predicate FlushedUpTo(st: Store, lv: Leaves, files: Files, lv': Leaves, files': Files, l: seq<Id>, n: nat) {
    && n <= |l|
    && (forall i {:trigger Flushed(st, lv, files, lv', files', l[i])} :: 0 <= i < n ==>
      Flushed(st, lv, files, lv', files', l[i]))
    && (forall i :: n <= i < |l| ==> l[i] in lv && l[i] in lv' && lv'[l[i]] == lv[l[i]])
    && (forall i :: n <= i < |l| ==> DataOf(files', FileOf(st, l[i])) == DataOf(files, FileOf(st, l[i])))
  }

  /** All of them were. */
  ghost predicate AllFlushed(st: Store, lv: Leaves, files: Files, lv': Leaves, files': Files, l: seq<Id>) {
    forall i {:trigger Flushed(st, lv, files, lv', files', l[i])} :: 0 <= i < |l| ==>
      Flushed(st, lv, files, lv', files', l[i])
  }

  lemma FlushedOne(st: Store, lv: Leaves, files: Files, lv': Leaves, files': Files, l: seq<Id>, n: nat, s: State,
      disk: LeafDisk.LeafDisk)
    requires FlushedUpTo(st, lv, files, lv', files', l, n) && n < |l| && NoDup(l) && DistinctFiles(st, l)
    requires LeafDisk.Flushes(lv[l[n]], DataOf(files, FileOf(st, l[n])), s, disk)
    ensures FlushedUpTo(st, lv, files, lv'[l[n] := s], files'[FileOf(st, l[n]) := disk], l, n + 1)
  {
    var lv2, files2 := lv'[l[n] := s], files'[FileOf(st, l[n]) := disk];
    forall i | 0 <= i <= n ensures Flushed(st, lv, files, lv2, files2, l[i]) {
      if i < n {
        StaysFlushed(st, lv, files, lv', files', l[i], l[n], s, disk);
      }
    }
  }

  lemma StaysFlushed(st: Store, lv: Leaves, files: Files, lv': Leaves, files': Files, x: Id, y: Id, s: State,
      disk: LeafDisk.LeafDisk)
    requires Flushed(st, lv, files, lv', files', x) && x != y && FileOf(st, x) != FileOf(st, y)
    ensures Flushed(st, lv, files, lv'[y := s], files'[FileOf(st, y) := disk], x)
  {
  }

  /** The smallest index leads to the first leaf. */
  lemma FirstOfAll(st: Store, ls: Levels, q: nat, bottom: Key)
    requires Tower(st, ls) && Ordered(FlatE(st, ls[0])) && Covers(st, ls, 0, q, bottom)
    requires forall i :: 0 <= i < |FlatE(st, ls[0])| ==> bottom <= FlatE(st, ls[0])[i].key
    ensures q == 0
  {
    CoversSeparates(st, ls, q, bottom);
    var l := ls[0];
    assert l == l[..q] + l[q..];
    FlatEAdd(st, l[..q], l[q..]);
    LevelOkPrefix(st, l, q);
    HasEntries(st, l[..q]);
    var front, back := FlatE(st, l[..q]), FlatE(st, l[q..]);
    if front != [] {
      FirstKept(front, back);
      assert false;
    }
  }

  lemma FirstKept(x: seq<Entry>, y: seq<Entry>)
    requires x != []
    ensures (x + y)[0] == x[0] && |x + y| > 0
  {
  }

  lemma LevelOkPrefix(st: Store, l: seq<Id>, q: nat)
    requires LevelOk(st, l, true) && q <= |l|
    ensures LevelOk(st, l[..q], true)
  {
    assert forall i :: 0 <= i < q ==> l[..q][i] == l[i];
  }

  lemma HasEntries(st: Store, l: seq<Id>)
    requires LevelOk(st, l, true)
    ensures FlatE(st, l) == [] ==> l == []
  {
    if l != [] { assert Count(st[l[0]]) > 0; }
  }

  /** The writing loop of flush, along the links between leaves. */
  method SaveLeaves(st: Store, first: Id, lv: Leaves, files: Files, ghost l: seq<Id>)
    returns (ids: seq<nat>, lv': Leaves, files': Files)
    requires l != [] && l[0] == first && Linked(st, l) && LevelOk(st, l, true) && DistinctFiles(st, l) && NoDup(l)
    requires Backed(st, lv, files, l)
    ensures ids == Numbers(st, l) && AllFlushed(st, lv, files, lv', files', l)
  {
    ids, lv', files' := [], lv, files;
    var cur := Some(first);
    ghost var n := 0;
    forall i | 0 <= i < |l| ensures l[i] in lv { assert BackedAt(st, lv, files, l[i]); }
    while cur.Some?
      invariant 0 <= n <= |l| && cur == (if n < |l| then Some(l[n]) else None)
      invariant |ids| == n && (forall i :: 0 <= i < n ==> ids[i] == FileOf(st, l[i]))
      invariant FlushedUpTo(st, lv, files, lv', files', l, n)
      decreases |l| - n
    {
      assert LinkedAt(st, l, n);
      lv', files' := SaveLeaf(st, lv, files, lv', files', cur.value, l, n);
      ids := ids + [st[cur.value].file];
      cur := st[cur.value].right;
      n := n + 1;
    }
  }

  /** segment_tree_t::flush of one leaf. */
  method SaveLeaf(st: Store, ghost lv: Leaves, ghost files: Files, lv0: Leaves, files0: Files, x: Id, ghost l: seq<Id>,
      ghost n: nat)
    returns (lv': Leaves, files': Files)
    requires FlushedUpTo(st, lv, files, lv0, files0, l, n) && n < |l| && NoDup(l) && DistinctFiles(st, l)
    requires Backed(st, lv, files, l) && l[n] == x
    ensures FlushedUpTo(st, lv, files, lv', files', l, n + 1)
  {
    assert BackedAt(st, lv, files, l[n]);
    var s, disk;
    s, disk := LeafDisk.Flush(lv0[x], DataOf(files0, FileOf(st, x)));
    lv', files' := lv0[x := s], files0[FileOf(st, x) := disk];
    FlushedOne(st, lv, files, lv0, files0, l, n, s, disk);
  }

  /** The blocks of the leaf that are not in memory are in its file where a flush puts them. */
  ghost predicate FoundAt(st: Store, lv: Leaves, files: Files, x: Id) {
    x in lv && LeafDisk.StaysFound(lv[x], DataOf(files, FileOf(st, x)))
  }

  /** Every block of the leaf is in memory and marked or moved by a flush, or is in its file where a flush puts it. */
  ghost predicate SafeAt(st: Store, lv: Leaves, files: Files, x: Id) {
    x in lv && LeafDisk.ComesBack(lv[x], DataOf(files, FileOf(st, x)))
  }

  ghost predicate AllFound(st: Store, lv: Leaves, files: Files, l: seq<Id>) {
    forall i {:trigger FoundAt(st, lv, files, l[i])} :: 0 <= i < |l| ==> FoundAt(st, lv, files, l[i])
  }

  ghost predicate AllSafe(st: Store, lv: Leaves, files: Files, l: seq<Id>) {
    forall i {:trigger SafeAt(st, lv, files, l[i])} :: 0 <= i < |l| ==> SafeAt(st, lv, files, l[i])
  }

  lemma CurrentSafe(st: Store, lv: Leaves, files: Files, l: seq<Id>)
    requires Backed(st, lv, files, l) && AllCurrent(st, lv, files, l)
    ensures AllSafe(st, lv, files, l) && AllFound(st, lv, files, l)
  {
    forall i | 0 <= i < |l| ensures SafeAt(st, lv, files, l[i]) && FoundAt(st, lv, files, l[i]) {
      assert BackedAt(st, lv, files, l[i]) && CurrentAt(st, lv, files, l[i]);
      LeafDisk.UpToDateBack(lv[l[i]], DataOf(files, FileOf(st, l[i])));
    }
  }

  lemma FlushedAt(st: Store, lv: Leaves, files: Files, lv': Leaves, files': Files, x: Id)
    requires BackedAt(st, lv, files, x) && Flushed(st, lv, files, lv', files', x)
    ensures BackedAt(st, lv', files', x) <==> FoundAt(st, lv, files, x)
    ensures SafeAt(st, lv', files', x) <==> SafeAt(st, lv, files, x)
  {
    LeafDisk.FlushedKept(lv[x], DataOf(files, FileOf(st, x)), lv'[x], files'[FileOf(st, x)]);
    LeafDisk.FlushedAgain(lv[x], DataOf(files, FileOf(st, x)), lv'[x], files'[FileOf(st, x)]);
  }

  /** The leaves in memory stay in order exactly if no block out of memory is lost, and a flush makes nothing safe that
      was not, nor the other way round. */
  lemma FlushedBacked(st: Store, lv: Leaves, files: Files, lv': Leaves, files': Files, l: seq<Id>)
    requires Backed(st, lv, files, l) && AllFlushed(st, lv, files, lv', files', l)
    ensures Backed(st, lv', files', l) <==> AllFound(st, lv, files, l)
    ensures AllSafe(st, lv', files', l) <==> AllSafe(st, lv, files, l)
  {
    forall i | 0 <= i < |l|
      ensures BackedAt(st, lv', files', l[i]) <==> FoundAt(st, lv, files, l[i])
      ensures SafeAt(st, lv', files', l[i]) <==> SafeAt(st, lv, files, l[i])
    {
      assert BackedAt(st, lv, files, l[i]);
      FlushedAt(st, lv, files, lv', files', l[i]);
    }
    if Backed(st, lv', files', l) {
      forall i | 0 <= i < |l| ensures FoundAt(st, lv, files, l[i]) {
        assert BackedAt(st, lv', files', l[i]);
      }
    }
  }

  lemma FlushCurrent(st: Store, lv: Leaves, files: Files, lv': Leaves, files': Files, l: seq<Id>)
    requires Backed(st, lv, files, l) && AllFlushed(st, lv, files, lv', files', l)
    ensures AllCurrent(st, lv, files, l) ==> AllCurrent(st, lv', files', l)
  {
    if AllCurrent(st, lv, files, l) {
      forall i | 0 <= i < |l| ensures CurrentAt(st, lv', files', l[i]) {
        var x := l[i];
        assert BackedAt(st, lv, files, x) && CurrentAt(st, lv, files, x) && Flushed(st, lv, files, lv', files', x);
        LeafDisk.FlushUpToDate(lv[x], DataOf(files, FileOf(st, x)), lv'[x], files'[FileOf(st, x)]);
      }
    }
  }

  // ---------------------------------------------------------------- loading

  /** Every file of the list can be opened. */
  predicate Openable(files: Files, ids: seq<nat>) {
    forall i :: 0 <= i < |ids| ==> ids[i] in files && LeafDisk.Readable(files[ids[i]])
  }

  /** What is found in a file. */
  function OpenedAt(files: Files, ids: seq<nat>, i: nat): State
    requires Openable(files, ids) && i < |ids|
  {
    LeafDisk.LazyLoad(files[ids[i]])
  }

  /** The groups found in the files. */
  function Found(files: Files, ids: seq<nat>): (r: seq<seq<Entry>>)
    requires Openable(files, ids)
    ensures |r| == |ids| && forall i :: 0 <= i < |ids| ==> r[i] == GroupsOf(OpenedAt(files, ids, i).tree.bs)
  {
    seq(|ids|, i requires 0 <= i < |ids| => GroupsOf(OpenedAt(files, ids, i).tree.bs))
  }

  /** The leaves as load creates them: in order, linked, each with its file; n of them so far. */
  function LeafAt(gs: seq<seq<Entry>>, ids: seq<nat>, i: nat, n: nat): Node
    requires i < n <= |ids| == |gs|
  {
    Leaf(gs[i], ids[i], if i == 0 then None else Some(i - 1), if i + 1 == n then None else Some(i + 1))
  }

  function LeafStore(gs: seq<seq<Entry>>, ids: seq<nat>): Store
    requires |ids| == |gs|
  {
    map i: nat | i < |ids| :: LeafAt(gs, ids, i, |ids|)
  }

  function Upto(n: nat): (r: seq<Id>)
    ensures |r| == n && forall i :: 0 <= i < n ==> r[i] == i
  {
    seq(n, i requires 0 <= i < n => i)
  }

  /** What is found is of legal size. */
  ghost predicate LegalSizes(gs: seq<seq<Entry>>, cap: nat) {
    gs != [] && forall i :: 0 <= i < |gs| ==> (if |gs| == 1 then 1 else cap / 4) <= |gs[i]| <= cap
  }

  lemma ChainSaved(gs: seq<seq<Entry>>, ids: seq<nat>, cap: nat)
    requires |gs| == |ids| && LegalSizes(gs, cap) && cap >= 4
    ensures SavedChain(LeafStore(gs, ids), Upto(|ids|), cap)
  {
    var st, l := LeafStore(gs, ids), Upto(|ids|);
    forall i | 0 <= i < |l| ensures LinkedAt(st, l, i) && l[i] in st && st[l[i]] == LeafAt(gs, ids, i, |ids|) { }
  }

  /** The loop of load that opens the leaves. */
  method ChainLeaves(gs: seq<seq<Entry>>, ids: seq<nat>) returns (st: Store)
    requires |gs| == |ids|
    ensures st == LeafStore(gs, ids)
  {
    st := map[];
    for i := 0 to |ids|
      invariant forall x :: x in st <==> 0 <= x < i
      invariant forall x :: 0 <= x < i ==> st[x] == LeafAt(gs, ids, x, i)
    {
      if i > 0 { st := st[i - 1 := LeafAt(gs, ids, i - 1, i + 1)]; }
      st := st[i := LeafAt(gs, ids, i, i + 1)];
    }
  }

  /** leaf_node_t::load of each of them. */
  method OpenStates(files: Files, ids: seq<nat>) returns (lv: Leaves)
    requires Openable(files, ids)
    ensures forall i :: 0 <= i < |ids| ==> i in lv && lv[i] == OpenedAt(files, ids, i)
  {
    lv := map[];
    for i := 0 to |ids|
      invariant forall x :: 0 <= x < i ==> x in lv && lv[x] == OpenedAt(files, ids, x)
    {
      lv := lv[i := OpenedAt(files, ids, i)];
    }
  }

  method OpenLeaves(files: Files, ids: seq<nat>) returns (st: Store, lv: Leaves)
    requires Openable(files, ids)
    ensures st == LeafStore(Found(files, ids), ids) && LoadedLeaves(st, lv, files, ids)
  {
    st := ChainLeaves(Found(files, ids), ids);
    lv := OpenStates(files, ids);
    forall i | 0 <= i < |ids| ensures LoadedAt(st, lv, files, ids, i) { }
  }

  /** The leaves that load creates. */
  ghost predicate LoadedLeaves(st: Store, lv: Leaves, files: Files, ids: seq<nat>)
    requires Openable(files, ids)
  {
    forall i {:trigger LoadedAt(st, lv, files, ids, i)} :: 0 <= i < |ids| ==> LoadedAt(st, lv, files, ids, i)
  }

  ghost predicate LoadedAt(st: Store, lv: Leaves, files: Files, ids: seq<nat>, i: nat)
    requires Openable(files, ids) && i < |ids|
  {
    && i in lv && lv[i] == OpenedAt(files, ids, i)
    && i in st && st[i].Leaf? && st[i].file == ids[i] && st[i].entries == GroupsOf(lv[i].tree.bs)
  }

  lemma StillLoaded(st0: Store, st: Store, lv: Leaves, files: Files, ids: seq<nat>)
    requires Openable(files, ids) && LoadedLeaves(st0, lv, files, ids) && forall x :: x in st0 ==>
      x in st && st[x] == st0[x]
    ensures LoadedLeaves(st, lv, files, ids)
  {
    forall i | 0 <= i < |ids| ensures LoadedAt(st, lv, files, ids, i) { assert LoadedAt(st0, lv, files, ids, i); }
  }

  /** Leaves with the same groups give contents with the same groups. */
  lemma {:induction false} SameContents(st: Store, l: seq<Id>, st': Store, l': seq<Id>)
    requires |l| == |l'| && forall i :: 0 <= i < |l| ==> SameGroups(EntriesOf(st, l[i]), EntriesOf(st', l'[i]))
    ensures SameGroups(FlatE(st, l), FlatE(st', l'))
  {
    if l != [] {
      assert forall i :: 0 <= i < |l[1..]| ==> l[1..][i] == l[i + 1] && l'[1..][i] == l'[i + 1];
      SameContents(st, l[1..], st', l'[1..]);
      SameJoined(EntriesOf(st, l[0]), FlatE(st, l[1..]), EntriesOf(st', l'[0]), FlatE(st', l'[1..]));
    }
  }

  // ---------------------------------------------------------------- segment numbers after a load

  /** A number below the number of leaves has been given up. */
  ghost predicate GivenUpLow(missed: seq<nat>, leaves: nat) {
    exists i :: 0 <= i < |missed| && missed[i] < leaves
  }

  /** A load forgets which numbers were given up. The numbers in use are all below their count, as
      get_unique_id_ needs them, exactly when no given-up number was. */
  lemma NumbersLow(st: Store, l: seq<Id>, missed: seq<nat>)
    requires FilesOk(st, l, missed)
    ensures (forall i :: 0 <= i < |l| ==> FileOf(st, l[i]) < |l|) <==> !GivenUpLow(missed, |l|)
  {
    var used, n := Numbers(st, l), |l| + |missed|;
    var f, m := Members(used), Members(missed);
    DistinctCount(used);
    DistinctCount(missed);
    if forall i :: 0 <= i < |l| ==> used[i] < |l| {
      SubsetFull(f, Addresses(0, |l|));
      assert forall x :: x in f ==> x !in missed;
      forall i | 0 <= i < |missed| ensures missed[i] >= |l| {
        assert missed[i] in missed && missed[i] !in f;
      }
    }
    if forall i :: 0 <= i < |missed| ==> missed[i] >= |l| {
      SubsetFull(m, Addresses(|l|, n));
      forall i | 0 <= i < |l| ensures FileOf(st, l[i]) < |l| {
        assert FileOf(st, l[i]) < n && FileOf(st, l[i]) !in missed;
        assert FileOf(st, l[i]) !in m;
      }
    }
  }

  /** The numbers that the next n new leaves get, one after the other. */
  ghost function HandedOut(leaves: nat, missed: seq<nat>, n: nat): seq<nat>
    decreases n
  {
    if n == 0 then [] else [UniqueFile(leaves, missed)] + HandedOut(leaves + 1, MissedAfter(missed), n - 1)
  }

  /** One of the coming new leaves is given a number that is in use. */
  ghost predicate Clashes(st: Store, l: seq<Id>, missed: seq<nat>) {
    exists n: nat, i: nat :: i < |l| && FileOf(st, l[i]) in HandedOut(|l|, missed, n)
  }

  lemma {:induction false} HandedRange(leaves: nat, missed: seq<nat>, n: nat, x: nat)
    requires x in HandedOut(leaves, missed, n)
    ensures x in missed || x >= leaves + |missed|
    decreases n
  {
    if n > 0 {
      var rest := HandedOut(leaves + 1, MissedAfter(missed), n - 1);
      if x in rest {
        HandedRange(leaves + 1, MissedAfter(missed), n - 1, x);
      } else {
        assert x == UniqueFile(leaves, missed);
      }
    }
  }

  /** In a valid tree that never happens, however many leaves come. */
  lemma NeverClashes(st: Store, l: seq<Id>, missed: seq<nat>)
    requires FilesOk(st, l, missed)
    ensures !Clashes(st, l, missed)
  {
    if n: nat, i: nat :| i < |l| && FileOf(st, l[i]) in HandedOut(|l|, missed, n) {
      HandedRange(|l|, missed, n, FileOf(st, l[i]));
      assert false;
    }
  }

  /** With nothing given up, the numbers count on from the number of leaves. */
  lemma {:induction false} HandedCounts(leaves: nat, n: nat, x: nat)
    ensures x in HandedOut(leaves, [], n) <==> leaves <= x < leaves + n
    decreases n
  {
    if n > 0 {
      HandedCounts(leaves + 1, n - 1, x);
      assert UniqueFile(leaves, []) == leaves && MissedAfter([]) == [];
    }
  }

  /** With the given-up numbers forgotten, a number in use is handed out again, sooner or later, exactly if
      one of the given-up numbers is below the number of leaves. */
  lemma ForgottenClash(st: Store, l: seq<Id>, missed: seq<nat>)
    requires FilesOk(st, l, missed)
    ensures Clashes(st, l, []) <==> GivenUpLow(missed, |l|)
  {
    NumbersLow(st, l, missed);
    if n: nat, i: nat :| i < |l| && FileOf(st, l[i]) in HandedOut(|l|, [], n) {
      HandedCounts(|l|, n, FileOf(st, l[i]));
    }
    if i :| 0 <= i < |l| && FileOf(st, l[i]) >= |l| {
      HandedCounts(|l|, FileOf(st, l[i]) - |l| + 1, FileOf(st, l[i]));
    }
  }

  lemma SameClashes(st: Store, l: seq<Id>, st': Store, l': seq<Id>, missed: seq<nat>)
    requires |l| == |l'| && Numbers(st, l) == Numbers(st', l')
    ensures Clashes(st, l, missed) <==> Clashes(st', l', missed)
  {
    forall i: nat | i < |l| ensures FileOf(st, l[i]) == FileOf(st', l'[i]) {
      assert Numbers(st, l)[i] == FileOf(st, l[i]) && Numbers(st', l')[i] == FileOf(st', l'[i]);
    }
  }

  lemma ReloadedClash(st: Store, l: seq<Id>, missed: seq<nat>, st': Store, l': seq<Id>)
    requires FilesOk(st, l, missed) && |l| == |l'| && Numbers(st, l) == Numbers(st', l')
    ensures !Clashes(st, l, missed)
    ensures Clashes(st', l', []) <==> GivenUpLow(missed, |l|)
  {
    NeverClashes(st, l, missed);
    ForgottenClash(st, l, missed);
    SameClashes(st, l, st', l', []);
  }

  /** The smallest case: the tree is a single leaf, number 0 was given up and the leaf has number 1. The first
      new leaf after a load gets number 1 as well. */
  lemma ClashHappens(cap: nat, k: Key, item: Item) returns (st: Store, l: seq<Id>)
    requires cap >= 4
    ensures Consistent(cap, st, Some(0), 1, 1, 1, [0], [l]) && l == [0]
    ensures FileOf(st, l[0]) == UniqueFile(|l|, []) && Clashes(st, l, []) && !Clashes(st, l, [0])
  {
    var c := [Entry(k, [item])];
    st, l := map[0 := Leaf(c, 1, None, None)], [0];
    LeafTree(st, 0, cap);
    assert c[1..] == [];
    assert Total(c) == 1;
    assert FilesOk(st, l, [0]);
    ForgottenClash(st, l, [0]);
    assert [0][0] < |l|;
    NeverClashes(st, l, [0]);
  }

  // ---------------------------------------------------------------- flush and load of a tree

  ghost predicate NotBelow(c: seq<Entry>, bottom: Key) {
    forall i :: 0 <= i < |c| ==> bottom <= c[i].key
  }

  /** No level of a tree is empty. */
  lemma {:induction false} LevelsFilled(st: Store, ls: Levels, h: nat)
    requires Tower(st, ls) && h < |ls| && |ls[|ls| - 1]| > 0
    ensures ls[h] != []
    decreases |ls| - h
  {
    if h + 1 < |ls| {
      LevelsFilled(st, ls, h + 1);
      assert Count(st[ls[h + 1][0]]) > 0;
      assert Flat(st, ls[h + 1]) == ls[h];
    }
  }

  /** The chain of leaves of a valid tree. */
  lemma LeafChain(cap: nat, st: Store, root: Id, ls: Levels)
    requires GoodTree(st, ls, cap, root)
    ensures ls[0] != [] && Linked(st, ls[0]) && LevelOk(st, ls[0], true) && Tower(st, ls)
  {
    ShapeTower(st, ls, cap);
    assert LevelGood(st, ls, cap, NoHole, 0);
    LevelsFilled(st, ls, 0);
  }

  /** Its leaves are of legal size: a single one may be small. */
  lemma ChainSized(cap: nat, st: Store, root: Id, ls: Levels)
    requires GoodTree(st, ls, cap, root) && cap >= 8
    ensures LevelSized(st, ls[0], if |ls[0]| == 1 then 1 else cap / 4, cap)
  {
    ShapeTower(st, ls, cap);
    assert LevelGood(st, ls, cap, NoHole, 0);
    if |ls| > 1 {
      LevelsFilled(st, ls, 1);
      assert LevelGood(st, ls, cap, NoHole, 1);
      assert CountOf(st, ls[1][0]) >= 2;
      assert Flat(st, ls[1]) == ls[0];
    }
  }

  lemma LeavesDistinct(cap: nat, st: Store, root: Id, next: Id, items: nat, leaves: nat, missed: seq<nat>, ls: Levels)
    requires Consistent(cap, st, Some(root), next, items, leaves, missed, ls)
    ensures DistinctFiles(st, ls[0]) && NoDup(ls[0])
  {
  }

  method FlushValues(cap: nat, st: Store, lv: Leaves, files: Files, root: Id, items: nat, bottom: Key, ghost ls: Levels)
    returns (meta: Meta, lv': Leaves, files': Files)
    requires GoodTree(st, ls, cap, root) && DistinctFiles(st, ls[0]) && NoDup(ls[0]) && Backed(st, lv, files, ls[0])
    requires NotBelow(FlatE(st, ls[0]), bottom)
    ensures meta == Meta(items, Numbers(st, ls[0])) && AllFlushed(st, lv, files, lv', files', ls[0])
    ensures Backed(st, lv', files', ls[0]) <==> AllFound(st, lv, files, ls[0])
    ensures AllSafe(st, lv', files', ls[0]) <==> AllSafe(st, lv, files, ls[0])
    ensures AllCurrent(st, lv, files, ls[0]) ==> AllCurrent(st, lv', files', ls[0])
  {
    LeafChain(cap, st, root, ls);
    var leaf, ids;
    ghost var q;
    leaf, q := FindLeaf(st, root, bottom, ls);
    FirstOfAll(st, ls, q, bottom);
    ids, lv', files' := SaveLeaves(st, leaf, lv, files, ls[0]);
    meta := Meta(items, ids);
    FlushedBacked(st, lv, files, lv', files', ls[0]);
    FlushCurrent(st, lv, files, lv', files', ls[0]);
  }

  /** A flush will leave every block out of memory where it can be found. */
  ghost predicate Flushable(tree: BTree)
    reads tree
  {
    AllFound(tree.store, tree.leaves, tree.files, LeafIds(tree.root, tree.levels))
  }

  /** A flush will leave every block in its file: it is in memory and marked or moved, or the file has it already. */
  ghost predicate Restorable(tree: BTree)
    reads tree
  {
    AllSafe(tree.store, tree.leaves, tree.files, LeafIds(tree.root, tree.levels))
  }

  /** flush. The metadata file gets the number of items and the files of the leaves in order; every leaf is flushed to
      its own file. In memory nothing changes but where blocks are taken to be: the tree stays valid exactly if no block
      is moved that is out of memory, or the file has it where it is moved to. Flushing again helps nothing that is
      not in its file. An empty tree leaves everything as the last flush left it. */
  method Flush(tree: BTree, meta: Option<Meta>, bottom: Key) returns (meta': Option<Meta>)
    requires tree.Valid() && NotBelow(tree.Contents(), bottom)
    modifies tree`leaves, tree`files
    ensures tree.leafCount == 0 ==> meta' == meta && tree.files == old(tree.files) && tree.leaves == old(tree.leaves)
    ensures tree.leafCount > 0 ==>
      tree.root.Some? && meta' == Some(Meta(tree.itemCount, Numbers(tree.store, tree.levels[0])))
    ensures tree.leafCount > 0 ==>
      AllFlushed(tree.store, old(tree.leaves), old(tree.files), tree.leaves, tree.files, tree.levels[0])
    ensures tree.Valid() <==> old(Flushable(tree))
    ensures Restorable(tree) <==> old(Restorable(tree))
    ensures old(tree.Current()) ==> tree.Current()
  {
    if tree.leafCount == 0 { return meta; }
    LeavesDistinct(tree.cap, tree.store, tree.root.value, tree.next, tree.itemCount, tree.leafCount, tree.missed,
        tree.levels);
    var m, lv, files;
    m, lv, files := FlushValues(tree.cap, tree.store, tree.leaves, tree.files, tree.root.value, tree.itemCount, bottom,
        tree.levels);
    tree.SetLeaves(lv, files);
    meta' := Some(m);
  }

  /** The loaded tree: its leaves in order, under nodes of legal size if they are of legal size. */
  ghost predicate Stands(cap: nat, st: Store, root: Id, next: Id, ls: Levels, leaves: nat, legal: bool) {
    && (legal ==> Shape(st, ls, cap, NoHole)) && ls != [] && ls[|ls| - 1] == [root] && FreshFrom(st, next)
    && ls[0] == Upto(leaves)
  }

  method LoadValues(meta: Meta, files: Files, cap: nat)
    returns (st: Store, lv: Leaves, root: Id, next: Id, ghost ls: Levels)
    requires meta.ids != [] && Openable(files, meta.ids) && cap >= 8
    ensures Stands(cap, st, root, next, ls, |meta.ids|, LegalSizes(Found(files, meta.ids), cap))
    ensures LoadedLeaves(st, lv, files, meta.ids)
  {
    var ids, st0 := meta.ids, map[];
    st0, lv := OpenLeaves(files, ids);
    if LegalSizes(Found(files, ids), cap) { ChainSaved(Found(files, ids), ids, cap); }
    StoreFresh(Found(files, ids), ids);
    st, root, next, ls := Rebuild(Upto(|ids|), st0, |ids|, cap);
    StillLoaded(st0, st, lv, files, ids);
  }

  lemma StoreFresh(gs: seq<seq<Entry>>, ids: seq<nat>)
    requires |gs| == |ids|
    ensures FreshFrom(LeafStore(gs, ids), |ids|)
  {
  }

  /** load: the leaves of the metadata file in saved order, each with what its file has; if they are of legal size, at
      one depth under nodes of legal size. */
  method Load(disk: Disk, cap: nat) returns (tree: BTree)
    requires disk.meta.Some? && disk.meta.value.ids != [] && Openable(disk.files, disk.meta.value.ids) && cap >= 8
    ensures fresh(tree) && tree.cap == cap && tree.missed == [] && tree.root.Some? && tree.files == disk.files
      && tree.itemCount == disk.meta.value.items && tree.leafCount == |disk.meta.value.ids|
    ensures Stands(cap, tree.store, tree.root.value, tree.next, tree.levels, tree.leafCount,
      LegalSizes(Found(disk.files, disk.meta.value.ids), cap))
    ensures LoadedLeaves(tree.store, tree.leaves, disk.files, disk.meta.value.ids)
  {
    var m := disk.meta.value;
    var st, lv, root, next;
    ghost var ls;
    st, lv, root, next, ls := LoadValues(m, disk.files, cap);
    tree := new BTree.Loaded(cap, st, lv, disk.files, root, next, m.items, |m.ids|, ls);
  }

  // ---------------------------------------------------------------- flush, then load

  /** The segment tree of every leaf came back, block for block and counter for counter. */
  ghost predicate CameBack(l: seq<Id>, lv: Leaves, lv': Leaves) {
    forall i {:trigger BackAt(l[i], lv, i, lv')} :: 0 <= i < |l| ==> BackAt(l[i], lv, i, lv')
  }

  ghost predicate BackAt(x: Id, lv: Leaves, y: Id, lv': Leaves) {
    x in lv && y in lv' && lv'[y].tree == lv[x].tree
  }

  /** One leaf: its tree comes back exactly if all its blocks are safe, and then with the same groups. */
  lemma LeafBack(st: Store, lv: Leaves, files: Files, lv': Leaves, files': Files, x: Id)
    requires BackedAt(st, lv, files, x) && Flushed(st, lv, files, lv', files', x)
    ensures LeafDisk.Readable(files'[FileOf(st, x)])
    ensures LeafDisk.LazyLoad(files'[FileOf(st, x)]).tree == lv[x].tree <==>
      SafeAt(st, lv, files, x)
    ensures SafeAt(st, lv, files, x) ==> var s := LeafDisk.LazyLoad(files'[FileOf(st, x)]);
      SameGroups(EntriesOf(st, x), GroupsOf(s.tree.bs))
          && LeafNode.Good(s, GroupsOf(s.tree.bs), files'[FileOf(st, x)].data)
  {
    var data, disk := DataOf(files, FileOf(st, x)), files'[FileOf(st, x)];
    Filled(lv[x].tree.bs);
    LeafDisk.ReopenIff(lv[x], data, lv'[x], disk);
    if SafeAt(st, lv, files, x) {
      var bs := LeafDisk.LazyLoad(disk).tree.bs;
      GroupsList(bs);
      SameListing(EntriesOf(st, x), GroupsOf(bs), Segments.Pairs(bs));
    }
  }

  lemma Filled(bs: seq<Blk>)
    requires Segments.Blocks(bs)
    ensures LeafDisk.Full(bs)
  {
  }

  /** Everything that was flushed can be opened. */
  lemma FlushedOpenable(st: Store, lv: Leaves, files: Files, lv': Leaves, files': Files, l: seq<Id>)
    requires Backed(st, lv, files, l) && AllFlushed(st, lv, files, lv', files', l)
    ensures Openable(files', Numbers(st, l))
  {
    forall i | 0 <= i < |l|
      ensures Numbers(st, l)[i] in files' && LeafDisk.Readable(files'[Numbers(st, l)[i]])
    {
      assert BackedAt(st, lv, files, l[i]) && Flushed(st, lv, files, lv', files', l[i]);
      LeafBack(st, lv, files, lv', files', l[i]);
    }
  }

  /** The leaves come back exactly if every block is safe. */
  lemma BackIff(st: Store, lv: Leaves, files: Files, lv1: Leaves, files': Files, l: seq<Id>, st': Store, lv': Leaves)
    requires Backed(st, lv, files, l) && AllFlushed(st, lv, files, lv1, files', l)
    requires Openable(files', Numbers(st, l)) && LoadedLeaves(st', lv', files', Numbers(st, l))
    ensures CameBack(l, lv, lv') <==> AllSafe(st, lv, files, l)
  {
    forall i | 0 <= i < |l|
      ensures BackAt(l[i], lv, i, lv') <==> SafeAt(st, lv, files, l[i])
    {
      assert BackedAt(st, lv, files, l[i]) && Flushed(st, lv, files, lv1, files', l[i]);
      assert LoadedAt(st', lv', files', Numbers(st, l), i);
      LeafBack(st, lv, files, lv1, files', l[i]);
    }
  }

  /** If they do, every leaf has the groups it had and is in order. */
  lemma BackGroups(st: Store, lv: Leaves, files: Files, lv1: Leaves, files': Files, l: seq<Id>, st': Store, lv': Leaves)
    requires Backed(st, lv, files, l) && AllFlushed(st, lv, files, lv1, files', l)
    requires Openable(files', Numbers(st, l)) && LoadedLeaves(st', lv', files', Numbers(st, l))
    requires AllSafe(st, lv, files, l)
    ensures forall i :: 0 <= i < |l| ==> SameGroups(EntriesOf(st, l[i]), EntriesOf(st', Upto(|l|)[i]))
    ensures Backed(st', lv', files', Upto(|l|))
  {
    forall i | 0 <= i < |l|
      ensures SameGroups(EntriesOf(st, l[i]), EntriesOf(st', Upto(|l|)[i])) && BackedAt(st', lv', files', Upto(|l|)[i])
    {
      assert BackedAt(st, lv, files, l[i]) && Flushed(st, lv, files, lv1, files', l[i]);
      assert LoadedAt(st', lv', files', Numbers(st, l), i);
      assert SafeAt(st, lv, files, l[i]);
      LeafBack(st, lv, files, lv1, files', l[i]);
    }
  }

  /** The groups found are as many as there were. */
  lemma BackSizes(st: Store, lv: Leaves, files: Files, lv1: Leaves, files': Files, l: seq<Id>, cap: nat)
    requires Backed(st, lv, files, l) && AllFlushed(st, lv, files, lv1, files', l)
    requires Openable(files', Numbers(st, l)) && AllSafe(st, lv, files, l) && l != []
    requires LevelSized(st, l, if |l| == 1 then 1 else cap / 4, cap) && LevelOk(st, l, true)
    ensures LegalSizes(Found(files', Numbers(st, l)), cap)
  {
    forall i | 0 <= i < |l|
      ensures |Found(files', Numbers(st, l))[i]| == CountOf(st, l[i])
    {
      assert BackedAt(st, lv, files, l[i]) && Flushed(st, lv, files, lv1, files', l[i]);
      assert SafeAt(st, lv, files, l[i]);
      LeafBack(st, lv, files, lv1, files', l[i]);
    }
  }

  /** The segment numbers of the loaded tree satisfy the invariant exactly when no given-up number was low. */
  lemma LoadedNumbers(st: Store, l: seq<Id>, missed: seq<nat>, st': Store, l': seq<Id>)
    requires FilesOk(st, l, missed) && |l| == |l'| && Numbers(st, l) == Numbers(st', l')
    ensures FilesOk(st', l', []) <==> !GivenUpLow(missed, |l|)
  {
    NumbersLow(st, l, missed);
    assert forall i :: 0 <= i < |l| ==>
      Numbers(st, l)[i] == FileOf(st, l[i]) && Numbers(st', l')[i] == FileOf(st', l'[i]);
  }

  lemma LoadedFiles(st: Store, lv: Leaves, files: Files, ids: seq<nat>)
    requires Openable(files, ids) && LoadedLeaves(st, lv, files, ids)
    ensures Numbers(st, Upto(|ids|)) == ids
  {
    forall i | 0 <= i < |ids| ensures FileOf(st, Upto(|ids|)[i]) == ids[i] { assert LoadedAt(st, lv, files, ids, i); }
  }

  /** Flush and load restore the segment trees of all leaves, block for block, exactly if before the call every block is
      in memory and marked or moved, or in its file where the flush puts it; so always if each is in memory, and marked
      unless the file has it where it is. Then the contents have the same groups as before, and the loaded tree is valid
      exactly when no segment number below the number of leaves had been given up. In any case one of its coming new
      leaves gets the number of a leaf it has, sooner or later, exactly if such a number had been given up. */
  method Reload(tree: BTree, meta: Option<Meta>, bottom: Key) returns (meta': Option<Meta>, again: BTree)
    requires tree.Valid() && NotBelow(tree.Contents(), bottom) && tree.leafCount > 0 && tree.cap >= 8
    modifies tree`leaves, tree`files
    ensures fresh(again) && again.cap == tree.cap && again.itemCount == tree.itemCount
      && again.leafCount == tree.leafCount && again.files == tree.files
    ensures tree.levels != []
      && AllFlushed(tree.store, old(tree.leaves), old(tree.files), tree.leaves, tree.files, tree.levels[0])
    ensures CameBack(tree.levels[0], old(tree.leaves), again.leaves) <==> old(Restorable(tree))
    ensures old(Restorable(tree)) ==>
      && SameGroups(tree.Contents(), again.Contents())
      && (again.Valid() <==> !GivenUpLow(tree.missed, tree.leafCount))
    ensures AllCurrent(tree.store, old(tree.leaves), old(tree.files), tree.levels[0]) ==> old(Restorable(tree))
    ensures tree.Valid() <==> old(Flushable(tree))
    ensures !Clashes(tree.store, LeafIds(tree.root, tree.levels), tree.missed)
    ensures Clashes(again.store, LeafIds(again.root, again.levels), again.missed) <==>
      GivenUpLow(tree.missed, tree.leafCount)
  {
    if AllCurrent(tree.store, tree.leaves, tree.files, tree.levels[0]) {
      CurrentSafe(tree.store, tree.leaves, tree.files, tree.levels[0]);
    }
    var m, lv, files, st, lv1, root, next;
    ghost var ls;
    m, lv, files, st, lv1, root, next, ls := ReloadValues(tree.cap, tree.store, tree.leaves, tree.files,
        tree.root.value, tree.next, tree.itemCount, tree.leafCount, tree.missed, bottom, tree.levels);
    meta' := Some(m);
    again := Reopen(tree, lv, files, st, lv1, root, next, m, ls);
  }

  /** The tree takes its flushed leaves, and a new one what was loaded. */
  method Reopen(tree: BTree, lv: Leaves, files: Files, st: Store, lv2: Leaves, root: Id, next: Id, m: Meta,
      ghost ls: Levels)
    returns (again: BTree)
    modifies tree`leaves, tree`files
    ensures tree.leaves == lv && tree.files == files && tree.store == old(tree.store) && tree.root == old(tree.root)
      && tree.itemCount == old(tree.itemCount) && tree.leafCount == old(tree.leafCount)
      && tree.missed == old(tree.missed) && tree.levels == old(tree.levels)
    ensures fresh(again) && again.cap == tree.cap && again.store == st && again.root == Some(root) && again.next == next
    ensures again.itemCount == m.items && again.leafCount == |m.ids| && again.missed == [] && again.levels == ls
      && again.leaves == lv2 && again.files == files
  {
    tree.SetLeaves(lv, files);
    again := new BTree.Loaded(tree.cap, st, lv2, files, root, next, m.items, |m.ids|, ls);
  }

  /** The same on the values of the fields: what Flush does, then what Load does. */
  method ReloadValues(cap: nat, st: Store, lv: Leaves, files: Files, root: Id, ghost next: Id, items: nat,
      ghost leaves: nat, ghost missed: seq<nat>, bottom: Key, ghost ls: Levels)
    returns (m: Meta, lv': Leaves, files': Files, st2: Store, lv2: Leaves, root2: Id, next2: Id,
        ghost ls2: Levels)
    requires Consistent(cap, st, Some(root), next, items, leaves, missed, ls) && cap >= 8
    requires Backed(st, lv, files, LeafIds(Some(root), ls)) && NotBelow(Held(st, Some(root), ls), bottom)
    ensures m.items == items && |m.ids| == leaves && AllFlushed(st, lv, files, lv', files', ls[0])
    ensures Backed(st, lv', files', ls[0]) <==> AllFound(st, lv, files, ls[0])
    ensures CameBack(ls[0], lv, lv2) <==> AllSafe(st, lv, files, ls[0])
    ensures AllSafe(st, lv, files, ls[0]) ==>
      SameGroups(Held(st, Some(root), ls), Held(st2, Some(root2), ls2))
          && Backed(st2, lv2, files', LeafIds(Some(root2), ls2))
    ensures AllSafe(st, lv, files, ls[0]) ==>
      (Consistent(cap, st2, Some(root2), next2, items, leaves, [], ls2) <==> !GivenUpLow(missed, leaves))
    ensures !Clashes(st, ls[0], missed)
    ensures Clashes(st2, LeafIds(Some(root2), ls2), []) <==> GivenUpLow(missed, leaves)
  {
    LeavesDistinct(cap, st, root, next, items, leaves, missed, ls);
    m, lv', files' := FlushValues(cap, st, lv, files, root, items, bottom, ls);
    LeafChain(cap, st, root, ls);
    FlushedOpenable(st, lv, files, lv', files', ls[0]);
    st2, lv2, root2, next2, ls2 := LoadValues(m, files', cap);
    ReloadedEnds(cap, st, root, next, items, leaves, missed, ls, lv, files, lv', files', st2, lv2, root2, next2,
        ls2);
    LoadedFiles(st2, lv2, files', m.ids);
    ReloadedClash(st, ls[0], missed, st2, ls2[0]);
  }

  lemma ReloadedEnds(cap: nat, st: Store, root: Id, next: Id, items: nat, leaves: nat, missed: seq<nat>, ls: Levels,
      lv: Leaves, files: Files, lv1: Leaves, files': Files, st': Store, lv': Leaves, root': Id,
      next': Id, ls': Levels)
    requires Consistent(cap, st, Some(root), next, items, leaves, missed, ls) && cap >= 8
    requires Backed(st, lv, files, ls[0]) && AllFlushed(st, lv, files, lv1, files', ls[0])
    requires Openable(files', Numbers(st, ls[0])) && LoadedLeaves(st', lv', files', Numbers(st, ls[0]))
    requires Stands(cap, st', root', next', ls', leaves, LegalSizes(Found(files', Numbers(st, ls[0])), cap))
    ensures CameBack(ls[0], lv, lv') <==> AllSafe(st, lv, files, ls[0])
    ensures AllSafe(st, lv, files, ls[0]) ==>
      SameGroups(Held(st, Some(root), ls), Held(st', Some(root'), ls')) && Backed(st', lv', files', ls'[0])
    ensures AllSafe(st, lv, files, ls[0]) ==>
      (Consistent(cap, st', Some(root'), next', items, leaves, [], ls') <==> !GivenUpLow(missed, leaves))
  {
    LoadedFiles(st', lv', files', Numbers(st, ls[0]));
    BackIff(st, lv, files, lv1, files', ls[0], st', lv');
    if AllSafe(st, lv, files, ls[0]) {
      ReloadedAll(cap, st, root, next, items, leaves, missed, ls, lv, files, lv1, files', st', lv', root',
          next', ls');
    }
  }

  lemma ReloadedAll(cap: nat, st: Store, root: Id, next: Id, items: nat, leaves: nat, missed: seq<nat>, ls: Levels,
      lv: Leaves, files: Files, lv1: Leaves, files': Files, st': Store, lv': Leaves, root': Id,
      next': Id, ls': Levels)
    requires Consistent(cap, st, Some(root), next, items, leaves, missed, ls) && cap >= 8
    requires Backed(st, lv, files, ls[0]) && AllFlushed(st, lv, files, lv1, files', ls[0])
    requires AllSafe(st, lv, files, ls[0]) && Openable(files', Numbers(st, ls[0]))
    requires LoadedLeaves(st', lv', files', Numbers(st, ls[0])) && Numbers(st', Upto(leaves)) == Numbers(st, ls[0])
    requires LegalSizes(Found(files', Numbers(st, ls[0])), cap) ==> Shape(st', ls', cap, NoHole)
    requires ls' != [] && ls'[|ls'| - 1] == [root'] && FreshFrom(st', next') && ls'[0] == Upto(leaves)
    ensures SameGroups(Held(st, Some(root), ls), Held(st', Some(root'), ls')) && Backed(st', lv', files', ls'[0])
    ensures Consistent(cap, st', Some(root'), next', items, leaves, [], ls') <==> !GivenUpLow(missed, leaves)
  {
    LeafChain(cap, st, root, ls);
    ChainSized(cap, st, root, ls);
    BackGroups(st, lv, files, lv1, files', ls[0], st', lv');
    BackSizes(st, lv, files, lv1, files', ls[0], cap);
    Reloaded(cap, st, root, next, items, leaves, missed, ls, st', root', next', ls');
  }

  /** The loaded tree, on the values of the fields of both trees. */
  lemma Reloaded(cap: nat, st: Store, root: Id, next: Id, items: nat, leaves: nat, missed: seq<nat>, ls: Levels,
      st': Store, root': Id, next': Id, ls': Levels)
    requires Consistent(cap, st, Some(root), next, items, leaves, missed, ls)
    requires Shape(st', ls', cap, NoHole) && ls'[|ls'| - 1] == [root'] && FreshFrom(st', next') && |ls'[0]| == leaves
    requires Numbers(st', ls'[0]) == Numbers(st, ls[0])
    requires forall i :: 0 <= i < |ls[0]| ==> SameGroups(EntriesOf(st, ls[0][i]), EntriesOf(st', ls'[0][i]))
    ensures SameGroups(Held(st, Some(root), ls), Held(st', Some(root'), ls'))
    ensures Consistent(cap, st', Some(root'), next', items, leaves, [], ls') <==> !GivenUpLow(missed, leaves)
  {
    SameContents(st, ls[0], st', ls'[0]);
    SameOrder(FlatE(st, ls[0]), FlatE(st', ls'[0]));
    SameTotal(FlatE(st, ls[0]), FlatE(st', ls'[0]));
    LoadedNumbers(st, ls[0], missed, st', ls'[0]);
  }
}
