/** segment_tree_t::flush and lazy_load: what of a leaf is in its file afterwards. */
module LeafDisk {
  import opened Multimap
  import opened BlockSpec
  import opened Segments
  import opened SegmentAppend
  import Balance = SegmentBalance
  import opened GapTracker
  import opened SegmentFile
  import opened LeafPlaces
  import opened LeafFile

  /** The file of a leaf: where the header says its blocks are, their bounds, the two counters, and the cells. */
  datatype LeafDisk = LeafDisk(records: seq<Record>, meta: seq<Bounds>, items: int, uniques: int, data: seq<Cell>)

  function SegOf(b: Blk, p: Place): Segment { Segment(p.offset, p.size, Image(b), p.resident, p.modified) }

  function Segs(bs: seq<Blk>, ps: seq<Place>): (r: seq<Segment>)
    requires |bs| == |ps|
    ensures |r| == |bs| && forall i :: 0 <= i < |bs| ==> r[i] == SegOf(bs[i], ps[i])
  {
    seq(|bs|, i requires 0 <= i < |bs| => SegOf(bs[i], ps[i]))
  }

  function PlaceOf(s: Segment): Place { Place(s.offset, s.size, s.resident, s.modified) }

  function PlacesOf(segs: seq<Segment>): (r: seq<Place>)
    ensures |r| == |segs| && forall i :: 0 <= i < |segs| ==> r[i] == PlaceOf(segs[i])
  {
    seq(|segs|, i requires 0 <= i < |segs| => PlaceOf(segs[i]))
  }

  lemma SegsSized(bs: seq<Blk>, ps: seq<Place>, gaps: seq<Gap>)
    requires Shelved(ps, gaps) && Fits(bs, ps)
    ensures Sized(Segs(bs, ps)) && Extents(Segs(bs, ps)) == Spots(ps)
  {
    forall i | 0 <= i < |bs| ensures ps[i].offset >= 0 && bs[i].full > 0 {
      assert Spots(ps)[i].size > 0 && LO <= Spots(ps)[i].offset;
    }
  }

  // ---------------------------------------------------------------- flush

  /** Where the blocks are when the gaps have been closed, and which are marked then. */
  ghost predicate Placed(s: State, placed: seq<Segment>) {
    |s.tree.bs| == |s.ps| && placed == SlidAll(Segs(s.tree.bs, s.ps), s.gaps) && Follows(Segs(s.tree.bs, s.ps), placed)
  }

  /** Where a flush puts a block: as much lower as there is free space in front of it. */
  function NewOffset(s: State, i: nat): int
    requires i < |s.ps|
  {
    s.ps[i].offset - GapsBelow(s.gaps, s.ps[i].offset)
  }

  /** Whatever closing the gaps moves is marked. A block comes back from the file if it is in memory and marked or
      moved, or if the file has it already where the flush puts it. */
  ghost predicate SafeBlock(s: State, data: seq<Cell>, i: nat)
    requires i < |s.ps| == |s.tree.bs|
  {
    || (s.ps[i].resident && (s.ps[i].modified || NewOffset(s, i) < s.ps[i].offset))
    || HasAt(data, NewOffset(s, i), Image(s.tree.bs[i]))
  }

  /** Every block comes back. */
  ghost predicate ComesBack(s: State, data: seq<Cell>) {
    |s.ps| == |s.tree.bs| && forall i :: 0 <= i < |s.ps| ==> SafeBlock(s, data, i)
  }

  /** Every block that is not in memory is in the file where the flush puts it. */
  ghost predicate StaysFound(s: State, data: seq<Cell>) {
    |s.ps| == |s.tree.bs| && forall i :: 0 <= i < |s.ps| && !s.ps[i].resident ==>
      HasAt(data, NewOffset(s, i), Image(s.tree.bs[i]))
  }

  lemma PlacedAt(s: State, data: seq<Cell>, placed: seq<Segment>, i: nat)
    requires Placed(s, placed) && i < |s.ps|
    ensures placed[i].offset == NewOffset(s, i) && placed[i].image == Image(s.tree.bs[i])
    ensures placed[i].resident == s.ps[i].resident && (Safe(data, placed[i]) <==> SafeBlock(s, data, i))
  {
    assert MovedDown(Segs(s.tree.bs, s.ps)[i], placed[i]);
  }

  lemma PlacedAll(s: State, data: seq<Cell>, placed: seq<Segment>)
    requires Placed(s, placed)
    ensures AllSafe(data, placed) <==> ComesBack(s, data)
    ensures OutSafe(data, placed) <==> StaysFound(s, data)
  {
    forall i | 0 <= i < |s.ps|
      ensures placed[i].offset == NewOffset(s, i) && placed[i].image == Image(s.tree.bs[i])
      ensures placed[i].resident == s.ps[i].resident && (Safe(data, placed[i]) <==> SafeBlock(s, data, i))
    {
      PlacedAt(s, data, placed, i);
    }
  }

  /** Every block is in memory, and marked unless the file has it where it is. */
  ghost predicate UpToDate(s: State, data: seq<Cell>) {
    |s.ps| == |s.tree.bs| && forall i :: 0 <= i < |s.ps| ==>
      s.ps[i].resident && (s.ps[i].modified || HasAt(data, s.ps[i].offset, Image(s.tree.bs[i])))
  }

  /** A leaf stays so through every change that leaves its blocks as they are or renews them. */
  lemma StaysUpToDate(s: State, s': State, data: seq<Cell>)
    requires UpToDate(s, data) && Carried(s, s')
    ensures UpToDate(s', data)
  {
    forall i | 0 <= i < |s'.ps|
      ensures s'.ps[i].resident && (s'.ps[i].modified || HasAt(data, s'.ps[i].offset, Image(s'.tree.bs[i])))
    {
      if !Renewed(s'.ps[i]) {
        assert AsItWas(Slots(s.tree.bs, s.ps), s'.tree.bs[i], s'.ps[i]);
        var j: nat :| SameSlot(Slots(s.tree.bs, s.ps), j, s'.tree.bs[i], s'.ps[i]);
      }
    }
  }

  /** Such a leaf comes back, however its blocks are moved. */
  lemma UpToDateBack(s: State, data: seq<Cell>)
    requires Kept(s, data) && UpToDate(s, data)
    ensures ComesBack(s, data) && StaysFound(s, data)
  {
    forall i | 0 <= i < |s.ps| ensures SafeBlock(s, data, i) {
      BelowNatural(s.gaps, s.ps[i].offset);
    }
  }

  /** What a flush leaves: the same tree over one gap at the end, nothing marked that is in memory, and a file whose
      header describes it and that has a block exactly if it was written or was there. */
  ghost predicate FlushesAs(s: State, data: seq<Cell>, s': State, disk: LeafDisk, placed: seq<Segment>) {
    && Placed(s, placed) && |placed| == |s.tree.bs| && s'.tree == s.tree
    && Shelved(s'.ps, s'.gaps) && Fits(s'.tree.bs, s'.ps) && |s'.gaps| == 1
    && (forall i :: 0 <= i < |placed| ==> s'.ps[i] == PlaceOf(Clean(placed[i])))
    && disk.meta == s.tree.meta && disk.items == s.tree.items && disk.uniques == s.tree.uniques
    && |disk.records| == |placed| && |disk.data| == s'.gaps[0].offset
    && (forall i :: 0 <= i < |placed| ==> disk.records[i] == Record(placed[i].offset, placed[i].size))
    && (forall i :: 0 <= i < |placed| ==>
      (HasAt(disk.data, placed[i].offset, placed[i].image) <==> Safe(data, placed[i])))
    && (forall i :: 0 <= i < |placed| && !Written(placed[i]) ==>
      SameOn(disk.data, data, placed[i].offset, placed[i].size))
  }

  /** A block that is written is not marked any more. */
  function Clean(s: Segment): Segment { s.(modified := s.modified && !Written(s)) }

  /** The blocks are placed as the gaps demand. */
  ghost predicate Flushes(s: State, data: seq<Cell>, s': State, disk: LeafDisk) {
    |s.tree.bs| == |s.ps| && FlushesAs(s, data, s', disk, SlidAll(Segs(s.tree.bs, s.ps), s.gaps))
  }

  method Flush(s: State, data: seq<Cell>) returns (s': State, disk: LeafDisk)
    requires Kept(s, data)
    ensures Flushes(s, data, s', disk)
  {
    SegsSized(s.tree.bs, s.ps, s.gaps);
    ghost var hi := End(s.gaps[|s.gaps| - 1]);
    var gs, ss := CloseGaps(s.gaps, Segs(s.tree.bs, s.ps), LO, hi);
    TiledFront(LO, hi, gs, Extents(ss));
    FollowsSized(Segs(s.tree.bs, s.ps), ss, LO, hi, gs);
    var written, clean := WriteBlocks(data, ss);
    InFileAfter(data, written, ss, gs[0].offset);
    s' := State(s.tree, PlacesOf(clean), gs);
    disk := LeafDisk(Header(ss), s.tree.meta, s.tree.items, s.tree.uniques, Truncated(written, gs[0].offset));
    FlushedPlaces(s.tree.bs, s.ps, ss, clean, gs, hi);
  }

  lemma FollowsSized(segs: seq<Segment>, ss: seq<Segment>, lo: nat, hi: nat, gs: seq<Gap>)
    requires Sized(segs) && Follows(segs, ss) && Tracks(lo, hi, gs, Extents(ss))
    ensures Sized(ss)
  {
    forall i | 0 <= i < |ss| ensures |ss[i].image| == ss[i].size && ss[i].offset >= 0 {
      assert MovedDown(segs[i], ss[i]) && lo <= Extents(ss)[i].offset;
    }
  }

  lemma InFileAfter(data: seq<Cell>, written: seq<Cell>, ss: seq<Segment>, end: nat)
    requires Flushed(data, written, ss, |ss|) && Sized(ss)
    requires forall i :: 0 <= i < |ss| ==> End(Extents(ss)[i]) <= end
    ensures forall i :: 0 <= i < |ss| ==>
      (HasAt(Truncated(written, end), ss[i].offset, ss[i].image) <==> Safe(data, ss[i]))
    ensures forall i :: 0 <= i < |ss| && !Written(ss[i]) ==>
      SameOn(Truncated(written, end), data, ss[i].offset, ss[i].size)
  {
    forall i | 0 <= i < |ss|
      ensures HasAt(Truncated(written, end), ss[i].offset, ss[i].image) <==> Safe(data, ss[i])
      ensures !Written(ss[i]) ==> SameOn(Truncated(written, end), data, ss[i].offset, ss[i].size)
    {
      assert Extents(ss)[i] == Extent(ss[i]);
      FlushedSafe(data, written, ss, end, i);
    }
  }

  lemma FlushedPlaces(bs: seq<Blk>, ps: seq<Place>, ss: seq<Segment>, clean: seq<Segment>, gs: seq<Gap>, hi: int)
    requires Fits(bs, ps) && Follows(Segs(bs, ps), ss) && |clean| == |ss|
    requires |gs| == 1 && End(gs[0]) == hi && Tracks(LO, hi, gs, Extents(ss))
    requires forall i :: 0 <= i < |ss| ==> clean[i] == ss[i].(modified := ss[i].modified && !Written(ss[i]))
    ensures Shelved(PlacesOf(clean), gs) && Fits(bs, PlacesOf(clean))
  {
    var qs := PlacesOf(clean);
    assert Spots(qs) == Extents(ss);
    forall i | 0 <= i < |bs| ensures qs[i].size == bs[i].full { assert MovedDown(Segs(bs, ps)[i], ss[i]); }
  }

  // ---------------------------------------------------------------- lazy_load

  /** The block these cells are the image of; anything else does not pass the checksum. */
  function Decode(cells: seq<Cell>): Blk {
    if cells != [] && cells[0].Of? && cells == Image(cells[0].b) then cells[0].b else Blk(|cells|, [])
  }

  lemma DecodeIff(cells: seq<Cell>, b: Blk)
    requires |cells| == b.full > 0 && b.es != []
    ensures Decode(cells) == b <==> cells == Image(b)
  {
    if cells == Image(b) { assert cells[0] == Of(b, 0); }
  }

  /** Every block of the header lies inside the file. */
  predicate Readable(disk: LeafDisk) {
    && |disk.data| >= LO
    && forall i :: 0 <= i < |disk.records| ==>
      disk.records[i].offset >= 0 && disk.records[i].size > 0
          && disk.records[i].offset + disk.records[i].size <= |disk.data|
  }

  function Found(disk: LeafDisk, i: nat): Blk
    requires Readable(disk) && i < |disk.records|
  {
    var r := disk.records[i];
    Decode(disk.data[r.offset..r.offset + r.size])
  }

  /** lazy_load: nothing is read but the header; a block is what will be read when it is needed. */
  function LazyLoad(disk: LeafDisk): (s: State)
    requires Readable(disk)
    ensures |s.tree.bs| == |s.ps| == |disk.records|
    ensures forall i :: 0 <= i < |disk.records| ==> s.tree.bs[i] == Found(disk, i)
    ensures forall i :: 0 <= i < |disk.records| ==>
      s.ps[i] == Place(disk.records[i].offset, disk.records[i].size, false, false)
  {
    var bs := seq(|disk.records|, i requires 0 <= i < |disk.records| => Found(disk, i));
    var ps := seq(|disk.records|, i requires 0 <= i < |disk.records| =>
      Place(disk.records[i].offset, disk.records[i].size, false, false));
    State(Balance.Tree(bs, disk.meta, disk.items, disk.uniques), ps, [Gap(|disk.data|, 1)])
  }

  ghost predicate AllSafe(data: seq<Cell>, placed: seq<Segment>) {
    forall i :: 0 <= i < |placed| ==> Safe(data, placed[i])
  }

  ghost predicate Full(bs: seq<Blk>) { forall i :: 0 <= i < |bs| ==> bs[i].es != [] }

  lemma FlushedReadable(s: State, data: seq<Cell>, s': State, disk: LeafDisk, placed: seq<Segment>)
    requires FlushesAs(s, data, s', disk, placed)
    ensures Readable(disk)
  {
    var hi := End(s'.gaps[0]);
    TiledFront(LO, hi, s'.gaps, Spots(s'.ps));
    forall i | 0 <= i < |disk.records|
      ensures disk.records[i].offset >= 0 && disk.records[i].size > 0
        && disk.records[i].offset + disk.records[i].size <= |disk.data|
    {
      assert Spots(s'.ps)[i] == Gap(placed[i].offset, placed[i].size) && Spots(s'.ps)[i].size > 0;
    }
  }

  /** A block comes back exactly if it was written or the file had it where the header says it is. */
  lemma BackIff(s: State, data: seq<Cell>, s': State, disk: LeafDisk, placed: seq<Segment>, i: nat)
    requires FlushesAs(s, data, s', disk, placed) && i < |s.tree.bs| && Full(s.tree.bs) && Fits(s.tree.bs, s.ps)
    ensures Readable(disk) && (Found(disk, i) == s.tree.bs[i] <==> Safe(data, placed[i]))
  {
    FlushedReadable(s, data, s', disk, placed);
    var b, r := s.tree.bs[i], disk.records[i];
    assert MovedDown(Segs(s.tree.bs, s.ps)[i], placed[i]);
    assert Spots(s'.ps)[i].size > 0;
    DecodeIff(disk.data[r.offset..r.offset + r.size], b);
    ReadsAs(disk.data, r.offset, Image(b));
  }

  /** Flush and load give the tree back, block for block, exactly if every block is safe. */
  lemma ReopenIff(s: State, data: seq<Cell>, s': State, disk: LeafDisk)
    requires Flushes(s, data, s', disk) && Full(s.tree.bs) && Fits(s.tree.bs, s.ps)
    ensures Readable(disk) && (LazyLoad(disk).tree == s.tree <==> ComesBack(s, data))
    ensures ComesBack(s, data) ==> Kept(LazyLoad(disk), disk.data)
  {
    var placed := SlidAll(Segs(s.tree.bs, s.ps), s.gaps);
    PlacedAll(s, data, placed);
    ReopenAs(s, data, s', disk, placed);
  }

  lemma ReopenAs(s: State, data: seq<Cell>, s': State, disk: LeafDisk, placed: seq<Segment>)
    requires FlushesAs(s, data, s', disk, placed) && Full(s.tree.bs) && Fits(s.tree.bs, s.ps)
    ensures Readable(disk) && (LazyLoad(disk).tree == s.tree <==> AllSafe(data, placed))
    ensures AllSafe(data, placed) ==> Kept(LazyLoad(disk), disk.data)
  {
    FlushedReadable(s, data, s', disk, placed);
    var t := LazyLoad(disk);
    forall i | 0 <= i < |s.tree.bs| ensures t.tree.bs[i] == s.tree.bs[i] <==> Safe(data, placed[i]) {
      BackIff(s, data, s', disk, placed, i);
    }
    if AllSafe(data, placed) {
      assert t.tree.bs == s.tree.bs;
      LoadedKept(s, data, s', disk, placed);
    } else {
      var i :| 0 <= i < |placed| && !Safe(data, placed[i]);
      assert t.tree.bs[i] != s.tree.bs[i];
    }
  }

  lemma LoadedKept(s: State, data: seq<Cell>, s': State, disk: LeafDisk, placed: seq<Segment>)
    requires FlushesAs(s, data, s', disk, placed) && Fits(s.tree.bs, s.ps) && AllSafe(data, placed) && Readable(disk)
    requires LazyLoad(disk).tree.bs == s.tree.bs
    ensures Kept(LazyLoad(disk), disk.data)
  {
    var t, hi := LazyLoad(disk), End(s'.gaps[0]);
    assert Spots(t.ps) == Spots(s'.ps);
    OneGap(s'.ps, s'.gaps, t.ps, |disk.data|);
    forall i | 0 <= i < |t.ps| ensures HasAt(disk.data, t.ps[i].offset, Image(t.tree.bs[i]))
        && t.ps[i].size == t.tree.bs[i].full {
      assert MovedDown(Segs(s.tree.bs, s.ps)[i], placed[i]) && Safe(data, placed[i]);
    }
  }

  /** With a single gap it does not matter how long it is. */
  lemma OneGap(ps: seq<Place>, gaps: seq<Gap>, qs: seq<Place>, end: nat)
    requires Shelved(ps, gaps) && |gaps| == 1 && gaps[0].offset == end && Spots(qs) == Spots(ps)
    ensures Shelved(qs, [Gap(end, 1)])
  {
    var gs, hi, live := [Gap(end, 1)], End(gaps[0]), Spots(ps);
    TiledFront(LO, hi, gaps, live);
    assert gs[1..] == [] && gaps[1..] == [];
    forall a | LO <= a < end + 1 ensures Holds(gs, a) || Holds(live, a) {
      if a == end { HoldsOne(gs[0], a); }
    }
  }

  /** Every block that is not in memory is in the file where the flush takes it to be. */
  ghost predicate OutSafe(data: seq<Cell>, placed: seq<Segment>) {
    forall i :: 0 <= i < |placed| && !placed[i].resident ==> HasAt(data, placed[i].offset, placed[i].image)
  }

  /** A flush moves such a block only in its header: the leaf stays in order exactly if none of them had to move, or
      the file happens to have it there. */
  lemma FlushedKept(s: State, data: seq<Cell>, s': State, disk: LeafDisk)
    requires Flushes(s, data, s', disk) && Fits(s.tree.bs, s.ps)
    ensures Kept(s', disk.data) <==> StaysFound(s, data)
  {
    var placed := SlidAll(Segs(s.tree.bs, s.ps), s.gaps);
    PlacedAll(s, data, placed);
    FlushedKeptAs(s, data, s', disk, placed);
  }

  lemma FlushedKeptAs(s: State, data: seq<Cell>, s': State, disk: LeafDisk, placed: seq<Segment>)
    requires FlushesAs(s, data, s', disk, placed) && Fits(s.tree.bs, s.ps)
    ensures Kept(s', disk.data) <==> OutSafe(data, placed)
  {
    forall i | 0 <= i < |placed|
      ensures s'.ps[i].resident == placed[i].resident && s'.ps[i].offset == placed[i].offset
      ensures placed[i].image == Image(s.tree.bs[i])
      ensures !placed[i].resident ==>
        (HasAt(disk.data, placed[i].offset, placed[i].image) <==> HasAt(data, placed[i].offset, placed[i].image))
    {
      assert MovedDown(Segs(s.tree.bs, s.ps)[i], placed[i]);
      assert s'.ps[i] == PlaceOf(Clean(placed[i]));
    }
  }

  /** If nothing is free in front of a block that is out of memory, nothing happens to it. */
  lemma UnmovedFound(s: State, data: seq<Cell>)
    requires Kept(s, data)
    requires forall i :: 0 <= i < |s.ps| && !s.ps[i].resident ==> GapsBelow(s.gaps, s.ps[i].offset) == 0
    ensures StaysFound(s, data)
  {
  }

  /** After a flush nothing is free in front of a block, and no block in memory is marked. */
  lemma FlushedBlock(s: State, data: seq<Cell>, s': State, disk: LeafDisk, placed: seq<Segment>, i: nat)
    requires FlushesAs(s, data, s', disk, placed) && i < |placed|
    ensures s'.ps[i].resident == placed[i].resident && !(s'.ps[i].resident && s'.ps[i].modified)
    ensures NewOffset(s', i) == s'.ps[i].offset == placed[i].offset && placed[i].image == Image(s'.tree.bs[i])
  {
    assert s'.ps[i] == PlaceOf(Clean(placed[i])) && MovedDown(Segs(s.tree.bs, s.ps)[i], placed[i]);
    TailBehind(LO, End(s'.gaps[0]), s'.gaps, Spots(s'.ps), i);
    NoneBelow(s'.gaps, s'.ps[i].offset);
  }

  /** So flushing again changes nothing about what comes back. */
  lemma FlushedAgain(s: State, data: seq<Cell>, s': State, disk: LeafDisk)
    requires Flushes(s, data, s', disk)
    ensures ComesBack(s', disk.data) <==> ComesBack(s, data)
    ensures StaysFound(s', disk.data) <==> StaysFound(s, data)
  {
    var placed := SlidAll(Segs(s.tree.bs, s.ps), s.gaps);
    PlacedAll(s, data, placed);
    FlushedAgainAs(s, data, s', disk, placed);
  }

  lemma FlushedAgainAs(s: State, data: seq<Cell>, s': State, disk: LeafDisk, placed: seq<Segment>)
    requires FlushesAs(s, data, s', disk, placed)
    ensures ComesBack(s', disk.data) <==> AllSafe(data, placed)
    ensures StaysFound(s', disk.data) <==> OutSafe(data, placed)
  {
    forall i | 0 <= i < |placed|
      ensures SafeBlock(s', disk.data, i) <==> Safe(data, placed[i])
      ensures s'.ps[i].resident == placed[i].resident && NewOffset(s', i) == placed[i].offset
      ensures Image(s'.tree.bs[i]) == placed[i].image
      ensures !placed[i].resident ==>
        (HasAt(disk.data, placed[i].offset, placed[i].image) <==> HasAt(data, placed[i].offset, placed[i].image))
    {
      FlushedBlock(s, data, s', disk, placed, i);
    }
  }

  /** A leaf whose blocks are in memory and marked or in the file is so after a flush: the file has all of them. */
  lemma FlushUpToDate(s: State, data: seq<Cell>, s': State, disk: LeafDisk)
    requires Flushes(s, data, s', disk) && Kept(s, data) && UpToDate(s, data)
    ensures UpToDate(s', disk.data)
  {
    UpToDateBack(s, data);
    FlushedAgain(s, data, s', disk);
    var placed := SlidAll(Segs(s.tree.bs, s.ps), s.gaps);
    PlacedAll(s, data, placed);
    forall i | 0 <= i < |s'.ps| ensures s'.ps[i].resident && HasAt(disk.data, s'.ps[i].offset, Image(s'.tree.bs[i])) {
      FlushedBlock(s, data, s', disk, placed, i);
    }
  }

  // ---------------------------------------------------------------- what a split leaves unwritten

  /** A block that was in the file, unmarked, and is cut by a split is safe exactly if something is free in front of
      it, so that closing the gaps moves it: split does not mark the half it keeps. */
  lemma CutSafeIff(s: State, data: seq<Cell>, low: State, d: Balance.Division)
    requires Kept(s, data) && Kept(low, data) && Balance.Divides(s.tree.bs, d)
    requires
      && d.at > 0 && !s.ps[d.n - 1].modified && HasAt(data, s.ps[d.n - 1].offset, Image(s.tree.bs[d.n - 1]))
      && low.tree.bs == Balance.LowerPart(s.tree.bs, d) && low.ps == Touched(s.ps, d.n - 1, |s.ps|)[..d.n]
    ensures d.n <= |low.ps| && (SafeBlock(low, data, d.n - 1) <==> GapsBelow(low.gaps, s.ps[d.n - 1].offset) > 0)
  {
    var i, b, c := d.n - 1, s.tree.bs[d.n - 1], low.tree.bs[d.n - 1];
    FullPositive(s.tree.bs, s.ps, s.gaps, i);
    assert c == Balance.Kept(b, d.at) && c != b;
    BelowNatural(low.gaps, s.ps[i].offset);
    NotBoth(data, s.ps[i].offset, b, c);
  }

  lemma NotBoth(data: seq<Cell>, at: int, b: Blk, c: Blk)
    requires HasAt(data, at, Image(b)) && b.full > 0 && c.full == b.full && c != b
    ensures !HasAt(data, at, Image(c))
  {
    assert At(data, at) == Image(b)[at - at] == Of(b, 0);
    assert Image(c)[at - at] == Of(c, 0);
  }

  /** A leaf of one block, just flushed. */
  ghost predicate JustFlushed(s: State, data: seq<Cell>) {
    && Kept(s, data) && Balance.SoundTree(s.tree) && |s.tree.bs| == 1
    && s.ps[0].offset == LO && !s.ps[0].modified && HasAt(data, LO, Image(s.tree.bs[0]))
  }

  lemma OneBlockCut(s: State, data: seq<Cell>, n: nat)
    requires JustFlushed(s, data) && 0 < n < s.tree.uniques
    ensures var d := Balance.DivideTop(s.tree.bs, n); d.n == 1 && d.at > 0
  {
    var b := s.tree.bs[0];
    assert s.tree.bs == [b];
    Balance.BlockDistinct(b);
  }

  /** Split it, flush it and load it: the leaf has its old block again, with the indices that went to the new
      leaf. */
  lemma SplitLost(s: State, data: seq<Cell>, low: State, s': State, disk: LeafDisk, n: nat, d: Balance.Division)
    requires JustFlushed(s, data) && 0 < n < s.tree.uniques && d == Balance.DivideTop(s.tree.bs, n)
    requires Balance.Divides(s.tree.bs, d)
    requires low.tree.bs == Balance.LowerPart(s.tree.bs, d) && low.ps == Touched(s.ps, 0, 1)
    requires Kept(low, data) && Flushes(low, data, s', disk)
    ensures Readable(disk) && LazyLoad(disk).tree.bs == s.tree.bs != low.tree.bs
  {
    OneBlockCut(s, data, n);
    var b, c := s.tree.bs[0], low.tree.bs[0];
    assert |low.tree.bs| == 1 && c != b;
    var placed := SlidAll(Segs(low.tree.bs, low.ps), low.gaps);
    PlacedAt(low, data, placed, 0);
    NoneBelow(low.gaps, LO);
    OneTouched(s.ps);
    CutSafeIff(s, data, low, d);
    FlushedReadable(low, data, s', disk, placed);
    StillThere(disk, b);
  }

  /** What a flush does not write stays. */
  lemma StillThere(disk: LeafDisk, b: Blk)
    requires Readable(disk) && |disk.records| == 1
    requires HasAt(disk.data, disk.records[0].offset, Image(b)) && disk.records[0].size == b.full > 0 && b.es != []
    ensures LazyLoad(disk).tree.bs == [b]
  {
    var r := disk.records[0];
    DecodeIff(disk.data[r.offset..r.offset + r.size], b);
    ReadsAs(disk.data, r.offset, Image(b));
  }

  lemma Differ(low: seq<Blk>, high: seq<Blk>, all: seq<Blk>)
    requires Pairs(low) + Pairs(high) == Pairs(all) && Blocks(high) && high != []
    ensures Pairs(all) != Pairs(low)
  {
    assert high[0].es != [];
    assert |Pairs(high)| == |multiset(high[0].es)| + |Pairs(high[1..])|;
    assert |Pairs(all)| == |Pairs(low)| + |Pairs(high)|;
  }

  /** Split such a leaf, flush it and load it: both halves were right after the split, but the entries that went to
      the new leaf are back in the old one. */
  method SplitFlushLoad(s: State, data: seq<Cell>) returns (low: State, high: State, again: State)
    requires JustFlushed(s, data) && s.tree.uniques > 1
    ensures Balance.Settled(low.tree, high.tree) && Pairs(low.tree.bs) + Pairs(high.tree.bs) == Pairs(s.tree.bs)
    ensures again.tree.bs == s.tree.bs && Pairs(again.tree.bs) != Pairs(low.tree.bs)
  {
    ghost var d;
    ghost var n := SomeHalf(s.tree.uniques);
    low, high, d := Split(s, n, data, []);
    OneBlockCut(s, data, n);
    OneBlockWhole(s.tree.bs, n);
    OneTouched(s.ps);
    Differ(low.tree.bs, high.tree.bs, s.tree.bs);
    var s', disk;
    s', disk := Flush(low, data);
    SplitLost(s, data, low, s', disk, n, d);
    again := LazyLoad(disk);
  }

  lemma OneTouched(ps: seq<Place>)
    requires |ps| == 1
    ensures Touched(ps, 0, 1)[..1] == Touched(ps, 0, 1)
  {
  }

  lemma SomeHalf(all: int) returns (n: nat)
    requires all > 1
    ensures Half(all, n) && 0 < n < all
  {
    n := all / 2;
  }

  lemma OneBlockWhole(bs: seq<Blk>, n: nat)
    requires |bs| == 1 && Blocks(bs)
    ensures !Balance.Torn(bs, n)
  {
    Balance.NoSpanNotTorn(bs, n);
  }

  /** Such a leaf: one block with two indices, as the flush after the second insertion leaves it. */
  lemma JustFlushedHappens(a: Item, b: Item) returns (s: State, data: seq<Cell>)
    requires |a| == |b| == 1
    ensures JustFlushed(s, data) && s.tree.uniques == 2
  {
    var x := Blk(DEFAULT_SIZE, [(1, b), (0, a)]);
    var bs := [x];
    s := State(Balance.Tree(bs, BoundsList(bs), 2, 2), [Place(LO, DEFAULT_SIZE, true, false)],
      [Gap(LO + DEFAULT_SIZE, 1)]);
    data := seq(LO, i => Blank) + Image(x);
    TwoIndices(x, a, b);
    OneBlockShelved(s.ps, s.gaps);
    forall i | LO <= i < LO + |Image(x)| ensures At(data, i) == Image(x)[i - LO] { }
  }

  lemma TwoIndices(x: Blk, a: Item, b: Item)
    requires x == Blk(DEFAULT_SIZE, [(1, b), (0, a)]) && |a| == |b| == 1
    ensures Balance.SoundTree(Balance.Tree([x], BoundsList([x]), 2, 2))
  {
    assert x.es[1..] == [(0, a)];
    WeightOne((0, a));
    PairsOne(x);
    var m := multiset(x.es);
    assert m == multiset{(1, b), (0, a)};
    assert KeysOf(m) == {1, 0};
  }
}
