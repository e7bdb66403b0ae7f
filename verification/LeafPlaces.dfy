/** Where the blocks of a segment tree are in its file, which of them are in memory and which are marked: what
    insert_segment_, remove_segment_, load_segment_ and a change of a block do to that. */
module LeafPlaces {
  import opened BlockSpec
  import opened GapTracker
  import opened SegmentFile

  /** The header takes the first two block sizes of a file. */
  const LO: nat := 2 * 262144

  /** file_offset and size of block_metadata, and whether the node has its block and is marked modified. */
  datatype Place = Place(offset: int, size: int, resident: bool, modified: bool)

  function Spot(p: Place): Gap { Gap(p.offset, p.size) }

  function Spots(ps: seq<Place>): (r: seq<Gap>)
    ensures |r| == |ps| && forall i :: 0 <= i < |ps| ==> r[i] == Spot(ps[i])
  {
    seq(|ps|, i requires 0 <= i < |ps| => Spot(ps[i]))
  }

  /** The places and the gaps fill the file up to the end of the last gap, which has no bound: the region of 2^64
      bytes is taken not to run out. */
  ghost predicate Shelved(ps: seq<Place>, gaps: seq<Gap>) {
    gaps != [] && Tracks(LO, End(gaps[|gaps| - 1]), gaps, Spots(ps))
  }

  ghost predicate Fits(bs: seq<Blk>, ps: seq<Place>) {
    |bs| == |ps| && forall i :: 0 <= i < |bs| ==> ps[i].size == bs[i].full
  }

  /** A block that is not in memory is in the file. */
  ghost predicate InFile(bs: seq<Blk>, ps: seq<Place>, data: seq<Cell>) {
    |bs| == |ps| && forall i :: 0 <= i < |bs| && !ps[i].resident ==> HasAt(data, ps[i].offset, Image(bs[i]))
  }

  ghost predicate Housed(bs: seq<Blk>, ps: seq<Place>, gaps: seq<Gap>, data: seq<Cell>) {
    Shelved(ps, gaps) && Fits(bs, ps) && InFile(bs, ps, data)
  }

  /** One block behind the header, and the end of the file. */
  lemma OneBlockShelved(ps: seq<Place>, gaps: seq<Gap>)
    requires |ps| == 1 && ps[0].offset == LO && ps[0].size > 0 && gaps == [Gap(LO + ps[0].size, 1)]
    ensures Shelved(ps, gaps)
  {
    var hi, g, e := End(gaps[0]), gaps[0], Spot(ps[0]);
    var live := [e];
    assert Spots(ps) == live && gaps == [g];
    assert gaps[1..] == [] && live[1..] == [];
    forall a | LO <= a < hi ensures Holds(gaps, a) || Holds(live, a) {
      HoldsOne(e, a);
      HoldsOne(g, a);
    }
    assert Inside(gaps, LO, hi) && Apart(gaps, |gaps|);
    assert Inside(live, LO, hi) && PairwiseDisjoint(live);
    assert Clear(gaps, live);
    assert Total(gaps) + Total(live) == hi - LO;
    assert Covers(LO, hi, gaps, live);
  }

  // ---------------------------------------------------------------- the end of the file

  function Stretch(gaps: seq<Gap>, n: nat): seq<Gap>
    requires gaps != []
  {
    var l := |gaps| - 1;
    gaps[..l] + [Gap(gaps[l].offset, gaps[l].size + n)]
  }

  lemma StretchTotal(gaps: seq<Gap>, n: nat)
    requires gaps != []
    ensures Total(Stretch(gaps, n)) == Total(gaps) + n
  {
    TotalLast(gaps, |gaps| - 1);
    TotalLast(Stretch(gaps, n), |gaps| - 1);
    assert Stretch(gaps, n)[..|gaps| - 1] == gaps[..|gaps| - 1];
  }

  lemma StretchCovers(lo: int, hi: int, gaps: seq<Gap>, live: seq<Gap>, n: nat)
    requires gaps != [] && hi == End(gaps[|gaps| - 1]) && Covers(lo, hi, gaps, live)
    requires gaps[|gaps| - 1].offset <= hi
    ensures Covers(lo, hi + n, Stretch(gaps, n), live)
  {
    var gs, l := Stretch(gaps, n), |gaps| - 1;
    forall a | lo <= a < hi + n ensures Holds(gs, a) || Holds(live, a) {
      if a >= hi {
        assert In(gs[l], a);
      } else if Holds(gaps, a) {
        var i :| 0 <= i < |gaps| && In(gaps[i], a);
        assert In(gs[i], a);
      }
    }
  }

  /** Making the last gap longer changes nothing else. */
  lemma StretchShelved(ps: seq<Place>, gaps: seq<Gap>, n: nat)
    requires Shelved(ps, gaps)
    ensures Shelved(ps, Stretch(gaps, n)) && Stretch(gaps, n)[|gaps| - 1].size > n
  {
    var gs, l, hi, live := Stretch(gaps, n), |gaps| - 1, End(gaps[|gaps| - 1]), Spots(ps);
    assert gaps[l].size > 0;
    StretchTotal(gaps, n);
    StretchCovers(LO, hi, gaps, live, n);
    forall i, j | 0 <= i < |gs| && 0 <= j < |live| ensures Disjoint(gs[i], live[j]) {
      assert Disjoint(gaps[i], live[j]) && live[j].size > 0 && End(live[j]) <= hi;
    }
  }

  // ---------------------------------------------------------------- one block more, one block less

  lemma SpotsAt(ps: seq<Place>, i: nat, p: Place)
    requires i <= |ps|
    ensures Spots(ps[..i] + [p] + ps[i..]) == Spots(ps)[..i] + [Spot(p)] + Spots(ps)[i..]
  {
  }

  lemma SpotsLess(ps: seq<Place>, i: nat)
    requires i < |ps|
    ensures Spots(ps[..i] + ps[i + 1..]) == Without(Spots(ps), i)
  {
  }

  /** The offset of the first gap that is large enough; the last one always is, as the file may grow. */
  ghost predicate FitsFirst(gaps: seq<Gap>, size: int, at: int) {
    exists k: nat :: k < |gaps| && at == gaps[k].offset && (forall j :: 0 <= j < k ==> gaps[j].size < size)
      && (gaps[k].size >= size || k == |gaps| - 1)
  }

  lemma StretchFirst(gaps: seq<Gap>, size: nat, k: nat)
    requires gaps != [] && FirstFits(Stretch(gaps, size), size, k)
    ensures FitsFirst(gaps, size, Stretch(gaps, size)[k].offset)
  {
    var gs := Stretch(gaps, size);
    assert |gs| == |gaps| && gs[k].offset == gaps[k].offset;
    forall j | 0 <= j < |gaps| - 1 ensures gs[j] == gaps[j] { }
  }

  /** insert_segment_: the block gets the first gap that is large enough; it is in memory and marked. */
  method Insert(ps: seq<Place>, gaps: seq<Gap>, i: nat, size: int) returns (ps': seq<Place>, gaps': seq<Gap>, at: int)
    requires Shelved(ps, gaps) && i <= |ps| && size > 0
    ensures Shelved(ps', gaps') && ps' == ps[..i] + [Place(at, size, true, true)] + ps[i..]
    ensures gaps != [] && FitsFirst(gaps, size, at)
  {
    StretchShelved(ps, gaps, size);
    var gs := Stretch(gaps, size);
    ghost var hi := End(gs[|gs| - 1]);
    var k;
    k, at := TakeGap(gs, size, LO, hi, Spots(ps), i);
    StretchFirst(gaps, size, k);
    var p := Place(at, size, true, true);
    SpotsAt(ps, i, p);
    ps', gaps' := ps[..i] + [p] + ps[i..], Taken(gs, k, size);
  }

  /** remove_segment_: its extent is given back. */
  method Remove(ps: seq<Place>, gaps: seq<Gap>, i: nat) returns (ps': seq<Place>, gaps': seq<Gap>)
    requires Shelved(ps, gaps) && i < |ps|
    ensures Shelved(ps', gaps') && ps' == ps[..i] + ps[i + 1..]
  {
    ghost var hi := End(gaps[|gaps| - 1]);
    gaps' := GiveBack(gaps, Spot(ps[i]), LO, hi, Spots(ps), i);
    ReturnedTail(LO, hi, gaps, gaps', Spots(ps), Without(Spots(ps), i), i);
    SpotsLess(ps, i);
    ps' := ps[..i] + ps[i + 1..];
  }

  /** load_segment_ of the blocks from x to y that are not in memory. */
  function Touched(ps: seq<Place>, x: nat, y: nat): (r: seq<Place>)
    ensures |r| == |ps|
    ensures forall i :: 0 <= i < |ps| ==> r[i] == if x <= i < y then ps[i].(resident := true) else ps[i]
  {
    seq(|ps|, i requires 0 <= i < |ps| => if x <= i < y then ps[i].(resident := true) else ps[i])
  }

  /** Block i is changed where it is, and marked or left as it was marked. */
  function Changed(ps: seq<Place>, i: nat, mark: bool): seq<Place>
    requires i < |ps|
  {
    ps[i := ps[i].(resident := true, modified := mark || ps[i].modified)]
  }

  lemma SameSpots(ps: seq<Place>, ps': seq<Place>, gaps: seq<Gap>)
    requires Shelved(ps, gaps) && |ps'| == |ps| && forall i :: 0 <= i < |ps| ==> Spot(ps'[i]) == Spot(ps[i])
    ensures Shelved(ps', gaps)
  {
    assert Spots(ps') == Spots(ps);
  }

  // ---------------------------------------------------------------- what becomes of the marks

  /** A list of blocks and where they are. */
  datatype Slots = Slots(bs: seq<Blk>, ps: seq<Place>)

  /** Block i is block j of the list o, where it was and marked as it was, and in memory if it was. */
  ghost predicate SameSlot(o: Slots, j: nat, b: Blk, p: Place) {
    && j < |o.bs| == |o.ps| && b == o.bs[j] && Spot(p) == Spot(o.ps[j]) && p.modified == o.ps[j].modified
    && (o.ps[j].resident ==> p.resident)
  }

  ghost predicate AsItWas(o: Slots, b: Blk, p: Place) { exists j: nat :: SameSlot(o, j, b, p) }

  predicate Renewed(p: Place) { p.resident && p.modified }

  /** Every block is one of the list o, unchanged, or it is in memory and marked. */
  ghost predicate Accounted(o: Slots, bs: seq<Blk>, ps: seq<Place>) {
    |bs| == |ps| && forall i :: 0 <= i < |ps| ==> AsItWas(o, bs[i], ps[i]) || Renewed(ps[i])
  }

  /** What holds of a list holds of one whose blocks are all accounted for by it. */
  lemma AccountedOn(o: Slots, bs: seq<Blk>, ps: seq<Place>, b: Blk, p: Place)
    requires Accounted(o, bs, ps) && (AsItWas(Slots(bs, ps), b, p) || Renewed(p))
    ensures AsItWas(o, b, p) || Renewed(p)
  {
    if !Renewed(p) {
      var j: nat :| SameSlot(Slots(bs, ps), j, b, p);
      assert !Renewed(ps[j]) && AsItWas(o, bs[j], ps[j]);
      var n: nat :| SameSlot(o, n, bs[j], ps[j]);
      assert SameSlot(o, n, b, p);
    }
  }

  lemma AccountedTrans(o: Slots, bs: seq<Blk>, ps: seq<Place>, cs: seq<Blk>, qs: seq<Place>)
    requires Accounted(o, bs, ps) && Accounted(Slots(bs, ps), cs, qs)
    ensures Accounted(o, cs, qs)
  {
    forall i | 0 <= i < |qs| ensures AsItWas(o, cs[i], qs[i]) || Renewed(qs[i]) {
      AccountedOn(o, bs, ps, cs[i], qs[i]);
    }
  }

  /** Whatever accounts for the one list accounts for the other. */
  ghost predicate Passes(bs: seq<Blk>, ps: seq<Place>, cs: seq<Blk>, qs: seq<Place>) {
    forall o: Slots :: Accounted(o, bs, ps) ==> Accounted(o, cs, qs)
  }

  lemma PassesOn(bs: seq<Blk>, ps: seq<Place>, cs: seq<Blk>, qs: seq<Place>)
    requires Accounted(Slots(bs, ps), cs, qs)
    ensures Passes(bs, ps, cs, qs)
  {
    forall o: Slots | Accounted(o, bs, ps) ensures Accounted(o, cs, qs) { AccountedTrans(o, bs, ps, cs, qs); }
  }

  lemma AccountedSelf(bs: seq<Blk>, ps: seq<Place>)
    requires |bs| == |ps|
    ensures Accounted(Slots(bs, ps), bs, ps)
  {
    forall i | 0 <= i < |ps| ensures AsItWas(Slots(bs, ps), bs[i], ps[i]) {
      assert SameSlot(Slots(bs, ps), i, bs[i], ps[i]);
    }
  }

  lemma TouchedPasses(bs: seq<Blk>, ps: seq<Place>, x: nat, y: nat)
    requires |bs| == |ps|
    ensures Passes(bs, ps, bs, Touched(ps, x, y))
  {
    var o, qs := Slots(bs, ps), Touched(ps, x, y);
    forall i | 0 <= i < |qs| ensures AsItWas(o, bs[i], qs[i]) { assert SameSlot(o, i, bs[i], qs[i]); }
    PassesOn(bs, ps, bs, qs);
  }

  lemma ChangedPasses(bs: seq<Blk>, ps: seq<Place>, i: nat, b: Blk)
    requires i < |bs| == |ps|
    ensures Passes(bs, ps, bs[i := b], Changed(ps, i, true))
  {
    var o, cs, qs := Slots(bs, ps), bs[i := b], Changed(ps, i, true);
    forall n | 0 <= n < |qs| && n != i ensures AsItWas(o, cs[n], qs[n]) { assert SameSlot(o, n, cs[n], qs[n]); }
    PassesOn(bs, ps, cs, qs);
  }

  lemma InsertedPasses(bs: seq<Blk>, ps: seq<Place>, i: nat, b: Blk, p: Place)
    requires i <= |bs| == |ps| && Renewed(p)
    ensures Passes(bs, ps, bs[..i] + [b] + bs[i..], ps[..i] + [p] + ps[i..])
  {
    var o, cs, qs := Slots(bs, ps), bs[..i] + [b] + bs[i..], ps[..i] + [p] + ps[i..];
    forall n | 0 <= n < |qs| && n != i ensures AsItWas(o, cs[n], qs[n]) {
      assert SameSlot(o, if n < i then n else n - 1, cs[n], qs[n]);
    }
    PassesOn(bs, ps, cs, qs);
  }

  lemma RemovedPasses(bs: seq<Blk>, ps: seq<Place>, i: nat)
    requires i < |bs| == |ps|
    ensures Passes(bs, ps, bs[..i] + bs[i + 1..], ps[..i] + ps[i + 1..])
  {
    var o, cs, qs := Slots(bs, ps), bs[..i] + bs[i + 1..], ps[..i] + ps[i + 1..];
    forall n | 0 <= n < |qs| ensures AsItWas(o, cs[n], qs[n]) {
      assert SameSlot(o, if n < i then n else n + 1, cs[n], qs[n]);
    }
    PassesOn(bs, ps, cs, qs);
  }

  lemma TouchedHoused(bs: seq<Blk>, ps: seq<Place>, gaps: seq<Gap>, data: seq<Cell>, x: nat, y: nat)
    requires Housed(bs, ps, gaps, data)
    ensures Housed(bs, Touched(ps, x, y), gaps, data)
  {
    SameSpots(ps, Touched(ps, x, y), gaps);
  }

  lemma ChangedHoused(bs: seq<Blk>, ps: seq<Place>, gaps: seq<Gap>, data: seq<Cell>, i: nat, b: Blk, mark: bool)
    requires Housed(bs, ps, gaps, data) && i < |bs| && b.full == bs[i].full
    ensures Housed(bs[i := b], Changed(ps, i, mark), gaps, data)
  {
    SameSpots(ps, Changed(ps, i, mark), gaps);
  }

  lemma InsertedHoused(bs: seq<Blk>, ps: seq<Place>, data: seq<Cell>, i: nat, b: Blk, p: Place)
    requires Fits(bs, ps) && InFile(bs, ps, data) && i <= |bs| && p.size == b.full && p.resident
    ensures Fits(bs[..i] + [b] + bs[i..], ps[..i] + [p] + ps[i..])
    ensures InFile(bs[..i] + [b] + bs[i..], ps[..i] + [p] + ps[i..], data)
  {
    var cs, qs := bs[..i] + [b] + bs[i..], ps[..i] + [p] + ps[i..];
    assert forall n :: 0 <= n < |cs| ==> cs[n] == if n < i then bs[n] else if n == i then b else bs[n - 1];
    assert forall n :: 0 <= n < |cs| ==> qs[n] == if n < i then ps[n] else if n == i then p else ps[n - 1];
  }

  lemma RemovedHoused(bs: seq<Blk>, ps: seq<Place>, data: seq<Cell>, i: nat)
    requires Fits(bs, ps) && InFile(bs, ps, data) && i < |bs|
    ensures Fits(bs[..i] + bs[i + 1..], ps[..i] + ps[i + 1..])
    ensures InFile(bs[..i] + bs[i + 1..], ps[..i] + ps[i + 1..], data)
  {
    var cs, qs := bs[..i] + bs[i + 1..], ps[..i] + ps[i + 1..];
    assert forall n :: 0 <= n < |cs| ==> cs[n] == bs[if n < i then n else n + 1];
    assert forall n :: 0 <= n < |cs| ==> qs[n] == ps[if n < i then n else n + 1];
  }

  /** A block joins the list. */
  method PutIn(ps: seq<Place>, gaps: seq<Gap>, i: nat, b: Blk, ghost bs: seq<Blk>, ghost data: seq<Cell>)
    returns (ps': seq<Place>, gaps': seq<Gap>)
    requires Housed(bs, ps, gaps, data) && i <= |bs| && b.full > 0
    ensures Housed(bs[..i] + [b] + bs[i..], ps', gaps', data)
    ensures exists at :: ps' == ps[..i] + [Place(at, b.full, true, true)] + ps[i..]
    ensures Passes(bs, ps, bs[..i] + [b] + bs[i..], ps')
  {
    var at;
    ps', gaps', at := Insert(ps, gaps, i, b.full);
    InsertedPasses(bs, ps, i, b, Place(at, b.full, true, true));
    InsertedHoused(bs, ps, data, i, b, Place(at, b.full, true, true));
  }

  /** A block leaves it. */
  method TakeOut(ps: seq<Place>, gaps: seq<Gap>, i: nat, ghost bs: seq<Blk>, ghost data: seq<Cell>)
    returns (ps': seq<Place>, gaps': seq<Gap>)
    requires Housed(bs, ps, gaps, data) && i < |bs|
    ensures Housed(bs[..i] + bs[i + 1..], ps', gaps', data) && ps' == ps[..i] + ps[i + 1..]
    ensures Passes(bs, ps, bs[..i] + bs[i + 1..], ps')
  {
    RemovedPasses(bs, ps, i);
    ps', gaps' := Remove(ps, gaps, i);
    RemovedHoused(bs, ps, data, i);
  }
}
