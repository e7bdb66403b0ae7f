/** The file of a segment tree: where its blocks are, how gaps between them are closed, and what a
    flush and a load make of the file. */
module SegmentFile {
  import opened BlockSpec
  import opened GapTracker

  /** A cell of the file: never written, or the one at some place of the image of a block. Images of different
      blocks differ in every cell: the file has a block where it has all of its cells. */
  datatype Cell = Blank | Of(b: Blk, at: nat)

  /** What a block looks like in the file. */
  function Image(b: Blk): (r: seq<Cell>)
    ensures |r| == if b.full >= 0 then b.full else 0
    ensures forall i :: 0 <= i < |r| ==> r[i] == Of(b, i)
  {
    seq(if b.full >= 0 then b.full else 0, i requires 0 <= i => Of(b, i))
  }

  lemma ImagesDiffer(b: Blk, c: Blk)
    requires b.full > 0 && Image(b) == Image(c)
    ensures b == c
  {
    assert Image(b)[0] == Of(b, 0) && Image(c)[0] == Of(c, 0);
  }

  /** A block in the file: its extent, its cells, whether it is in memory and whether it is marked modified. */
  datatype Segment = Segment(offset: int, size: int, image: seq<Cell>, resident: bool, modified: bool)

  function Extent(s: Segment): Gap { Gap(s.offset, s.size) }

  function Extents(segs: seq<Segment>): (r: seq<Gap>)
    ensures |r| == |segs| && forall i :: 0 <= i < |segs| ==> r[i] == Extent(segs[i])
  {
    seq(|segs|, i requires 0 <= i < |segs| => Extent(segs[i]))
  }

  /** The last gap reaches the end of the region. */
  ghost predicate Tail(gs: seq<Gap>, hi: int) { gs != [] && End(gs[|gs| - 1]) == hi }

  // ---------------------------------------------------------------- closing one gap

  /** An offset behind the gap moves down by its size. */
  function Lower(a: int, g: Gap): int { if a > g.offset then a - g.size else a }

  function LowerGap(e: Gap, g: Gap): Gap { Gap(Lower(e.offset, g), e.size) }

  /** The gaps behind the first, moved down; the last one grows by what is gained. */
  function Closed(gs: seq<Gap>): (r: seq<Gap>)
    requires |gs| > 1
    ensures |r| == |gs| - 1
    ensures forall i :: 0 <= i < |r| ==>
      r[i] == Gap(gs[i + 1].offset - gs[0].size, gs[i + 1].size + if i == |r| - 1 then gs[0].size else 0)
  {
    seq(|gs| - 1, i requires 0 <= i < |gs| - 1 => Gap(gs[i + 1].offset - gs[0].size,
        gs[i + 1].size + if i == |gs| - 2 then gs[0].size else 0))
  }

  ghost predicate Lowered(live: seq<Gap>, g: Gap, low: seq<Gap>) {
    |low| == |live| && forall i :: 0 <= i < |live| ==> low[i] == LowerGap(live[i], g)
  }

  lemma ClosedShape(gs: seq<Gap>, lo: int, hi: int)
    requires |gs| > 1 && Inside(gs, lo, hi) && Apart(gs, |gs|) && Tail(gs, hi)
    ensures Inside(Closed(gs), lo, hi) && Apart(Closed(gs), |Closed(gs)|) && Tail(Closed(gs), hi)
  {
    var r := Closed(gs);
    forall i | 0 <= i < |r| ensures r[i].size > 0 && lo <= r[i].offset && End(r[i]) <= hi {
      assert End(gs[0]) < gs[i + 1].offset;
    }
    forall i, j | 0 <= i < j < |r| ensures End(r[i]) < r[j].offset {
      assert End(gs[i + 1]) < gs[j + 1].offset;
    }
  }

  /** A live extent lies wholly on one side of the gap. */
  lemma SideOf(gs: seq<Gap>, live: seq<Gap>, j: nat)
    requires gs != [] && Clear(gs, live) && j < |live| && live[j].size > 0 && gs[0].size > 0
    ensures if live[j].offset > gs[0].offset then End(gs[0]) <= live[j].offset else End(live[j]) <= gs[0].offset
  {
    assert Disjoint(gs[0], live[j]);
  }

  lemma LoweredShape(gs: seq<Gap>, live: seq<Gap>, low: seq<Gap>, lo: int, hi: int)
    requires gs != [] && Inside(gs, lo, hi) && Inside(live, lo, hi) && PairwiseDisjoint(live) && Clear(gs, live)
      && Lowered(live, gs[0], low)
    ensures Inside(low, lo, hi) && PairwiseDisjoint(low)
  {
    forall i | 0 <= i < |low| ensures low[i].size > 0 && lo <= low[i].offset
        && End(low[i]) <= hi { SideOf(gs, live, i); }
    forall i, j | 0 <= i < j < |low| ensures Disjoint(low[i], low[j]) {
      SideOf(gs, live, i);
      SideOf(gs, live, j);
      assert Disjoint(live[i], live[j]);
    }
  }

  lemma LoweredClear(gs: seq<Gap>, live: seq<Gap>, low: seq<Gap>, lo: int, hi: int)
    requires |gs| > 1 && Inside(gs, lo, hi) && Apart(gs, |gs|) && Tail(gs, hi) && Inside(live, lo, hi)
      && Clear(gs, live) && Lowered(live, gs[0], low)
    ensures Clear(Closed(gs), low)
  {
    var r := Closed(gs);
    forall i, j | 0 <= i < |r| && 0 <= j < |low| ensures Disjoint(r[i], low[j]) {
      SideOf(gs, live, j);
      assert Disjoint(gs[i + 1], live[j]) && End(gs[0]) < gs[i + 1].offset;
    }
  }

  lemma BelowFirst(gs: seq<Gap>, live: seq<Gap>, low: seq<Gap>, a: int)
    requires gs != [] && Apart(gs, |gs|) && (forall i :: 0 <= i < |gs| ==> gs[i].size > 0) && Lowered(live, gs[0], low)
    requires a < gs[0].offset && (Holds(gs, a) || Holds(live, a))
    ensures Holds(low, a)
  {
    assert !Holds(gs, a) by {
      forall i | 0 <= i < |gs| ensures !In(gs[i], a) { assert i > 0 ==> End(gs[0]) < gs[i].offset; }
    }
    var j :| 0 <= j < |live| && In(live[j], a);
    assert In(low[j], a);
  }

  lemma AboveFirst(gs: seq<Gap>, live: seq<Gap>, low: seq<Gap>, a: int)
    requires |gs| > 1 && Clear(gs, live) && (forall i :: 0 <= i < |live| ==> live[i].size > 0) && gs[0].size > 0
      && Lowered(live, gs[0], low)
    requires a >= gs[0].offset && (Holds(gs, a + gs[0].size) || Holds(live, a + gs[0].size))
    ensures Holds(Closed(gs), a) || Holds(low, a)
  {
    var r, s := Closed(gs), gs[0].size;
    if Holds(gs, a + s) {
      var i :| 0 <= i < |gs| && In(gs[i], a + s);
      assert In(r[i - 1], a);
    } else {
      var j :| 0 <= j < |live| && In(live[j], a + s);
      SideOf(gs, live, j);
      assert In(low[j], a);
    }
  }

  lemma LoweredCovers(gs: seq<Gap>, live: seq<Gap>, low: seq<Gap>, lo: int, hi: int)
    requires |gs| > 1 && Tracks(lo, hi, gs, live) && Tail(gs, hi) && Lowered(live, gs[0], low)
    ensures Covers(lo, hi, Closed(gs), low)
  {
    var r, s := Closed(gs), gs[0].size;
    forall a | lo <= a < hi ensures Holds(r, a) || Holds(low, a) {
      if a < gs[0].offset {
        BelowFirst(gs, live, low, a);
      } else if a + s < hi {
        AboveFirst(gs, live, low, a);
      } else {
        assert In(r[|r| - 1], a);
      }
    }
  }

  lemma {:induction false} SameTotal(x: seq<Gap>, y: seq<Gap>)
    requires |x| == |y| && forall i :: 0 <= i < |x| ==> x[i].size == y[i].size
    ensures Total(x) == Total(y)
  {
    if x != [] {
      assert forall i :: 0 <= i < |x[1..]| ==> x[1..][i] == x[i + 1] && y[1..][i] == y[i + 1];
      SameTotal(x[1..], y[1..]);
    }
  }

  lemma TotalLast(x: seq<Gap>, n: nat)
    requires |x| == n + 1
    ensures Total(x) == Total(x[..n]) + x[n].size
  {
    assert x == x[..n] + [x[n]];
    TotalAdd(x[..n], [x[n]]);
    assert [x[n]][1..] == [];
  }

  lemma ClosedTotal(gs: seq<Gap>)
    requires |gs| > 1
    ensures Total(Closed(gs)) == Total(gs)
  {
    var r, t, n := Closed(gs), gs[1..], |gs| - 2;
    TotalLast(r, n);
    TotalLast(t, n);
    SameTotal(r[..n], t[..n]);
  }

  /** Closing the first gap keeps the partition and the tail. */
  lemma CloseTracks(lo: int, hi: int, gs: seq<Gap>, live: seq<Gap>, low: seq<Gap>)
    requires |gs| > 1 && Tracks(lo, hi, gs, live) && Tail(gs, hi) && Lowered(live, gs[0], low)
    ensures Tracks(lo, hi, Closed(gs), low) && Tail(Closed(gs), hi)
  {
    ClosedShape(gs, lo, hi);
    LoweredShape(gs, live, low, lo, hi);
    LoweredClear(gs, live, low, lo, hi);
    LoweredCovers(gs, live, low, lo, hi);
    ClosedTotal(gs);
    SameTotal(live, low);
  }

  // ---------------------------------------------------------------- close_gaps_

  /** The moves of one round: every segment behind the gap goes down and is marked. */
  function Moved(s: Segment, g: Gap): Segment {
    if s.offset > g.offset then s.(offset := s.offset - g.size, modified := true) else s
  }

  method MoveSegments(segs: seq<Segment>, g: Gap) returns (r: seq<Segment>)
    ensures |r| == |segs| && forall i :: 0 <= i < |segs| ==> r[i] == Moved(segs[i], g)
  {
    r := segs;
    for i := 0 to |segs|
      invariant |r| == |segs|
      invariant forall n :: 0 <= n < i ==> r[n] == Moved(segs[n], g)
      invariant forall n :: i <= n < |segs| ==> r[n] == segs[n]
    {
      if r[i].offset > g.offset { r := r[i := r[i].(offset := r[i].offset - g.size, modified := true)]; }
    }
  }

  /** The same blocks in the same order in the file, moved down if at all, and marked if moved. */
  ghost predicate Follows(segs: seq<Segment>, r: seq<Segment>) {
    && |r| == |segs|
    && (forall i :: 0 <= i < |segs| ==> MovedDown(segs[i], r[i]))
    && (forall i, j :: 0 <= i < |segs| && 0 <= j < |segs| && segs[i].offset < segs[j].offset ==>
      r[i].offset < r[j].offset)
  }

  predicate MovedDown(s: Segment, r: Segment) {
    && r.image == s.image && r.size == s.size && r.resident == s.resident
    && r.offset <= s.offset && r.modified == (s.modified || r.offset < s.offset)
  }

  lemma FollowsMoved(segs: seq<Segment>, mid: seq<Segment>, r: seq<Segment>, gs: seq<Gap>, lo: int, hi: int)
    requires Follows(segs, mid) && gs != [] && Tracks(lo, hi, gs,
      Extents(mid)) && |r| == |mid| && forall i :: 0 <= i < |mid| ==> r[i] == Moved(mid[i], gs[0])
    ensures Follows(segs, r)
  {
    forall i | 0 <= i < |mid| ensures mid[i].size > 0 && MovedDown(segs[i], r[i]) { assert Extents(mid)[i].size > 0; }
    forall i, j | 0 <= i < |segs| && 0 <= j < |segs|
        && segs[i].offset < segs[j].offset ensures r[i].offset < r[j].offset {
      SideOf(gs, Extents(mid), i);
      SideOf(gs, Extents(mid), j);
    }
  }

  /** What the gaps in front of an address take up. */
  function GapsBelow(gs: seq<Gap>, a: int): int {
    if gs == [] then 0 else (if gs[0].offset < a then gs[0].size else 0) + GapsBelow(gs[1..], a)
  }

  /** A block when all gaps in front of it have been closed. */
  function Slid(s: Segment, gs: seq<Gap>): Segment {
    var n := GapsBelow(gs, s.offset);
    s.(offset := s.offset - n, modified := s.modified || n > 0)
  }

  function SlidAll(segs: seq<Segment>, gs: seq<Gap>): (r: seq<Segment>)
    ensures |r| == |segs| && forall i :: 0 <= i < |segs| ==> r[i] == Slid(segs[i], gs)
  {
    seq(|segs|, i requires 0 <= i < |segs| => Slid(segs[i], gs))
  }

  lemma {:induction false} BelowShifted(x: seq<Gap>, y: seq<Gap>, a: int, d: int)
    requires |x| == |y| && forall i :: 0 <= i < |x| ==> y[i].offset == x[i].offset - d
    requires forall i :: 0 <= i < |x| && x[i].offset < a ==> y[i].size == x[i].size
    ensures GapsBelow(y, a - d) == GapsBelow(x, a)
  {
    if x != [] {
      assert forall i :: 0 <= i < |x[1..]| ==> x[1..][i] == x[i + 1] && y[1..][i] == y[i + 1];
      BelowShifted(x[1..], y[1..], a, d);
    }
  }

  lemma {:induction false} NoneBelow(gs: seq<Gap>, a: int)
    requires forall i :: 0 <= i < |gs| ==> gs[i].offset >= a
    ensures GapsBelow(gs, a) == 0
  {
    if gs != [] { NoneBelow(gs[1..], a); }
  }

  lemma {:induction false} BelowNatural(gs: seq<Gap>, a: int)
    requires forall i :: 0 <= i < |gs| ==> gs[i].size > 0
    ensures GapsBelow(gs, a) >= 0
  {
    if gs != [] { BelowNatural(gs[1..], a); }
  }

  /** No live extent is behind a gap that ends the region. */
  lemma TailBehind(lo: int, hi: int, gs: seq<Gap>, live: seq<Gap>, j: nat)
    requires Tracks(lo, hi, gs, live) && Tail(gs, hi) && j < |live|
    ensures live[j].offset < gs[|gs| - 1].offset
  {
    assert Disjoint(gs[|gs| - 1], live[j]);
  }

  /** What is left of it when the first gap is closed. */
  lemma ClosedBelow(gs: seq<Gap>, a: int)
    requires |gs| > 1 && Apart(gs, |gs|) && (forall i :: 0 <= i < |gs| ==> gs[i].size > 0) && a < gs[|gs| - 1].offset
    ensures GapsBelow(gs, a) >= 0 && (a > gs[0].offset ==> GapsBelow(gs, a) > 0)
    ensures GapsBelow(Closed(gs), Lower(a, gs[0])) == GapsBelow(gs, a) - if a > gs[0].offset then gs[0].size else 0
  {
    var r, rest := Closed(gs), gs[1..];
    BelowNatural(rest, a);
    if a > gs[0].offset {
      BelowShifted(rest, r, a, gs[0].size);
    } else {
      forall i | 0 <= i < |rest| ensures rest[i].offset - gs[0].size > a { assert End(gs[0]) < gs[i + 1].offset; }
      NoneBelow(rest, a);
      NoneBelow(r, a);
    }
  }

  /** Closing the first gap takes a block a part of its way. */
  lemma SlidNext(lo: int, hi: int, gs: seq<Gap>, live: seq<Gap>, j: nat, s: Segment)
    requires |gs| > 1 && Tracks(lo, hi, gs, live) && Tail(gs, hi) && j < |live| && live[j] == Extent(s)
    ensures Slid(Moved(s, gs[0]), Closed(gs)) == Slid(s, gs)
  {
    TailBehind(lo, hi, gs, live, j);
    ClosedBelow(gs, s.offset);
  }

  /** One gap behind everything moves nothing. */
  lemma SlidHome(lo: int, hi: int, gs: seq<Gap>, segs: seq<Segment>)
    requires |gs| == 1 && Tracks(lo, hi, gs, Extents(segs)) && Tail(gs, hi)
    ensures SlidAll(segs, gs) == segs
  {
    forall i | 0 <= i < |segs| ensures Slid(segs[i], gs) == segs[i] {
      TailBehind(lo, hi, gs, Extents(segs), i);
      NoneBelow(gs, segs[i].offset);
    }
  }

  /** close_gaps_: ends with one gap at the end; the blocks keep their order and tile the file in front of it, each
      moved down by exactly the gaps that were in front of it. */
  method CloseGaps(gs0: seq<Gap>, segs0: seq<Segment>, ghost lo: int, ghost hi: int) returns (gs: seq<Gap>,
      segs: seq<Segment>)
    requires Tracks(lo, hi, gs0, Extents(segs0)) && Tail(gs0, hi)
    ensures |gs| == 1 && End(gs[0]) == hi && Tracks(lo, hi, gs, Extents(segs)) && Follows(segs0, segs)
    ensures segs == SlidAll(segs0, gs0)
  {
    gs, segs := gs0, segs0;
    while |gs| > 1
      invariant Tracks(lo, hi, gs, Extents(segs)) && Tail(gs, hi) && Follows(segs0, segs)
      invariant SlidAll(segs, gs) == SlidAll(segs0, gs0)
      decreases |gs|
    {
      var r := MoveSegments(segs, gs[0]);
      assert Lowered(Extents(segs), gs[0], Extents(r));
      CloseTracks(lo, hi, gs, Extents(segs), Extents(r));
      FollowsMoved(segs0, segs, r, gs, lo, hi);
      SlidRound(lo, hi, gs, segs, r);
      gs, segs := Closed(gs), r;
    }
    SlidHome(lo, hi, gs, segs);
  }

  lemma SlidRound(lo: int, hi: int, gs: seq<Gap>, segs: seq<Segment>, r: seq<Segment>)
    requires |gs| > 1 && Tracks(lo, hi, gs, Extents(segs)) && Tail(gs, hi)
    requires |r| == |segs| && forall i :: 0 <= i < |segs| ==> r[i] == Moved(segs[i], gs[0])
    ensures SlidAll(r, Closed(gs)) == SlidAll(segs, gs)
  {
    forall i | 0 <= i < |segs| ensures Slid(r[i], Closed(gs)) == Slid(segs[i], gs) {
      SlidNext(lo, hi, gs, Extents(segs), i, segs[i]);
    }
  }

  /** With a single gap at the end, the live extents are exactly what lies in front of it. */
  lemma TiledFront(lo: int, hi: int, gs: seq<Gap>, live: seq<Gap>)
    requires |gs| == 1 && Tracks(lo, hi, gs, live) && End(gs[0]) == hi
    ensures Total(live) == gs[0].offset - lo
    ensures forall i :: 0 <= i < |live| ==> lo <= live[i].offset && End(live[i]) <= gs[0].offset
    ensures forall a :: lo <= a < gs[0].offset ==> Holds(live, a)
  {
    assert gs[1..] == [];
    forall i | 0 <= i < |live| ensures End(live[i]) <= gs[0].offset { assert Disjoint(gs[0], live[i]); }
    forall a | lo <= a < gs[0].offset ensures Holds(live, a) {
      assert gs == [gs[0]];
      HoldsOne(gs[0], a);
    }
  }

  // ---------------------------------------------------------------- the file

  /** The cell at an address; beyond its end a file reads as blank once it is extended. */
  function At(data: seq<Cell>, a: int): Cell { if 0 <= a < |data| then data[a] else Blank }

  function Extended(data: seq<Cell>, n: nat): (r: seq<Cell>)
    ensures |r| == (if |data| < n then n else |data|) && forall a :: At(r, a) == At(data, a)
  {
    if |data| < n then data + seq(n - |data|, _ => Blank) else data
  }

  function Write(data: seq<Cell>, at: nat, cells: seq<Cell>): (r: seq<Cell>)
    ensures forall a :: At(r, a) == if at <= a < at + |cells| then cells[a - at] else At(data, a)
  {
    var d := Extended(data, at + |cells|);
    var r := d[..at] + cells + d[at + |cells|..];
    assert forall a :: At(d, a) == At(data, a);
    r
  }

  function Truncated(data: seq<Cell>, n: nat): (r: seq<Cell>)
    ensures |r| == n && forall a :: a < n ==> At(r, a) == At(data, a)
  {
    Extended(data, n)[..n]
  }

  /** The file holds these cells at this offset. */
  ghost predicate HasAt(data: seq<Cell>, at: int, cells: seq<Cell>) {
    forall a :: at <= a < at + |cells| ==> At(data, a) == cells[a - at]
  }

  lemma ReadsAs(data: seq<Cell>, at: nat, cells: seq<Cell>)
    requires at + |cells| <= |data|
    ensures data[at..at + |cells|] == cells <==> HasAt(data, at, cells)
  {
    var r := data[at..at + |cells|];
    assert forall i :: 0 <= i < |cells| ==> r[i] == At(data, at + i);
    if r == cells {
      forall a | at <= a < at + |cells| ensures At(data, a) == cells[a - at] { assert r[a - at] == cells[a - at]; }
    }
    if HasAt(data, at, cells) {
      forall i | 0 <= i < |cells| ensures r[i] == cells[i] { assert At(data, at + i) == cells[at + i - at]; }
    }
  }

  /** Two files agree on an extent. */
  ghost predicate SameOn(x: seq<Cell>, y: seq<Cell>, at: int, n: int) {
    forall a :: at <= a < at + n ==> At(x, a) == At(y, a)
  }

  /** What the header of the file says about a block. */
  datatype Record = Record(offset: int, size: int)

  datatype File = File(header: seq<Record>, data: seq<Cell>)

  function Header(segs: seq<Segment>): (r: seq<Record>)
    ensures |r| == |segs| && forall i :: 0 <= i < |segs| ==> r[i] == Record(segs[i].offset, segs[i].size)
  {
    seq(|segs|, i requires 0 <= i < |segs| => Record(segs[i].offset, segs[i].size))
  }

  /** The block is written by a flush. */
  predicate Written(s: Segment) { s.resident && s.modified }

  /** The file holds the cells of the block already, or gets them. */
  ghost predicate Safe(data: seq<Cell>, s: Segment) { Written(s) || HasAt(data, s.offset, s.image) }

  ghost predicate Sized(segs: seq<Segment>) {
    forall i :: 0 <= i < |segs| ==> |segs[i].image| == segs[i].size && segs[i].offset >= 0
  }

  /** The first n blocks have been dealt with. */
  ghost predicate Flushed(data0: seq<Cell>, data: seq<Cell>, segs: seq<Segment>, n: nat) {
    && n <= |segs|
    && (forall i :: 0 <= i < n && Written(segs[i]) ==> HasAt(data, segs[i].offset, segs[i].image))
    && (forall i :: 0 <= i < |segs| && (i >= n || !Written(segs[i])) ==>
      SameOn(data, data0, segs[i].offset, segs[i].size))
  }

  lemma FlushOne(data0: seq<Cell>, data: seq<Cell>, segs: seq<Segment>, n: nat)
    requires Flushed(data0, data, segs, n) && n < |segs| && Sized(segs) && PairwiseDisjoint(Extents(segs))
    ensures Flushed(data0, if Written(segs[n]) then Write(data, segs[n].offset, segs[n].image) else data, segs, n + 1)
  {
    if Written(segs[n]) {
      var w := Write(data, segs[n].offset, segs[n].image);
      forall i | 0 <= i < |segs| && i != n ensures SameOn(w, data, segs[i].offset, segs[i].size) {
        OthersApart(segs, i, n);
        WrittenApart(data, segs[n], segs[i]);
      }
      FlushedMore(data0, data, w, segs, n);
    }
  }

  lemma WrittenApart(data: seq<Cell>, s: Segment, t: Segment)
    requires s.offset >= 0 && |s.image| == s.size && Disjoint(Extent(s), Extent(t))
    ensures SameOn(Write(data, s.offset, s.image), data, t.offset, t.size)
  {
  }

  lemma FlushedMore(data0: seq<Cell>, data: seq<Cell>, w: seq<Cell>, segs: seq<Segment>, n: nat)
    requires Flushed(data0, data, segs, n) && n < |segs| && Sized(segs) && Written(segs[n])
    requires HasAt(w, segs[n].offset, segs[n].image)
    requires forall i :: 0 <= i < |segs| && i != n ==> SameOn(w, data, segs[i].offset, segs[i].size)
    ensures Flushed(data0, w, segs, n + 1)
  {
    forall i | 0 <= i < n && Written(segs[i]) ensures HasAt(w, segs[i].offset, segs[i].image) {
      assert SameOn(w, data, segs[i].offset, segs[i].size);
    }
    forall i | 0 <= i < |segs| && (i >= n + 1 || !Written(segs[i])) ensures SameOn(w, data0, segs[i].offset,
        segs[i].size) {
      assert SameOn(w, data, segs[i].offset, segs[i].size) && SameOn(data, data0, segs[i].offset, segs[i].size);
    }
  }

  lemma OthersApart(segs: seq<Segment>, i: nat, n: nat)
    requires PairwiseDisjoint(Extents(segs)) && i < |segs| && n < |segs| && i != n
    ensures Disjoint(Extent(segs[i]), Extent(segs[n]))
  {
    var e := Extents(segs);
    if i < n { assert Disjoint(e[i], e[n]); } else { assert Disjoint(e[n], e[i]); }
  }

  /** The writing loop of flush. */
  method WriteBlocks(data0: seq<Cell>, segs: seq<Segment>) returns (data: seq<Cell>, clean: seq<Segment>)
    requires Sized(segs) && PairwiseDisjoint(Extents(segs))
    ensures Flushed(data0, data, segs, |segs|)
    ensures |clean| == |segs| && forall i :: 0 <= i < |segs| ==>
      clean[i] == segs[i].(modified := segs[i].modified && !Written(segs[i]))
  {
    data, clean := data0, segs;
    for n := 0 to |segs|
      invariant Flushed(data0, data, segs, n) && |clean| == |segs|
      invariant forall i :: 0 <= i < n ==> clean[i] == segs[i].(modified := segs[i].modified && !Written(segs[i]))
      invariant forall i :: n <= i < |segs| ==> clean[i] == segs[i]
    {
      FlushOne(data0, data, segs, n);
      if Written(segs[n]) {
        data := Write(data, segs[n].offset, segs[n].image);
        clean := clean[n := clean[n].(modified := false)];
      }
    }
  }

  /** After the flush a block is in the file exactly when it was written or was there before. */
  lemma FlushedSafe(data0: seq<Cell>, data: seq<Cell>, segs: seq<Segment>, end: nat, i: nat)
    requires Flushed(data0, data, segs, |segs|) && i < |segs| && Sized(segs) && segs[i].offset + segs[i].size <= end
    ensures HasAt(Truncated(data, end), segs[i].offset, segs[i].image) <==> Safe(data0, segs[i])
  {
    var t := Truncated(data, end);
    assert SameOn(t, data, segs[i].offset, segs[i].size);
    if Written(segs[i]) {
      assert HasAt(data, segs[i].offset, segs[i].image);
    } else {
      assert SameOn(data, data0, segs[i].offset, segs[i].size);
    }
  }

  /** Every block of the header lies inside the file. */
  predicate Readable(file: File) {
    forall i :: 0 <= i < |file.header| ==>
      0 <= file.header[i].offset && 0 <= file.header[i].size
          && file.header[i].offset + file.header[i].size <= |file.data|
  }

  /** The block a record of the header stands for. */
  function Read(file: File, i: nat): Segment
    requires Readable(file) && i < |file.header|
  {
    var r := file.header[i];
    Segment(r.offset, r.size, file.data[r.offset..r.offset + r.size], true, false)
  }

  /** clean_load: every block is read from where the header says. */
  method LoadBlocks(file: File) returns (segs: seq<Segment>)
    requires Readable(file)
    ensures |segs| == |file.header| && forall i :: 0 <= i < |segs| ==> segs[i] == Read(file, i)
  {
    segs := [];
    for n := 0 to |file.header|
      invariant |segs| == n && forall i :: 0 <= i < n ==> segs[i] == Read(file, i)
    {
      segs := segs + [Read(file, n)];
    }
  }

  lemma HeaderInside(segs: seq<Segment>, file: File, end: int)
    requires Sized(segs) && file.header == Header(segs) && |file.data| == end
    requires forall i :: 0 <= i < |segs| ==> End(Extents(segs)[i]) <= end
    ensures Readable(file)
  {
    assert forall i :: 0 <= i < |segs| ==> Extents(segs)[i] == Extent(segs[i]);
  }

  /** What is read is what is there. */
  lemma LoadedBlocks(segs: seq<Segment>, file: File, loaded: seq<Segment>)
    requires Sized(segs) && file.header == Header(segs) && |loaded| == |segs| && Readable(file)
    requires forall i :: 0 <= i < |segs| ==> loaded[i] == Read(file, i)
    ensures Extents(loaded) == Extents(segs) && Sized(loaded)
    ensures forall i :: 0 <= i < |segs| ==>
      (loaded[i].image == segs[i].image <==> HasAt(file.data, segs[i].offset, segs[i].image))
  {
    forall i | 0 <= i < |segs|
      ensures Extent(loaded[i]) == Extent(segs[i]) && |loaded[i].image| == loaded[i].size
      ensures loaded[i].image == segs[i].image <==> HasAt(file.data, segs[i].offset, segs[i].image)
    {
      ReadsAs(file.data, segs[i].offset, segs[i].image);
    }
  }

  // ---------------------------------------------------------------- blocks come and go

  lemma HoldsInserted(live: seq<Gap>, i: nat, e: Gap, a: int)
    requires i <= |live|
    ensures Holds(live[..i] + [e] + live[i..], a) <==> Holds(live + [e], a)
  {
    assert live == live[..i] + live[i..];
    HoldsParts(live[..i], e, live[i..], a);
    HoldsAdd(live[..i], live[i..], a);
    HoldsAdd(live, [e], a);
    HoldsOne(e, a);
  }

  lemma InsertListed(gs: seq<Gap>, live: seq<Gap>, i: nat, e: Gap, lo: int, hi: int)
    requires i <= |live| && Inside(live + [e], lo, hi) && PairwiseDisjoint(live + [e]) && Clear(gs, live + [e])
    ensures var y := live[..i] + [e] + live[i..]; Inside(y, lo, hi) && PairwiseDisjoint(y) && Clear(gs, y)
  {
    var x, y := live + [e], live[..i] + [e] + live[i..];
    assert x[|live|] == e && y[i] == e;
    assert forall n :: 0 <= n < |live| ==> x[n] == live[n];
    assert forall n :: 0 <= n < |y| && n != i ==> y[n] == live[if n < i then n else n - 1];
    forall m, n | 0 <= m < n < |y| ensures Disjoint(y[m], y[n]) {
      if m != i && n != i {
        assert Disjoint(x[if m < i then m else m - 1], x[if n < i then n else n - 1]);
      } else {
        assert Disjoint(x[if m == i then n - 1 else m], x[|live|]);
      }
    }
  }

  lemma InsertedTotal(live: seq<Gap>, i: nat, e: Gap)
    requires i <= |live|
    ensures Total(live[..i] + [e] + live[i..]) == Total(live + [e])
  {
    InsertTotal(live, i, e);
    TotalAdd(live, [e]);
    assert [e][1..] == [];
  }

  /** The order in which live extents are listed does not matter. */
  lemma InsertTracks(lo: int, hi: int, gs: seq<Gap>, live: seq<Gap>, i: nat, e: Gap)
    requires i <= |live| && Tracks(lo, hi, gs, live + [e])
    ensures Tracks(lo, hi, gs, live[..i] + [e] + live[i..])
  {
    InsertListed(gs, live, i, e, lo, hi);
    InsertedTotal(live, i, e);
    forall a | lo <= a < hi ensures Holds(gs, a) || Holds(live[..i] + [e] + live[i..],
        a) { HoldsInserted(live, i, e, a); }
  }

  lemma ExtentsInserted(segs: seq<Segment>, i: nat, s: Segment)
    requires i <= |segs| && Sized(segs) && s.offset >= 0 && s.size == |s.image|
    ensures Extents(segs[..i] + [s] + segs[i..]) == Extents(segs)[..i] + [Extent(s)] + Extents(segs)[i..]
    ensures Sized(segs[..i] + [s] + segs[i..])
  {
    var t := segs[..i] + [s] + segs[i..];
    assert forall n :: 0 <= n < |t| && n != i ==> t[n] == segs[if n < i then n else n - 1];
    assert t[i] == s;
  }

  lemma ExtentsRemoved(segs: seq<Segment>, i: nat)
    requires i < |segs| && Sized(segs)
    ensures Extents(segs[..i] + segs[i + 1..]) == Without(Extents(segs), i) && Sized(segs[..i] + segs[i + 1..])
  {
    var t := segs[..i] + segs[i + 1..];
    assert forall n :: 0 <= n < |t| ==> t[n] == segs[if n < i then n else n + 1];
  }

  /** The first gap that is large enough is the last one, and the block fills it. */
  predicate FillsTail(gs: seq<Gap>, size: int) {
    gs != [] && gs[|gs| - 1].size == size && forall j :: 0 <= j < |gs| - 1 ==> gs[j].size < size
  }

  lemma TakenTail(gs: seq<Gap>, k: nat, n: int, hi: int)
    requires k < |gs| && 0 < n <= gs[k].size && Tail(gs, hi) && (k == |gs| - 1 ==> n < gs[k].size)
    ensures Tail(Taken(gs, k, n), hi)
  {
  }

  lemma TailTaken(gs: seq<Gap>, hi: int)
    requires Tail(gs, hi) && gs[|gs| - 1].size > 0 && (|gs| > 1 ==> End(gs[|gs| - 2]) < gs[|gs| - 1].offset)
    ensures !Tail(gs[..|gs| - 1], hi)
  {
  }

  lemma TailIff(gs: seq<Gap>, k: nat, n: int, hi: int)
    requires k < |gs| && 0 < n <= gs[k].size && Tail(gs, hi) && Apart(gs, |gs|)
    ensures Tail(Taken(gs, k, n), hi) <==> !(k == |gs| - 1 && n == gs[k].size)
  {
    if k == |gs| - 1 && n == gs[k].size {
      assert Taken(gs, k, n) == gs[..k];
      TailTaken(gs, hi);
    } else {
      TakenTail(gs, k, n, hi);
    }
  }

  /** Gaps further on end behind the ones before them, inside the region. */
  lemma EndsAscend(r: seq<Gap>, lo: int, hi: int, i: nat, j: nat)
    requires Inside(r, lo, hi) && Apart(r, |r|) && i < j < |r|
    ensures End(r[i]) < End(r[j]) <= hi
  {
  }

  /** A gap that has the last address of the region is the last gap. */
  lemma LastReaches(r: seq<Gap>, lo: int, hi: int, j: nat)
    requires Inside(r, lo, hi) && Apart(r, |r|) && j < |r| && In(r[j], hi - 1)
    ensures Tail(r, hi)
  {
    if j + 1 < |r| { EndsAscend(r, lo, hi, j, j + 1); }
  }

  /** Giving extents back cannot move the end of the free space. */
  lemma ReturnedTail(lo: int, hi: int, gs: seq<Gap>, r: seq<Gap>, live: seq<Gap>, rest: seq<Gap>, i: nat)
    requires Tracks(lo, hi, gs, live) && Tail(gs, hi) && i < |live| && rest == Without(live, i)
      && Tracks(lo, hi, r, rest)
    ensures Tail(r, hi)
  {
    var a := hi - 1;
    assert In(gs[|gs| - 1], a);
    assert Holds(gs, a);
    forall j | 0 <= j < |rest| ensures !In(rest[j], a) {
      assert rest[j] == live[if j < i then j else j + 1];
      assert Disjoint(gs[|gs| - 1], live[if j < i then j else j + 1]);
    }
    assert Holds(r, a) || Holds(rest, a);
    var j :| 0 <= j < |r| && In(r[j], a);
    LastReaches(r, lo, hi, j);
  }

  /** Gap k is the first that is large enough. */
  predicate FirstFits(gs: seq<Gap>, size: int, k: nat) {
    k < |gs| && gs[k].size >= size && forall j :: 0 <= j < k ==> gs[j].size < size
  }

  method TakeGap(gs: seq<Gap>, size: int, ghost lo: nat, ghost hi: nat, ghost live: seq<Gap>,
      ghost i: nat)
    returns (k: nat, at: int)
    requires Tracks(lo, hi, gs, live) && Tail(gs, hi) && 0 < size && i <= |live|
    ensures k <= |gs| && (k < |gs| <==> exists j :: 0 <= j < |gs| && gs[j].size >= size)
    ensures k < |gs| ==> at >= 0 && Tracks(lo, hi, Taken(gs, k, size), live[..i] + [Gap(at, size)] + live[i..])
    ensures k < |gs| ==> (Tail(Taken(gs, k, size), hi) <==> !FillsTail(gs, size))
    ensures k < |gs| ==> FirstFits(gs, size, k) && at == gs[k].offset
  {
    k := FirstFit(gs, size);
    if k == |gs| { return k, 0; }
    at := gs[k].offset;
    TakeTracks(lo, hi, gs, live, k, size);
    TailIff(gs, k, size, hi);
    InsertTracks(lo, hi, Taken(gs, k, size), live, i, Gap(at, size));
  }

  /** The extents a header lists. */
  ghost function Recorded(header: seq<Record>): (r: seq<Gap>)
    ensures |r| == |header| && forall i :: 0 <= i < |header| ==> r[i] == Gap(header[i].offset, header[i].size)
  {
    seq(|header|, i requires 0 <= i < |header| => Gap(header[i].offset, header[i].size))
  }

  /** A file just flushed can be loaded. */
  lemma ReadyToLoad(lo: nat, hi: nat, gaps: seq<Gap>, segs: seq<Segment>, file: File)
    requires Tracks(lo, hi, gaps, Extents(segs)) && Tail(gaps, hi) && Sized(segs) && |gaps| == 1
    requires file.header == Header(segs) && |file.data| == gaps[0].offset
    ensures Readable(file) && lo <= |file.data| < hi && gaps == [Gap(|file.data|, hi - |file.data|)]
    ensures Recorded(file.header) == Extents(segs)
  {
    TiledFront(lo, hi, gaps, Extents(segs));
    HeaderInside(segs, file, gaps[0].offset);
  }

  class SegmentFile {
    var file: File
    var gaps: seq<Gap>
    var segs: seq<Segment>
    const lo: nat
    const hi: nat

    ghost predicate Valid()
      reads this
    {
      Tracks(lo, hi, gaps, Extents(segs)) && Tail(gaps, hi) && Sized(segs)
    }

    /** A tree without blocks. */
    constructor (lo: nat, hi: nat)
      requires lo < hi
      ensures Valid() && segs == [] && this.lo == lo && this.hi == hi
    {
      this.lo, this.hi := lo, hi;
      file, gaps, segs := File([], []), [Gap(lo, hi - lo)], [];
      new;
      forall a | lo <= a < hi ensures Holds(gaps, a) { HoldsOne(gaps[0], a); }
      assert gaps[1..] == [];
    }

    /** flush: gaps are closed, blocks that are marked are written, and the file ends with the last block. */
    method Flush() returns (ghost placed: seq<Segment>)
      requires Valid()
      modifies this
      ensures Valid() && |gaps| == 1 && file.header == Header(segs) && |file.data| == gaps[0].offset
      ensures placed == SlidAll(old(segs), old(gaps)) && Follows(old(segs), placed) && Sized(placed)
        && |segs| == |placed|
      ensures forall i :: 0 <= i < |segs| ==>
        segs[i].offset == placed[i].offset && segs[i].size == placed[i].size && segs[i].image == placed[i].image
      ensures forall i :: 0 <= i < |placed| ==>
        (HasAt(file.data, placed[i].offset, placed[i].image) <==> Safe(old(file.data), placed[i]))
    {
      var gs, ss := CloseGaps(gaps, segs, lo, hi);
      TiledFront(lo, hi, gs, Extents(ss));
      placed := ss;
      assert forall i :: 0 <= i < |ss| ==> Extents(ss)[i] == Extent(ss[i]) && MovedDown(segs[i], ss[i]);
      var data, clean := WriteBlocks(file.data, ss);
      forall i | 0 <= i < |ss| ensures HasAt(Truncated(data, gs[0].offset), ss[i].offset, ss[i].image) <==>
          Safe(file.data, ss[i]) {
        FlushedSafe(file.data, data, ss, gs[0].offset, i);
      }
      assert Extents(clean) == Extents(ss);
      gaps, segs := gs, clean;
      file := File(Header(clean), Truncated(data, gs[0].offset));
    }

    /** clean_load, whatever the object held before: the blocks of the header in order, each with the cells the
        file has for it, and one gap behind the file. That is a valid object exactly if those blocks fill the
        file without overlapping. */
    method CleanLoad()
      requires Readable(file) && lo <= |file.data| < hi
      modifies this
      ensures file == old(file) && gaps == [Gap(|file.data|, hi - |file.data|)]
      ensures |segs| == |file.header| && forall i :: 0 <= i < |segs| ==> segs[i] == Read(file, i)
      ensures Valid() <==> Tracks(lo, hi, gaps, Recorded(file.header))
    {
      var loaded := LoadBlocks(file);
      segs, gaps := loaded, [Gap(|file.data|, hi - |file.data|)];
      assert Extents(segs) == Recorded(file.header);
    }

    /** insert_segment_: the block gets the first gap that is large enough, an extent of its own. Blocks and gaps
        are a partition again; the object is valid exactly if free space is left at the end. */
    method Insert(i: nat, image: seq<Cell>) returns (ok: bool)
      requires Valid() && i <= |segs| && |image| > 0
      modifies this`gaps, this`segs
      ensures ok <==> exists j :: 0 <= j < |old(gaps)| && old(gaps)[j].size >= |image|
      ensures !ok ==> gaps == old(gaps) && segs == old(segs)
      ensures ok ==> exists k: nat ::
        k < |old(gaps)| && FirstFits(old(gaps), |image|, k)
        && segs == old(segs)[..i] + [Segment(old(gaps)[k].offset, |image|, image, true, true)] + old(segs)[i..]
      ensures ok ==> Tracks(lo, hi, gaps, Extents(segs)) && Sized(segs)
      ensures Valid() <==> !ok || !old(FillsTail(gaps, |image|))
    {
      var k, at := TakeGap(gaps, |image|, lo, hi, Extents(segs), i);
      if k == |gaps| { return false; }
      var s := Segment(at, |image|, image, true, true);
      ExtentsInserted(segs, i, s);
      gaps, segs, ok := Taken(gaps, k, |image|), segs[..i] + [s] + segs[i..], true;
    }

    /** remove_segment_. */
    method Remove(i: nat)
      requires Valid() && i < |segs|
      modifies this`gaps, this`segs
      ensures Valid() && segs == old(segs)[..i] + old(segs)[i + 1..]
    {
      var r := GiveBack(gaps, Extent(segs[i]), lo, hi, Extents(segs), i);
      ReturnedTail(lo, hi, gaps, r, Extents(segs), Without(Extents(segs), i), i);
      ExtentsRemoved(segs, i);
      gaps, segs := r, segs[..i] + segs[i + 1..];
    }

    /** Flush and reopen: every block is where the gaps that were in front of it leave it, and comes back with its cells
        exactly when it was in memory and marked or moved, or in the file already where it now is; in particular when
        all are in memory and marked. */
    method Reopen()
      requires Valid()
      modifies this
      ensures Valid() && |gaps| == 1 && |segs| == |old(segs)|
      ensures forall i :: 0 <= i < |segs| ==> Extent(segs[i]) == Extent(Slid(old(segs)[i], old(gaps)))
      ensures forall i :: 0 <= i < |segs| ==>
        (segs[i].image == old(segs)[i].image <==> Safe(old(file.data), Slid(old(segs)[i], old(gaps))))
      ensures (forall i :: 0 <= i < |old(segs)| ==> old(segs)[i].resident && old(segs)[i].modified) ==>
        forall i :: 0 <= i < |segs| ==> segs[i].image == old(segs)[i].image
    {
      ghost var before, disk := segs, file.data;
      ghost var placed := Flush();
      assert forall i :: 0 <= i < |placed| ==> MovedDown(before[i], placed[i]);
      ghost var written := segs;
      ReadyToLoad(lo, hi, gaps, segs, file);
      CleanLoad();
      LoadedBlocks(written, file, segs);
      assert forall i :: 0 <= i < |segs| ==> Extents(segs)[i] == Extents(written)[i];
    }
  }
}
