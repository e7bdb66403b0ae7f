/** gap_tracker_t: the first-fit allocator of extents in a block file. */
module GapTracker {
  import opened Wrappers

  datatype Gap = Gap(offset: int, size: int)

  function End(g: Gap): int { g.offset + g.size }

  predicate In(g: Gap, a: int) { g.offset <= a < End(g) }

  /** The address belongs to one of the extents. */
  ghost predicate Holds(gs: seq<Gap>, a: int) {
    exists i :: 0 <= i < |gs| && In(gs[i], a)
  }

  predicate Disjoint(g: Gap, h: Gap) { End(g) <= h.offset || End(h) <= g.offset }

  function Total(gs: seq<Gap>): int {
    if gs == [] then 0 else gs[0].size + Total(gs[1..])
  }

  ghost predicate Inside(gs: seq<Gap>, lo: int, hi: int) {
    forall i :: 0 <= i < |gs| ==> gs[i].size > 0 && lo <= gs[i].offset && End(gs[i]) <= hi
  }

  /** In address order, overlap-free, and the first k extents do not even touch a later one. */
  ghost predicate Apart(gs: seq<Gap>, k: int) {
    forall i, j :: 0 <= i < j < |gs| ==> End(gs[i]) <= gs[j].offset && (i < k ==> End(gs[i]) < gs[j].offset)
  }

  ghost predicate PairwiseDisjoint(live: seq<Gap>) {
    forall i, j :: 0 <= i < j < |live| ==> Disjoint(live[i], live[j])
  }

  ghost predicate Clear(gs: seq<Gap>, live: seq<Gap>) {
    forall i, j :: 0 <= i < |gs| && 0 <= j < |live| ==> Disjoint(gs[i], live[j])
  }

  ghost predicate Covers(lo: int, hi: int, gs: seq<Gap>, live: seq<Gap>) {
    forall a :: lo <= a < hi ==> Holds(gs, a) || Holds(live, a)
  }

  /** Free and live extents partition the region; the free ones are sorted and do not touch. */
  ghost predicate Tracks(lo: int, hi: int, gs: seq<Gap>, live: seq<Gap>) {
    && Inside(gs, lo, hi) && Apart(gs, |gs|)
    && Inside(live, lo, hi) && PairwiseDisjoint(live)
    && Clear(gs, live) && Covers(lo, hi, gs, live)
    && Total(gs) + Total(live) == hi - lo
  }

  // ---------------------------------------------------------------- lists of extents

  lemma HoldsAdd(x: seq<Gap>, y: seq<Gap>, a: int)
    ensures Holds(x + y, a) <==> Holds(x, a) || Holds(y, a)
  {
    var z := x + y;
    if Holds(z, a) {
      var i :| 0 <= i < |z| && In(z[i], a);
      if i < |x| { assert z[i] == x[i]; } else { assert z[i] == y[i - |x|]; }
    }
    if Holds(x, a) {
      var i :| 0 <= i < |x| && In(x[i], a);
      assert z[i] == x[i];
    }
    if Holds(y, a) {
      var i :| 0 <= i < |y| && In(y[i], a);
      assert z[|x| + i] == y[i];
    }
  }

  lemma HoldsOne(g: Gap, a: int)
    ensures Holds([g], a) <==> In(g, a)
  {
    assert [g][0] == g;
  }

  /** Three parts: before, one extent, after. */
  lemma HoldsParts(x: seq<Gap>, g: Gap, y: seq<Gap>, a: int)
    ensures Holds(x + [g] + y, a) <==> Holds(x, a) || In(g, a) || Holds(y, a)
  {
    HoldsAdd(x + [g], y, a);
    HoldsAdd(x, [g], a);
    HoldsOne(g, a);
  }

  lemma {:induction false} TotalAdd(x: seq<Gap>, y: seq<Gap>)
    ensures Total(x + y) == Total(x) + Total(y)
  {
    if x == [] {
      assert x + y == y;
    } else {
      assert (x + y)[1..] == x[1..] + y;
      TotalAdd(x[1..], y);
    }
  }

  lemma TotalParts(x: seq<Gap>, g: Gap, y: seq<Gap>)
    ensures Total(x + [g] + y) == Total(x) + g.size + Total(y)
  {
    TotalAdd(x + [g], y);
    TotalAdd(x, [g]);
    assert [g][1..] == [];
  }

  // ---------------------------------------------------------------- taking an extent out of a gap

  /** The k-th gap without its first n bytes. */
  function Taken(gs: seq<Gap>, k: nat, n: int): seq<Gap>
    requires k < |gs|
  {
    if gs[k].size == n then gs[..k] + gs[k + 1..] else gs[..k] + [Gap(gs[k].offset + n, gs[k].size - n)] + gs[k + 1..]
  }

  lemma TakenShape(gs: seq<Gap>, k: nat, n: int, lo: int, hi: int)
    requires k < |gs| && 0 < n <= gs[k].size && Inside(gs, lo, hi) && Apart(gs, |gs|)
    ensures Inside(Taken(gs, k, n), lo, hi) && Apart(Taken(gs, k, n), |Taken(gs, k, n)|)
  {
    var t := Taken(gs, k, n);
    var d := if gs[k].size == n then 1 else 0;
    assert forall i :: 0 <= i < |t| && (d == 1 || i != k) ==> t[i] == gs[if i < k then i else i + d];
  }

  lemma TakenClear(gs: seq<Gap>, k: nat, n: int, live: seq<Gap>)
    requires k < |gs| && 0 < n <= gs[k].size && Clear(gs, live) && Apart(gs, |gs|)
      && (forall i :: 0 <= i < |gs| ==> gs[i].size > 0)
    ensures Clear(Taken(gs, k, n), live + [Gap(gs[k].offset, n)])
  {
    var t, l := Taken(gs, k, n), live + [Gap(gs[k].offset, n)];
    var d := if gs[k].size == n then 1 else 0;
    forall i, j | 0 <= i < |t| && 0 <= j < |l| ensures Disjoint(t[i], l[j]) {
      var s := if i < k then i else i + d;
      assert d == 1 || i != k ==> t[i] == gs[s];
      if j < |live| { assert l[j] == live[j] && Disjoint(gs[s], live[j]); }
    }
  }

  lemma TakenHolds(gs: seq<Gap>, k: nat, n: int, a: int)
    requires k < |gs| && 0 < n <= gs[k].size
    ensures Holds(gs, a) ==> Holds(Taken(gs, k, n), a) || In(Gap(gs[k].offset, n), a)
  {
    var x, g, y := gs[..k], gs[k], gs[k + 1..];
    assert gs == x + [g] + y;
    HoldsParts(x, g, y, a);
    HoldsParts(x, Gap(g.offset + n, g.size - n), y, a);
    HoldsAdd(x, y, a);
  }

  lemma TakenTotal(gs: seq<Gap>, k: nat, n: int)
    requires k < |gs|
    ensures Total(Taken(gs, k, n)) == Total(gs) - n
  {
    var x, y := gs[..k], gs[k + 1..];
    TotalAround(gs, k);
    if gs[k].size == n { TotalAdd(x, y); } else { TotalParts(x, Gap(gs[k].offset + n, gs[k].size - n), y); }
  }

  lemma TotalAround(gs: seq<Gap>, k: nat)
    requires k < |gs|
    ensures Total(gs) == Total(gs[..k]) + gs[k].size + Total(gs[k + 1..])
  {
    assert gs == gs[..k] + [gs[k]] + gs[k + 1..];
    TotalParts(gs[..k], gs[k], gs[k + 1..]);
  }

  lemma LiveMore(live: seq<Gap>, e: Gap, lo: int, hi: int)
    requires Inside(live, lo, hi) && PairwiseDisjoint(live) && e.size > 0 && lo <= e.offset && End(e) <= hi
    requires forall j :: 0 <= j < |live| ==> Disjoint(e, live[j])
    ensures Inside(live + [e], lo, hi) && PairwiseDisjoint(live + [e])
  {
  }

  /** Taking an extent out of a gap that has room keeps the partition. */
  lemma TakeTracks(lo: int, hi: int, gs: seq<Gap>, live: seq<Gap>, k: nat, n: int)
    requires Tracks(lo, hi, gs, live) && k < |gs| && 0 < n <= gs[k].size
    ensures Tracks(lo, hi, Taken(gs, k, n), live + [Gap(gs[k].offset, n)])
  {
    var e := Gap(gs[k].offset, n);
    TakenShape(gs, k, n, lo, hi);
    TakenClear(gs, k, n, live);
    assert forall j :: 0 <= j < |live| ==> Disjoint(gs[k], live[j]);
    LiveMore(live, e, lo, hi);
    TakenTotal(gs, k, n);
    TotalAdd(live, [e]);
    assert [e][1..] == [];
    forall a | lo <= a < hi ensures Holds(Taken(gs, k, n), a) || Holds(live + [e], a) {
      TakenHolds(gs, k, n, a);
      HoldsAdd(live, [e], a);
      HoldsOne(e, a);
    }
  }

  // ---------------------------------------------------------------- giving an extent back

  function Inserted(gs: seq<Gap>, k: nat, e: Gap): seq<Gap>
    requires k <= |gs|
  {
    gs[..k] + [e] + gs[k..]
  }

  /** The gaps before the position end before the extent, the others start behind it. */
  ghost predicate FitsAt(gs: seq<Gap>, k: nat, e: Gap) {
    && k <= |gs|
    && (forall i :: 0 <= i < k ==> End(gs[i]) <= e.offset)
    && (forall i :: k <= i < |gs| ==> End(e) <= gs[i].offset)
  }

  lemma FindsPlace(gs: seq<Gap>, k: nat, e: Gap)
    requires k <= |gs| && Apart(gs, |gs|) && e.size > 0 && (forall i :: 0 <= i < |gs| ==> gs[i].size > 0)
    requires (forall i :: 0 <= i < k ==> gs[i].offset <= e.offset) && (k < |gs| ==> gs[k].offset > e.offset)
    requires forall i :: 0 <= i < |gs| ==> Disjoint(gs[i], e)
    ensures FitsAt(gs, k, e)
  {
    forall i | k <= i < |gs| ensures End(e) <= gs[i].offset { assert i > k ==> End(gs[k]) < gs[i].offset; }
  }

  lemma InsertShape(gs: seq<Gap>, k: nat, e: Gap, lo: int, hi: int)
    requires Inside(gs, lo, hi) && Apart(gs, |gs|) && e.size > 0 && lo <= e.offset && End(e) <= hi && FitsAt(gs, k, e)
    ensures Inside(Inserted(gs, k, e), lo, hi) && Apart(Inserted(gs, k, e), 0)
  {
    var t := Inserted(gs, k, e);
    assert forall i :: 0 <= i < |t| && i != k ==> t[i] == gs[if i < k then i else i - 1];
    assert t[k] == e;
  }

  /** Two neighbours made one. */
  function Merged(gs: seq<Gap>, i: nat): seq<Gap>
    requires i + 1 < |gs|
  {
    gs[..i] + [Gap(gs[i].offset, gs[i].size + gs[i + 1].size)] + gs[i + 2..]
  }

  lemma MergedShape(gs: seq<Gap>, i: nat, lo: int, hi: int)
    requires i + 1 < |gs| && End(gs[i]) == gs[i + 1].offset && Inside(gs, lo, hi) && Apart(gs, i)
    ensures Inside(Merged(gs, i), lo, hi) && Apart(Merged(gs, i), i)
  {
    var t := Merged(gs, i);
    assert forall j :: 0 <= j < |t| && j != i ==> t[j] == gs[if j < i then j else j + 1];
    assert End(t[i]) == End(gs[i + 1]) && t[i].offset == gs[i].offset;
  }

  lemma MergedHolds(gs: seq<Gap>, i: nat, a: int)
    requires i + 1 < |gs| && End(gs[i]) == gs[i + 1].offset && gs[i].size > 0 && gs[i + 1].size > 0
    ensures Holds(Merged(gs, i), a) <==> Holds(gs, a)
  {
    var x, g, h, y := gs[..i], gs[i], gs[i + 1], gs[i + 2..];
    assert gs == (x + [g]) + [h] + y;
    HoldsParts(x + [g], h, y, a);
    HoldsAdd(x, [g], a);
    HoldsOne(g, a);
    HoldsParts(x, Gap(g.offset, g.size + h.size), y, a);
  }

  lemma MergedTotal(gs: seq<Gap>, i: nat)
    requires i + 1 < |gs|
    ensures Total(Merged(gs, i)) == Total(gs)
  {
    TotalAround(gs, i);
    assert gs[i + 1..][1..] == gs[i + 2..];
    TotalParts(gs[..i], Gap(gs[i].offset, gs[i].size + gs[i + 1].size), gs[i + 2..]);
  }

  /** gap_tracker_t::clean_gaps: joins neighbours that touch and changes nothing else. */
  method CleanGaps(gs: seq<Gap>, ghost lo: int, ghost hi: int) returns (r: seq<Gap>)
    requires gs != [] && Inside(gs, lo, hi) && Apart(gs, 0)
    ensures Inside(r, lo, hi) && Apart(r, |r|) && Total(r) == Total(gs) && r != []
    ensures forall a :: Holds(r, a) <==> Holds(gs, a)
  {
    r := gs;
    var i := 0;
    while i < |r| - 1
      invariant 0 <= i < |r| && Inside(r, lo, hi) && Apart(r, i) && Total(r) == Total(gs)
      invariant forall a :: Holds(r, a) <==> Holds(gs, a)
      decreases |r| - i
    {
      if End(r[i]) == r[i + 1].offset {
        MergedShape(r, i, lo, hi);
        MergedTotal(r, i);
        forall a ensures Holds(Merged(r, i), a) <==> Holds(r, a) { MergedHolds(r, i, a); }
        r := Merged(r, i);
      } else {
        NextApart(r, i);
        i := i + 1;
      }
    }
  }

  lemma NextApart(gs: seq<Gap>, i: nat)
    requires Apart(gs, i) && i + 1 < |gs| && End(gs[i]) != gs[i + 1].offset && forall j :: 0 <= j < |gs| ==>
      gs[j].size > 0
    ensures Apart(gs, i + 1)
  {
    forall j | i + 1 <= j < |gs| ensures End(gs[i]) < gs[j].offset {
      if j > i + 1 { assert End(gs[i + 1]) <= gs[j].offset; }
    }
  }

  function Without(live: seq<Gap>, i: nat): seq<Gap>
    requires i < |live|
  {
    live[..i] + live[i + 1..]
  }

  lemma LiveLess(live: seq<Gap>, i: nat, lo: int, hi: int)
    requires i < |live| && Inside(live, lo, hi) && PairwiseDisjoint(live)
    ensures Inside(Without(live, i), lo, hi) && PairwiseDisjoint(Without(live, i))
    ensures forall j :: 0 <= j < |Without(live, i)| ==> Disjoint(live[i], Without(live, i)[j])
    ensures Total(Without(live, i)) == Total(live) - live[i].size
  {
    var t := Without(live, i);
    assert forall j :: 0 <= j < |t| ==> t[j] == live[if j < i then j else j + 1];
    assert live == live[..i] + [live[i]] + live[i + 1..];
    TotalParts(live[..i], live[i], live[i + 1..]);
    TotalAdd(live[..i], live[i + 1..]);
  }

  lemma LiveLessHolds(live: seq<Gap>, i: nat, a: int)
    requires i < |live|
    ensures Holds(live, a) <==> Holds(Without(live, i), a) || In(live[i], a)
  {
    assert live == live[..i] + [live[i]] + live[i + 1..];
    HoldsParts(live[..i], live[i], live[i + 1..], a);
    HoldsAdd(live[..i], live[i + 1..], a);
  }

  /** Extents that share no address are disjoint. */
  lemma ApartAddresses(g: Gap, h: Gap)
    requires g.size > 0 && h.size > 0 && (forall a :: In(g, a) ==> !In(h, a))
    ensures Disjoint(g, h)
  {
    assert In(g, g.offset) && In(h, h.offset);
  }

  /** Inserting between the gaps adds exactly the addresses of the extent. */
  lemma InsertHolds(gs: seq<Gap>, k: nat, e: Gap, a: int)
    requires k <= |gs|
    ensures Holds(Inserted(gs, k, e), a) <==> Holds(gs, a) || In(e, a)
  {
    assert gs == gs[..k] + gs[k..];
    HoldsAdd(gs[..k], gs[k..], a);
    HoldsParts(gs[..k], e, gs[k..], a);
  }

  lemma InsertTotal(gs: seq<Gap>, k: nat, e: Gap)
    requires k <= |gs|
    ensures Total(Inserted(gs, k, e)) == Total(gs) + e.size
  {
    assert gs == gs[..k] + gs[k..];
    TotalAdd(gs[..k], gs[k..]);
    TotalParts(gs[..k], e, gs[k..]);
  }

  /** Free extents that hold the old free addresses and one given-up extent are clear of the others. */
  lemma ClearAfter(gs: seq<Gap>, r: seq<Gap>, live: seq<Gap>, rest: seq<Gap>, e: Gap, lo: int, hi: int)
    requires Inside(r, lo, hi) && Inside(rest, lo, hi) && Clear(gs, rest)
    requires forall a :: Holds(r, a) ==> Holds(gs, a) || In(e, a)
    requires forall j :: 0 <= j < |rest| ==> Disjoint(e, rest[j])
    ensures Clear(r, rest)
  {
    forall i, j | 0 <= i < |r| && 0 <= j < |rest| ensures Disjoint(r[i], rest[j]) {
      forall a | In(r[i], a) ensures !In(rest[j], a) {
        assert Holds(r, a);
        if !In(e, a) {
          var s :| 0 <= s < |gs| && In(gs[s], a);
          assert Disjoint(gs[s], rest[j]);
        }
      }
      ApartAddresses(r[i], rest[j]);
    }
  }

  lemma ClearLess(gs: seq<Gap>, live: seq<Gap>, i: nat)
    requires Clear(gs, live) && i < |live|
    ensures Clear(gs, Without(live, i))
  {
    var t := Without(live, i);
    assert forall j :: 0 <= j < |t| ==> t[j] == live[if j < i then j else j + 1];
  }

  /** Giving a live extent back keeps the partition. */
  lemma ReturnTracks(lo: int, hi: int, gs: seq<Gap>, live: seq<Gap>, i: nat, r: seq<Gap>)
    requires Tracks(lo, hi, gs, live) && i < |live|
    requires Inside(r, lo, hi) && Apart(r, |r|) && Total(r) == Total(gs) + live[i].size
    requires forall a :: Holds(r, a) <==> Holds(gs, a) || In(live[i], a)
    ensures Tracks(lo, hi, r, Without(live, i))
  {
    var rest := Without(live, i);
    LiveLess(live, i, lo, hi);
    ClearLess(gs, live, i);
    ClearAfter(gs, r, live, rest, live[i], lo, hi);
    forall a | lo <= a < hi ensures Holds(r, a) || Holds(rest, a) {
      LiveLessHolds(live, i, a);
    }
  }

  method GiveBack(gs: seq<Gap>, e: Gap, ghost lo: int, ghost hi: int, ghost live: seq<Gap>,
      ghost i: nat)
    returns (r: seq<Gap>)
    requires Tracks(lo, hi, gs, live) && i < |live| && live[i] == e
    ensures Tracks(lo, hi, r, Without(live, i))
  {
    var k := 0;
    while k < |gs| && gs[k].offset <= e.offset
      invariant 0 <= k <= |gs| && forall j :: 0 <= j < k ==> gs[j].offset <= e.offset
    {
      k := k + 1;
    }
    assert forall j :: 0 <= j < |gs| ==> Disjoint(gs[j], live[i]);
    FindsPlace(gs, k, e);
    InsertShape(gs, k, e, lo, hi);
    InsertTotal(gs, k, e);
    r := CleanGaps(Inserted(gs, k, e), lo, hi);
    forall a ensures Holds(r, a) <==> Holds(gs, a) || In(e, a) { InsertHolds(gs, k, e, a); }
    ReturnTracks(lo, hi, gs, live, i, r);
  }

  /** When nothing is live the region is one gap again. */
  lemma AllFree(lo: int, hi: int, gs: seq<Gap>)
    requires Tracks(lo, hi, gs, []) && lo < hi
    ensures gs == [Gap(lo, hi - lo)]
  {
    forall a | lo <= a < hi ensures Holds(gs, a) {
      var none: seq<Gap> := [];
      assert !Holds(none, a);
    }
    assert Holds(gs, lo);
    var i :| 0 <= i < |gs| && In(gs[i], lo);
    NoNext(gs, i, lo, hi);
    assert forall j :: 0 <= j < |gs| ==> gs[j].size > 0 && lo <= gs[j].offset && End(gs[j]) <= hi;
    var first, last := gs[0], gs[|gs| - 1];
    assert first.size > 0 && last.size > 0;
  }

  /** A gap without a touching neighbour in a region that is all free ends with the region. */
  lemma NoNext(gs: seq<Gap>, i: nat, lo: int, hi: int)
    requires Inside(gs, lo, hi) && Apart(gs, |gs|) && i < |gs| && forall a :: lo <= a < hi ==> Holds(gs, a)
    ensures End(gs[i]) == hi
  {
    assert End(gs[i]) < hi ==> Holds(gs, End(gs[i]));
  }

  /** The search of find_gap. */
  method FirstFit(gs: seq<Gap>, size: int) returns (k: nat)
    ensures k <= |gs| && (k < |gs| ==> gs[k].size >= size) && forall j :: 0 <= j < k ==> gs[j].size < size
  {
    k := 0;
    while k < |gs| && gs[k].size < size
      invariant 0 <= k <= |gs| && forall j :: 0 <= j < k ==> gs[j].size < size
    {
      k := k + 1;
    }
  }

  class GapTracker {
    var spaces: seq<Gap>
    ghost var lo: int
    ghost var hi: int
    ghost var live: seq<Gap>

    ghost predicate Valid()
      reads this
    {
      Tracks(lo, hi, spaces, live)
    }

    constructor (min: int, max: int)
      requires min < max
      ensures Valid() && lo == min && hi == max && live == [] && spaces == [Gap(min, max - min)]
    {
      spaces, lo, hi, live := [Gap(min, max - min)], min, max, [];
      new;
      forall a | lo <= a < hi ensures Holds(spaces, a) { HoldsOne(spaces[0], a); }
      assert spaces[1..] == [];
    }

    /** find_gap: the start of the first gap that is large enough, and none exactly when no gap is. */
    method FindGap(size: int) returns (r: Option<int>)
      requires Valid() && size > 0
      modifies this
      ensures Valid() && lo == old(lo) && hi == old(hi)
      ensures r.None? ==> live == old(live) && spaces == old(spaces) && forall j :: 0 <= j < |spaces| ==>
        spaces[j].size < size
      ensures r.Some? ==> live == old(live) + [Gap(r.value, size)]
      ensures r.Some? ==> exists k ::
        0 <= k < |old(spaces)| && r.value == old(spaces)[k].offset && spaces == Taken(old(spaces), k, size)
                                      && old(spaces)[k].size >= size && forall j :: 0 <= j < k ==>
                                        old(spaces)[j].size < size
    {
      var k := FirstFit(spaces, size);
      if k == |spaces| { return None; }
      TakeTracks(lo, hi, spaces, live, k, size);
      r := Some(spaces[k].offset);
      live := live + [Gap(spaces[k].offset, size)];
      spaces := Taken(spaces, k, size);
    }

    /** remove_gap of a live extent: it becomes free, joined with the gaps it touches. */
    method RemoveGap(e: Gap, ghost i: nat)
      requires Valid() && i < |live| && live[i] == e
      modifies this
      ensures Valid() && lo == old(lo) && hi == old(hi) && live == Without(old(live), i)
      ensures live == [] && lo < hi ==> spaces == [Gap(lo, hi - lo)]
    {
      var r := GiveBack(spaces, e, lo, hi, live, i);
      ghost var rest := Without(live, i);
      if rest == [] && lo < hi { AllFree(lo, hi, r); }
      spaces, live := r, rest;
    }
  }
}
