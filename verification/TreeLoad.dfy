/** btree_t::load: the inner nodes are not saved; they are rebuilt over the saved leaves, layer by
    layer, in one array that holds the current layer and receives the next one. */
module TreeLoad {
  import opened Wrappers
  import opened NodeStore
  import opened TreeGrow
  import opened TreeCascade
  import opened TreeAppend

  /** The number of children an inner node is normally built with. */
  function PackSize(cap: nat): nat { (cap + cap / 4) / 2 }

  /** How many of `left` remaining nodes the next inner node takes. */
  function Take(cap: nat, left: nat): nat {
    if left >= PackSize(cap) + cap / 4 then PackSize(cap) else left
  }

  lemma TakeFits(cap: nat, left: nat)
    requires cap >= 8 && left >= 2
    ensures 2 <= Take(cap, left) <= cap && Take(cap, left) <= left
    ensures Take(cap, left) < left ==> left - Take(cap, left) >= cap / 4
    ensures left >= cap / 4 ==> Take(cap, left) >= cap / 4
  {
  }

  /** A node is appended to the layer under construction. */
  function PushNode(st: Store, y: Id, ks: seq<Id>, prv: Option<Id>): Store {
    var s1 := st[y := Inner(ks, prv, None)];
    if prv.Some? && prv.value in s1 then s1[prv.value := s1[prv.value].(right := Some(y))] else s1
  }

  /** The layer being built: its nodes are new, chained, and their children read L[..idx]. */
  ghost predicate Layer(st: Store, up: seq<Id>, lower: seq<Id>, idx: nat, base: Id) {
    && idx <= |lower| && (forall i :: 0 <= i < |up| ==> up[i] == base + i)
    && LevelOk(st, up, false) && Linked(st, up) && Flat(st, up) == lower[..idx]
  }

  /** Legal sizes; only a layer that consists of a single node may hold a small one. */
  ghost predicate LayerSized(st: Store, up: seq<Id>, cap: nat, lone: bool) {
    forall i :: 0 <= i < |up| ==> 2 <= CountOf(st, up[i]) <= cap && (lone || cap / 4 <= CountOf(st, up[i]))
  }

  lemma PushLinked(st: Store, up: seq<Id>, y: Id, ks: seq<Id>)
    requires Linked(st, up) && NoDup(up) && y !in up && forall i :: 0 <= i < |up| ==> up[i] in st
    ensures Linked(PushNode(st, y, ks, Before(up, |up|)), up + [y])
  {
    var st', up' := PushNode(st, y, ks, Before(up, |up|)), up + [y];
    forall i | 0 <= i < |up'| ensures LinkedAt(st', up', i) {
      if i < |up| { assert LinkedAt(st, up, i); assert up'[i] == up[i]; }
    }
  }

  lemma PushContent(st: Store, up: seq<Id>, y: Id, ks: seq<Id>)
    requires y !in up && forall i :: 0 <= i < |up| ==> up[i] in st
    ensures var st' := PushNode(st, y, ks, Before(up, |up|));
      (forall i :: 0 <= i < |up| ==> OnlyLinks(st, st', up[i])) && y in st' && st'[y].Inner? && st'[y].kids == ks
  {
  }

  lemma PushLayer(st: Store, up: seq<Id>, lower: seq<Id>, idx: nat, base: Id, take: nat)
    requires Layer(st, up, lower, idx, base) && 0 < take && idx + take <= |lower|
    ensures var y := base + |up|; var st' := PushNode(st, y, lower[idx..idx + take], Before(up, |up|));
      Layer(st', up + [y], lower, idx + take, base)
  {
    PushAt(st, up, lower, idx, base, take, base + |up|, lower[idx..idx + take]);
  }

  lemma PushAt(st: Store, up: seq<Id>, lower: seq<Id>, idx: nat, base: Id, take: nat, y: Id, ks: seq<Id>)
    requires Layer(st, up, lower, idx, base) && 0 < take && idx + take <= |lower|
    requires y == base + |up| && ks == lower[idx..idx + take]
    ensures Layer(PushNode(st, y, ks, Before(up, |up|)), up + [y], lower, idx + take, base)
  {
    var st' := PushNode(st, y, ks, Before(up, |up|));
    PushLinked(st, up, y, ks);
    PushContent(st, up, y, ks);
    PushFlat(st, up, y, ks);
    SliceJoin(lower, idx, take);
    PushOk(st, st', up, y);
  }

  lemma SliceJoin(l: seq<Id>, i: nat, n: nat)
    requires i + n <= |l|
    ensures l[..i] + l[i..i + n] == l[..i + n] && |l[i..i + n]| == n
  {
  }

  lemma PushFlat(st: Store, up: seq<Id>, y: Id, ks: seq<Id>)
    requires y !in up && forall i :: 0 <= i < |up| ==> up[i] in st
    ensures Flat(PushNode(st, y, ks, Before(up, |up|)), up + [y]) == Flat(st, up) + ks
  {
    var st' := PushNode(st, y, ks, Before(up, |up|));
    PushContent(st, up, y, ks);
    FlatSame(st, st', up);
    FlatAdd(st', up, [y]);
    FlatOne(st', y);
  }

  lemma PushOk(st: Store, st': Store, up: seq<Id>, y: Id)
    requires LevelOk(st, up, false) && (forall i :: 0 <= i < |up| ==> OnlyLinks(st, st', up[i]))
    requires y in st' && st'[y].Inner? && Count(st'[y]) > 0
    ensures LevelOk(st', up + [y], false)
  {
    forall i | 0 <= i < |up| ensures up[i] in st' && st'[up[i]].Inner?
        && Count(st'[up[i]]) > 0 { assert OnlyLinks(st, st', up[i]); }
  }

  lemma PushSized(st: Store, up: seq<Id>, cap: nat, y: Id, ks: seq<Id>, lone: bool)
    requires y !in up && (forall i :: 0 <= i < |up| ==> up[i] in st) && LayerSized(st, up, cap, false)
    requires 2 <= |ks| <= cap && (lone || cap / 4 <= |ks|) && (lone ==> up == [])
    ensures LayerSized(PushNode(st, y, ks, Before(up, |up|)), up + [y], cap, lone)
  {
    PushContent(st, up, y, ks);
  }

  /** Everything that existed before the layer was begun is as it was. */
  ghost predicate Untouched(st: Store, st': Store, base: Id, next: Id) {
    && (forall x :: x in st ==> x in st' && st'[x] == st[x])
    && (forall x :: x in st' ==> x in st || base <= x < next)
  }

  lemma PushUntouched(st0: Store, st: Store, up: seq<Id>, base: Id, ks: seq<Id>)
    requires Untouched(st0, st, base, base + |up|) && FreshFrom(st0, base)
    requires forall i :: 0 <= i < |up| ==> up[i] == base + i && up[i] in st
    ensures Untouched(st0, PushNode(st, base + |up|, ks, Before(up, |up|)), base, base + |up| + 1)
  {
  }

  /** The state of the inner loop: positions below idx of the old layer have been handed out. */
  ghost predicate Building(st0: Store, st: Store, up: seq<Id>, lower: seq<Id>, idx: nat, base: Id, cap: nat) {
    && Layer(st, up, lower, idx, base) && LayerSized(st, up, cap, idx == |lower| && |up| == 1)
    && Untouched(st0, st, base, base + |up|) && (up == [] <==> idx == 0) && (idx > 0 ==> |up| < idx)
    && (0 < idx < |lower| ==> |lower| - idx >= cap / 4)
  }

  lemma BuildStep(st0: Store, st: Store, up: seq<Id>, lower: seq<Id>, idx: nat, base: Id, cap: nat, take: nat)
    requires Building(st0, st, up, lower, idx, base, cap) && FreshFrom(st0, base) && cap >= 8 && |lower| >= 2
      && idx < |lower|
    requires take == Take(cap, |lower| - idx)
    ensures 2 <= take <= |lower| - idx
    ensures var y := base + |up|; Building(st0, PushNode(st, y, lower[idx..idx + take], Before(up, |up|)), up + [y],
      lower, idx + take, base, cap)
  {
    TakeFits(cap, |lower| - idx);
    var ks := lower[idx..idx + take];
    PushLayer(st, up, lower, idx, base, take);
    PushUntouched(st0, st, up, base, ks);
    PushSized(st, up, cap, base + |up|, ks, idx + take == |lower| && up == []);
  }

  /** One pass of the inner loop of btree_t::load: the layer in array[..count] is replaced, in
      place, by the nodes above it. Writes go to positions that have already been read. */
  method BuildLayer(layer: array<Id>, count: nat, st: Store, base: Id, cap: nat) returns (st': Store, upper: nat,
      ghost up: seq<Id>)
    requires 2 <= count <= layer.Length && cap >= 8 && FreshFrom(st, base)
    modifies layer
    ensures 0 < upper == |up| < count && (forall i :: 0 <= i < upper ==> layer[i] == up[i])
    ensures Building(st, st', up, old(layer[..count]), count, base, cap)
  {
    st', upper, up := st, 0, [];
    var idx := 0;
    ghost var lower := layer[..count];
    assert lower[..0] == [];
    while idx < count
      invariant |up| == upper <= idx <= count == |lower|
      invariant forall i :: 0 <= i < upper ==> layer[i] == up[i]
      invariant forall i :: idx <= i < count ==> layer[i] == lower[i]
      invariant Building(st, st', up, lower, idx, base, cap)
    {
      var take;
      take, st', up := NextNode(layer, count, idx, upper, st', base, cap, st, up, lower);
      layer[upper] := base + upper;
      idx, upper := idx + take, upper + 1;
    }
  }

  lemma AtLeastTwo(st0: Store, st: Store, up: seq<Id>, lower: seq<Id>, idx: nat, base: Id, cap: nat)
    requires Building(st0, st, up, lower, idx, base, cap) && |lower| >= 2 && cap >= 8 && idx < |lower|
    ensures |lower| - idx >= 2
  {
  }

  /** The node over the next children of the layer, and how many of them it takes. */
  method NextNode(layer: array<Id>, count: nat, idx: nat, upper: nat, st: Store, base: Id, cap: nat, ghost st0: Store,
      ghost up: seq<Id>, ghost lower: seq<Id>)
    returns (take: nat, st': Store, ghost up': seq<Id>)
    requires |up| == upper <= idx < count == |lower| <= layer.Length && 2 <= count && cap >= 8 && FreshFrom(st0, base)
    requires (forall i :: 0 <= i < upper ==> layer[i] == up[i])
      && (forall i :: idx <= i < count ==> layer[i] == lower[i])
    requires Building(st0, st, up, lower, idx, base, cap)
    ensures 2 <= take <= count - idx && up' == up + [base + upper]
      && Building(st0, st', up', lower, idx + take, base, cap)
  {
    take := Take(cap, count - idx);
    AtLeastTwo(st0, st, up, lower, idx, base, cap);
    TakeFits(cap, count - idx);
    var ks := Slice(layer, idx, take, lower);
    var left := if upper == 0 then None else Some(layer[upper - 1]);
    st', up' := AddNode(st, base + upper, ks, left, st0, up, lower, idx, base, cap, take);
  }

  /** A new inner node over `ks`, chained to the node built before it. */
  method AddNode(st: Store, y: Id, ks: seq<Id>, left: Option<Id>, ghost st0: Store, ghost up: seq<Id>,
      ghost lower: seq<Id>, ghost idx: nat, ghost base: Id, ghost cap: nat, ghost take: nat)
    returns (st': Store, ghost up': seq<Id>)
    requires Building(st0, st, up, lower, idx, base, cap) && FreshFrom(st0, base) && cap >= 8 && |lower| >= 2
      && idx < |lower|
    requires take == Take(cap, |lower| - idx) && idx + take <= |lower| && ks == lower[idx..idx + take]
    requires y == base + |up| && left == Before(up, |up|)
    ensures up' == up + [y] && Building(st0, st', up', lower, idx + take, base, cap)
  {
    BuildStep(st0, st, up, lower, idx, base, cap, take);
    st', up' := PushNode(st, y, ks, left), up + [y];
  }

  /** memcpy of the next children out of the layer array. */
  method Slice(layer: array<Id>, from: nat, n: nat, ghost lower: seq<Id>) returns (ks: seq<Id>)
    requires from + n <= |lower| <= layer.Length && forall i :: from <= i < |lower| ==> layer[i] == lower[i]
    ensures ks == lower[from..from + n]
  {
    ks := layer[from..from + n];
  }

  lemma RaiseDistinct(st: Store, ls: Levels, up: seq<Id>, cap: nat, base: Id)
    requires Shape(st, ls, cap, NoHole) && FreshFrom(st, base) && forall i :: 0 <= i < |up| ==> up[i] == base + i
    ensures Distinct(ls + [up])
  {
    var ls' := ls + [up];
    ShapeLevels(st, ls, cap, NoHole);
    forall h | 0 <= h < |ls'| ensures NoDup(ls'[h]) { if h < |ls| { assert ls'[h] == ls[h]; } }
    forall g, h, x | 0 <= g < h < |ls'| && x in ls'[g] ensures x !in ls'[h] {
      assert ls'[g] == ls[g] && x in st;
      if h < |ls| { assert ls'[h] == ls[h]; }
    }
  }

  lemma RaiseOld(st: Store, st': Store, ls: Levels, up: seq<Id>, cap: nat, h: nat)
    requires h < |ls| && LevelGood(st, ls, cap, NoHole, h) && |ls[|ls| - 1]| > 1
    requires forall x :: x in st ==> x in st' && st'[x] == st[x]
    ensures LevelGood(st', ls + [up], cap, NoHole, h)
  {
    LevelFrame(st, st', ls, ls + [up], cap, NoHole, NoHole, h);
  }

  /** A finished layer on top of a complete forest gives a complete, taller forest. */
  lemma RaiseShape(st: Store, st': Store, ls: Levels, up: seq<Id>, cap: nat, base: Id)
    requires Shape(st, ls, cap, NoHole) && FreshFrom(st, base) && |ls[|ls| - 1]| > 1 && cap >= 8
    requires Building(st, st', up, ls[|ls| - 1], |ls[|ls| - 1]|, base, cap)
    ensures Shape(st', ls + [up], cap, NoHole) && FreshFrom(st', base + |up|)
  {
    var ls', top := ls + [up], |ls|;
    RaiseDistinct(st, ls, up, cap, base);
    assert ls[top - 1][..|ls[top - 1]|] == ls[top - 1];
    assert LevelSized(st', up, Floor(ls', top, cap), cap);
    forall h | 0 <= h < |ls'| ensures LevelGood(st', ls', cap, NoHole, h) {
      if h < |ls| {
        assert LevelGood(st, ls, cap, NoHole, h);
        RaiseOld(st, st', ls, up, cap, h);
      }
    }
  }

  /** What btree_t::load finds on disk: a chain of leaves of legal size, in saved order. */
  ghost predicate SavedChain(st: Store, leaves: seq<Id>, cap: nat) {
    && leaves != [] && NoDup(leaves) && LevelOk(st, leaves, true) && Linked(st, leaves)
    && LevelSized(st, leaves, if |leaves| == 1 then 1 else cap / 4, cap)
  }

  lemma ChainShape(st: Store, leaves: seq<Id>, cap: nat)
    requires SavedChain(st, leaves, cap)
    ensures Shape(st, [leaves], cap, NoHole)
  {
    assert LevelGood(st, [leaves], cap, NoHole, 0);
  }

  lemma StillFresh(st: Store, st': Store, base: Id, next: Id)
    requires FreshFrom(st, base) && base <= next && Untouched(st, st', base, next)
    ensures FreshFrom(st', next)
  {
  }

  /** The rebuilding loop of btree_t::load: terminates for every number of leaves, keeps them and their order;
      if they are in order themselves, all of them are at one depth and every inner node but the root has a legal
      size. */
  method Rebuild(leaves: seq<Id>, st: Store, next: Id, cap: nat)
    returns (st': Store, root: Id, next': Id, ghost ls: Levels)
    requires leaves != [] && FreshFrom(st, next) && cap >= 8
    ensures SavedChain(st, leaves, cap) ==> Shape(st', ls, cap, NoHole)
    ensures ls != [] && ls[|ls| - 1] == [root] && ls[0] == leaves
    ensures FreshFrom(st', next') && (forall x :: x in st ==> x in st' && st'[x] == st[x])
  {
    var layer := new Id[|leaves|](i requires 0 <= i < |leaves| => leaves[i]);
    var count := |leaves|;
    st', next', ls := st, next, [leaves];
    if SavedChain(st, leaves, cap) { ChainShape(st, leaves, cap); }
    while count > 1
      invariant 0 < count <= layer.Length && ls != [] && ls[0] == leaves
      invariant |ls[|ls| - 1]| == count && (forall i :: 0 <= i < count ==> layer[i] == ls[|ls| - 1][i])
      invariant SavedChain(st, leaves, cap) ==> Shape(st', ls, cap, NoHole)
      invariant FreshFrom(st', next') && (forall x :: x in st ==> x in st' && st'[x] == st[x])
      decreases count
    {
      ghost var top := ls[|ls| - 1];
      assert layer[..count] == top;
      ghost var before, up := st', [];
      var upper;
      st', upper, up := BuildLayer(layer, count, st', next', cap);
      StillFresh(before, st', next', next' + upper);
      if SavedChain(st, leaves, cap) { RaiseShape(before, st', ls, up, cap, next'); }
      ls, next', count := ls + [up], next' + upper, upper;
    }
    root := layer[0];
    assert ls[|ls| - 1] == [root];
  }
}
