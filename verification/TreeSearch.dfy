/** Routing: how an index is sent from the root to the leaf that may hold it. */
module TreeSearch {
  import opened Multimap
  import opened NodeStore

  lemma InFlat(st: Store, l: seq<Id>, id: Id, j: nat)
    requires id in l && j < |KidsOf(st, id)|
    ensures KidsOf(st, id)[j] in Flat(st, l)
  {
    var q :| 0 <= q < |l| && l[q] == id;
    FlatAt(st, l, q);
  }

  /** base_node_t::min_index: an inner node asks its first child. */
  method MinIndex(st: Store, id: Id, ghost ls: Levels, ghost h: nat) returns (k: Key)
    requires Tower(st, ls) && h < |ls| && id in ls[h]
    ensures k == MinAt(st, h, id)
  {
    var cur := id;
    ghost var g: nat := h;
    while st[cur].Inner?
      invariant g <= h && cur in ls[g]
      invariant MinAt(st, h, id) == MinAt(st, g, cur)
      decreases g
    {
      InFlat(st, ls[g], cur, 0);
      cur := st[cur].kids[0];
      g := g - 1;
    }
    k := st[cur].entries[0].key;
  }

  /** base_node_t::max_index: an inner node asks its last child. */
  method MaxIndex(st: Store, id: Id, ghost ls: Levels, ghost h: nat) returns (k: Key)
    requires Tower(st, ls) && h < |ls| && id in ls[h]
    ensures k == MaxAt(st, h, id)
  {
    var cur := id;
    ghost var g: nat := h;
    while st[cur].Inner?
      invariant g <= h && cur in ls[g]
      invariant MaxAt(st, h, id) == MaxAt(st, g, cur)
      decreases g
    {
      InFlat(st, ls[g], cur, |st[cur].kids| - 1);
      cur := st[cur].kids[|st[cur].kids| - 1];
      g := g - 1;
    }
    k := st[cur].entries[|st[cur].entries| - 1].key;
  }

  ghost predicate MinsSorted(st: Store, h: nat, ks: seq<Id>) {
    forall a, b :: 0 <= a < b < |ks| ==> MinAt(st, h, ks[a]) < MinAt(st, h, ks[b])
  }

  lemma KidsSorted(st: Store, ls: Levels, h: nat, i: nat)
    requires Tower(st, ls) && Ordered(FlatE(st, ls[0])) && 0 < h < |ls| && i < |ls[h]|
    ensures MinsSorted(st, h - 1, KidsOf(st, ls[h][i]))
  {
    forall a, b | 0 <= a < b < |KidsOf(st, ls[h][i])|
      ensures MinAt(st, h - 1, KidsOf(st, ls[h][i])[a]) < MinAt(st, h - 1, KidsOf(st, ls[h][i])[b])
    {
      KidsAscend(st, ls, h, i, a, b);
    }
  }

  lemma KidsAscend(st: Store, ls: Levels, h: nat, i: nat, a: nat, b: nat)
    requires Tower(st, ls) && Ordered(FlatE(st, ls[0])) && 0 < h < |ls| && i < |ls[h]| && a < b < |KidsOf(st, ls[h][i])|
    ensures MinAt(st, h - 1, KidsOf(st, ls[h][i])[a]) < MinAt(st, h - 1, KidsOf(st, ls[h][i])[b])
  {
    KidAt(st, ls[h], i, a);
    KidAt(st, ls[h], i, b);
    var s := |Flat(st, ls[h][..i])|;
    MinsAscend(st, ls, h - 1, s + a, s + b);
  }

  /** std::lower_bound over the children: the first one whose smallest index is at least k. */
  method LowerBound(st: Store, ks: seq<Id>, k: Key, ghost ls: Levels, ghost h: nat) returns (j: nat)
    requires Tower(st, ls) && h < |ls| && (forall a :: 0 <= a < |ks| ==> ks[a] in ls[h])
    requires MinsSorted(st, h, ks)
    ensures j <= |ks|
    ensures forall a :: 0 <= a < j ==> MinAt(st, h, ks[a]) < k
    ensures forall a :: j <= a < |ks| ==> k <= MinAt(st, h, ks[a])
  {
    var lo, hi := 0, |ks|;
    while lo < hi
      invariant 0 <= lo <= hi <= |ks|
      invariant forall a :: 0 <= a < lo ==> MinAt(st, h, ks[a]) < k
      invariant forall a :: hi <= a < |ks| ==> k <= MinAt(st, h, ks[a])
    {
      var mid := (lo + hi) / 2;
      var m := MinIndex(st, ks[mid], ls, h);
      if m < k { lo := mid + 1; } else { hi := mid; }
    }
    j := lo;
  }

  /** Position c is the child that find_node picks: the last one that does not start above k,
      or the first one when all do. */
  ghost predicate Picks(st: Store, h: nat, ks: seq<Id>, c: nat, k: Key) {
    && c < |ks|
    && (c == 0 || MinAt(st, h, ks[c]) <= k)
    && (c + 1 == |ks| || k < MinAt(st, h, ks[c + 1]))
  }

  /** inner_node_t::find_node. */
  method FindNode(st: Store, ks: seq<Id>, k: Key, ghost ls: Levels, ghost h: nat) returns (c: nat)
    requires Tower(st, ls) && h < |ls| && ks != [] && (forall a :: 0 <= a < |ks| ==> ks[a] in ls[h])
    requires MinsSorted(st, h, ks)
    ensures Picks(st, h, ks, c, k)
  {
    var j := LowerBound(st, ks, k, ls, h);
    if j == |ks| {
      c := j - 1;
    } else if j != 0 {
      var m := MinIndex(st, ks[j], ls, h);
      c := if m > k then j - 1 else j;
    } else {
      c := 0;
    }
  }

  /** Position q of level h is where k belongs: nothing left of it can hold k, and everything
      right of it starts above k. */
  ghost predicate Covers(st: Store, ls: Levels, h: nat, q: nat, k: Key) {
    && h < |ls| && q < |ls[h]|
    && (q == 0 || MinAt(st, h, ls[h][q]) <= k)
    && (q + 1 == |ls[h]| || k < MinAt(st, h, ls[h][q + 1]))
  }

  lemma MinOfFirst(st: Store, ls: Levels, h: nat, q: nat)
    requires Tower(st, ls) && 0 < h < |ls| && q < |ls[h]|
    ensures |Flat(st, ls[h][..q])| < |ls[h - 1]|
    ensures MinAt(st, h, ls[h][q]) == MinAt(st, h - 1, ls[h - 1][|Flat(st, ls[h][..q])|])
  {
    KidAt(st, ls[h], q, 0);
  }

  lemma CoversDownLeft(st: Store, ls: Levels, h: nat, q: nat, c: nat, k: Key)
    requires Tower(st, ls) && 0 < h && Covers(st, ls, h, q, k)
    requires Picks(st, h - 1, KidsOf(st, ls[h][q]), c, k)
    ensures var p := |Flat(st, ls[h][..q])| + c;
      p < |ls[h - 1]| && (p == 0 || MinAt(st, h - 1, ls[h - 1][p]) <= k)
  {
    KidAt(st, ls[h], q, c);
    MinOfFirst(st, ls, h, q);
    if c == 0 && q == 0 { assert ls[h][..0] == []; }
  }

  lemma CoversDownRight(st: Store, ls: Levels, h: nat, q: nat, c: nat, k: Key)
    requires Tower(st, ls) && 0 < h && Covers(st, ls, h, q, k)
    requires Picks(st, h - 1, KidsOf(st, ls[h][q]), c, k)
    ensures var p := |Flat(st, ls[h][..q])| + c;
      p + 1 == |ls[h - 1]| || (p + 1 < |ls[h - 1]| && k < MinAt(st, h - 1, ls[h - 1][p + 1]))
  {
    StartNext(st, ls[h], q);
    if c + 1 < |KidsOf(st, ls[h][q])| {
      KidAt(st, ls[h], q, c + 1);
    } else if q + 1 < |ls[h]| {
      MinOfFirst(st, ls, h, q + 1);
    } else {
      assert ls[h][..q + 1] == ls[h];
    }
  }

  lemma CoversDown(st: Store, ls: Levels, h: nat, q: nat, c: nat, k: Key)
    requires Tower(st, ls) && 0 < h && Covers(st, ls, h, q, k)
    requires Picks(st, h - 1, KidsOf(st, ls[h][q]), c, k)
    ensures Covers(st, ls, h - 1, |Flat(st, ls[h][..q])| + c, k)
  {
    CoversDownLeft(st, ls, h, q, c, k);
    CoversDownRight(st, ls, h, q, c, k);
  }

  lemma KidsInLevel(st: Store, ls: Levels, h: nat, id: Id)
    requires Tower(st, ls) && 0 < h < |ls| && id in ls[h]
    ensures forall a :: 0 <= a < |KidsOf(st, id)| ==> KidsOf(st, id)[a] in ls[h - 1]
  {
    forall a | 0 <= a < |KidsOf(st, id)| ensures KidsOf(st, id)[a] in ls[h - 1] { InFlat(st, ls[h], id, a); }
  }

  /** One step of every descent: from position q of level h to the child that covers k. */
  method Step(st: Store, id: Id, k: Key, ghost ls: Levels, ghost h: nat, ghost q: nat)
    returns (child: Id, ghost c: nat)
    requires Tower(st, ls) && Ordered(FlatE(st, ls[0])) && 0 < h
    requires Covers(st, ls, h, q, k) && ls[h][q] == id
    ensures c < |KidsOf(st, id)| && KidsOf(st, id)[c] == child
    ensures Covers(st, ls, h - 1, |Flat(st, ls[h][..q])| + c, k)
    ensures ls[h - 1][|Flat(st, ls[h][..q])| + c] == child
  {
    StepReady(st, ls, h, q);
    var d := FindNode(st, st[id].kids, k, ls, h - 1);
    c, child := d, st[id].kids[d];
    StepDone(st, ls, h, q, d, k);
  }

  lemma StepReady(st: Store, ls: Levels, h: nat, q: nat)
    requires Tower(st, ls) && Ordered(FlatE(st, ls[0])) && 0 < h < |ls| && q < |ls[h]|
    ensures ls[h][q] in st && st[ls[h][q]].Inner? && st[ls[h][q]].kids != [] && MinsSorted(st, h - 1, st[ls[h][q]].kids)
    ensures forall a :: 0 <= a < |st[ls[h][q]].kids| ==> st[ls[h][q]].kids[a] in ls[h - 1]
  {
    KidsSorted(st, ls, h, q);
    assert Count(st[ls[h][q]]) > 0;
    KidsInLevel(st, ls, h, ls[h][q]);
  }

  lemma StepDone(st: Store, ls: Levels, h: nat, q: nat, c: nat, k: Key)
    requires Tower(st, ls) && 0 < h && Covers(st, ls, h, q, k) && Picks(st, h - 1, KidsOf(st, ls[h][q]), c, k)
    ensures Covers(st, ls, h - 1, |Flat(st, ls[h][..q])| + c, k)
    ensures ls[h - 1][|Flat(st, ls[h][..q])| + c] == KidsOf(st, ls[h][q])[c]
  {
    CoversDown(st, ls, h, q, c, k);
    KidAt(st, ls[h], q, c);
  }

  lemma TopCovers(st: Store, ls: Levels, k: Key)
    requires |ls| > 0 && |ls[|ls| - 1]| == 1
    ensures Covers(st, ls, |ls| - 1, 0, k)
  {
  }

  /** btree_t::find_leaf_node_: the leaf that covers the index. */
  method FindLeaf(st: Store, root: Id, k: Key, ghost ls: Levels) returns (leaf: Id, ghost q: nat)
    requires Tower(st, ls) && Ordered(FlatE(st, ls[0])) && ls[|ls| - 1] == [root]
    ensures Covers(st, ls, 0, q, k) && ls[0][q] == leaf
  {
    leaf, q := root, 0;
    ghost var h: nat := |ls| - 1;
    TopCovers(st, ls, k);
    while st[leaf].Inner?
      invariant h < |ls| && Covers(st, ls, h, q, k) && ls[h][q] == leaf
      decreases h
    {
      ghost var c;
      leaf, c := Step(st, leaf, k, ls, h, q);
      h, q := h - 1, |Flat(st, ls[h][..q])| + c;
    }
  }

  /** Nothing left or right of the covering leaf can hold the index. */
  lemma CoversSeparates(st: Store, ls: Levels, q: nat, k: Key)
    requires Tower(st, ls) && Ordered(FlatE(st, ls[0])) && Covers(st, ls, 0, q, k)
    ensures AllBelow(FlatE(st, ls[0][..q]), k)
    ensures AllAbove(k, FlatE(st, ls[0][q + 1..]))
  {
    var l := ls[0];
    FlatEAt(st, l, q);
    var a, b, c := FlatE(st, l[..q]), EntriesOf(st, l[q]), FlatE(st, l[q + 1..]);
    OrderedParts(a + b, c);
    OrderedParts(a, b);
    if q == 0 { assert l[..0] == []; }
    if q + 1 == |l| {
      assert l[q + 1..] == [];
    } else {
      FlatEAt(st, l[q + 1..], 0);
      assert c[0] == EntriesOf(st, l[q + 1])[0];
    }
  }

  /** Looking an index up in the leaf the descent reaches is looking it up in the whole tree. */
  lemma LookupLocal(st: Store, ls: Levels, q: nat, k: Key)
    requires Tower(st, ls) && Ordered(FlatE(st, ls[0])) && Covers(st, ls, 0, q, k)
    ensures Has(FlatE(st, ls[0]), k) == Has(EntriesOf(st, ls[0][q]), k)
    ensures Group(FlatE(st, ls[0]), k) == Group(EntriesOf(st, ls[0][q]), k)
  {
    CoversSeparates(st, ls, q, k);
    FlatEAt(st, ls[0], q);
    RankLocal(FlatE(st, ls[0][..q]), EntriesOf(st, ls[0][q]), FlatE(st, ls[0][q + 1..]), k);
  }
}
