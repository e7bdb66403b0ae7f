/** Range scans over the leaf chain, and what they must return: the first `limit` entries of the
    flattened tree that lie in the range and satisfy the predicate, in scan order. */
module Scan {
  import opened Wrappers
  import opened Multimap
  import opened NodeStore
  import opened TreeSearch
  import opened Sequences

  type Pair = (Key, Item)

  /** A query: the inclusive index range, the deserializer and the predicate. */
  datatype Query<!T(!new)> = Query(lo: Key, hi: Key, read: Item -> T, accept: (Key, T) -> bool) {
    predicate Wants(p: Pair) { lo <= p.0 <= hi && accept(p.0, read(p.1)) }
  }

  /** The entries of a group, and of a list of groups, in iteration order. */
  function GroupPairs(k: Key, items: seq<Item>): seq<Pair> {
    if items == [] then [] else [(k, items[0])] + GroupPairs(k, items[1..])
  }

  function Pairs(c: seq<Entry>): seq<Pair> {
    if c == [] then [] else GroupPairs(c[0].key, c[0].items) + Pairs(c[1..])
  }

  /** The reference: filter everything, then keep the first `limit`. */
  function Matches<T(!new)>(ps: seq<Pair>, q: Query<T>): seq<T> {
    if ps == [] then []
    else (if q.Wants(ps[0]) then [q.read(ps[0].1)] else []) + Matches(ps[1..], q)
  }

  function First<T>(s: seq<T>, limit: nat): seq<T> {
    if |s| <= limit then s else s[..limit]
  }

  lemma {:induction false} MatchesAdd<T(!new)>(a: seq<Pair>, b: seq<Pair>, q: Query<T>)
    ensures Matches(a + b, q) == Matches(a, q) + Matches(b, q)
  {
    if a == [] {
      assert a + b == b;
    } else {
      assert (a + b)[1..] == a[1..] + b;
      MatchesAdd(a[1..], b, q);
    }
  }

  lemma {:induction false} MatchesNone<T(!new)>(ps: seq<Pair>, q: Query<T>)
    requires forall i :: 0 <= i < |ps| ==> !q.Wants(ps[i])
    ensures Matches(ps, q) == []
  {
    if ps != [] { MatchesNone(ps[1..], q); }
  }

  lemma {:induction false} PairsAdd(a: seq<Entry>, b: seq<Entry>)
    ensures Pairs(a + b) == Pairs(a) + Pairs(b)
  {
    if a == [] {
      assert a + b == b;
    } else {
      assert (a + b)[1..] == a[1..] + b;
      PairsAdd(a[1..], b);
    }
  }

  lemma {:induction false} GroupKeys(k: Key, items: seq<Item>)
    ensures |GroupPairs(k, items)| == |items|
    ensures forall i :: 0 <= i < |items| ==> GroupPairs(k, items)[i] == (k, items[i])
  {
    if items != [] { GroupKeys(k, items[1..]); }
  }

  lemma {:induction false} GroupPairsAdd(k: Key, x: seq<Item>, y: seq<Item>)
    ensures GroupPairs(k, x + y) == GroupPairs(k, x) + GroupPairs(k, y)
  {
    GroupKeys(k, x + y);
    GroupKeys(k, x);
    GroupKeys(k, y);
  }

  ghost predicate KeysAscend(ps: seq<Pair>) {
    forall i, j :: 0 <= i < j < |ps| ==> ps[i].0 <= ps[j].0
  }

  lemma PairsOne(e: Entry)
    ensures Pairs([e]) == GroupPairs(e.key, e.items)
  {
    assert [e][1..] == [];
    assert Pairs([e]) == GroupPairs(e.key, e.items) + Pairs([]);
  }

  ghost predicate KeyIn(c: seq<Entry>, k: Key) {
    exists j :: 0 <= j < |c| && c[j].key == k
  }

  /** Keys of the flattened pairs come from the groups. */
  lemma {:induction false} PairsKeys(c: seq<Entry>)
    ensures forall i :: 0 <= i < |Pairs(c)| ==> KeyIn(c, Pairs(c)[i].0)
  {
    if c != [] {
      PairsKeys(c[1..]);
      var g, ps := GroupPairs(c[0].key, c[0].items), Pairs(c);
      GroupKeys(c[0].key, c[0].items);
      forall i | 0 <= i < |ps| ensures KeyIn(c, ps[i].0) {
        if i < |g| {
          assert c[0].key == ps[i].0;
        } else {
          assert KeyIn(c[1..], Pairs(c[1..])[i - |g|].0);
          var j :| 0 <= j < |c[1..]| && c[1..][j].key == Pairs(c[1..])[i - |g|].0;
          assert c[j + 1].key == ps[i].0;
        }
      }
    }
  }

  lemma {:induction false} PairsAscend(c: seq<Entry>)
    requires Ordered(c)
    ensures KeysAscend(Pairs(c))
  {
    if c != [] {
      var g, t := GroupPairs(c[0].key, c[0].items), Pairs(c[1..]);
      assert Ordered(c[1..]);
      PairsAscend(c[1..]);
      PairsKeys(c[1..]);
      GroupKeys(c[0].key, c[0].items);
      var ps := Pairs(c);
      forall i, j | 0 <= i < j < |ps| ensures ps[i].0 <= ps[j].0 {
        assert i >= |g| ==> ps[i] == t[i - |g|];
        if i < |g| <= j {
          assert KeyIn(c[1..], t[j - |g|].0);
          var m :| 0 <= m < |c[1..]| && c[1..][m].key == t[j - |g|].0;
          assert c[1..][m] == c[m + 1];
        }
      }
    }
  }

  lemma PairsBelow(c: seq<Entry>, k: Key)
    requires AllBelow(c, k)
    ensures forall i :: 0 <= i < |Pairs(c)| ==> Pairs(c)[i].0 < k
  {
    PairsKeys(c);
    forall i | 0 <= i < |Pairs(c)| ensures Pairs(c)[i].0 < k { assert KeyIn(c, Pairs(c)[i].0); }
  }

  lemma PairsAbove(k: Key, c: seq<Entry>)
    requires AllAbove(k, c)
    ensures forall i :: 0 <= i < |Pairs(c)| ==> k < Pairs(c)[i].0
  {
    PairsKeys(c);
    forall i | 0 <= i < |Pairs(c)| ensures k < Pairs(c)[i].0 { assert KeyIn(c, Pairs(c)[i].0); }
  }

  // ---------------------------------------------------------------- one leaf

  /** One more entry looked at. */
  lemma MatchesNext<T(!new)>(ps: seq<Pair>, i: nat, q: Query<T>)
    requires i < |ps|
    ensures Matches(ps[..i + 1], q) == Matches(ps[..i], q) + if q.Wants(ps[i]) then [q.read(ps[i].1)] else []
  {
    assert ps[..i + 1] == ps[..i] + [ps[i]];
    MatchesAdd(ps[..i], [ps[i]], q);
    assert [ps[i]][1..] == [];
  }

  lemma MatchesParts<T(!new)>(ps: seq<Pair>, i: nat, q: Query<T>)
    requires i <= |ps|
    ensures Matches(ps, q) == Matches(ps[..i], q) + Matches(ps[i..], q)
  {
    assert ps == ps[..i] + ps[i..];
    MatchesAdd(ps[..i], ps[i..], q);
  }

  /** The limit is reached: the rest does not matter. */
  lemma FullMatches<T(!new)>(ps: seq<Pair>, i: nat, q: Query<T>)
    requires i <= |ps|
    ensures First(Matches(ps, q), |Matches(ps[..i], q)|) == Matches(ps[..i], q)
  {
    MatchesParts(ps, i, q);
  }

  /** Nothing wanted follows: what is collected is everything. */
  lemma RestUnwanted<T(!new)>(ps: seq<Pair>, i: nat, q: Query<T>)
    requires i <= |ps| && forall j :: i <= j < |ps| ==> !q.Wants(ps[j])
    ensures Matches(ps, q) == Matches(ps[..i], q)
  {
    MatchesParts(ps, i, q);
    assert forall j :: 0 <= j < |ps[i..]| ==> ps[i..][j] == ps[i + j];
    MatchesNone(ps[i..], q);
  }

  /** The two inner loops of scan_ascending: skip below the range, stop above it, collect until the
      limit is used up. */
  method ScanLeaf<T(!new)>(ps: seq<Pair>, q: Query<T>, limit: nat) returns (res: seq<T>, stop: bool)
    requires limit > 0 && KeysAscend(ps)
    ensures res == First(Matches(ps, q), limit)
    ensures stop ==> |res| == limit || exists i :: 0 <= i < |ps| && q.hi < ps[i].0
    ensures !stop ==> |res| < limit
  {
    res, stop := [], false;
    var i := 0;
    while i < |ps|
      invariant 0 <= i <= |ps| && res == Matches(ps[..i], q) && |res| < limit
    {
      MatchesNext(ps, i, q);
      if ps[i].0 > q.hi {
        RestUnwanted(ps, i, q);
        return res, true;
      } else if ps[i].0 >= q.lo {
        var t := q.read(ps[i].1);
        if q.accept(ps[i].0, t) {
          res := res + [t];
          if |res| == limit {
            FullMatches(ps, i + 1, q);
            return res, true;
          }
        }
      }
      i := i + 1;
    }
    assert ps[..i] == ps;
  }

  /** The same, walking downwards. */
  method ScanLeafDown<T(!new)>(ps: seq<Pair>, q: Query<T>, limit: nat) returns (res: seq<T>, stop: bool)
    requires limit > 0 && KeysAscend(ps)
    ensures res == First(Matches(Reversed(ps), q), limit)
    ensures stop ==> |res| == limit || exists i :: 0 <= i < |ps| && ps[i].0 < q.lo
    ensures !stop ==> |res| < limit
  {
    res, stop := [], false;
    var rs := Reversed(ps);
    ReversedAt(ps);
    var i := 0;
    while i < |rs|
      invariant 0 <= i <= |rs| && res == Matches(rs[..i], q) && |res| < limit
    {
      MatchesNext(rs, i, q);
      if rs[i].0 < q.lo {
        assert rs[i] == ps[|ps| - 1 - i];
        RestUnwanted(rs, i, q);
        return res, true;
      } else if rs[i].0 <= q.hi {
        var t := q.read(rs[i].1);
        if q.accept(rs[i].0, t) {
          res := res + [t];
          if |res| == limit {
            FullMatches(rs, i + 1, q);
            return res, true;
          }
        }
      }
      i := i + 1;
    }
    assert rs[..i] == rs;
  }

  // ---------------------------------------------------------------- the leaf chain

  /** What a query wants from a list of groups, upwards and downwards. */
  ghost function Hits<T(!new)>(c: seq<Entry>, q: Query<T>, up: bool): seq<T> {
    Matches(if up then Pairs(c) else Reversed(Pairs(c)), q)
  }

  lemma HitsAdd<T(!new)>(a: seq<Entry>, b: seq<Entry>, q: Query<T>, up: bool)
    ensures Hits(a + b, q, up) == if up then Hits(a, q, up) + Hits(b, q, up) else Hits(b, q, up) + Hits(a, q, up)
  {
    PairsAdd(a, b);
    if up {
      MatchesAdd(Pairs(a), Pairs(b), q);
    } else {
      ReversedAdd(Pairs(a), Pairs(b));
      MatchesAdd(Reversed(Pairs(b)), Reversed(Pairs(a)), q);
    }
  }

  lemma NoHits<T(!new)>(c: seq<Entry>, q: Query<T>, up: bool)
    requires AllBelow(c, q.lo) || AllAbove(q.hi, c)
    ensures Hits(c, q, up) == []
  {
    if AllBelow(c, q.lo) { PairsBelow(c, q.lo); } else { PairsAbove(q.hi, c); }
    ReversedAt(Pairs(c));
    MatchesNone(if up then Pairs(c) else Reversed(Pairs(c)), q);
  }

  ghost predicate KeyAbove(c: seq<Entry>, k: Key) { exists m :: 0 <= m < |c| && k < c[m].key }
  ghost predicate KeyBelow(c: seq<Entry>, k: Key) { exists m :: 0 <= m < |c| && c[m].key < k }

  lemma PairAbove(c: seq<Entry>, k: Key, i: nat)
    requires i < |Pairs(c)| && k < Pairs(c)[i].0
    ensures KeyAbove(c, k)
  {
    PairsKeys(c);
    assert KeyIn(c, Pairs(c)[i].0);
  }

  lemma PairBelow(c: seq<Entry>, k: Key, i: nat)
    requires i < |Pairs(c)| && Pairs(c)[i].0 < k
    ensures KeyBelow(c, k)
  {
    PairsKeys(c);
    assert KeyIn(c, Pairs(c)[i].0);
  }

  /** Once a leaf holds a key above k, every leaf right of it lies above k. */
  lemma RightAbove(a: seq<Entry>, b: seq<Entry>, c: seq<Entry>, k: Key)
    requires Ordered(a + b + c) && KeyAbove(b, k)
    ensures AllAbove(k, c)
  {
    OrderedParts(a + b, c);
    var m :| 0 <= m < |b| && k < b[m].key;
    assert (a + b)[|a| + m] == b[m];
  }

  lemma LeftBelow(a: seq<Entry>, b: seq<Entry>, c: seq<Entry>, k: Key)
    requires Ordered(a + b + c) && KeyBelow(b, k)
    ensures AllBelow(a, k)
  {
    OrderedParts(a + b, c);
    OrderedParts(a, b);
    var m :| 0 <= m < |b| && b[m].key < k;
  }

  lemma FirstOfSum<T>(a: seq<T>, b: seq<T>, c: seq<T>, limit: nat)
    requires |a| < limit
    ensures var p := First(b, limit - |a|);
      (|p| == limit - |a| || c == []) ==> First(a + b + c, limit) == a + p
  {
    var p := First(b, limit - |a|);
    if c == [] { assert a + b + c == a + b; }
  }

  /** The scan is at the middle part b of a + b + c, has `done` from the parts behind it, and takes
      `part` from b. */
  lemma StopScan<T(!new)>(a: seq<Entry>, b: seq<Entry>, c: seq<Entry>, q: Query<T>, limit: nat, part: seq<T>, up: bool)
    requires Ordered(a + b + c) && |Hits(if up then a else c, q, up)| < limit
    requires part == First(Hits(b, q, up), limit - |Hits(if up then a else c, q, up)|)
    requires |part| == limit - |Hits(if up then a else c, q,
      up)| || (if up then KeyAbove(b, q.hi) else KeyBelow(b, q.lo))
    ensures First(Hits(a + b + c, q, up), limit) == Hits(if up then a else c, q, up) + part
  {
    HitsAdd(a + b, c, q, up);
    HitsAdd(a, b, q, up);
    var done, rest := Hits(if up then a else c, q, up), Hits(if up then c else a, q, up);
    if |part| < limit - |done| {
      if up { RightAbove(a, b, c, q.hi); } else { LeftBelow(a, b, c, q.lo); }
      NoHits(if up then c else a, q, up);
    }
    FirstOfSum(done, Hits(b, q, up), rest, limit);
    assert Hits(a + b + c, q, up) == done + Hits(b, q, up) + rest;
  }

  /** One leaf of a scan in either direction. */
  method ScanOne<T(!new)>(es: seq<Entry>, q: Query<T>, limit: nat, up: bool) returns (part: seq<T>, stop: bool)
    requires limit > 0 && Ordered(es)
    ensures part == First(Hits(es, q, up), limit)
    ensures stop ==> |part| == limit || (if up then KeyAbove(es, q.hi) else KeyBelow(es, q.lo))
    ensures !stop ==> part == Hits(es, q, up) && |part| < limit
  {
    PairsAscend(es);
    var ps := Pairs(es);
    if up {
      part, stop := ScanLeaf(ps, q, limit);
      if stop && |part| < limit { var i :| 0 <= i < |ps| && q.hi < ps[i].0; PairAbove(es, q.hi, i); }
    } else {
      part, stop := ScanLeafDown(ps, q, limit);
      if stop && |part| < limit { var i :| 0 <= i < |ps| && ps[i].0 < q.lo; PairBelow(es, q.lo, i); }
    }
  }

  /** A search tree with a chained leaf level. */
  ghost predicate Searchable(st: Store, ls: Levels, root: Id) {
    Tower(st, ls) && Ordered(FlatE(st, ls[0])) && ls[|ls| - 1] == [root] && Linked(st, ls[0])
  }

  lemma PrefixGrows(st: Store, l: seq<Id>, j: nat)
    requires j < |l|
    ensures FlatE(st, l[..j + 1]) == FlatE(st, l[..j]) + EntriesOf(st, l[j])
  {
    assert l[..j + 1] == l[..j] + [l[j]];
    FlatEAdd(st, l[..j], [l[j]]);
    FlatOne(st, l[j]);
  }

  lemma SuffixGrows(st: Store, l: seq<Id>, j: nat)
    requires j < |l|
    ensures FlatE(st, l[j..]) == EntriesOf(st, l[j]) + FlatE(st, l[j + 1..])
  {
    assert l[j..][1..] == l[j + 1..];
  }

  /** The scan stands at position j of the leaf chain with everything behind it collected. */
  ghost predicate At<T(!new)>(st: Store, l: seq<Id>, j: int, q: Query<T>, limit: nat, res: seq<T>, up: bool) {
    && -1 <= j <= |l| && |res| < limit
    && res == Hits(FlatE(st, if up then (if j < 0 then [] else l[..j]) else (if j < |l| then l[j + 1..] else [])), q,
      up)
  }

  lemma StopAt<T(!new)>(st: Store, l: seq<Id>, j: nat, q: Query<T>, limit: nat, res: seq<T>, part: seq<T>, up: bool)
    requires j < |l| && Ordered(FlatE(st, l)) && At(st, l, j, q, limit, res, up)
    requires part == First(Hits(EntriesOf(st, l[j]), q, up), limit - |res|)
    requires |part| == limit - |res| || (if up then KeyAbove(EntriesOf(st, l[j]),
      q.hi) else KeyBelow(EntriesOf(st, l[j]), q.lo))
    ensures First(Hits(FlatE(st, l), q, up), limit) == res + part
  {
    FlatEAt(st, l, j);
    StopScan(FlatE(st, l[..j]), EntriesOf(st, l[j]), FlatE(st, l[j + 1..]), q, limit, part, up);
  }

  lemma MoveOn<T(!new)>(st: Store, l: seq<Id>, j: nat, q: Query<T>, limit: nat, res: seq<T>, part: seq<T>, up: bool)
    requires j < |l| && Ordered(FlatE(st, l)) && At(st, l, j, q, limit, res, up)
    requires part == Hits(EntriesOf(st, l[j]), q, up) && |res| + |part| < limit
    ensures At(st, l, if up then j + 1 else j - 1, q, limit, res + part, up)
  {
    if up {
      PrefixGrows(st, l, j);
      HitsAdd(FlatE(st, l[..j]), EntriesOf(st, l[j]), q, up);
    } else {
      SuffixGrows(st, l, j);
      HitsAdd(EntriesOf(st, l[j]), FlatE(st, l[j + 1..]), q, up);
      assert l[(j - 1) + 1..] == l[j..];
    }
  }

  lemma AllBeyond<T(!new)>(es: seq<Entry>, q: Query<T>, up: bool)
    requires es != [] && Ordered(es) && if up then q.hi < es[0].key else es[|es| - 1].key < q.lo
    ensures if up then AllAbove(q.hi, es) && KeyAbove(es, q.hi) else AllBelow(es, q.lo) && KeyBelow(es, q.lo)
  {
  }

  /** A leaf wholly beyond the range ends the scan. */
  lemma BeyondRange<T(!new)>(st: Store, l: seq<Id>, j: nat, q: Query<T>, limit: nat, res: seq<T>, up: bool)
    requires j < |l| && Ordered(FlatE(st, l)) && At(st, l, j, q, limit, res, up) && EntriesOf(st, l[j]) != []
    requires var es := EntriesOf(st, l[j]); if up then q.hi < es[0].key else es[|es| - 1].key < q.lo
    ensures First(Hits(FlatE(st, l), q, up), limit) == res
  {
    var es := EntriesOf(st, l[j]);
    LeafOrdered(st, l, j);
    AllBeyond(es, q, up);
    NoHits(es, q, up);
    StopAt(st, l, j, q, limit, res, [], up);
    assert res + [] == res;
  }

  lemma StartScan<T(!new)>(st: Store, ls: Levels, j: nat, q: Query<T>, limit: nat, up: bool)
    requires Tower(st, ls) && Ordered(FlatE(st, ls[0])) && limit > 0 && Covers(st, ls, 0, j, if up then q.lo else q.hi)
    ensures At(st, ls[0], j, q, limit, [], up)
  {
    CoversSeparates(st, ls, j, if up then q.lo else q.hi);
    if up { NoHits(FlatE(st, ls[0][..j]), q, up); } else { NoHits(FlatE(st, ls[0][j + 1..]), q, up); }
  }

  /** The body of the scan loop: one leaf, then either the answer or the next position. */
  method VisitLeaf<T(!new)>(es: seq<Entry>, q: Query<T>, limit: nat, up: bool, res: seq<T>, ghost st: Store,
      ghost l: seq<Id>, ghost j: nat)
    returns (res': seq<T>, stop: bool)
    requires j < |l| && Ordered(FlatE(st, l)) && At(st, l, j, q, limit, res, up) && es == EntriesOf(st, l[j])
      && es != []
    ensures stop ==> res' == First(Hits(FlatE(st, l), q, up), limit)
    ensures !stop ==> At(st, l, if up then j + 1 else j - 1, q, limit, res', up)
  {
    if (up && es[0].key > q.hi) || (!up && es[|es| - 1].key < q.lo) {
      BeyondRange(st, l, j, q, limit, res, up);
      return res, true;
    }
    LeafOrdered(st, l, j);
    var part;
    part, stop := ScanOne(es, q, limit - |res|, up);
    res' := res + part;
    if stop { StopAt(st, l, j, q, limit, res, part, up); } else { MoveOn(st, l, j, q, limit, res, part, up); }
  }

  lemma EndOfChain<T(!new)>(st: Store, l: seq<Id>, j: int, q: Query<T>, limit: nat, res: seq<T>, up: bool)
    requires At(st, l, j, q, limit, res, up) && (if up then j == |l| else j == -1)
    ensures res == First(Hits(FlatE(st, l), q, up), limit)
  {
    assert l[..|l|] == l && l[0..] == l;
  }

  /** btree_t::scan_ascending and scan_decending: exactly the first `limit` wanted entries of the
      flattened tree, in scan order. */
  method ScanRange<T(!new)>(st: Store, root: Id, q: Query<T>, limit: nat, up: bool,
      ghost ls: Levels)
    returns (found: bool, res: seq<T>)
    requires Searchable(st, ls, root)
    ensures found == (limit > 0)
    ensures res == First(Hits(FlatE(st, ls[0]), q, up), limit)
  {
    res := [];
    if limit == 0 { return false, []; }
    found := true;
    ghost var l, j: int := ls[0], 0;
    var leaf;
    leaf, j := FindLeaf(st, root, if up then q.lo else q.hi, ls);
    var cur := Some(leaf);
    StartScan(st, ls, j, q, limit, up);
    while cur.Some?
      invariant At(st, l, j, q, limit, res, up) && cur == (if 0 <= j < |l| then Some(l[j]) else None)
      invariant if up then j >= 0 else j < |l|
      decreases if up then |l| - j else j + 1
    {
      assert LinkedAt(st, l, j);
      var stop;
      res, stop := VisitLeaf(st[cur.value].entries, q, limit, up, res, st, l, j);
      if stop { return; }
      cur := if up then st[cur.value].right else st[cur.value].left;
      j := if up then j + 1 else j - 1;
    }
    EndOfChain(st, l, j, q, limit, res, up);
  }
}
