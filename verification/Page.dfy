/** The layout of a block: item bytes packed upward from the header, one record per item packed
    downward from the end. Records are listed from the lowest address up, so largest index first. */
module Page {
  import opened Multimap
  import opened BlockSpec
  import opened Intervals

  datatype Meta = Meta(offset: int, size: int, key: Key)

  function End(m: Meta): int { m.offset + m.size }

  /** The bytes a record points at. */
  function Slice(buf: seq<Byte>, m: Meta): Item {
    if 0 <= m.offset <= End(m) <= |buf| then buf[m.offset..End(m)] else []
  }

  /** The entries the records describe, in the order of the records. */
  function View(buf: seq<Byte>, ms: seq<Meta>): (r: seq<Pair>)
    ensures |r| == |ms| && forall i :: 0 <= i < |ms| ==> r[i] == (ms[i].key, Slice(buf, ms[i]))
  {
    if ms == [] then [] else [(ms[0].key, Slice(buf, ms[0]))] + View(buf, ms[1..])
  }

  function Sizes(ms: seq<Meta>): int {
    if ms == [] then 0 else ms[0].size + Sizes(ms[1..])
  }

  ghost predicate Placed(ms: seq<Meta>, used: int) {
    forall i :: 0 <= i < |ms| ==> ms[i].size > 0 && HEADER <= ms[i].offset && End(ms[i]) <= used
  }

  predicate Disjoint(m: Meta, n: Meta) { End(m) <= n.offset || End(n) <= m.offset }

  ghost predicate Apart(ms: seq<Meta>) {
    forall i, j :: 0 <= i < j < |ms| ==> Disjoint(ms[i], ms[j])
  }

  /** Items are disjoint and leave no hole between the header and `used`. */
  ghost predicate Tiled(buf: seq<Byte>, ms: seq<Meta>, used: int) {
    HEADER <= used <= |buf| && Placed(ms, used) && Apart(ms) && Sizes(ms) == used - HEADER
  }

  /** The invariant of block_t on the values of its fields. */
  ghost predicate Sound(buf: seq<Byte>, ms: seq<Meta>, used: int, available: int, count: int, uniques: int) {
    && Tiled(buf, ms, used)
    && Good(Blk(|buf|, View(buf, ms)))
    && available == |buf| - used - RECORD * |ms|
    && count == |ms| && uniques == Uniques(View(buf, ms))
  }

  // ---------------------------------------------------------------- lists of records

  lemma {:induction false} SizesAdd(a: seq<Meta>, b: seq<Meta>)
    ensures Sizes(a + b) == Sizes(a) + Sizes(b)
  {
    if a == [] {
      assert a + b == b;
    } else {
      assert (a + b)[1..] == a[1..] + b;
      SizesAdd(a[1..], b);
    }
  }

  lemma SizesThree(a: seq<Meta>, m: seq<Meta>, b: seq<Meta>)
    ensures Sizes(a + m + b) == Sizes(a) + Sizes(m) + Sizes(b)
  {
    SizesAdd(a + m, b);
    SizesAdd(a, m);
  }

  lemma SizesOne(m: Meta)
    ensures Sizes([m]) == m.size
  {
    assert [m][1..] == [];
  }

  lemma {:induction false} SizesSame(a: seq<Meta>, b: seq<Meta>)
    requires |a| == |b| && forall i :: 0 <= i < |a| ==> a[i].size == b[i].size
    ensures Sizes(a) == Sizes(b)
  {
    if a != [] {
      assert forall i :: 0 <= i < |a[1..]| ==> a[1..][i] == a[i + 1] && b[1..][i] == b[i + 1];
      SizesSame(a[1..], b[1..]);
    }
  }

  /** Same indices and bytes, record by record: the same entries. */
  lemma ViewSame(buf: seq<Byte>, ms: seq<Meta>, buf': seq<Byte>, ms': seq<Meta>)
    requires |ms| == |ms'| && forall i :: 0 <= i < |ms| ==>
      ms[i].key == ms'[i].key && Slice(buf, ms[i]) == Slice(buf', ms'[i])
    ensures View(buf, ms) == View(buf', ms')
  {
  }

  lemma ViewCut(buf: seq<Byte>, ms: seq<Meta>, b: nat, e: nat)
    requires b <= e <= |ms|
    ensures View(buf, ms[b..e]) == View(buf, ms)[b..e]
  {
    assert forall i :: 0 <= i < e - b ==> ms[b..e][i] == ms[b + i];
  }

  lemma ViewAdd(buf: seq<Byte>, a: seq<Meta>, b: seq<Meta>)
    ensures View(buf, a + b) == View(buf, a) + View(buf, b)
  {
    assert forall i :: 0 <= i < |a| ==> (a + b)[i] == a[i];
    assert forall i :: 0 <= i < |b| ==> (a + b)[|a| + i] == b[i];
  }

  /** The bytes and records the entries weigh are those the page spends on them. */
  lemma {:induction false} WeightView(buf: seq<Byte>, ms: seq<Meta>, used: int)
    requires Placed(ms, used) && used <= |buf|
    ensures Weight(View(buf, ms)) == Sizes(ms) + RECORD * |ms|
  {
    if ms != [] {
      var t := ms[1..];
      assert forall i :: 0 <= i < |t| ==> t[i] == ms[i + 1];
      WeightView(buf, t, used);
      assert View(buf, ms)[1..] == View(buf, t);
    }
  }

  /** available_memory_ is the room the entries leave. */
  lemma AvailableIsRoom(buf: seq<Byte>, ms: seq<Meta>, used: int)
    requires Tiled(buf, ms, used)
    ensures Room(Blk(|buf|, View(buf, ms))) == |buf| - used - RECORD * |ms|
  {
    WeightView(buf, ms, used);
  }

  // ---------------------------------------------------------------- no byte is lost

  predicate Owns(m: Meta, a: int) { m.offset <= a < End(m) }

  ghost function Union(ms: seq<Meta>): set<int> {
    if ms == [] then {} else (if ms[0].size > 0 then Addresses(ms[0].offset, End(ms[0])) else {}) + Union(ms[1..])
  }

  lemma {:induction false} InUnion(ms: seq<Meta>, a: int)
    ensures a in Union(ms) <==> exists i :: 0 <= i < |ms| && Owns(ms[i], a)
  {
    if ms != [] {
      var t := ms[1..];
      InUnion(t, a);
      if a in Union(t) {
        var i :| 0 <= i < |t| && Owns(t[i], a);
        assert ms[i + 1] == t[i];
      }
      if i :| 0 <= i < |ms| && Owns(ms[i], a) {
        if i > 0 { assert t[i - 1] == ms[i]; }
      }
    }
  }

  lemma {:induction false} UnionSize(ms: seq<Meta>, used: int)
    requires Placed(ms, used) && Apart(ms)
    ensures |Union(ms)| == Sizes(ms) && forall a :: a in Union(ms) ==> HEADER <= a < used
  {
    if ms != [] {
      var t := ms[1..];
      assert forall i :: 0 <= i < |t| ==> t[i] == ms[i + 1];
      UnionSize(t, used);
      forall a | Owns(ms[0], a) ensures a !in Union(t) { InUnion(t, a); }
      assert Addresses(ms[0].offset, End(ms[0])) !! Union(t);
    }
  }

  /** Every address of the data area belongs to an item. */
  lemma EveryByteOwned(buf: seq<Byte>, ms: seq<Meta>, used: int, a: int)
    requires Tiled(buf, ms, used) && HEADER <= a < used
    ensures exists i :: 0 <= i < |ms| && Owns(ms[i], a)
  {
    UnionSize(ms, used);
    SubsetFull(Union(ms), Addresses(HEADER, used));
    InUnion(ms, a);
  }

  /** And to no second one. */
  lemma OwnedOnce(ms: seq<Meta>, a: int, i: nat, j: nat)
    requires Apart(ms) && i < |ms| && j < |ms| && Owns(ms[i], a) && Owns(ms[j], a)
    ensures i == j
  {
  }

  // ---------------------------------------------------------------- append

  function InsertedMeta(ms: seq<Meta>, b: nat, m: Meta): seq<Meta>
    requires b <= |ms|
  {
    ms[..b] + [m] + ms[b..]
  }

  lemma InsertSizes(ms: seq<Meta>, b: nat, m: Meta)
    requires b <= |ms|
    ensures Sizes(InsertedMeta(ms, b, m)) == Sizes(ms) + m.size
  {
    assert ms == ms[..b] + ms[b..];
    SizesAdd(ms[..b], ms[b..]);
    SizesThree(ms[..b], [m], ms[b..]);
    SizesOne(m);
  }

  lemma InsertTiled(buf: seq<Byte>, ms: seq<Meta>, used: int, b: nat, m: Meta, buf': seq<Byte>)
    requires Tiled(buf, ms, used) && b <= |ms| && m.offset == used && m.size > 0 && End(m) <= |buf'|
    ensures Tiled(buf', InsertedMeta(ms, b, m), End(m))
  {
    var t := InsertedMeta(ms, b, m);
    assert forall i :: 0 <= i < |t| && i != b ==> t[i] == ms[if i < b then i else i - 1];
    assert t[b] == m;
    InsertSizes(ms, b, m);
  }

  lemma InsertView(buf: seq<Byte>, ms: seq<Meta>, used: int, b: nat, m: Meta, buf': seq<Byte>, item: Item)
    requires Tiled(buf, ms, used) && b <= |ms| && m.offset == used && End(m) <= |buf'| == |buf| && m.size == |item|
    requires buf'[..used] == buf[..used] && buf'[used..End(m)] == item
    ensures View(buf', InsertedMeta(ms, b, m)) == Inserted(View(buf, ms), b, (m.key, item))
  {
    var t, v := InsertedMeta(ms, b, m), View(buf, ms);
    var w := Inserted(v, b, (m.key, item));
    forall i | 0 <= i < |t| ensures (t[i].key, Slice(buf', t[i])) == w[i] {
      if i != b {
        var j := if i < b then i else i - 1;
        assert t[i] == ms[j] && w[i] == v[j];
        SliceKept(buf, buf', used, ms[j]);
      }
    }
  }

  lemma SliceKept(buf: seq<Byte>, buf': seq<Byte>, n: int, m: Meta)
    requires 0 <= n <= |buf| && n <= |buf'| && buf'[..n] == buf[..n] && 0 <= m.offset <= End(m) <= n
    ensures Slice(buf', m) == Slice(buf, m)
  {
    assert buf[m.offset..End(m)] == buf[..n][m.offset..End(m)];
    assert buf'[m.offset..End(m)] == buf'[..n][m.offset..End(m)];
  }

  /** block_t::append on the page. */
  lemma AppendSound(buf: seq<Byte>, ms: seq<Meta>, used: int, available: int, count: int, uniques: int,
                    k: Key, item: Item, b: nat, e: nat, buf': seq<Byte>)
    requires Sound(buf, ms, used, available, count, uniques) && IsRange(View(buf, ms), k, b, e) && |item| > 0
    requires CanAppend(Blk(|buf|, View(buf, ms)), k, item)
    requires |buf'| == |buf| && used + |item| <= |buf| && buf'[..used] == buf[..used]
      && buf'[used..used + |item|] == item
    ensures Sound(buf', InsertedMeta(ms, b, Meta(used, |item|, k)), used + |item|, available - |item| - RECORD,
                  count + 1, if b == e then uniques + 1 else uniques)
    ensures View(buf', InsertedMeta(ms, b, Meta(used, |item|, k))) == Added(View(buf, ms), k, item)
  {
    var m, v := Meta(used, |item|, k), View(buf, ms);
    InsertTiled(buf, ms, used, b, m, buf');
    InsertView(buf, ms, used, b, m, buf', item);
    AddedBlk(Blk(|buf|, v), k, item, b, e);
  }

  // ---------------------------------------------------------------- removing one item

  lemma SubSlice(s: seq<Byte>, lo: int, hi: int, a: int, b: int)
    requires 0 <= lo <= a <= b <= hi <= |s|
    ensures s[a..b] == s[lo..hi][a - lo..b - lo]
  {
    var x, y := s[a..b], s[lo..hi][a - lo..b - lo];
    forall i | 0 <= i < b - a ensures x[i] == y[i] { assert x[i] == s[a + i] && y[i] == s[lo..hi][a - lo + i]; }
  }

  /** Two stretches with the same bytes have the same bytes inside. */
  lemma SameInside(s: seq<Byte>, lo: int, t: seq<Byte>, low: int, n: int, d: int, k: int)
    requires 0 <= lo && lo + n <= |s| && 0 <= low && low + n <= |t| && 0 <= d <= d + k <= n
      && s[lo..lo + n] == t[low..low + n]
    ensures s[lo + d..lo + d + k] == t[low + d..low + d + k]
  {
    SubSlice(s, lo, lo + n, lo + d, lo + d + k);
    SubSlice(t, low, low + n, low + d, low + d + k);
  }

  /** A record behind the removed bytes moves down. */
  function Lowered(m: Meta, offset: int, size: int): Meta {
    if m.offset > offset then m.(offset := m.offset - size) else m
  }

  lemma LoweredSlice(buf: seq<Byte>, buf': seq<Byte>, r: Meta, m: Meta, used: int)
    requires 0 <= r.offset && r.size > 0 && m.size > 0 && 0 <= m.offset && End(m) <= used
      && End(r) <= used <= |buf| == |buf'| && Disjoint(m, r)
    requires buf'[..r.offset] == buf[..r.offset] && buf'[r.offset..used - r.size] == buf[End(r)..used]
    ensures Slice(buf', Lowered(m, r.offset, r.size)) == Slice(buf, m)
  {
    if m.offset > r.offset {
      SameInside(buf', r.offset, buf, End(r), used - End(r), m.offset - End(r), m.size);
    } else {
      SliceKept(buf, buf', r.offset, m);
    }
  }

  /** The bytes of one item taken out and its record dropped: the rest tiles and is unchanged. */
  lemma RemovedOne(buf: seq<Byte>, kept: seq<Meta>, r: Meta, used: int, buf': seq<Byte>, ms': seq<Meta>)
    requires Placed(kept, used) && Apart(kept) && Sizes(kept) == used - r.size - HEADER && used <= |buf| == |buf'|
    requires HEADER <= r.offset && r.size > 0 && End(r) <= used && forall i :: 0 <= i < |kept| ==> Disjoint(kept[i], r)
    requires buf'[..r.offset] == buf[..r.offset] && buf'[r.offset..used - r.size] == buf[End(r)..used]
    requires |ms'| == |kept| && forall i :: 0 <= i < |kept| ==> ms'[i] == Lowered(kept[i], r.offset, r.size)
    ensures Tiled(buf', ms', used - r.size) && View(buf', ms') == View(buf, kept)
  {
    LoweredApart(kept, r, used, ms');
    LoweredView(buf, kept, r, used, buf', ms');
    SizesSame(kept, ms');
  }

  lemma LoweredView(buf: seq<Byte>, kept: seq<Meta>, r: Meta, used: int, buf': seq<Byte>, ms': seq<Meta>)
    requires Placed(kept, used) && used <= |buf| == |buf'|
    requires HEADER <= r.offset && r.size > 0 && End(r) <= used && forall i :: 0 <= i < |kept| ==> Disjoint(kept[i], r)
    requires buf'[..r.offset] == buf[..r.offset] && buf'[r.offset..used - r.size] == buf[End(r)..used]
    requires |ms'| == |kept| && forall i :: 0 <= i < |kept| ==> ms'[i] == Lowered(kept[i], r.offset, r.size)
    ensures View(buf', ms') == View(buf, kept)
  {
    forall i | 0 <= i < |kept| ensures Slice(buf', ms'[i]) == Slice(buf, kept[i]) {
      LoweredSlice(buf, buf', r, kept[i], used);
    }
    ViewSame(buf, kept, buf', ms');
  }

  lemma LoweredApart(kept: seq<Meta>, r: Meta, used: int, ms': seq<Meta>)
    requires Placed(kept, used) && Apart(kept) && HEADER <= r.offset && r.size > 0 && End(r) <= used
    requires forall i :: 0 <= i < |kept| ==> Disjoint(kept[i], r)
    requires |ms'| == |kept| && forall i :: 0 <= i < |kept| ==> ms'[i] == Lowered(kept[i], r.offset, r.size)
    ensures Placed(ms', used - r.size) && Apart(ms')
  {
    forall i | 0 <= i < |ms'| ensures ms'[i].size > 0 && HEADER <= ms'[i].offset && End(ms'[i]) <= used - r.size {
      assert Disjoint(kept[i], r);
    }
    forall i, j | 0 <= i < j < |ms'| ensures Disjoint(ms'[i], ms'[j]) {
      assert Disjoint(kept[i], kept[j]) && Disjoint(kept[i], r) && Disjoint(kept[j], r);
    }
  }

  // ---------------------------------------------------------------- putting another page's items behind

  function Raised(m: Meta, d: int): Meta { m.(offset := m.offset + d) }

  /** The items of an upper page copied behind those of a lower one, their records in front. */
  lemma MergedTiled(buf: seq<Byte>, ms: seq<Meta>, used: int, obuf: seq<Byte>, os: seq<Meta>, oused: int,
      buf': seq<Byte>, rs: seq<Meta>)
    requires Tiled(buf, ms, used) && Tiled(obuf, os, oused) && used + oused - HEADER <= |buf'| == |buf|
    requires buf'[..used] == buf[..used] && buf'[used..used + oused - HEADER] == obuf[HEADER..oused]
    requires |rs| == |os| && forall i :: 0 <= i < |os| ==> rs[i] == Raised(os[i], used - HEADER)
    ensures Tiled(buf', rs + ms, used + oused - HEADER) && View(buf', rs + ms) == View(obuf, os) + View(buf, ms)
  {
    SizesAdd(rs, ms);
    SizesSame(os, rs);
    RaisedApart(ms, used, os, oused, rs);
    RaisedView(used, obuf, os, oused, buf', rs);
    KeptView(buf, ms, used, buf');
    ViewAdd(buf', rs, ms);
  }

  lemma RaisedApart(ms: seq<Meta>, used: int, os: seq<Meta>, oused: int, rs: seq<Meta>)
    requires Placed(ms, used) && Apart(ms) && Placed(os, oused) && Apart(os) && HEADER <= used && HEADER <= oused
    requires |rs| == |os| && forall i :: 0 <= i < |os| ==> rs[i] == Raised(os[i], used - HEADER)
    ensures Placed(rs + ms, used + oused - HEADER) && Apart(rs + ms)
  {
    var t := rs + ms;
    forall i | 0 <= i < |t| ensures t[i].size > 0 && HEADER <= t[i].offset && End(t[i]) <= used + oused - HEADER {
      assert t[i] == if i < |rs| then rs[i] else ms[i - |rs|];
    }
    forall i, j | 0 <= i < j < |t| ensures Disjoint(t[i], t[j]) {
      assert t[i] == if i < |rs| then rs[i] else ms[i - |rs|];
      assert t[j] == if j < |rs| then rs[j] else ms[j - |rs|];
      if j < |rs| { assert Disjoint(os[i], os[j]); }
    }
  }

  lemma RaisedView(used: int, obuf: seq<Byte>, os: seq<Meta>, oused: int, buf': seq<Byte>, rs: seq<Meta>)
    requires Placed(os, oused) && oused <= |obuf| && HEADER <= used && HEADER <= oused
      && used + oused - HEADER <= |buf'|
    requires buf'[used..used + oused - HEADER] == obuf[HEADER..oused]
    requires |rs| == |os| && forall i :: 0 <= i < |os| ==> rs[i] == Raised(os[i], used - HEADER)
    ensures View(buf', rs) == View(obuf, os)
  {
    forall i | 0 <= i < |os| ensures Slice(buf', rs[i]) == Slice(obuf, os[i]) {
      RaisedSlice(used, obuf, os[i], oused, buf');
    }
    ViewSame(obuf, os, buf', rs);
  }

  lemma RaisedSlice(used: int, obuf: seq<Byte>, m: Meta, oused: int, buf': seq<Byte>)
    requires m.size > 0 && HEADER <= m.offset && End(m) <= oused <= |obuf| && HEADER <= used
      && used + oused - HEADER <= |buf'|
    requires buf'[used..used + oused - HEADER] == obuf[HEADER..oused]
    ensures Slice(buf', Raised(m, used - HEADER)) == Slice(obuf, m)
  {
    SameInside(buf', used, obuf, HEADER, oused - HEADER, m.offset - HEADER, m.size);
  }

  lemma KeptView(buf: seq<Byte>, ms: seq<Meta>, used: int, buf': seq<Byte>)
    requires Placed(ms, used) && 0 <= used <= |buf| && used <= |buf'| && buf'[..used] == buf[..used]
    ensures View(buf', ms) == View(buf, ms)
  {
    forall i | 0 <= i < |ms| ensures Slice(buf', ms[i]) == Slice(buf, ms[i]) { SliceKept(buf, buf', used, ms[i]); }
    ViewSame(buf, ms, buf', ms);
  }
}
