/** block_t: a page of items kept sorted by index. */
module Block {
  import opened Multimap
  import opened Sequences
  import opened BlockSpec
  import opened Page
  import opened Compaction

  // ---------------------------------------------------------------- bytes

  /** memcpy of an item into the buffer. */
  function Overwritten(buf: seq<Byte>, dst: nat, item: Item): (r: seq<Byte>)
    requires dst + |item| <= |buf|
    ensures |r| == |buf| && r[..dst] == buf[..dst] && r[dst..dst + |item|] == item
      && r[dst + |item|..] == buf[dst + |item|..]
  {
    buf[..dst] + item + buf[dst + |item|..]
  }

  method CopyIn(a: array<Byte>, dst: nat, item: Item)
    requires dst + |item| <= a.Length
    modifies a
    ensures a[..] == Overwritten(old(a[..]), dst, item)
  {
    for i := 0 to |item|
      invariant forall n :: dst <= n < dst + i ==> a[n] == item[n - dst]
      invariant forall n :: 0 <= n < a.Length && !(dst <= n < dst + i) ==> a[n] == old(a[n])
    {
      a[dst + i] := item[i];
    }
  }

  lemma MovedIs(was: seq<Byte>, dst: nat, src: nat, n: nat, now: seq<Byte>)
    requires dst <= src && src + n <= |was| && |now| == |was|
    requires forall m :: 0 <= m < |now| ==> now[m] == was[if dst <= m < dst + n then m - dst + src else m]
    ensures now == Moved(was, dst, src, n)
  {
  }

  /** memmove to a lower address; the records start at `limit` and are never touched. */
  method MoveDown(a: array<Byte>, dst: nat, src: nat, n: nat, limit: nat)
    requires dst <= src && src + n <= limit <= a.Length
    modifies a
    ensures a[..] == Moved(old(a[..]), dst, src, n)
  {
    ghost var was := a[..];
    for i := 0 to n
      invariant forall m :: 0 <= m < a.Length ==> a[m] == was[if dst <= m < dst + i then m - dst + src else m]
    {
      a[dst + i] := a[src + i];
    }
    MovedIs(was, dst, src, n, a[..]);
  }

  // ---------------------------------------------------------------- searching the records

  ghost predicate SortedMetas(ms: seq<Meta>) {
    forall i, j :: 0 <= i < j < |ms| ==> ms[i].key >= ms[j].key
  }

  /** std::lower_bound: the first position from `from` on whose index is at most k, or below k. */
  method LowerBound(ms: seq<Meta>, k: Key, from: nat, below: bool) returns (r: nat)
    requires SortedMetas(ms) && from <= |ms|
    ensures from <= r <= |ms|
    ensures forall i :: from <= i < r ==> (if below then ms[i].key >= k else ms[i].key > k)
    ensures forall i :: r <= i < |ms| ==> (if below then ms[i].key < k else ms[i].key <= k)
  {
    r := from;
    var n := |ms| - from;
    while n > 0
      invariant from <= r && 0 <= n && r + n <= |ms|
      invariant forall i :: from <= i < r ==> (if below then ms[i].key >= k else ms[i].key > k)
      invariant forall i :: r + n <= i < |ms| ==> (if below then ms[i].key < k else ms[i].key <= k)
    {
      var half := n / 2;
      if (if below then ms[r + half].key >= k else ms[r + half].key > k) {
        r, n := r + half + 1, n - half - 1;
      } else {
        n := half;
      }
    }
  }

  /** find_index_range_. */
  method FindRange(ms: seq<Meta>, k: Key, ghost buf: seq<Byte>) returns (b: nat, e: nat)
    requires SortedMetas(ms)
    ensures IsRange(View(buf, ms), k, b, e)
  {
    b := LowerBound(ms, k, 0, false);
    e := LowerBound(ms, k, b, true);
  }

  /** The size and memcmp test. */
  method SameBytes(buf: array<Byte>, m: Meta, item: Item) returns (same: bool)
    requires 0 <= m.offset <= End(m) <= buf.Length
    ensures same == (Slice(buf[..], m) == item)
  {
    assert Slice(buf[..], m) == buf[m.offset..End(m)];
    same := m.size == |item| && buf[m.offset..End(m)] == item;
  }

  /** Whether one of the records b..e points at these bytes, and which. */
  method FindItem(buf: array<Byte>, ms: seq<Meta>, item: Item, b: nat, e: nat, ghost used: int) returns (found: bool,
      at: nat)
    requires b <= e <= |ms| && Placed(ms, used) && used <= buf.Length
    ensures found ==> b <= at < e && Slice(buf[..], ms[at]) == item
    ensures !found ==> forall i :: b <= i < e ==> Slice(buf[..], ms[i]) != item
  {
    at := b;
    while at < e
      invariant b <= at <= e && forall i :: b <= i < at ==> Slice(buf[..], ms[i]) != item
    {
      var same := SameBytes(buf, ms[at], item);
      if same { return true, at; }
      at := at + 1;
    }
    found := false;
  }

  /** An entry is there exactly when it is among the entries of its index. */
  lemma InRange(es: seq<Pair>, k: Key, item: Item, b: nat, e: nat)
    requires IsRange(es, k, b, e)
    ensures (k, item) in es <==> exists i :: b <= i < e && es[i].1 == item
  {
    if (k, item) in es {
      var i :| 0 <= i < |es| && es[i] == (k, item);
      assert b <= i < e && es[i].1 == item;
    }
    if i :| b <= i < e && es[i].1 == item { assert es[i] == (k, item); }
  }

  // ---------------------------------------------------------------- closing holes in place

  /** The moving loop of remove_range_. */
  method PackSpans(buf: array<Byte>, spans: seq<Span>, ms: seq<Meta>, limit: nat, ghost used: int, ghost at: seq<nat>)
    returns (moved: seq<Meta>, required: int)
    requires Ascending(spans) && Bounded(spans, used) && Homes(spans, ms, at) && used + HEADER <= limit <= buf.Length
    modifies buf
    ensures Packed(buf[..], old(buf[..]), spans, |spans| - 1) && AllFollowed(spans, ms, at, |spans| - 1, moved)
    ensures required == Holes(spans, |spans| - 1)
  {
    moved, required := ms, 0;
    var j := 0;
    ghost var orig := buf[..];
    SpansInside(spans, used);
    PackStart(orig, spans);
    FollowStart(spans, ms, at);
    while j + 1 < |spans|
      invariant 0 <= j < |spans| && required == Holes(spans, j)
      invariant Packed(buf[..], orig, spans, j) && AllFollowed(spans, ms, at, j, moved)
    {
      PackStep(buf[..], orig, spans, j);
      ghost var before := moved;
      var tracked := Last(spans[j]) - required;
      required := required + spans[j + 1].first - Last(spans[j]);
      MoveDown(buf, tracked, spans[j + 1].first, spans[j + 1].size, limit);
      moved := ShiftMetas(moved, spans[j + 1].first, Last(spans[j + 1]), required);
      FollowStep(spans, ms, at, j, before, moved);
      j := j + 1;
    }
  }

  lemma SpansInside(spans: seq<Span>, used: int)
    requires Ascending(spans) && Bounded(spans, used)
    ensures forall i :: 0 <= i < |spans| ==> HEADER <= spans[i].first && Last(spans[i]) <= used + HEADER
  {
    forall i | 0 <= i < |spans| ensures HEADER <= spans[i].first && Last(spans[i]) <= used + HEADER {
      if i > 0 { assert Last(spans[0]) < spans[i].first; }
      if i < |spans| - 1 { assert Last(spans[i]) < spans[|spans| - 1].first; }
    }
  }

  /** The records without positions b..e. */
  function CutMetas(ms: seq<Meta>, b: nat, e: nat): (r: seq<Meta>)
    requires b <= e <= |ms|
    ensures |r| == |ms| - (e - b)
  {
    ms[..b] + ms[e..]
  }

  lemma CutMetasApart(ms: seq<Meta>, used: int, b: nat, e: nat)
    requires Placed(ms, used) && Apart(ms) && b <= e <= |ms|
    ensures Placed(CutMetas(ms, b, e), used) && Apart(CutMetas(ms, b, e))
    ensures forall i, j :: 0 <= i < |CutMetas(ms, b, e)| && b <= j < e ==> Disjoint(CutMetas(ms, b, e)[i], ms[j])
  {
    var t := CutMetas(ms, b, e);
    assert forall i :: 0 <= i < |t| ==> t[i] == ms[if i < b then i else i + (e - b)];
  }

  lemma CutMetasView(buf: seq<Byte>, ms: seq<Meta>, b: nat, e: nat)
    requires b <= e <= |ms|
    ensures View(buf, CutMetas(ms, b, e)) == Cut(View(buf, ms), b, e)
  {
    ViewAdd(buf, ms[..b], ms[e..]);
    ViewCut(buf, ms, 0, b);
    ViewCut(buf, ms, e, |ms|);
  }

  lemma CutMetasSizes(ms: seq<Meta>, b: nat, e: nat)
    requires b <= e <= |ms|
    ensures Sizes(CutMetas(ms, b, e)) == Sizes(ms) - Sizes(ms[b..e])
  {
    var x, m, y := ms[..b], ms[b..e], ms[e..];
    InThree(ms, b, e);
    SizesThree(x, m, y);
    SizesAdd(x, y);
  }

  lemma {:induction false} SizesPositive(ms: seq<Meta>, used: int)
    requires Placed(ms, used)
    ensures Sizes(ms) >= 0
  {
    if ms != [] {
      assert forall i :: 0 <= i < |ms[1..]| ==> ms[1..][i] == ms[i + 1];
      SizesPositive(ms[1..], used);
    }
  }

  lemma CutHoused(spans: seq<Span>, ms: seq<Meta>, used: int, b: nat, e: nat)
    requires Carved(spans, ms, used, b, e, e) && Placed(ms, used)
    ensures forall i :: 0 <= i < |CutMetas(ms, b, e)| ==>
      Housed(spans, CutMetas(ms, b, e)[i]) && CutMetas(ms, b, e)[i].size > 0
  {
    var t := CutMetas(ms, b, e);
    assert forall i :: 0 <= i < |t| ==> t[i] == ms[if i < b then i else i + (e - b)];
  }

  /** remove_range_: the records b..e go; every other item keeps its bytes and index, the survivors tile
      the data area again, and the used bytes drop by exactly what was removed. */
  method RemoveRange(buf: array<Byte>, ms: seq<Meta>, used: int, b: nat, e: nat) returns (ms': seq<Meta>, used': int)
    requires Tiled(buf[..], ms, used) && b < e <= |ms| && used + RECORD * |ms| <= buf.Length
    modifies buf
    ensures Tiled(buf[..], ms', used') && used' == used - Sizes(ms[b..e])
    ensures View(buf[..], ms') == Cut(View(old(buf[..]), ms), b, e)
  {
    var spans := Carve(ms, used, b, e);
    var kept := CutMetas(ms, b, e);
    CutHoused(spans, ms, used, b, e);
    CutMetasApart(ms, used, b, e);
    CutMetasView(buf[..], ms, b, e);
    CutMetasSizes(ms, b, e);
    ghost var at := FindHomes(spans, kept);
    HolesTotal(spans, used);
    SizesPositive(kept, used);
    SizesPositive(ms[b..e], used);
    ghost var orig := buf[..];
    var required;
    ms', required := PackSpans(buf, spans, kept, buf.Length - RECORD * |kept|, used, at);
    used' := used - required;
    PackedTiled(orig, kept, buf[..], ms', spans, at, used, used');
  }

  lemma SortedView(buf: seq<Byte>, ms: seq<Meta>)
    requires Descending(View(buf, ms))
    ensures SortedMetas(ms)
  {
    var v := View(buf, ms);
    assert forall i :: 0 <= i < |ms| ==> v[i].0 == ms[i].key;
  }

  /** Dropping records b..e of a sound page, with the counters brought along. */
  lemma CutSound(buf: seq<Byte>, ms: seq<Meta>, used: int, available: int, count: int, uniques: int,
                 b: nat, e: nat, buf': seq<Byte>, ms': seq<Meta>, used': int)
    requires Sound(buf, ms, used, available, count, uniques) && b < e <= |ms| && |buf'| == |buf|
    requires Tiled(buf', ms', used') && View(buf', ms') == Cut(View(buf, ms), b, e)
    ensures Sound(buf', ms', used', |buf| - used' - RECORD * |ms'|, count - (e - b), Uniques(View(buf', ms')))
      && |ms'| == |ms| - (e - b)
  {
    CutBlk(Blk(|buf|, View(buf, ms)), b, e);
    assert Good(Blk(|buf'|, View(buf', ms')));
  }

  /** Sizes of the removed records, from the entries: what available_memory_ gains. */
  lemma CutAvailable(ms: seq<Meta>, used: int, available: int, full: int, b: nat, e: nat, used': int)
    requires b <= e <= |ms| && available == full - used - RECORD * |ms| && used' == used - Sizes(ms[b..e])
    ensures available + Sizes(ms[b..e]) + RECORD * (e - b) == full - used' - RECORD * (|ms| - (e - b))
  {
  }

  method SumSizes(ms: seq<Meta>, b: nat, e: nat) returns (r: int)
    requires b <= e <= |ms|
    ensures r == Sizes(ms[b..e])
  {
    r := 0;
    for i := b to e
      invariant r == Sizes(ms[b..i])
    {
      assert ms[b..i + 1] == ms[b..i] + [ms[i]];
      SizesAdd(ms[b..i], [ms[i]]);
      SizesOne(ms[i]);
      r := r + ms[i].size;
    }
  }

  /** append, on the fields. */
  method AppendTo(buf: array<Byte>, ms: seq<Meta>, used: int, available: int, count: int, uniques: int, k: Key,
      item: Item)
    returns (ok: bool, ms': seq<Meta>, used': int, available': int, count': int, uniques': int)
    requires Sound(buf[..], ms, used, available, count, uniques) && |item| > 0
    modifies buf
    ensures Sound(buf[..], ms', used', available', count', uniques')
    ensures ok == CanAppend(Blk(buf.Length, View(old(buf[..]), ms)), k, item)
    ensures Blk(buf.Length, View(buf[..], ms')) == BlockSpec.Append(Blk(buf.Length, View(old(buf[..]), ms)), k, item)
  {
    ghost var was := buf[..];
    ok, ms', used', available', count', uniques' := false, ms, used, available, count, uniques;
    AvailableIsRoom(was, ms, used);
    if |item| + RECORD > available { return; }
    SortedView(was, ms);
    var b, e := FindRange(ms, k, was);
    var found, at := FindItem(buf, ms, item, b, e, used);
    InRange(View(was, ms), k, item, b, e);
    if found {
      assert View(was, ms)[at].1 == item;
      return;
    }
    CopyIn(buf, used, item);
    AppendSound(was, ms, used, available, count, uniques, k, item, b, e, buf[..]);
    ok, ms', used' := true, InsertedMeta(ms, b, Meta(used, |item|, k)), used + |item|;
    available', count', uniques' := available - |item| - RECORD, count + 1, if b == e then uniques + 1 else uniques;
  }

  /** remove_range_ with the counters its callers adjust, on the fields. */
  method DropFrom(buf: array<Byte>, ms: seq<Meta>, used: int, available: int, count: int, uniques: int, b: nat,
      e: nat, indices: nat)
    returns (ms': seq<Meta>, used': int, available': int, count': int, uniques': int)
    requires Sound(buf[..], ms, used, available, count, uniques) && b < e <= |ms|
    requires Uniques(Cut(View(buf[..], ms), b, e)) == uniques - indices
    modifies buf
    ensures Sound(buf[..], ms', used', available', count', uniques')
    ensures View(buf[..], ms') == Cut(View(old(buf[..]), ms), b, e)
  {
    ghost var was := buf[..];
    AvailableIsRoom(was, ms, used);
    var gone := SumSizes(ms, b, e);
    ms', used' := RemoveRange(buf, ms, used, b, e);
    CutSound(was, ms, used, available, count, uniques, b, e, buf[..], ms', used');
    CutAvailable(ms, used, available, buf.Length, b, e, used');
    available', count', uniques' := available + gone + RECORD * (e - b), count - (e - b), uniques - indices;
  }

  // ---------------------------------------------------------------- removing one item

  /** The memmove and the record loop of remove, for the item of record i. */
  method RemoveAt(buf: array<Byte>, ms: seq<Meta>, used: int, available: int, i: nat) returns (ms': seq<Meta>,
      used': int, available': int)
    requires Tiled(buf[..], ms, used) && i < |ms| && available == buf.Length - used - RECORD * |ms|
    modifies buf
    ensures Tiled(buf[..], ms', used') && available' == buf.Length - used' - RECORD * |ms'|
    ensures View(buf[..], ms') == Cut(View(old(buf[..]), ms), i, i + 1)
  {
    var r, kept := ms[i], CutMetas(ms, i, i + 1);
    ghost var was := buf[..];
    CutMetasApart(ms, used, i, i + 1);
    CutMetasView(was, ms, i, i + 1);
    CutMetasSizes(ms, i, i + 1);
    assert ms[i..i + 1] == [r];
    SizesOne(r);
    MoveDown(buf, r.offset, End(r), used - End(r), used);
    MovedParts(was, r, used, buf[..]);
    ms' := LowerMetas(kept, r.offset, r.size);
    used', available' := used - r.size, available + r.size + RECORD;
    RemovedOne(was, kept, r, used, buf[..], ms');
  }

  /** Moving what lies above an item down over it. */
  lemma MovedParts(buf: seq<Byte>, r: Meta, used: nat, buf': seq<Byte>)
    requires 0 <= r.offset <= End(r) <= used <= |buf| && buf' == Moved(buf, r.offset, End(r), used - End(r))
    ensures |buf'| == |buf| && buf'[..r.offset] == buf[..r.offset]
    ensures buf'[r.offset..used - r.size] == buf[End(r)..used]
  {
  }

  method LowerMetas(ms: seq<Meta>, offset: int, size: int) returns (r: seq<Meta>)
    ensures |r| == |ms| && forall i :: 0 <= i < |ms| ==> r[i] == Lowered(ms[i], offset, size)
  {
    r := ms;
    for i := 0 to |ms|
      invariant |r| == |ms|
      invariant forall n :: 0 <= n < i ==> r[n] == Lowered(ms[n], offset, size)
      invariant forall n :: i <= n < |ms| ==> r[n] == ms[n]
    {
      if r[i].offset > offset { r := r[i := r[i].(offset := r[i].offset - size)]; }
    }
  }

  /** The state while remove goes through the records of the index: nothing found yet, or the item is out. */
  ghost predicate Removing(orig: seq<Pair>, now: seq<Pair>, k: Key, item: Item, b: nat, at: nat, e: nat, done: bool,
      pos: nat) {
    && b <= at <= e
    && (!done ==> now == orig && IsRange(orig, k, b, e) && forall i :: b <= i < at ==> orig[i].1 != item)
    && (done ==> pos < |orig| && orig[pos] == (k, item) && now == Cut(orig, pos, pos + 1) && b <= pos < e + 1
                 && IsRange(orig, k, b, e + 1) && forall i :: at <= i < e ==> now[i].1 != item)
  }

  lemma RemovingNext(orig: seq<Pair>, now: seq<Pair>, k: Key, item: Item, b: nat, at: nat, e: nat, done: bool, pos: nat)
    requires Removing(orig, now, k, item, b, at, e, done, pos) && at < e && e <= |now|
    requires now[at].1 != item
    ensures Removing(orig, now, k, item, b, at + 1, e, done, pos)
  {
  }

  lemma RemovingHit(orig: seq<Pair>, now: seq<Pair>, k: Key, item: Item, b: nat, at: nat, e: nat, done: bool, pos: nat)
    requires Removing(orig, now, k, item, b, at, e, done, pos) && at < e <= |now| && NoRepeat(orig)
    requires now[at].1 == item
    ensures !done && Removing(orig, Cut(now, at, at + 1), k, item, b, at, e - 1, true, at)
  {
    var t := Cut(orig, at, at + 1);
    assert forall i :: 0 <= i < |t| ==> t[i] == orig[if i < at then i else i + 1];
    assert forall i :: at <= i < e - 1 ==> t[i] == orig[i + 1] && orig[i + 1].0 == k;
  }

  /** The loop of remove over the records of the index. */
  method RemoveMatches(buf: array<Byte>, ms: seq<Meta>, used: int, available: int, k: Key, item: Item, b: nat, e: nat)
    returns (ms': seq<Meta>, used': int, available': int)
    requires Tiled(buf[..], ms, used) && NoRepeat(View(buf[..], ms)) && IsRange(View(buf[..], ms), k, b, e)
    requires available == buf.Length - used - RECORD * |ms|
    modifies buf
    ensures Tiled(buf[..], ms', used') && available' == buf.Length - used' - RECORD * |ms'|
    ensures Removed(View(old(buf[..]), ms), View(buf[..], ms'), k, item)
  {
    ms', used', available' := ms, used, available;
    var at, to := b, e;
    ghost var orig, done, pos := View(buf[..], ms), false, b;
    while at < to
      invariant Tiled(buf[..], ms', used') && available' == buf.Length - used' - RECORD * |ms'|
      invariant 0 <= at <= to <= |ms'| && 0 <= pos && to == (if done then e - 1 else e)
      invariant Removing(orig, View(buf[..], ms'), k, item, b, at, to, done, pos)
    {
      ms', used', available', at, to, done, pos := RemoveNext(buf, ms', used', available', k, item, b, at, to, orig,
          done, pos);
    }
    InRange(orig, k, item, b, e);
  }

  method TakeOut(buf: array<Byte>, ms: seq<Meta>, used: int, available: int, k: Key, item: Item, ghost b: nat,
      at: nat, ghost to: nat,
                 ghost orig: seq<Pair>, ghost done: bool, ghost pos: nat)
    returns (ms': seq<Meta>, used': int, available': int)
    requires Tiled(buf[..], ms, used) && available == buf.Length - used - RECORD * |ms| && at < to <= |ms|
      && NoRepeat(orig)
    requires Removing(orig, View(buf[..], ms), k, item, b, at, to, done, pos) && Slice(buf[..], ms[at]) == item
    modifies buf
    ensures Tiled(buf[..], ms', used') && available' == buf.Length - used' - RECORD * |ms'| && |ms'| == |ms| - 1
    ensures !done && Removing(orig, View(buf[..], ms'), k, item, b, at, to - 1, true, at)
  {
    RemovingHit(orig, View(buf[..], ms), k, item, b, at, to, done, pos);
    ghost var n := |View(buf[..], ms)|;
    ms', used', available' := RemoveAt(buf, ms, used, available, at);
    assert |View(buf[..], ms')| == n - 1;
  }

  /** One record looked at: taken out, or passed by. */
  method RemoveNext(buf: array<Byte>, ms: seq<Meta>, used: int, available: int, k: Key, item: Item, ghost b: nat,
      at: nat, to: nat,
                    ghost orig: seq<Pair>, ghost done: bool, ghost pos: nat)
    returns (ms': seq<Meta>, used': int, available': int, at': nat, to': nat, ghost done': bool, ghost pos': nat)
    requires Tiled(buf[..], ms, used) && available == buf.Length - used - RECORD * |ms| && at < to <= |ms|
      && NoRepeat(orig)
    requires Removing(orig, View(buf[..], ms), k, item, b, at, to, done, pos)
    modifies buf
    ensures Tiled(buf[..], ms', used') && available' == buf.Length - used' - RECORD * |ms'|
    ensures at' <= to' <= |ms'| && to' - at' < to - at && (if done' == done then to' == to else done' && to' == to - 1)
    ensures Removing(orig, View(buf[..], ms'), k, item, b, at', to', done', pos')
  {
    var same := SameBytes(buf, ms[at], item);
    if same {
      ms', used', available' := TakeOut(buf, ms, used, available, k, item, b, at, to, orig, done, pos);
      at', to', done', pos' := at, to - 1, true, at;
    } else {
      RemovingNext(orig, View(buf[..], ms), k, item, b, at, to, done, pos);
      ms', used', available', at', to', done', pos' := ms, used, available, at + 1, to, done, pos;
    }
  }

  /** What remove makes of the entries: one occurrence of the item goes, or nothing changes. */
  ghost predicate Removed(es: seq<Pair>, now: seq<Pair>, k: Key, item: Item) {
    && ((k, item) !in es ==> now == es)
    && ((k, item) in es ==> exists pos :: 0 <= pos < |es| && es[pos] == (k, item) && now == Cut(es, pos, pos + 1))
  }

  lemma RemovedHere(buf: seq<Byte>, ms: seq<Meta>, used: int, available: int, count: int, uniques: int, k: Key,
      b: nat, e: nat, pos: nat,
                    buf': seq<Byte>, ms': seq<Meta>, used': int, available': int)
    requires Sound(buf, ms, used, available, count, uniques) && IsRange(View(buf, ms), k, b, e) && b <= pos < e
      && |buf'| == |buf|
    requires Tiled(buf', ms', used') && available' == |buf'| - used' - RECORD * |ms'|
    requires View(buf', ms') == Cut(View(buf, ms), pos, pos + 1)
    ensures Sound(buf', ms', used', available', count - 1, if b + 1 == e then uniques - 1 else uniques)
  {
    CutSound(buf, ms, used, available, count, uniques, pos, pos + 1, buf', ms', used');
    CutOneUniques(View(buf, ms), k, b, e, pos);
  }

  /** The counters of remove fit exactly when the item was there. */
  lemma RemoveCounts(buf: seq<Byte>, ms: seq<Meta>, used: int, available: int, count: int, uniques: int, k: Key,
      item: Item, b: nat, e: nat,
                     buf': seq<Byte>, ms': seq<Meta>, used': int, available': int)
    requires Sound(buf, ms, used, available, count, uniques) && IsRange(View(buf, ms), k, b, e) && b < e
      && |buf'| == |buf|
    requires Tiled(buf', ms', used') && available' == |buf'| - used' - RECORD * |ms'|
    requires Removed(View(buf, ms), View(buf', ms'), k, item)
    ensures Sound(buf', ms', used', available', count - 1, if b + 1 == e then uniques - 1 else uniques) <==>
      (k, item) in View(buf, ms)
  {
    var es := View(buf, ms);
    if (k, item) in es {
      var pos :| 0 <= pos < |es| && es[pos] == (k, item) && View(buf', ms') == Cut(es, pos, pos + 1);
      RemovedHere(buf, ms, used, available, count, uniques, k, b, e, pos, buf', ms', used', available');
    } else {
      assert |ms'| == |View(buf', ms')| == |ms|;
    }
  }

  /** remove, on the fields. */
  method RemoveFrom(buf: array<Byte>, ms: seq<Meta>, used: int, available: int, count: int, uniques: int, k: Key,
      item: Item)
    returns (ok: bool, ms': seq<Meta>, used': int, available': int, count': int, uniques': int)
    requires Sound(buf[..], ms, used, available, count, uniques)
    modifies buf
    ensures ok <==> HasIndex(View(old(buf[..]), ms), k)
    ensures Sound(buf[..], ms', used', available', count', uniques') <==> (k, item) in View(old(buf[..]), ms) || !ok
    ensures Removed(View(old(buf[..]), ms), View(buf[..], ms'), k, item)
  {
    ghost var was := buf[..];
    ok, ms', used', available', count', uniques' := false, ms, used, available, count, uniques;
    SortedView(was, ms);
    var b, e := FindRange(ms, k, was);
    InRange(View(was, ms), k, item, b, e);
    if b == e { return; }
    assert View(was, ms)[b].0 == k;
    count', uniques' := count - 1, if b + 1 == e then uniques - 1 else uniques;
    ms', used', available' := RemoveMatches(buf, ms, used, available, k, item, b, e);
    RemoveCounts(was, ms, used, available, count, uniques, k, item, b, e, buf[..], ms', used', available');
    ok := true;
  }

  // ---------------------------------------------------------------- splitting

  /** std::unique on the moved indices. */
  method CountRuns(ks: seq<Key>) returns (r: nat)
    ensures r == Runs(ks)
  {
    if ks == [] { return 0; }
    r := 1;
    assert ks[..1] == [ks[0]];
    var i := 1;
    while i < |ks|
      invariant 1 <= i <= |ks| && r == Runs(ks[..i])
    {
      assert ks[..i + 1][..i] == ks[..i];
      if ks[i - 1] != ks[i] { r := r + 1; }
      i := i + 1;
    }
    assert ks[..|ks|] == ks;
  }

  lemma PartWeight(es: seq<Pair>, i: nat, n: nat)
    requires i <= n <= |es|
    ensures Weight(es[i..n]) <= Weight(es)
  {
    var x, m, y := es[..i], es[i..n], es[n..];
    InThree(es, i, n);
    WeightThree(x, m, y);
  }

  /** Moving entry j - 1 in front of entries j..n. */
  lemma MoveOne(b: Blk, j: nat, n: nat)
    requires Good(b) && 0 < j <= n <= |b.es|
    ensures var p, es := b.es[j - 1], b.es[j..n];
      && |p.1| > 0 && CanAppend(Blk(b.full, es), p.0, p.1) && Added(es, p.0, p.1) == b.es[j - 1..n] == [p] + es
  {
    var p, es := b.es[j - 1], b.es[j..n];
    assert b.es[j - 1..n] == [p] + es;
    PartWeight(b.es, j - 1, n);
    WeightAdd([p], es);
    WeightOne(p);
    assert forall i :: 0 <= i < |es| ==> es[i] == b.es[j + i];
    FrontPlace(es, p);
  }

  lemma FrontPlace(es: seq<Pair>, p: Pair)
    requires es != [] ==> es[0].0 <= p.0
    ensures Added(es, p.0, p.1) == [p] + es
  {
    assert es[..0] == [] && es[0..] == es;
  }

  /** The indices collected while entries j..n are moved, read from the last to the first. */
  ghost predicate Collected(es: seq<Pair>, j: nat, n: nat, moved: seq<Key>) {
    && j <= n <= |es| && |moved| == n - j && Runs(moved) == Uniques(es[j..n])
    && (j < n ==> moved[0] == es[n - 1].0 && moved[|moved| - 1] == es[j].0)
  }

  lemma CollectOne(es: seq<Pair>, j: nat, n: nat, moved: seq<Key>)
    requires Collected(es, j, n, moved) && j > 0
    ensures Collected(es, j - 1, n, moved + [es[j - 1].0])
  {
    assert es[j - 1..n] == [es[j - 1]] + es[j..n];
    assert j < n ==> es[j..n][0] == es[j];
    RunsMirror(es[j..n], moved, es[j - 1]);
  }

  /** The indices that leave with the first n entries. */
  lemma CollectedAll(es: seq<Pair>, n: nat, moved: seq<Key>)
    requires Collected(es, 0, n, moved) && 0 < n < |es|
    ensures Uniques(Cut(es, 0, n)) == Uniques(es) - (Runs(moved) - if es[n].0 == moved[0] then 1 else 0)
    ensures Runs(moved) >= 1
  {
    UniquesParts(es, n);
    SuffixCut(es, n);
    assert es[0..n] == es[..n] && es[..n][n - 1] == es[n - 1] && es[n..][0] == es[n];
    assert Uniques(es[..n]) >= 1 by { UniquesPositive(es[..n]); }
  }

  lemma {:induction false} UniquesPositive(es: seq<Pair>)
    requires es != []
    ensures Uniques(es) >= 1
  {
    if |es| > 1 { UniquesPositive(es[1..]); }
  }

  lemma SuffixCut(es: seq<Pair>, n: nat)
    requires n <= |es|
    ensures Cut(es, 0, n) == es[n..]
  {
  }

  /** How many indices leave: the moved ones, without the one that is cut in two. */
  method MovedIndices(moved: seq<Key>, next: Key, n: nat, ghost es: seq<Pair>) returns (indices: nat)
    requires 0 < n < |es| && next == es[n].0 && Collected(es, 0, n, moved)
    ensures Uniques(Cut(es, 0, n)) == Uniques(es) - indices
  {
    CollectedAll(es, n, moved);
    var runs := CountRuns(moved);
    indices := if next == moved[0] then runs - 1 else runs;
  }

  /** Where split_uniques is: i entries seen, i - 1 moved. */
  ghost predicate Counting(es: seq<Pair>, i: nat, c: nat, indices: nat, prev: Key) {
    && 0 < i <= |es| && prev == es[i - 1].0 && indices == Uniques(es[..i])
    && Uniques(es[..i - 1]) <= c && indices <= c + 1
  }

  lemma CountingStart(es: seq<Pair>, c: nat)
    requires es != [] && c > 0
    ensures Counting(es, 1, c, 1, es[0].0)
  {
    assert es[..1] == [es[0]] && [es[0]][1..] == [];
    assert es[..0] == [];
  }

  lemma CountingNext(es: seq<Pair>, i: nat, c: nat, indices: nat, prev: Key)
    requires Counting(es, i, c, indices, prev) && i < |es| && indices <= c
    ensures Counting(es, i + 1, c, if es[i].0 != prev then indices + 1 else indices, es[i].0)
  {
    UniquesNext(es, i);
  }

  lemma CountingDone(es: seq<Pair>, i: nat, c: nat, indices: nat, prev: Key)
    requires Counting(es, i, c, indices, prev) && (i == |es| || indices > c) && 0 < c < Uniques(es)
    ensures IndexBoundary(es, i - 1, c) && i > 1
  {
    if i == |es| { assert es[..i] == es; }
    UniquesCut(es, i, c);
    assert es[..0] == [];
  }

  /** The first j entries appended one after the other. */
  ghost function StackTo(es: seq<Pair>, j: nat): seq<Pair>
    requires j <= |es|
  {
    if j == 0 then [] else Added(StackTo(es, j - 1), es[j - 1].0, es[j - 1].1)
  }

  lemma {:induction false} StackToIs(es: seq<Pair>, j: nat)
    requires j <= |es|
    ensures StackTo(es, j) == Stack(es[..j])
  {
    if j > 0 {
      StackToIs(es, j - 1);
      assert es[..j][..j - 1] == es[..j - 1];
    }
  }

  /** The next entry of a good block fits behind those already stacked up. */
  lemma StackOne(b: Blk, j: nat)
    requires Good(b) && j < |b.es|
    ensures var p := b.es[j]; |p.1| > 0 && CanAppend(Blk(b.full, StackTo(b.es, j)), p.0, p.1)
  {
    var p, t := b.es[j], b.es[..j];
    StackToIs(b.es, j);
    StackContents(t);
    PrefixWeight(b.es, j);
    PrefixLacks(b.es, j);
    assert p !in multiset(t);
    assert p !in multiset(Stack(t));
  }

  lemma PrefixWeight(es: seq<Pair>, j: nat)
    requires j < |es|
    ensures Weight(es[..j]) + |es[j].1| + RECORD <= Weight(es)
  {
    assert es == es[..j] + [es[j]] + es[j + 1..];
    WeightThree(es[..j], [es[j]], es[j + 1..]);
    WeightOne(es[j]);
  }

  lemma PrefixLacks(es: seq<Pair>, j: nat)
    requires j < |es| && NoRepeat(es)
    ensures es[j] !in es[..j]
  {
    assert forall i :: 0 <= i < j ==> es[..j][i] == es[i];
  }

  /** Every entry carries the index its item has. */
  ghost predicate Keyed(es: seq<Pair>, keyOf: Item -> Key) {
    forall i :: 0 <= i < |es| ==> es[i].0 == keyOf(es[i].1)
  }

  /** The entries can be merged on top of a block: they fit, they are not below its own, and none is there already. */
  ghost predicate Joins(up: seq<Pair>, low: Blk) {
    && Weight(up) <= Room(low) && (forall p :: p in up ==> p !in low.es)
    && (up != [] ==> low.es != [] && up[|up| - 1].0 >= low.es[0].0)
  }

  /** Entries of an upper block in front of those of a lower one. */
  lemma JoinGood(up: Blk, low: Blk)
    requires Good(up) && Good(low) && Joins(up.es, low) && up.es != []
    ensures Good(Blk(low.full, up.es + low.es))
  {
    WeightAdd(up.es, low.es);
    JoinDescending(up.es, low.es);
    JoinDistinct(up.es, low.es);
  }

  lemma JoinDescending(x: seq<Pair>, y: seq<Pair>)
    requires Descending(x) && Descending(y) && x != [] && y != [] && x[|x| - 1].0 >= y[0].0
    ensures Descending(x + y)
  {
    var z := x + y;
    assert forall i :: 0 <= i < |x| ==> x[i].0 >= x[|x| - 1].0;
    assert forall j :: 0 <= j < |y| ==> y[0].0 >= y[j].0;
    assert forall i :: 0 <= i < |z| ==> z[i] == if i < |x| then x[i] else y[i - |x|];
  }

  lemma JoinDistinct(x: seq<Pair>, y: seq<Pair>)
    requires NoRepeat(x) && NoRepeat(y) && NonEmptyItems(x) && NonEmptyItems(y) && (forall p :: p in x ==> p !in y)
    ensures NoRepeat(x + y) && NonEmptyItems(x + y)
  {
    var z := x + y;
    assert forall i :: 0 <= i < |z| ==> z[i] == if i < |x| then x[i] else y[i - |x|];
    assert forall i :: 0 <= i < |x| ==> x[i] in x;
    assert forall i :: 0 <= i < |y| ==> y[i] in y;
  }

  method RaiseMetas(ms: seq<Meta>, d: int) returns (r: seq<Meta>)
    ensures |r| == |ms| && forall i :: 0 <= i < |ms| ==> r[i] == Raised(ms[i], d)
  {
    r := ms;
    var i := |ms|;
    while i > 0
      invariant 0 <= i <= |ms| == |r|
      invariant forall n :: i <= n < |ms| ==> r[n] == Raised(ms[n], d)
      invariant forall n :: 0 <= n < i ==> r[n] == ms[n]
    {
      i := i - 1;
      r := r[i := r[i].(offset := r[i].offset + d)];
    }
  }

  /** The upper branch of merge, on the fields of the two blocks. */
  method MergeFrom(buf: array<Byte>, ms: seq<Meta>, used: int, available: int, count: int, uniques: int,
                   obuf: array<Byte>, os: seq<Meta>, oused: int, oavailable: int, ocount: int, ouniques: int)
    returns (ms': seq<Meta>, used': int, available': int, count': int, uniques': int)
    requires Sound(buf[..], ms, used, available, count, uniques)
      && Sound(obuf[..], os, oused, oavailable, ocount, ouniques) && buf != obuf
    requires Joins(View(obuf[..], os), Blk(buf.Length, View(buf[..], ms)))
    modifies buf
    ensures Sound(buf[..], ms', used', available', count', uniques')
    ensures View(buf[..], ms') == View(obuf[..], os) + View(old(buf[..]), ms)
  {
    ghost var was, up, low := buf[..], View(obuf[..], os), View(buf[..], ms);
    if ocount == 0 {
      assert [] + low == low;
      return ms, used, available, count, uniques;
    }
    AvailableIsRoom(was, ms, used);
    AvailableIsRoom(obuf[..], os, oused);
    JoinGood(Blk(obuf.Length, up), Blk(buf.Length, low));
    UniquesAdd(up, low);
    var bytes := obuf[HEADER..oused];
    assert obuf[..][HEADER..oused] == bytes;
    CopyIn(buf, used, bytes);
    var raised := RaiseMetas(os, used - HEADER);
    MergedTiled(was, ms, used, obuf[..], os, oused, buf[..], raised);
    ms', used', available' := raised + ms, used + oused - HEADER, available - (oused - HEADER) - RECORD * |os|;
    count', uniques' := count + ocount, uniques + ouniques - if os[|os| - 1].key == ms[0].key then 1 else 0;
  }

  lemma EmptySlice(es: seq<Pair>, n: nat)
    requires n <= |es|
    ensures es[n..n] == [] && es[0..n] == es[..n]
  {
  }

  class Block {
    var buf: array<Byte>
    var metas: seq<Meta>
    var used: int
    var available: int
    var count: int
    var uniques: int

    ghost predicate Valid()
      reads this, buf
    {
      Sound(buf[..], metas, used, available, count, uniques)
    }

    /** The block apart from its layout. */
    ghost function Abs(): Blk
      reads this, buf
    {
      Blk(buf.Length, View(buf[..], metas))
    }

    /** initialize. */
    constructor (full: nat)
      requires full >= HEADER
      ensures Valid() && Abs() == Blk(full, []) && fresh(buf)
    {
      buf := new Byte[full];
      metas, used, available, count, uniques := [], HEADER, full - HEADER, 0, 0;
    }

    /** append: refused exactly when there is no room or the very same item is there already. */
    method Append(k: Key, item: Item) returns (ok: bool)
      requires Valid() && |item| > 0
      modifies this, buf
      ensures Valid() && buf == old(buf)
      ensures ok == CanAppend(old(Abs()), k, item) && Abs() == BlockSpec.Append(old(Abs()), k, item)
    {
      ok, metas, used, available, count, uniques := AppendTo(buf, metas, used, available, count, uniques, k, item);
    }

    /** contains and contains_index. */
    method Contains(k: Key, item: Item) returns (index: bool, here: bool)
      requires Valid()
      ensures here <==> (k, item) in Abs().es
      ensures index <==> HasIndex(Abs().es, k)
    {
      SortedView(buf[..], metas);
      var b, e := FindRange(metas, k, buf[..]);
      var at;
      here, at := FindItem(buf, metas, item, b, e, used);
      InRange(View(buf[..], metas), k, item, b, e);
      if here { assert View(buf[..], metas)[at].1 == item; }
      index := b < e;
      assert b < e ==> View(buf[..], metas)[b].0 == k;
    }

    /** remove_index: exactly the entries of the index go. */
    method RemoveIndex(k: Key) returns (ok: bool, ghost b: nat, ghost e: nat)
      requires Valid()
      modifies this, buf
      ensures Valid() && buf == old(buf) && IsRange(old(Abs()).es, k, b, e) && ok == (b < e)
      ensures Abs() == Blk(old(Abs()).full, Cut(old(Abs()).es, b, e))
    {
      SortedView(buf[..], metas);
      var from, to := FindRange(metas, k, buf[..]);
      b, e := from, to;
      if from == to { return false, b, e; }
      CutRangeUniques(View(buf[..], metas), k, b, e);
      DropRange(from, to, 1);
      ok := true;
    }

    /** remove: takes out exactly the item. The counters drop before the search, so the block is left
        valid exactly when the item was there or its index was not. */
    method Remove(k: Key, item: Item) returns (ok: bool)
      requires Valid()
      modifies this, buf
      ensures buf == old(buf) && (ok <==> HasIndex(old(Abs()).es, k))
      ensures Valid() <==> (k, item) in old(Abs()).es || !ok
      ensures Abs().full == old(Abs()).full && Removed(old(Abs()).es, Abs().es, k, item)
    {
      ok, metas, used, available, count, uniques := RemoveFrom(buf, metas, used, available, count, uniques, k, item);
    }

    /** split: the n entries with the largest indices move to a new block of the same size, both in order. */
    method Split(n: nat) returns (other: Block)
      requires Valid() && n <= count
      modifies this, buf
      ensures fresh(other) && Valid() && other.Valid() && other.buf != buf
      ensures (fresh(buf) || buf == old(buf)) && (fresh(other.buf) || other.buf == old(buf))
      ensures other.Abs() == Blk(old(Abs()).full, old(Abs()).es[..n])
        && Abs() == Blk(old(Abs()).full, old(Abs()).es[n..])
    {
      ghost var a := Abs();
      assert a.es[0..] == a.es;
      other := new Block(buf.Length);
      if n == 0 {
        return;
      }
      if n == count {
        Swap(other);
        return;
      }
      MoveTo(other, n);
    }

    /** Exchanges two blocks by exchanging their pointers. */
    method Swap(other: Block)
      requires Valid() && other.Valid() && other != this
      modifies this, other
      ensures Valid() && other.Valid() && buf == old(other.buf) && other.buf == old(buf)
      ensures Abs() == old(other.Abs()) && other.Abs() == old(Abs())
    {
      buf, other.buf := other.buf, buf;
      metas, other.metas := other.metas, metas;
      used, other.used := other.used, used;
      available, other.available := other.available, available;
      count, other.count, uniques, other.uniques := other.count, count, other.uniques, uniques;
    }

    /** The moving part of split. */
    method MoveTo(other: Block, n: nat)
      requires Valid() && other.Valid() && other != this && other.buf != buf && 0 < n < count
      requires other.Abs() == Blk(buf.Length, [])
      modifies this, buf, other, other.buf
      ensures Valid() && other.Valid() && buf == old(buf) && other.buf == old(other.buf)
      ensures other.Abs() == Blk(old(Abs()).full, old(Abs()).es[..n])
        && Abs() == Blk(old(Abs()).full, old(Abs()).es[n..])
    {
      SuffixCut(Abs().es, n);
      var indices := CopyTo(other, n);
      DropRange(0, n, indices);
    }

    /** remove_range_ with the counters its callers adjust. */
    method DropRange(b: nat, e: nat, indices: nat)
      requires Valid() && b < e <= |metas| && Uniques(Cut(Abs().es, b, e)) == uniques - indices
      modifies this, buf
      ensures Valid() && buf == old(buf) && Abs() == Blk(old(Abs()).full, Cut(old(Abs()).es, b, e))
    {
      metas, used, available, count, uniques := DropFrom(buf, metas, used, available, count, uniques, b, e, indices);
    }

    /** The copying loop of split. */
    method CopyTo(other: Block, n: nat) returns (indices: nat)
      requires Valid() && other.Valid() && other != this && other.buf != buf && 0 < n < count
      requires other.Abs() == Blk(buf.Length, [])
      modifies other, other.buf
      ensures other.Valid() && other.buf == old(other.buf) && other.Abs() == Blk(Abs().full, Abs().es[..n])
      ensures Uniques(Cut(Abs().es, 0, n)) == uniques - indices
    {
      ghost var a := Abs();
      var moved := [];
      EmptySlice(a.es, n);
      var j := n;
      while j > 0
        invariant 0 <= j <= n && other.Valid() && other.buf == old(other.buf)
        invariant other.Abs() == Blk(a.full, a.es[j..n]) && Collected(a.es, j, n, moved)
      {
        MoveOne(a, j, n);
        CollectOne(a.es, j, n, moved);
        var m := metas[j - 1];
        assert Slice(buf[..], m) == buf[m.offset..End(m)];
        var ok := other.Append(m.key, buf[m.offset..End(m)]);
        moved := moved + [m.key];
        j := j - 1;
      }
      indices := MovedIndices(moved, metas[n].key, n, a.es);
    }

    /** split_uniques: the entries of the c largest indices move to a new block, no index is cut in two,
        and the entries of a moved index come out in reverse. */
    method SplitUniques(c: nat, keyOf: Item -> Key) returns (other: Block, ghost n: nat)
      requires Valid() && c <= uniques && Keyed(Abs().es, keyOf)
      modifies this, buf
      ensures fresh(other) && Valid() && other.Valid() && other.buf != buf
      ensures (fresh(buf) || buf == old(buf)) && (fresh(other.buf) || other.buf == old(buf))
      ensures IndexBoundary(old(Abs()).es, n, c)
      ensures Abs() == Blk(old(Abs()).full, old(Abs()).es[n..]) && other.Abs().full == old(Abs()).full
      ensures other.Abs().es == if n == |old(Abs()).es| then old(Abs()).es else Stack(old(Abs()).es[..n])
    {
      ghost var a := Abs();
      assert a.es[0..] == a.es && a.es[..|a.es|] == a.es;
      other := new Block(buf.Length);
      if c == 0 {
        n := 0;
        return;
      }
      if c == uniques {
        n := |a.es|;
        Swap(other);
        return;
      }
      n := MoveUniques(other, c, keyOf);
    }

    method MoveUniques(other: Block, c: nat, keyOf: Item -> Key) returns (ghost n: nat)
      requires Valid() && other.Valid() && other != this && other.buf != buf && 0 < c < uniques
        && Keyed(Abs().es, keyOf)
      requires other.Abs() == Blk(buf.Length, [])
      modifies this, buf, other, other.buf
      ensures Valid() && other.Valid() && buf == old(buf) && other.buf == old(other.buf)
      ensures n < |old(Abs()).es| && IndexBoundary(old(Abs()).es, n, c)
      ensures Abs() == Blk(old(Abs()).full, old(Abs()).es[n..])
        && other.Abs() == Blk(old(Abs()).full, Stack(old(Abs()).es[..n]))
    {
      var split := CopyUniques(other, c, keyOf, Abs().es);
      SuffixCut(Abs().es, split);
      StackToIs(Abs().es, split);
      n := split;
      DropRange(0, split, c);
    }

    /** The copying loop of split_uniques: it looks one entry ahead for a change of index. */
    method CopyUniques(other: Block, c: nat, keyOf: Item -> Key, ghost es: seq<Pair>) returns (split: nat)
      requires Valid() && other.Valid() && other != this && other.buf != buf && es == Abs().es && Keyed(es, keyOf)
        && 0 < c < Uniques(es)
      requires other.Abs() == Blk(buf.Length, [])
      modifies other, other.buf
      ensures other.Valid() && other.buf == old(other.buf)
      ensures 0 < split < |es| && IndexBoundary(es, split, c) && other.Abs() == Blk(buf.Length, StackTo(es, split))
    {
      var i, indices, prev := 1, 1, metas[0].key;
      CountingStart(es, c);
      while i < |metas| && indices <= c
        invariant 1 <= i <= |es| && 0 <= indices && Counting(es, i, c, indices, prev)
        invariant other.Valid() && other.buf == old(other.buf) && other.Abs() == Blk(buf.Length, StackTo(es, i - 1))
      {
        indices, prev := CopyStep(other, i, c, indices, prev, keyOf, es);
        i := i + 1;
      }
      CountingDone(es, i, c, indices, prev);
      split := i - 1;
    }

    method CopyStep(other: Block, i: nat, c: nat, indices: nat, prev: Key, keyOf: Item -> Key,
        ghost es: seq<Pair>)
      returns (indices': nat, prev': Key)
      requires Valid() && other.Valid() && other != this && other.buf != buf && i < |metas| && es == Abs().es
        && Keyed(es, keyOf)
      requires Counting(es, i, c, indices, prev) && indices <= c && other.Abs() == Blk(buf.Length, StackTo(es, i - 1))
      modifies other, other.buf
      ensures other.Valid() && other.buf == old(other.buf) && other.Abs() == Blk(buf.Length, StackTo(es, i))
      ensures Counting(es, i + 1, c, indices', prev')
    {
      CountingNext(es, i, c, indices, prev);
      indices', prev' := if metas[i].key != prev then indices + 1 else indices, metas[i].key;
      CopyRecord(other, i - 1, keyOf);
    }

    method CopyRecord(other: Block, j: nat, keyOf: Item -> Key)
      requires Valid() && other.Valid() && other != this && other.buf != buf && j < |metas| && Keyed(Abs().es, keyOf)
      requires other.Abs() == Blk(Abs().full, StackTo(Abs().es, j))
      modifies other, other.buf
      ensures other.Valid() && other.buf == old(other.buf) && other.Abs() == Blk(Abs().full, StackTo(Abs().es, j + 1))
    {
      StackOne(Abs(), j);
      var m := metas[j];
      assert Slice(buf[..], m) == buf[m.offset..End(m)];
      var item := buf[m.offset..End(m)];
      assert Abs().es[j] == (m.key, item);
      var ok := other.Append(keyOf(item), item);
    }

    /** merge of an upper block: its entries go in front, both counters stay exact. */
    method MergeUpper(other: Block)
      requires Valid() && other.Valid() && other != this && other.buf != buf
      requires Joins(other.Abs().es, Abs())
      modifies this, buf
      ensures Valid() && buf == old(buf) && Abs() == Blk(old(Abs()).full, other.Abs().es + old(Abs()).es)
    {
      metas, used, available, count, uniques :=
        MergeFrom(buf, metas, used, available, count, uniques,
                  other.buf, other.metas, other.used, other.available, other.count, other.uniques);
    }

    /** restore_block: what is not stored is recomputed from the records. */
    method Restore()
      requires exists u, a :: Sound(buf[..], metas, u, a, count, uniques)
      modifies this`used, this`available
      ensures Valid() && forall u, a :: Sound(buf[..], metas, u, a, count, uniques) ==> used == u && available == a
    {
      used := HEADER;
      assert metas[..0] == [];
      for i := 0 to |metas|
        invariant used == HEADER + Sizes(metas[..i])
      {
        assert metas[..i + 1] == metas[..i] + [metas[i]];
        SizesAdd(metas[..i], [metas[i]]);
        SizesOne(metas[i]);
        used := used + metas[i].size;
      }
      assert metas[..|metas|] == metas;
      available := buf.Length - RECORD * |metas| - used;
    }

    /** Splitting off some of the entries and merging them back restores the block. */
    method SplitAndMerge(n: nat)
      requires Valid() && 0 < n < count
      modifies this, buf
      ensures Valid() && Abs() == old(Abs()) && count == old(count) && uniques == old(uniques)
    {
      ghost var a := Abs();
      SplitParts(a, n);
      var other := Split(n);
      MergeBack(other, a, n);
    }

    method MergeBack(other: Block, ghost a: Blk, ghost n: nat)
      requires Valid() && other.Valid() && other != this && other.buf != buf && 0 < n < |a.es|
        && Joins(a.es[..n], Blk(a.full, a.es[n..]))
      requires a.es[..n] + a.es[n..] == a.es && other.Abs().es == a.es[..n] && Abs() == Blk(a.full, a.es[n..])
      modifies this, buf
      ensures Valid() && Abs() == a
    {
      MergeUpper(other);
    }
  }

  /** The smallest case of an index that is there with another item: success is reported, the item that is there stays,
      and the counters say that there is nothing. */
  method RemoveMisses(k: Key, a: Item, b: Item) returns (block: Block, ok: bool)
    requires 0 < |a| <= DEFAULT_SIZE - HEADER - RECORD && a != b
    ensures ok && block.Abs().es == [(k, a)] && !block.Valid()
  {
    block := new Block(DEFAULT_SIZE);
    var stored := block.Append(k, a);
    OnlyEntry(k, a);
    ok := block.Remove(k, b);
  }

  lemma OnlyEntry(k: Key, a: Item)
    requires 0 < |a| <= DEFAULT_SIZE - HEADER - RECORD
    ensures CanAppend(Blk(DEFAULT_SIZE, []), k, a) && BlockSpec.Append(Blk(DEFAULT_SIZE, []), k, a).es == [(k, a)]
    ensures HasIndex([(k, a)], k)
  {
    var es: seq<Pair> := [(k, a)];
    assert es[0].0 == k;
  }

  /** The two sides of a split can be merged. */
  lemma SplitParts(a: Blk, n: nat)
    requires Good(a) && 0 < n < |a.es|
    ensures a.es[..n] + a.es[n..] == a.es && Joins(a.es[..n], Blk(a.full, a.es[n..]))
  {
    WeightParts(a.es, n);
    assert forall i :: 0 <= i < n ==> a.es[..n][i] == a.es[i];
    assert forall i :: 0 <= i < |a.es| - n ==> a.es[n..][i] == a.es[n + i];
  }
}
