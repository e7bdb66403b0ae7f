/** remove_range_: takes the bytes of several items out of the data area and closes the holes. */
module Compaction {
  import opened Multimap
  import opened BlockSpec
  import opened Page
  import opened Sequences

  /** A stretch of the data area that stays. */
  datatype Span = Span(first: int, size: int)

  function Last(s: Span): int { s.first + s.size }

  function SpanTotal(spans: seq<Span>): int {
    if spans == [] then 0 else spans[0].size + SpanTotal(spans[1..])
  }

  /** In address order, with a hole between any two. */
  ghost predicate Ascending(spans: seq<Span>) {
    && (forall i :: 0 <= i < |spans| ==> spans[i].size >= 0)
    && (forall i, j :: 0 <= i < j < |spans| ==> Last(spans[i]) < spans[j].first)
  }

  predicate Contains(s: Span, m: Meta) { s.first <= m.offset && End(m) <= Last(s) }

  ghost predicate Housed(spans: seq<Span>, m: Meta) {
    exists j :: 0 <= j < |spans| && Contains(spans[j], m)
  }

  /** The spans run from the header to one header beyond the used bytes, so the last one is never used up. */
  ghost predicate Bounded(spans: seq<Span>, used: int) {
    && spans != [] && spans[0].first == HEADER
    && Last(spans[|spans| - 1]) == used + HEADER && spans[|spans| - 1].first <= used
  }

  lemma {:induction false} SpanTotalAdd(a: seq<Span>, b: seq<Span>)
    ensures SpanTotal(a + b) == SpanTotal(a) + SpanTotal(b)
  {
    if a == [] {
      assert a + b == b;
    } else {
      assert (a + b)[1..] == a[1..] + b;
      SpanTotalAdd(a[1..], b);
    }
  }

  lemma SpanTotalThree(a: seq<Span>, m: seq<Span>, b: seq<Span>)
    ensures SpanTotal(a + m + b) == SpanTotal(a) + SpanTotal(m) + SpanTotal(b)
  {
    SpanTotalAdd(a + m, b);
    SpanTotalAdd(a, m);
  }

  // ---------------------------------------------------------------- cutting one item out

  function Left(s: Span, m: Meta): Span { Span(s.first, m.offset - s.first) }

  function Right(s: Span, m: Meta): Span { Span(End(m), Last(s) - End(m)) }

  /** The part of a span left and right of an item; an empty right part is dropped. */
  function Pieces(s: Span, m: Meta): seq<Span> {
    if Right(s, m).size != 0 then [Left(s, m), Right(s, m)] else [Left(s, m)]
  }

  function SplitSpan(spans: seq<Span>, p: nat, m: Meta): seq<Span>
    requires p < |spans|
  {
    spans[..p] + Pieces(spans[p], m) + spans[p + 1..]
  }

  lemma SplitAscending(spans: seq<Span>, p: nat, m: Meta)
    requires Ascending(spans) && p < |spans| && Contains(spans[p], m) && m.size > 0
    ensures Ascending(SplitSpan(spans, p, m))
  {
    var t, d := SplitSpan(spans, p, m), |Pieces(spans[p], m)|;
    assert t[p] == Left(spans[p], m) && (d == 2 ==> t[p + 1] == Right(spans[p], m));
    assert forall i :: 0 <= i < p ==> t[i] == spans[i];
    assert forall i :: p + d <= i < |t| ==> t[i] == spans[i - d + 1];
  }

  lemma SpanTotalOne(s: Span)
    ensures SpanTotal([s]) == s.size
  {
    assert [s][1..] == [];
  }

  lemma PiecesTotal(s: Span, m: Meta)
    ensures SpanTotal(Pieces(s, m)) == s.size - m.size
  {
    var x, y := Left(s, m), Right(s, m);
    SpanTotalOne(x);
    SpanTotalOne(y);
    assert [x, y] == [x] + [y];
    SpanTotalAdd([x], [y]);
  }

  lemma SplitTotal(spans: seq<Span>, p: nat, m: Meta)
    requires p < |spans|
    ensures SpanTotal(SplitSpan(spans, p, m)) == SpanTotal(spans) - m.size
  {
    var x, s, y := spans[..p], spans[p], spans[p + 1..];
    Around(spans, p);
    SpanTotalOne(s);
    SpanTotalThree(x, [s], y);
    SpanTotalThree(x, Pieces(s, m), y);
    PiecesTotal(s, m);
  }

  lemma SplitBounded(spans: seq<Span>, p: nat, m: Meta, used: int)
    requires Bounded(spans, used) && p < |spans| && Contains(spans[p], m) && End(m) <= used
    ensures Bounded(SplitSpan(spans, p, m), used)
  {
    var t, d := SplitSpan(spans, p, m), |Pieces(spans[p], m)|;
    assert t[p] == Left(spans[p], m) && (d == 2 ==> t[p + 1] == Right(spans[p], m));
    assert forall i :: 0 <= i < p ==> t[i] == spans[i];
    assert forall i :: p + d <= i < |t| ==> t[i] == spans[i - d + 1];
  }

  /** The items that stay are still inside some span. */
  lemma SplitHoused(spans: seq<Span>, p: nat, r: Meta, m: Meta)
    requires p < |spans| && Contains(spans[p], r) && Housed(spans, m) && Disjoint(m, r) && m.size > 0
    ensures Housed(SplitSpan(spans, p, r), m)
  {
    var t, d := SplitSpan(spans, p, r), |Pieces(spans[p], r)|;
    assert t[p] == Left(spans[p], r) && (d == 2 ==> t[p + 1] == Right(spans[p], r));
    var j :| 0 <= j < |spans| && Contains(spans[j], m);
    if j < p {
      assert t[j] == spans[j];
    } else if j > p {
      assert t[j + d - 1] == spans[j];
    } else if End(m) <= r.offset {
      assert Contains(t[p], m);
    } else {
      assert Contains(t[p + 1], m);
    }
  }

  /** The span found by address is the one that holds the item. */
  lemma FoundSpan(spans: seq<Span>, p: nat, m: Meta)
    requires Ascending(spans) && p < |spans| && Housed(spans, m) && m.size > 0
    requires spans[p].first <= m.offset && (p + 1 < |spans| ==> spans[p + 1].first > m.offset)
    ensures Contains(spans[p], m)
  {
    var j :| 0 <= j < |spans| && Contains(spans[j], m);
  }

  /** What is true of the spans after the first items of the range are cut out. */
  ghost predicate Carved(spans: seq<Span>, ms: seq<Meta>, used: int, b: nat, t: nat, e: nat) {
    && Ascending(spans) && Bounded(spans, used) && b <= t <= e <= |ms|
    && SpanTotal(spans) == used - Sizes(ms[b..t])
    && (forall i :: 0 <= i < b || t <= i < |ms| ==> Housed(spans, ms[i]))
  }

  lemma CarveStart(ms: seq<Meta>, used: int, b: nat, e: nat)
    requires Placed(ms, used) && b <= e <= |ms| && HEADER <= used
    ensures Carved([Span(HEADER, used)], ms, used, b, b, e)
  {
    var s := [Span(HEADER, used)];
    assert s[1..] == [];
    forall i | 0 <= i < |ms| ensures Housed(s, ms[i]) { assert Contains(s[0], ms[i]); }
  }

  lemma CarveStep(spans: seq<Span>, p: nat, ms: seq<Meta>, used: int, b: nat, t: nat, e: nat)
    requires Carved(spans, ms, used, b, t, e) && t < e && Placed(ms, used) && Apart(ms)
    requires p < |spans| && Contains(spans[p], ms[t])
    ensures Carved(SplitSpan(spans, p, ms[t]), ms, used, b, t + 1, e)
  {
    var r := ms[t];
    SplitAscending(spans, p, r);
    SplitBounded(spans, p, r, used);
    SplitTotal(spans, p, r);
    assert ms[b..t + 1] == ms[b..t] + [r];
    SizesAdd(ms[b..t], [r]);
    SizesOne(r);
    forall i | 0 <= i < b || t + 1 <= i < |ms| ensures Housed(SplitSpan(spans, p, r), ms[i]) {
      assert Disjoint(ms[i], r);
      SplitHoused(spans, p, r, ms[i]);
    }
  }

  lemma FirstLow(spans: seq<Span>, m: Meta)
    requires Ascending(spans) && Housed(spans, m)
    ensures spans[0].first <= m.offset
  {
    var j :| 0 <= j < |spans| && Contains(spans[j], m);
    assert 0 < j ==> Last(spans[0]) < spans[j].first;
  }

  /** The first span that starts behind the offset, less one. */
  method FindSpan(spans: seq<Span>, m: Meta) returns (p: nat)
    requires Ascending(spans) && Housed(spans, m) && m.size > 0
    ensures p < |spans| && Contains(spans[p], m)
  {
    var g := 0;
    while g < |spans| && spans[g].first <= m.offset
      invariant 0 <= g <= |spans| && (g > 0 ==> spans[g - 1].first <= m.offset)
    {
      g := g + 1;
    }
    FirstLow(spans, m);
    p := g - 1;
    FoundSpan(spans, p, m);
  }

  /** The first loop of remove_range_, and the joining loop after it, which finds nothing to join. */
  method Carve(ms: seq<Meta>, used: int, b: nat, e: nat) returns (spans: seq<Span>)
    requires Placed(ms, used) && Apart(ms) && b <= e <= |ms| && HEADER <= used
    ensures Carved(spans, ms, used, b, e, e)
  {
    spans := [Span(HEADER, used)];
    CarveStart(ms, used, b, e);
    for t := b to e
      invariant Carved(spans, ms, used, b, t, e)
    {
      var p := FindSpan(spans, ms[t]);
      CarveStep(spans, p, ms, used, b, t, e);
      spans := SplitSpan(spans, p, ms[t]);
    }
    spans := JoinSpans(spans);
  }

  method JoinSpans(spans0: seq<Span>) returns (spans: seq<Span>)
    ensures Ascending(spans0) ==> spans == spans0
  {
    spans := spans0;
    var i := 0;
    while i + 1 < |spans|
      invariant 0 <= i && (Ascending(spans0) ==> spans == spans0)
      decreases |spans| - i
    {
      if Last(spans[i]) == spans[i + 1].first {
        spans := spans[..i] + [Span(spans[i].first, spans[i].size + spans[i + 1].size)] + spans[i + 2..];
      } else {
        i := i + 1;
      }
    }
  }

  // ---------------------------------------------------------------- closing the holes

  /** The holes in front of span j. */
  ghost function Holes(spans: seq<Span>, j: nat): int
    requires j < |spans|
  {
    if j == 0 then 0 else Holes(spans, j - 1) + spans[j].first - Last(spans[j - 1])
  }

  /** Where span j ends up. */
  ghost function Target(spans: seq<Span>, j: nat): int
    requires j < |spans|
  {
    spans[j].first - Holes(spans, j)
  }

  lemma TargetNext(spans: seq<Span>, j: nat)
    requires j + 1 < |spans|
    ensures Target(spans, j + 1) == Last(spans[j]) - Holes(spans, j) == Target(spans, j) + spans[j].size
  {
  }

  lemma {:induction false} HolesGrow(spans: seq<Span>, i: nat, j: nat)
    requires Ascending(spans) && i <= j < |spans|
    ensures 0 <= Holes(spans, i) <= Holes(spans, j)
    ensures i < j ==> Target(spans, i) + spans[i].size <= Target(spans, j)
    decreases j
  {
    if i < j {
      HolesGrow(spans, i, j - 1);
      assert Last(spans[j - 1]) < spans[j].first;
      TargetNext(spans, j - 1);
    } else if j > 0 {
      HolesGrow(spans, i - 1, j - 1);
      assert Last(spans[j - 1]) < spans[j].first;
    }
  }

  lemma {:induction false} TargetSum(spans: seq<Span>, j: nat)
    requires j < |spans|
    ensures Target(spans, j) == spans[0].first + SpanTotal(spans[..j])
  {
    if j > 0 {
      TargetSum(spans, j - 1);
      TargetNext(spans, j - 1);
      assert spans[..j] == spans[..j - 1] + [spans[j - 1]];
      SpanTotalAdd(spans[..j - 1], [spans[j - 1]]);
      assert [spans[j - 1]][1..] == [];
    } else {
      assert spans[..0] == [];
    }
  }

  /** All the holes together are what was cut out. */
  lemma HolesTotal(spans: seq<Span>, used: int)
    requires Bounded(spans, used)
    ensures Holes(spans, |spans| - 1) == used - SpanTotal(spans)
  {
    var n := |spans| - 1;
    TargetSum(spans, n);
    assert spans == spans[..n] + [spans[n]];
    SpanTotalAdd(spans[..n], [spans[n]]);
    assert [spans[n]][1..] == [];
  }

  /** memmove to a lower address. */
  function Moved(buf: seq<Byte>, dst: nat, src: nat, n: nat): (r: seq<Byte>)
    requires dst <= src && src + n <= |buf|
    ensures |r| == |buf|
  {
    buf[..dst] + buf[src..src + n] + buf[dst + n..]
  }

  /** Span i of the original is at its target. */
  ghost predicate Copied(cur: seq<Byte>, orig: seq<Byte>, s: Span, target: int) {
    && 0 <= target && target + s.size <= |cur| && 0 <= s.first && s.size >= 0 && Last(s) <= |orig|
    && cur[target..target + s.size] == orig[s.first..Last(s)]
  }

  /** The spans up to j are in place and everything behind span j is as it was. */
  ghost predicate Packed(cur: seq<Byte>, orig: seq<Byte>, spans: seq<Span>, j: nat) {
    && j < |spans| && |cur| == |orig| && 0 <= Last(spans[j]) <= |orig|
    && (forall i :: 0 <= i <= j ==> Copied(cur, orig, spans[i], Target(spans, i)))
    && cur[Last(spans[j])..] == orig[Last(spans[j])..]
  }

  lemma PackStart(orig: seq<Byte>, spans: seq<Span>)
    requires spans != [] && 0 <= spans[0].first && spans[0].size >= 0 && Last(spans[0]) <= |orig|
    ensures Packed(orig, orig, spans, 0)
  {
  }

  lemma CopiedKept(cur: seq<Byte>, orig: seq<Byte>, s: Span, target: int, dst: nat, src: nat, n: nat)
    requires Copied(cur, orig, s, target) && target + s.size <= dst <= src && src + n <= |cur|
    ensures Copied(Moved(cur, dst, src, n), orig, s, target)
  {
    var m := Moved(cur, dst, src, n);
    assert m[target..target + s.size] == cur[target..target + s.size];
  }

  lemma CopiedNew(cur: seq<Byte>, orig: seq<Byte>, low: nat, s: Span, dst: nat)
    requires |cur| == |orig| && low <= s.first && s.size >= 0 && Last(s) <= |orig| && dst <= s.first
    requires cur[low..] == orig[low..]
    ensures Copied(Moved(cur, dst, s.first, s.size), orig, s, dst)
    ensures Moved(cur, dst, s.first, s.size)[Last(s)..] == orig[Last(s)..]
  {
    var m := Moved(cur, dst, s.first, s.size);
    assert forall a :: low <= a < |orig| ==> cur[a] == orig[a] by {
      forall a | low <= a < |orig| ensures cur[a] == orig[a] { assert cur[low..][a - low] == orig[low..][a - low]; }
    }
    assert m[dst..dst + s.size] == cur[s.first..Last(s)];
    assert cur[s.first..Last(s)] == orig[s.first..Last(s)];
    assert m[Last(s)..] == cur[Last(s)..] == orig[Last(s)..];
  }

  /** One memmove brings the next span into place and disturbs none that is. */
  lemma PackStep(cur: seq<Byte>, orig: seq<Byte>, spans: seq<Span>, j: nat)
    requires Packed(cur, orig, spans, j) && Ascending(spans) && j + 1 < |spans| && Last(spans[j + 1]) <= |orig|
      && HEADER <= spans[0].first
    ensures 0 <= Target(spans, j + 1) <= spans[j + 1].first
    ensures Packed(Moved(cur, Target(spans, j + 1), spans[j + 1].first, spans[j + 1].size), orig, spans, j + 1)
  {
    var s, dst := spans[j + 1], Target(spans, j + 1);
    HolesGrow(spans, 0, j + 1);
    TargetLow(spans, j + 1);
    assert Last(spans[j]) < s.first;
    CopiedNew(cur, orig, Last(spans[j]), s, dst);
    forall i | 0 <= i <= j ensures Copied(Moved(cur, dst, s.first, s.size), orig, spans[i], Target(spans, i)) {
      HolesGrow(spans, i, j + 1);
      CopiedKept(cur, orig, spans[i], Target(spans, i), dst, s.first, s.size);
    }
  }

  lemma TargetLow(spans: seq<Span>, j: nat)
    requires Ascending(spans) && j < |spans|
    ensures Target(spans, j) >= spans[0].first
  {
    HolesGrow(spans, 0, j);
  }

  // ---------------------------------------------------------------- the records follow their bytes

  /** The span each surviving item is in. */
  ghost predicate Homes(spans: seq<Span>, ms: seq<Meta>, at: seq<nat>) {
    |at| == |ms| && forall i :: 0 <= i < |ms| ==> at[i] < |spans| && Contains(spans[at[i]], ms[i]) && ms[i].size > 0
  }

  lemma {:induction false} FindHomes(spans: seq<Span>, ms: seq<Meta>) returns (at: seq<nat>)
    requires forall i :: 0 <= i < |ms| ==> Housed(spans, ms[i]) && ms[i].size > 0
    ensures Homes(spans, ms, at)
  {
    at := [];
    while |at| < |ms|
      invariant |at| <= |ms|
      invariant forall i :: 0 <= i < |at| ==> at[i] < |spans| && Contains(spans[at[i]], ms[i])
    {
      assert Housed(spans, ms[|at|]);
      var j: nat :| 0 <= j < |spans| && Contains(spans[j], ms[|at|]);
      at := at + [j];
    }
  }

  /** The record after the spans up to j have been moved. */
  ghost function Followed(spans: seq<Span>, m: Meta, home: nat, j: nat): Meta
    requires home < |spans|
  {
    if home <= j then m.(offset := m.offset - Holes(spans, home)) else m
  }

  ghost predicate AllFollowed(spans: seq<Span>, ms: seq<Meta>, at: seq<nat>, j: nat, cur: seq<Meta>)
    requires Homes(spans, ms, at)
  {
    |cur| == |ms| && forall i :: 0 <= i < |ms| ==> cur[i] == Followed(spans, ms[i], at[i], j)
  }

  /** The records inside a stretch of addresses, moved down. */
  function ShiftOne(m: Meta, lo: int, hi: int, d: int): Meta {
    if lo <= m.offset < hi then m.(offset := m.offset - d) else m
  }

  method ShiftMetas(ms: seq<Meta>, lo: int, hi: int, d: int) returns (r: seq<Meta>)
    ensures |r| == |ms| && forall i :: 0 <= i < |ms| ==> r[i] == ShiftOne(ms[i], lo, hi, d)
  {
    r := ms;
    for i := 0 to |ms|
      invariant |r| == |ms|
      invariant forall n :: 0 <= n < i ==> r[n] == ShiftOne(ms[n], lo, hi, d)
      invariant forall n :: i <= n < |ms| ==> r[n] == ms[n]
    {
      if lo <= r[i].offset < hi { r := r[i := r[i].(offset := r[i].offset - d)]; }
    }
  }

  /** Each record is moved exactly when its span is. */
  lemma FollowOne(spans: seq<Span>, m: Meta, home: nat, j: nat)
    requires Ascending(spans) && home < |spans| && j + 1 < |spans| && Contains(spans[home], m) && m.size > 0
    ensures ShiftOne(Followed(spans, m, home, j), spans[j + 1].first, Last(spans[j + 1]), Holes(spans, j + 1))
         == Followed(spans, m, home, j + 1)
  {
    if home <= j {
      HolesGrow(spans, 0, home);
      assert Last(spans[home]) < spans[j + 1].first;
    } else if home > j + 1 {
      assert Last(spans[j + 1]) < spans[home].first;
    }
  }

  lemma FollowStep(spans: seq<Span>, ms: seq<Meta>, at: seq<nat>, j: nat, cur: seq<Meta>, next: seq<Meta>)
    requires Ascending(spans) && Homes(spans, ms, at) && j + 1 < |spans| && AllFollowed(spans, ms, at, j, cur)
    requires |next| == |cur|
    requires forall i :: 0 <= i < |cur| ==>
      next[i] == ShiftOne(cur[i], spans[j + 1].first, Last(spans[j + 1]), Holes(spans, j + 1))
    ensures AllFollowed(spans, ms, at, j + 1, next)
  {
    forall i | 0 <= i < |ms| ensures next[i] == Followed(spans, ms[i], at[i], j + 1) {
      FollowOne(spans, ms[i], at[i], j);
    }
  }

  lemma FollowStart(spans: seq<Span>, ms: seq<Meta>, at: seq<nat>)
    requires Homes(spans, ms, at)
    ensures AllFollowed(spans, ms, at, 0, ms)
  {
    forall i | 0 <= i < |ms| ensures ms[i] == Followed(spans, ms[i], at[i], 0) {
      if at[i] == 0 { assert Holes(spans, 0) == 0; }
    }
  }

  // ---------------------------------------------------------------- the packed page

  /** Where a survivor ends up. */
  ghost function Settled(spans: seq<Span>, m: Meta, home: nat): Meta
    requires home < |spans|
  {
    m.(offset := m.offset - Holes(spans, home))
  }

  lemma SettledSlice(cur: seq<Byte>, orig: seq<Byte>, spans: seq<Span>, m: Meta, home: nat)
    requires home < |spans| && Contains(spans[home], m) && m.size > 0
      && Copied(cur, orig, spans[home], Target(spans, home))
    ensures Slice(cur, Settled(spans, m, home)) == Slice(orig, m)
  {
    var s, d := spans[home], m.offset - spans[home].first;
    var t := Target(spans, home);
    assert cur[t + d..t + d + m.size] == cur[t..t + s.size][d..d + m.size];
    assert orig[m.offset..End(m)] == orig[s.first..Last(s)][d..d + m.size];
  }

  lemma SettledPlace(spans: seq<Span>, m: Meta, home: nat, used: int)
    requires Ascending(spans) && Bounded(spans, used) && home < |spans| && Contains(spans[home], m)
      && HEADER <= m.offset && End(m) <= used
    ensures HEADER <= Settled(spans, m, home).offset && End(Settled(spans, m, home)) <= used - Holes(spans, |spans| - 1)
  {
    var n := |spans| - 1;
    TargetLow(spans, home);
    HolesGrow(spans, home, n);
  }

  lemma SettledApart(spans: seq<Span>, m: Meta, i: nat, n: Meta, j: nat)
    requires Ascending(spans) && i < |spans| && j < |spans| && Contains(spans[i], m) && Contains(spans[j], n)
      && Disjoint(m, n)
    ensures Disjoint(Settled(spans, m, i), Settled(spans, n, j))
  {
    if i < j { HolesGrow(spans, i, j); }
    if j < i { HolesGrow(spans, j, i); }
  }

  /** Packing keeps every survivor's index and bytes, and the survivors tile again. */
  lemma PackedTiled(orig: seq<Byte>, ms: seq<Meta>, cur: seq<Byte>, new_: seq<Meta>, spans: seq<Span>, at: seq<nat>,
      used: int, used': int)
    requires Placed(ms, used) && Apart(ms) && Ascending(spans) && Bounded(spans, used) && Homes(spans, ms, at)
    requires Packed(cur, orig, spans, |spans| - 1) && AllFollowed(spans, ms, at, |spans| - 1, new_)
    requires used' == used - Holes(spans, |spans| - 1) && HEADER <= used' <= |cur| && Sizes(ms) == used' - HEADER
    ensures Tiled(cur, new_, used') && View(cur, new_) == View(orig, ms)
  {
    forall i | 0 <= i < |ms|
      ensures new_[i] == Settled(spans, ms[i], at[i]) && HEADER <= new_[i].offset && End(new_[i]) <= used'
        && Slice(cur, new_[i]) == Slice(orig, ms[i])
    {
      SettledSlice(cur, orig, spans, ms[i], at[i]);
      SettledPlace(spans, ms[i], at[i], used);
    }
    forall i, j | 0 <= i < j < |ms| ensures Disjoint(new_[i], new_[j]) {
      SettledApart(spans, ms[i], at[i], ms[j], at[j]);
    }
    SizesSame(ms, new_);
    ViewSame(orig, ms, cur, new_);
  }
}
