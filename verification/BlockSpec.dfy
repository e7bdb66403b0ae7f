/** What a block holds, apart from where the bytes are: its entries in stored order (largest index
    first, the newest of equal indices first), and how much room they leave. */
module BlockSpec {
  import opened Multimap
  import opened Sequences

  const HEADER: int := 16
  const RECORD: int := 24
  const DEFAULT_SIZE: int := 262144

  type Pair = (Key, Item)

  datatype Blk = Blk(full: int, es: seq<Pair>)

  /** Bytes of the items and of their records. */
  function Weight(es: seq<Pair>): (r: int)
    ensures r >= 0
  {
    if es == [] then 0 else |es[0].1| + RECORD + Weight(es[1..])
  }

  function Room(b: Blk): int { b.full - HEADER - Weight(b.es) }

  ghost predicate Descending(es: seq<Pair>) {
    forall i, j :: 0 <= i < j < |es| ==> es[i].0 >= es[j].0
  }

  ghost predicate NoRepeat(es: seq<Pair>) {
    forall i, j :: 0 <= i < j < |es| ==> es[i] != es[j]
  }

  ghost predicate NonEmptyItems(es: seq<Pair>) {
    forall i :: 0 <= i < |es| ==> |es[i].1| > 0
  }

  ghost predicate Good(b: Blk) {
    Descending(b.es) && NoRepeat(b.es) && NonEmptyItems(b.es) && Room(b) >= 0
  }

  /** There is an entry of the index. */
  ghost predicate HasIndex(es: seq<Pair>, k: Key) {
    exists i :: 0 <= i < |es| && es[i].0 == k
  }

  /** Positions b..e are exactly those of the index k. */
  ghost predicate IsRange(es: seq<Pair>, k: Key, b: int, e: int) {
    && 0 <= b <= e <= |es|
    && (forall i :: 0 <= i < b ==> es[i].0 > k)
    && (forall i :: b <= i < e ==> es[i].0 == k)
    && (forall i :: e <= i < |es| ==> es[i].0 < k)
  }

  /** Where an entry of index k goes: in front of the entries of that index. */
  function Place(es: seq<Pair>, k: Key): (p: nat)
    ensures p <= |es|
  {
    if es == [] || es[0].0 <= k then 0 else 1 + Place(es[1..], k)
  }

  lemma {:induction false} PlaceIsRangeStart(es: seq<Pair>, k: Key, b: int, e: int)
    requires IsRange(es, k, b, e)
    ensures Place(es, k) == b
    decreases |es|
  {
    if b > 0 {
      var t := es[1..];
      assert forall i :: 0 <= i < |t| ==> t[i] == es[i + 1];
      assert es[0].0 > k;
      PlaceIsRangeStart(t, k, b - 1, e - 1);
    } else if es != [] {
      assert es[0].0 <= k;
    }
  }

  function Inserted(es: seq<Pair>, at: nat, p: Pair): seq<Pair>
    requires at <= |es|
  {
    es[..at] + [p] + es[at..]
  }

  /** block_t::append on the entries. */
  function Added(es: seq<Pair>, k: Key, item: Item): seq<Pair> {
    Inserted(es, Place(es, k), (k, item))
  }

  predicate CanAppend(b: Blk, k: Key, item: Item) {
    |item| + RECORD <= Room(b) && (k, item) !in b.es
  }

  function Append(b: Blk, k: Key, item: Item): Blk {
    if CanAppend(b, k, item) then Blk(b.full, Added(b.es, k, item)) else b
  }

  /** append, without saying how: nothing changes if there is no room or the entry is there. Otherwise it is the first
      of its index, behind all larger ones. */
  lemma AppendMeans(b: Blk, k: Key, item: Item, i: nat, j: nat)
    requires IsRange(b.es, k, i, j)
    ensures var b' := Append(b, k, item);
      if |item| + RECORD > Room(b) || (k, item) in b.es then b' == b
      else b' == Blk(b.full, b.es[..i] + [(k, item)] + b.es[i..])
  {
    PlaceIsRangeStart(b.es, k, i, j);
  }

  // ---------------------------------------------------------------- weights

  lemma {:induction false} WeightAdd(a: seq<Pair>, b: seq<Pair>)
    ensures Weight(a + b) == Weight(a) + Weight(b)
  {
    if a == [] {
      assert a + b == b;
    } else {
      assert (a + b)[1..] == a[1..] + b;
      WeightAdd(a[1..], b);
    }
  }

  lemma WeightOne(p: Pair)
    ensures Weight([p]) == |p.1| + RECORD
  {
    assert [p][1..] == [];
  }

  lemma WeightParts(es: seq<Pair>, n: nat)
    requires n <= |es|
    ensures Weight(es) == Weight(es[..n]) + Weight(es[n..])
  {
    assert es == es[..n] + es[n..];
    WeightAdd(es[..n], es[n..]);
  }

  lemma WeightInserted(es: seq<Pair>, at: nat, p: Pair)
    requires at <= |es|
    ensures Weight(Inserted(es, at, p)) == Weight(es) + |p.1| + RECORD
  {
    WeightParts(es, at);
    WeightAdd(es[..at] + [p], es[at..]);
    WeightAdd(es[..at], [p]);
    WeightOne(p);
  }

  // ---------------------------------------------------------------- the number of distinct indices

  /** How many different indices a descending list has. */
  function Uniques(es: seq<Pair>): (r: nat)
    ensures r <= |es|
  {
    if es == [] then 0 else (if |es| > 1 && es[0].0 == es[1].0 then 0 else 1) + Uniques(es[1..])
  }

  /** Two lists share the index at which they meet. */
  predicate Meets(a: seq<Pair>, b: seq<Pair>) {
    a != [] && b != [] && a[|a| - 1].0 == b[0].0
  }

  lemma {:induction false} UniquesAdd(a: seq<Pair>, b: seq<Pair>)
    ensures Uniques(a + b) == Uniques(a) + Uniques(b) - (if Meets(a, b) then 1 else 0)
  {
    if a == [] {
      assert a + b == b;
    } else {
      assert (a + b)[1..] == a[1..] + b;
      UniquesAdd(a[1..], b);
    }
  }

  lemma UniquesParts(es: seq<Pair>, n: nat)
    requires n <= |es|
    ensures Uniques(es) == Uniques(es[..n]) + Uniques(es[n..]) - (if Meets(es[..n], es[n..]) then 1 else 0)
  {
    assert es == es[..n] + es[n..];
    UniquesAdd(es[..n], es[n..]);
  }

  /** The set of indices has exactly that many elements. */
  ghost function Keys(es: seq<Pair>): set<Key> {
    set i | 0 <= i < |es| :: es[i].0
  }

  lemma {:induction false} UniquesCount(es: seq<Pair>)
    requires Descending(es)
    ensures Uniques(es) == |Keys(es)|
  {
    if es != [] {
      var t := es[1..];
      assert forall i :: 0 <= i < |t| ==> t[i] == es[i + 1];
      UniquesCount(t);
      assert Keys(es) == Keys(t) + {es[0].0} by {
        forall k | k in Keys(es) ensures k in Keys(t) + {es[0].0} {
          var i :| 0 <= i < |es| && es[i].0 == k;
          if i > 0 { assert t[i - 1].0 == k; }
        }
        forall k | k in Keys(t) ensures k in Keys(es) {
          var i :| 0 <= i < |t| && t[i].0 == k;
          assert es[i + 1].0 == k;
        }
        assert es[0].0 in Keys(es);
      }
      AddOne(Keys(t), es[0].0);
      if |es| > 1 && es[0].0 == es[1].0 {
        assert t[0].0 in Keys(t);
      } else {
        assert es[0].0 !in Keys(t);
      }
    } else {
      assert Keys(es) == {};
    }
  }

  lemma AddOne(s: set<Key>, k: Key)
    ensures |s + {k}| == |s| + if k in s then 0 else 1
  {
    if k in s { assert s + {k} == s; }
  }

  // ---------------------------------------------------------------- what operations keep

  lemma SliceGood(es: seq<Pair>, i: nat, j: nat)
    requires i <= j <= |es| && Descending(es) && NoRepeat(es) && NonEmptyItems(es)
    ensures Descending(es[i..j]) && NoRepeat(es[i..j]) && NonEmptyItems(es[i..j])
  {
    var s := es[i..j];
    assert forall n :: 0 <= n < |s| ==> s[n] == es[i + n];
  }

  /** Inserting in front of the range of k keeps the order. */
  lemma InsertedDescending(es: seq<Pair>, k: Key, item: Item, b: nat, e: nat)
    requires IsRange(es, k, b, e) && Descending(es)
    ensures Descending(Inserted(es, b, (k, item))) && IsRange(Inserted(es, b, (k, item)), k, b, e + 1)
  {
    var t := Inserted(es, b, (k, item));
    assert forall i :: 0 <= i < |t| && i != b ==> t[i] == es[if i < b then i else i - 1];
    assert t[b] == (k, item);
  }

  lemma InsertedDistinct(es: seq<Pair>, p: Pair, b: nat)
    requires b <= |es| && NoRepeat(es) && NonEmptyItems(es) && p !in es && |p.1| > 0
    ensures NoRepeat(Inserted(es, b, p)) && NonEmptyItems(Inserted(es, b, p))
  {
    var t := Inserted(es, b, p);
    assert forall i :: 0 <= i < |t| && i != b ==> t[i] == es[if i < b then i else i - 1];
    assert forall i :: 0 <= i < |es| ==> es[i] != p;
    assert t[b] == p;
  }

  lemma InsertedUniques(es: seq<Pair>, k: Key, item: Item, b: nat, e: nat)
    requires IsRange(es, k, b, e)
    ensures Uniques(Inserted(es, b, (k, item))) == Uniques(es) + (if b == e then 1 else 0)
  {
    var p := (k, item);
    var x, y := es[..b], es[b..];
    UniquesParts(es, b);
    UniquesAdd(x + [p], y);
    UniquesAdd(x, [p]);
    assert [p][1..] == [];
    assert !Meets(x, [p]) && !Meets(x, y) by { if b > 0 { assert x[b - 1] == es[b - 1]; } }
    assert Meets(x + [p], y) <==> b < e;
  }

  /** Taking the positions b..e out. */
  function Cut(es: seq<Pair>, b: nat, e: nat): (r: seq<Pair>)
    requires b <= e <= |es|
    ensures |r| == |es| - (e - b)
  {
    es[..b] + es[e..]
  }

  lemma CutGood(es: seq<Pair>, b: nat, e: nat)
    requires b <= e <= |es| && Descending(es) && NoRepeat(es) && NonEmptyItems(es)
    ensures Descending(Cut(es, b, e)) && NoRepeat(Cut(es, b, e)) && NonEmptyItems(Cut(es, b, e))
  {
    var t := Cut(es, b, e);
    assert forall i :: 0 <= i < |t| ==> t[i] == es[if i < b then i else i + (e - b)];
  }

  lemma WeightThree(x: seq<Pair>, m: seq<Pair>, y: seq<Pair>)
    ensures Weight(x + m + y) == Weight(x) + Weight(m) + Weight(y)
  {
    WeightAdd(x + m, y);
    WeightAdd(x, m);
  }

  lemma CutWeight(es: seq<Pair>, b: nat, e: nat)
    requires b <= e <= |es|
    ensures Weight(Cut(es, b, e)) == Weight(es) - Weight(es[b..e])
  {
    var x, m, y := es[..b], es[b..e], es[e..];
    InThree(es, b, e);
    WeightThree(x, m, y);
    WeightAdd(x, y);
  }

  lemma CutBlk(b: Blk, i: nat, j: nat)
    requires Good(b) && i <= j <= |b.es|
    ensures Good(Blk(b.full, Cut(b.es, i, j)))
  {
    CutGood(b.es, i, j);
    CutWeight(b.es, i, j);
  }

  lemma AddedBlk(b: Blk, k: Key, item: Item, i: nat, j: nat)
    requires Good(b) && IsRange(b.es, k, i, j) && CanAppend(b, k, item) && |item| > 0
    ensures Added(b.es, k, item) == Inserted(b.es, i, (k, item)) && Good(Blk(b.full, Added(b.es, k, item)))
    ensures Uniques(Added(b.es, k, item)) == Uniques(b.es) + (if i == j then 1 else 0)
  {
    PlaceIsRangeStart(b.es, k, i, j);
    InsertedDescending(b.es, k, item, i, j);
    InsertedDistinct(b.es, (k, item), i);
    InsertedUniques(b.es, k, item, i, j);
    WeightInserted(b.es, i, (k, item));
  }

  /** A whole range is one index; part of a range leaves the index there. */
  lemma {:induction false} UniquesOne(es: seq<Pair>, k: Key)
    requires es != [] && forall i :: 0 <= i < |es| ==> es[i].0 == k
    ensures Uniques(es) == 1
  {
    if |es| > 1 {
      assert forall i :: 0 <= i < |es[1..]| ==> es[1..][i] == es[i + 1];
      UniquesOne(es[1..], k);
    } else {
      assert es[1..] == [];
    }
  }

  lemma CutRangeUniques(es: seq<Pair>, k: Key, b: nat, e: nat)
    requires IsRange(es, k, b, e) && b < e
    ensures Uniques(Cut(es, b, e)) == Uniques(es) - 1
  {
    var x, m, y := es[..b], es[b..e], es[e..];
    UniquesParts(es, b);
    UniquesParts(es[b..], e - b);
    assert es[b..][..e - b] == m && es[b..][e - b..] == y;
    assert forall i :: 0 <= i < |m| ==> m[i] == es[b + i];
    UniquesOne(m, k);
    UniquesAdd(x, y);
    assert !Meets(x, es[b..]) && !Meets(m, y) && !Meets(x, y);
  }

  /** Runs of equal neighbours, counted from the end: what std::unique leaves. */
  function Runs(ks: seq<Key>): nat {
    if |ks| <= 1 then |ks| else Runs(ks[..|ks| - 1]) + (if ks[|ks| - 2] == ks[|ks| - 1] then 0 else 1)
  }

  /** One entry in front of a list is one index at the end of the list of indices read backwards. */
  lemma RunsMirror(es: seq<Pair>, ks: seq<Key>, p: Pair)
    requires Runs(ks) == Uniques(es) && (es == [] <==> ks == []) && (es != [] ==> ks[|ks| - 1] == es[0].0)
    ensures Runs(ks + [p.0]) == Uniques([p] + es)
  {
    var m := ks + [p.0];
    assert m[..|m| - 1] == ks;
    assert ([p] + es)[1..] == es;
  }

  lemma CutOneUniques(es: seq<Pair>, k: Key, b: nat, e: nat, at: nat)
    requires IsRange(es, k, b, e) && b <= at < e
    ensures Uniques(Cut(es, at, at + 1)) == if b + 1 == e then Uniques(es) - 1 else Uniques(es)
  {
    var x, m, y := es[..at], es[at..at + 1], es[at + 1..];
    UniquesParts(es, at);
    UniquesParts(es[at..], 1);
    assert es[at..][..1] == m && es[at..][1..] == y;
    UniquesOne(m, k);
    UniquesAdd(x, y);
    assert Meets(x, es[at..]) <==> at > b;
    assert Meets(m, y) <==> at + 1 < e;
    assert Meets(x, y) <==> b < at && at + 1 < e;
  }

  /** Entries appended one after the other. */
  function Stack(es: seq<Pair>): (r: seq<Pair>)
    ensures |r| == |es|
  {
    if es == [] then [] else var n := |es| - 1; Added(Stack(es[..n]), es[n].0, es[n].1)
  }

  /** The entries b..e in reverse. */
  ghost predicate Mirrored(es: seq<Pair>, r: seq<Pair>, b: int, e: int)
    requires 0 <= b <= e <= |es| == |r|
  {
    forall i :: b <= i < e ==> r[i] == es[b + e - 1 - i]
  }

  lemma {:induction false} RangeExists(es: seq<Pair>, k: Key) returns (b: nat, e: nat)
    requires Descending(es)
    ensures IsRange(es, k, b, e)
  {
    b := 0;
    while b < |es| && es[b].0 > k
      invariant b <= |es| && forall i :: 0 <= i < b ==> es[i].0 > k
    {
      b := b + 1;
    }
    e := b;
    while e < |es| && es[e].0 == k
      invariant b <= e <= |es| && forall i :: b <= i < e ==> es[i].0 == k
    {
      e := e + 1;
    }
  }

  /** One more entry at the low end does not concern a larger index. */
  lemma StackAbove(t: seq<Pair>, r: seq<Pair>, p: Pair, k: Key, b: nat, e: nat, low: nat)
    requires |r| == |t| && k > p.0 && IsRange(r, k, b, e) && Mirrored(t, r, b, e) && IsRange(r, p.0, low, |t|)
    ensures IsRange(Inserted(r, low, p), k, b, e) && Mirrored(t + [p], Inserted(r, low, p), b, e)
  {
    var s := Inserted(r, low, p);
    assert e > 0 ==> r[e - 1].0 >= k;
    assert forall i :: 0 <= i < |s| && i != low ==> s[i] == r[if i < low then i else i - 1];
    assert s[low] == p;
  }

  /** Its own index gets it in front. */
  lemma StackSame(t: seq<Pair>, r: seq<Pair>, p: Pair, low: nat)
    requires |r| == |t| && IsRange(r, p.0, low, |t|) && Mirrored(t, r, low, |t|)
    ensures IsRange(Inserted(r, low, p), p.0, low, |t| + 1) && Mirrored(t + [p], Inserted(r, low, p), low, |t| + 1)
  {
    var s := Inserted(r, low, p);
    assert forall i :: 0 <= i < |s| && i != low ==> s[i] == r[if i < low then i else i - 1];
    assert s[low] == p;
  }

  lemma StackBelow(r: seq<Pair>, p: Pair, k: Key, low: nat)
    requires low <= |r| && k < p.0 && forall i :: 0 <= i < |r| ==> r[i].0 > k
    ensures IsRange(Inserted(r, low, p), k, |r| + 1, |r| + 1)
  {
    var s := Inserted(r, low, p);
    assert forall i :: 0 <= i < |s| && i != low ==> s[i] == r[if i < low then i else i - 1];
    assert s[low] == p;
  }

  /** The range of an index when the smallest entry is left out. */
  lemma RangeInit(es: seq<Pair>, k: Key, b: nat, e: nat, n: nat)
    requires Descending(es) && IsRange(es, k, b, e) && n + 1 == |es|
    ensures es[n].0 < k ==> e <= n && IsRange(es[..n], k, b, e)
    ensures es[n].0 == k ==> e == n + 1 && b <= n && IsRange(es[..n], k, b, n)
    ensures es[n].0 > k ==> b == e == n + 1 && IsRange(es[..n], k, n, n)
  {
    assert forall i :: 0 <= i < n ==> es[..n][i] == es[i];
  }

  lemma SmallestRange(t: seq<Pair>, p: Pair) returns (low: nat)
    requires Descending(t + [p])
    ensures IsRange(t, p.0, low, |t|)
  {
    var es := t + [p];
    var high;
    low, high := RangeExists(es, p.0);
    RangeInit(es, p.0, low, high, |t|);
    assert es[..|t|] == t;
  }

  /** The last entry put at its place: what becomes of the range of k. */
  lemma StackNext(t: seq<Pair>, r: seq<Pair>, p: Pair, k: Key, b: nat, e: nat, low: nat)
    requires |r| == |t| && IsRange(r, p.0, low, |t|) && Mirrored(t, r, low, |t|) && b <= e <= |t| + 1
    requires k > p.0 ==> e <= |t| && IsRange(r, k, b, e) && Mirrored(t, r, b, e)
    requires k == p.0 ==> b == low && e == |t| + 1
    requires k < p.0 ==> b == e == |t| + 1 && forall i :: 0 <= i < |r| ==> r[i].0 > k
    ensures IsRange(Inserted(r, low, p), k, b, e) && Mirrored(t + [p], Inserted(r, low, p), b, e)
  {
    if k > p.0 {
      StackAbove(t, r, p, k, b, e, low);
    } else if k == p.0 {
      StackSame(t, r, p, low);
    } else {
      StackBelow(r, p, k, low);
    }
  }

  /** The same index has the same range in a list. */
  lemma RangeOnce(es: seq<Pair>, k: Key, b: nat, e: nat, c: nat, f: nat)
    requires IsRange(es, k, b, e) && IsRange(es, k, c, f)
    ensures b == c
  {
    PlaceIsRangeStart(es, k, b, e);
    PlaceIsRangeStart(es, k, c, f);
  }

  /** Appended one after the other, each index keeps its positions and its entries come out in reverse. */
  lemma {:induction false} StackReverses(es: seq<Pair>, k: Key, b: nat, e: nat)
    requires Descending(es) && IsRange(es, k, b, e)
    ensures IsRange(Stack(es), k, b, e) && Mirrored(es, Stack(es), b, e)
    decreases |es|
  {
    if es != [] {
      var n := |es| - 1;
      var t, p := es[..n], es[n];
      AllButLast(es);
      SliceDescending(es, n);
      var low := SmallestRange(t, p);
      StackReverses(t, p.0, low, n);
      PlaceIsRangeStart(Stack(t), p.0, low, n);
      RangeInit(es, k, b, e, n);
      if k > p.0 {
        StackReverses(t, k, b, e);
      } else if k == p.0 {
        RangeOnce(t, k, b, n, low, n);
      } else {
        StackReverses(t, k, n, n);
      }
      StackNext(t, Stack(t), p, k, b, e, low);
    }
  }

  lemma SliceDescending(es: seq<Pair>, n: nat)
    requires Descending(es) && n <= |es|
    ensures Descending(es[..n])
  {
    assert forall i :: 0 <= i < n ==> es[..n][i] == es[i];
  }

  /** Nothing is lost or gained. */
  lemma {:induction false} StackContents(es: seq<Pair>)
    ensures Weight(Stack(es)) == Weight(es) && multiset(Stack(es)) == multiset(es)
  {
    if es != [] {
      var n := |es| - 1;
      var t, p := es[..n], es[n];
      assert es == t + [p];
      StackContents(t);
      var r := Stack(t);
      WeightAdd(t, [p]);
      WeightOne(p);
      WeightInserted(r, Place(r, p.0), p);
      assert r == r[..Place(r, p.0)] + r[Place(r, p.0)..];
    }
  }

  /** The first n entries are those of the c largest indices, and no index is on both sides. */
  ghost predicate IndexBoundary(es: seq<Pair>, n: nat, c: nat) {
    n <= |es| && Uniques(es[..n]) == c && !Meets(es[..n], es[n..]) && Uniques(es[n..]) == Uniques(es) - c
  }

  /** The first entries up to a change of index: what split_uniques has counted when it stops. */
  lemma UniquesCut(es: seq<Pair>, i: nat, c: nat)
    requires 0 < i <= |es| && Uniques(es[..i]) == c + 1 && Uniques(es[..i - 1]) <= c
    ensures IndexBoundary(es, i - 1, c)
  {
    var x, p := es[..i - 1], es[i - 1];
    assert es[..i] == x + [p];
    UniquesAdd(x, [p]);
    assert [p][1..] == [];
    assert Uniques([p]) == 1;
    UniquesParts(es, i - 1);
    assert Meets(x, es[i - 1..]) <==> Meets(x, [p]);
  }

  lemma UniquesNext(es: seq<Pair>, i: nat)
    requires 0 < i < |es|
    ensures Uniques(es[..i + 1]) == Uniques(es[..i]) + if es[i - 1].0 == es[i].0 then 0 else 1
  {
    assert es[..i + 1] == es[..i] + [es[i]];
    UniquesAdd(es[..i], [es[i]]);
    assert [es[i]][1..] == [];
  }

  /** The number of entries of the first c indices. */
  function Boundary(es: seq<Pair>, c: nat): nat {
    if c == 0 || es == [] then 0
    else 1 + Boundary(es[1..], if |es| > 1 && es[0].0 == es[1].0 then c else c - 1)
  }

  lemma BoundaryNext(es: seq<Pair>, n: nat, c: nat)
    requires 0 < n < |es| && c > 0
    ensures Boundary(es[n - 1..], c) == 1 + Boundary(es[n..], if es[n - 1].0 == es[n].0 then c else c - 1)
  {
    assert es[n - 1..][1..] == es[n..];
  }

  /** There is such a boundary for every number of indices. */
  method FindBoundary(es: seq<Pair>, c: nat) returns (n: nat)
    requires 0 < c < Uniques(es)
    ensures 0 < n < |es| && IndexBoundary(es, n, c) && n == Boundary(es, c)
  {
    n := 1;
    var indices := 1;
    assert es[..1] == [es[0]] && [es[0]][1..] == [] && es[..0] == [] && es[0..] == es;
    while n < |es| && indices <= c
      invariant 0 < n <= |es| && indices == Uniques(es[..n]) <= c + 1 && Uniques(es[..n - 1]) <= c
      invariant Boundary(es, c) == n - 1 + Boundary(es[n - 1..], c + 1 - indices)
    {
      UniquesNext(es, n);
      BoundaryNext(es, n, c + 1 - indices);
      if es[n - 1].0 != es[n].0 { indices := indices + 1; }
      n := n + 1;
    }
    assert n == |es| ==> es[..n] == es;
    UniquesCut(es, n, c);
    n := n - 1;
  }

  /** Stacking the entries of a good block gives a good block. */
  lemma {:induction false} StackGood(es: seq<Pair>)
    requires Descending(es) && NoRepeat(es) && NonEmptyItems(es)
    ensures Descending(Stack(es)) && NoRepeat(Stack(es)) && NonEmptyItems(Stack(es))
  {
    if es != [] {
      var n := |es| - 1;
      var t, p := es[..n], es[n];
      SliceGood(es, 0, n);
      assert es[0..n] == t;
      StackGood(t);
      StackContents(t);
      var r := Stack(t);
      var b, e := RangeExists(r, p.0);
      PlaceIsRangeStart(r, p.0, b, e);
      InsertedDescending(r, p.0, p.1, b, e);
      assert p !in t;
      assert p !in multiset(t);
      assert p !in multiset(r);
      InsertedDistinct(r, p, b);
    }
  }

  /** Descending lists of the same entries begin and end with the same index. */
  lemma SameEnds(x: seq<Pair>, y: seq<Pair>)
    requires Descending(x) && Descending(y) && x != [] && multiset(x) == multiset(y)
    ensures y != [] && x[0].0 == y[0].0 && x[|x| - 1].0 == y[|y| - 1].0
  {
    assert |multiset(x)| == |x| && |multiset(y)| == |y|;
    assert x[0] in multiset(x) && x[|x| - 1] in multiset(x);
    assert x[0] in y && x[|x| - 1] in y;
    assert y[0] in multiset(y) && y[|y| - 1] in multiset(y);
    assert y[0] in x && y[|y| - 1] in x;
  }

  /** And have as many indices. */
  lemma SameUniques(x: seq<Pair>, y: seq<Pair>)
    requires Descending(x) && Descending(y) && multiset(x) == multiset(y)
    ensures Uniques(x) == Uniques(y)
  {
    UniquesCount(x);
    UniquesCount(y);
    assert Keys(x) == Keys(y) by {
      forall k | k in Keys(x) ensures k in Keys(y) { KeysMove(x, y, k); }
      forall k | k in Keys(y) ensures k in Keys(x) { KeysMove(y, x, k); }
    }
  }

  lemma KeysMove(x: seq<Pair>, y: seq<Pair>, k: Key)
    requires k in Keys(x) && multiset(x) == multiset(y)
    ensures k in Keys(y)
  {
    var i :| 0 <= i < |x| && x[i].0 == k;
    assert x[i] in multiset(y);
    var j :| 0 <= j < |y| && y[j] == x[i];
  }
}
