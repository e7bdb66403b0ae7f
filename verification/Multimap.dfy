/** The reference the storage engine is compared with: a plain sorted multimap.
    An index (a key) owns a non-empty group of items; groups are listed in strictly
    ascending key order. Keys are integers: only their order matters to the engine,
    and `PhysicalValue` proves that the engine's own keys are strictly weakly ordered. */
module Multimap {
  import opened Sequences

  type Key = int
  newtype Byte = b: int | 0 <= b < 256
  type Item = seq<Byte>
  datatype Entry = Entry(key: Key, items: seq<Item>)

  ghost predicate Ordered(c: seq<Entry>) {
    forall i, j :: 0 <= i < j < |c| ==> c[i].key < c[j].key
  }

  ghost predicate Grouped(c: seq<Entry>) {
    forall i :: 0 <= i < |c| ==> c[i].items != []
  }

  /** The number of leading groups whose key is below k. */
  function Rank(c: seq<Entry>, k: Key): (r: nat)
    ensures r <= |c|
    ensures forall i :: 0 <= i < r ==> c[i].key < k
    ensures r < |c| ==> k <= c[r].key
  {
    if c == [] || k <= c[0].key then 0
    else 1 + Rank(c[1..], k)
  }

  predicate Has(c: seq<Entry>, k: Key) {
    var r := Rank(c, k);
    r < |c| && c[r].key == k
  }

  /** The items stored under k; none when k is absent. */
  function Group(c: seq<Entry>, k: Key): seq<Item> {
    if Has(c, k) then c[Rank(c, k)].items else []
  }

  /** Replace (or create) the group of k. */
  function Put(c: seq<Entry>, k: Key, g: seq<Item>): seq<Entry> {
    var r := Rank(c, k);
    c[..r] + [Entry(k, g)] + c[if Has(c, k) then r + 1 else r..]
  }

  /** Remove the group of k. */
  function Drop(c: seq<Entry>, k: Key): seq<Entry> {
    var r := Rank(c, k);
    if Has(c, k) then c[..r] + c[r + 1..] else c
  }

  /** The number of items in all groups. */
  function Total(c: seq<Entry>): nat {
    if c == [] then 0 else |c[0].items| + Total(c[1..])
  }

  function InsertAt(g: seq<Item>, at: nat, item: Item): seq<Item>
    requires at <= |g|
  {
    g[..at] + [item] + g[at..]
  }

  ghost predicate AllBelow(c: seq<Entry>, k: Key) {
    forall i :: 0 <= i < |c| ==> c[i].key < k
  }

  ghost predicate AllAbove(k: Key, c: seq<Entry>) {
    forall i :: 0 <= i < |c| ==> k < c[i].key
  }

  lemma RankUnique(c: seq<Entry>, k: Key, r: nat)
    requires Ordered(c) && r <= |c|
    requires AllBelow(c[..r], k)
    requires r < |c| ==> k <= c[r].key
    ensures Rank(c, k) == r
  {
    var q := Rank(c, k);
    assert forall i :: 0 <= i < r ==> c[..r][i] == c[i];
  }

  lemma HasIff(c: seq<Entry>, k: Key)
    requires Ordered(c)
    ensures Has(c, k) <==> exists i :: 0 <= i < |c| && c[i].key == k
  {
    var r := Rank(c, k);
    assert forall i :: r < i < |c| ==> c[r].key < c[i].key;
  }

  /** A search confined to the middle part is the search of the whole. */
  lemma RankLocal(a: seq<Entry>, b: seq<Entry>, c: seq<Entry>, k: Key)
    requires Ordered(a + b + c) && AllBelow(a, k) && AllAbove(k, c)
    ensures Rank(a + b + c, k) == |a| + Rank(b, k)
    ensures Has(a + b + c, k) == Has(b, k)
    ensures Group(a + b + c, k) == Group(b, k)
  {
    var w := a + b + c;
    var r := |a| + Rank(b, k);
    forall i | 0 <= i < r ensures w[..r][i].key < k {
      if i < |a| { assert w[i] == a[i]; } else { assert w[i] == b[i - |a|]; }
    }
    if r < |w| {
      if Rank(b, k) < |b| { assert w[r] == b[Rank(b, k)]; } else { assert w[r] == c[0]; }
    }
    RankUnique(w, k, r);
    assert r < |a| + |b| ==> w[r] == b[Rank(b, k)];
  }

  lemma CutMiddle(a: seq<Entry>, b: seq<Entry>, c: seq<Entry>, i: nat, j: nat)
    requires i <= |b| && j <= |b|
    ensures (a + b + c)[..|a| + i] == a + b[..i]
    ensures (a + b + c)[|a| + j..] == b[j..] + c
  {
  }

  lemma PutLocal(a: seq<Entry>, b: seq<Entry>, c: seq<Entry>, k: Key, g: seq<Item>)
    requires Ordered(a + b + c) && AllBelow(a, k) && AllAbove(k, c)
    ensures Put(a + b + c, k, g) == a + Put(b, k, g) + c
  {
    RankLocal(a, b, c, k);
    var i, j := Rank(b, k), if Has(b, k) then Rank(b, k) + 1 else Rank(b, k);
    CutMiddle(a, b, c, i, j);
    AssocMiddle(a, b[..i], [Entry(k, g)], b[j..], c);
  }

  lemma DropLocal(a: seq<Entry>, b: seq<Entry>, c: seq<Entry>, k: Key)
    requires Ordered(a + b + c) && AllBelow(a, k) && AllAbove(k, c)
    ensures Drop(a + b + c, k) == a + Drop(b, k) + c
  {
    RankLocal(a, b, c, k);
    if Has(b, k) { CutMiddle(a, b, c, Rank(b, k), Rank(b, k) + 1); }
  }

  lemma OrderedSlice(c: seq<Entry>, i: nat, j: nat)
    requires Ordered(c) && i <= j <= |c|
    ensures Ordered(c[i..j])
  {
  }

  lemma JoinOrdered(a: seq<Entry>, e: Entry, b: seq<Entry>)
    requires Ordered(a) && Ordered(b) && AllBelow(a, e.key) && AllAbove(e.key, b)
    ensures Ordered(a + [e] + b)
  {
    OrderedParts(a, [e]);
    OrderedParts(a + [e], b);
  }

  lemma PutOrdered(c: seq<Entry>, k: Key, g: seq<Item>)
    requires Ordered(c)
    ensures Ordered(Put(c, k, g))
    ensures |Put(c, k, g)| == |c| + if Has(c, k) then 0 else 1
    ensures Grouped(c) && g != [] ==> Grouped(Put(c, k, g))
  {
    var r := Rank(c, k);
    var t := if Has(c, k) then r + 1 else r;
    OrderedSlice(c, 0, r);
    OrderedSlice(c, t, |c|);
    assert c[..r] == c[0..r] && c[t..] == c[t..|c|];
    JoinOrdered(c[..r], Entry(k, g), c[t..]);
  }

  lemma PutTotal(c: seq<Entry>, k: Key, g: seq<Item>)
    ensures Total(Put(c, k, g)) == Total(c) - |Group(c, k)| + |g|
  {
    var r := Rank(c, k);
    var tail := c[if Has(c, k) then r + 1 else r..];
    assert Put(c, k, g) == c[..r] + ([Entry(k, g)] + tail);
    TotalAdd(c[..r], [Entry(k, g)] + tail);
    assert ([Entry(k, g)] + tail)[1..] == tail;
    assert c == c[..r] + c[r..];
    TotalAdd(c[..r], c[r..]);
    if Has(c, k) { assert c[r..][1..] == tail; }
  }

  lemma DropOrdered(c: seq<Entry>, k: Key)
    requires Ordered(c)
    ensures Ordered(Drop(c, k))
    ensures Grouped(c) ==> Grouped(Drop(c, k))
    ensures |Drop(c, k)| == |c| - if Has(c, k) then 1 else 0
  {
  }

  lemma DropTotal(c: seq<Entry>, k: Key)
    ensures Total(Drop(c, k)) == Total(c) - |Group(c, k)|
  {
    var r := Rank(c, k);
    if Has(c, k) {
      TotalAdd(c[..r], c[r + 1..]);
      assert c == c[..r] + c[r..];
      TotalAdd(c[..r], c[r..]);
      assert c[r..][1..] == c[r + 1..];
    }
  }

  /** Put is a map update: it sets the group of k and leaves every other group alone. */
  lemma GroupOfPut(c: seq<Entry>, k: Key, g: seq<Item>, q: Key)
    requires Ordered(c)
    ensures Group(Put(c, k, g), q) == if q == k then g else Group(c, q)
  {
    PutOrdered(c, k, g);
    var d := Put(c, k, g);
    var r := Rank(c, k);
    if q == k {
      RankUnique(d, k, r);
    } else {
      GroupUnique(c, d, q);
    }
  }

  /** Drop is a map removal: it empties the group of k and leaves every other group alone. */
  lemma GroupOfDrop(c: seq<Entry>, k: Key, q: Key)
    requires Ordered(c)
    ensures Group(Drop(c, k), q) == if q == k then [] else Group(c, q)
  {
    DropOrdered(c, k);
    HasIff(c, k);
    HasIff(Drop(c, k), k);
    if q != k { GroupUnique(c, Drop(c, k), q); }
  }

  lemma GroupUnique(c: seq<Entry>, d: seq<Entry>, q: Key)
    requires Ordered(c) && Ordered(d)
    requires forall i :: 0 <= i < |c| && c[i].key == q ==> c[i] in d
    requires forall i :: 0 <= i < |d| && d[i].key == q ==> d[i] in c
    ensures Group(c, q) == Group(d, q)
  {
    HasIff(c, q);
    HasIff(d, q);
  }

  lemma {:induction false} TotalAdd(a: seq<Entry>, b: seq<Entry>)
    ensures Total(a + b) == Total(a) + Total(b)
  {
    if a == [] {
      assert a + b == b;
    } else {
      assert (a + b)[1..] == a[1..] + b;
      TotalAdd(a[1..], b);
    }
  }

  lemma OrderedParts(a: seq<Entry>, b: seq<Entry>)
    ensures Ordered(a + b) <==> Ordered(a) && Ordered(b) && forall i, j :: 0 <= i < |a| && 0 <= j < |b| ==>
      a[i].key < b[j].key
  {
    var w := a + b;
    if Ordered(w) {
      forall i, j | 0 <= i < j < |a| ensures a[i].key < a[j].key { assert w[i] == a[i] && w[j] == a[j]; }
      forall i, j | 0 <= i < j < |b| ensures b[i].key < b[j].key { assert w[|a| + i] == b[i] && w[|a| + j] == b[j]; }
      forall i, j | 0 <= i < |a|
          && 0 <= j < |b| ensures a[i].key < b[j].key { assert w[i] == a[i] && w[|a| + j] == b[j]; }
    }
  }

  // ---------------------------------------------------------------- one item more

  /** What became of an item: stored, refused because it was there, or dropped by its segment tree, which
      reports success all the same. */
  datatype Outcome = Stored | Refused | Dropped

  /** Item `item` was added to the group of k, at some place in that group; nothing else changed. */
  ghost predicate Gained(c: seq<Entry>, c': seq<Entry>, k: Key, item: Item) {
    exists at: nat :: at <= |Group(c, k)| && c' == Put(c, k, InsertAt(Group(c, k), at, item))
  }

  /** What an append makes of the groups. */
  ghost predicate Grown(c: seq<Entry>, c': seq<Entry>, k: Key, item: Item, out: Outcome) {
    && out.Refused? == (item in Group(c, k))
    && (if out.Stored? then Gained(c, c', k, item) else c' == c)
  }

  lemma GrownOrdered(c: seq<Entry>, c': seq<Entry>, k: Key, item: Item, out: Outcome)
    requires Ordered(c) && Grown(c, c', k, item, out)
    ensures Ordered(c') && (Grouped(c) ==> Grouped(c')) && Total(c') == Total(c) + if out.Stored? then 1 else 0
  {
    if out.Stored? {
      var at: nat :| at <= |Group(c, k)| && c' == Put(c, k, InsertAt(Group(c, k), at, item));
      PutOrdered(c, k, InsertAt(Group(c, k), at, item));
      PutTotal(c, k, InsertAt(Group(c, k), at, item));
    }
  }
}
