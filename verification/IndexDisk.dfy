/** index_disk_t: a secondary index from keys to document ids, kept in a B+ tree. */
module IndexDisk {
  import opened Multimap
  import opened NodeStore
  import opened TreeLeaves
  import opened Scan
  import opened IndexQuery
  import opened B = BTree

  /** The ids stored under a key. */
  ghost function IdsOf<T>(items: seq<Item>, k: Key, read: Item -> T): multiset<T> {
    Where(GroupPairs(k, items), Eq, k, read)
  }

  ghost function Ids<T>(c: seq<Entry>, k: Key, read: Item -> T): multiset<T> {
    IdsOf(Group(c, k), k, read)
  }

  lemma IdsAdd<T>(k: Key, x: seq<Item>, y: seq<Item>, read: Item -> T)
    ensures IdsOf(x + y, k, read) == IdsOf(x, k, read) + IdsOf(y, k, read)
  {
    GroupPairsAdd(k, x, y);
    WhereAdd(GroupPairs(k, x), GroupPairs(k, y), Eq, k, read);
  }

  lemma IdsOne<T>(k: Key, item: Item, read: Item -> T)
    ensures IdsOf([item], k, read) == multiset{read(item)}
  {
    GroupKeys(k, [item]);
    assert GroupPairs(k, [item]) == [(k, item)];
    var ps := [(k, item)];
    assert ps[1..] == [] && Where(ps[1..], Eq, k, read) == multiset{};
    assert Where(ps, Eq, k, read) == One(ps[0], Eq, k, read) + Where(ps[1..], Eq, k, read);
  }

  lemma {:induction false} ItemHasId<T>(items: seq<Item>, k: Key, item: Item, read: Item -> T)
    requires item in items
    ensures read(item) in IdsOf(items, k, read)
  {
    var i :| 0 <= i < |items| && items[i] == item;
    assert items == items[..i] + [item] + items[i + 1..];
    IdsAdd(k, items[..i] + [item], items[i + 1..], read);
    IdsAdd(k, items[..i], [item], read);
    IdsOne(k, item, read);
  }

  lemma IdsInserted<T>(g: seq<Item>, at: nat, item: Item, k: Key, read: Item -> T)
    requires at <= |g|
    ensures IdsOf(InsertAt(g, at, item), k, read) == IdsOf(g, k, read) + multiset{read(item)}
  {
    assert g == g[..at] + g[at..];
    IdsAdd(k, g[..at] + [item], g[at..], read);
    IdsAdd(k, g[..at], [item], read);
    IdsAdd(k, g[..at], g[at..], read);
    IdsOne(k, item, read);
  }

  /** Adding an item under a key adds exactly its id there and nothing anywhere else. */
  lemma GrownIds<T>(c: seq<Entry>, c': seq<Entry>, k: Key, item: Item, q: Key, read: Item -> T)
    requires Ordered(c) && Grown(c, c', k, item, Stored)
    ensures Ids(c', q, read) == if q == k then Ids(c, k, read) + multiset{read(item)} else Ids(c, q, read)
  {
    GrownGroups(c, c', k, item, Stored, q);
    if q == k {
      var at: nat :| at <= |Group(c, k)| && c' == Put(c, k, InsertAt(Group(c, k), at, item));
      GroupOfPut(c, k, InsertAt(Group(c, k), at, item), k);
      IdsInserted(Group(c, k), at, item, k, read);
    }
  }

  /** find of one key on the tree: its ids. The segment trees stay as they are; more of them may be in memory. */
  method FindKey<T(!new)>(db: BTree, k: Key, read: Item -> T) returns (fault: bool, ids: seq<T>)
    requires db.Valid()
    modifies db`leaves, db`files
    ensures db.Valid() && db.Contents() == old(db.Contents()) && db.files == old(db.files)
    ensures (fault <==> old(db.FaultsAt(k))) && SameTrees(old(db.leaves), db.leaves)
    ensures !fault ==> multiset(ids) == Ids(db.Contents(), k, read)
    ensures old(db.Current()) ==> db.Current()
  {
    fault, ids := false, [];
    NoIds(k, read);
    if db.root.None? { return; }
    var lv;
    fault, ids, lv := FindIds(db.cap, db.store, db.leaves, db.files, db.root.value, k, read, db.levels);
    GroupWhere(FlatE(db.store, db.levels[0]), k, read);
    db.SetLeaves(lv, db.files);
  }

  lemma NoIds<T>(k: Key, read: Item -> T)
    ensures Ids([], k, read) == multiset{}
  {
  }

  /** What insert makes of a tree that does not have the id. */
  ghost predicate Inserted<T(!new)>(c: seq<Entry>, c': seq<Entry>, k: Key, id: T, read: Item -> T) {
    forall q :: Ids(c', q, read) == if q == k then Ids(c, k, read) + multiset{id} else Ids(c, q, read)
  }

  /** insert: nothing happens if the id is under the key; otherwise it is there exactly once more and nothing
      else changes, and the tree is in order, if and only if no full root leaf is split at the key, no leaf is torn and
      the item is not dropped. A dropped item changes no contents, and a key that a full root leaf is split at has the
      item in a second group. */
  method Insert<T(!new, ==)>(db: BTree, k: Key, id: T, item: Item, read: Item -> T) returns (fault: bool)
    requires db.Valid() && read(item) == id && |item| > 0
    modifies db
    ensures fault <==> old(db.FaultsAt(k))
    ensures fault || id in Ids(old(db.Contents()), k, read) ==> db.Valid() && db.Contents() == old(db.Contents())
    ensures !fault && id !in Ids(old(db.Contents()), k, read) ==>
      && (db.Valid() <==> !old(db.CutsAt(k)) && !old(db.TearsAt(k)) && !old(db.DropsAt(k, item)))
      && (db.Valid() ==> Inserted(old(db.Contents()), db.Contents(), k, id, read))
      && (!old(db.TearsAt(k)) && old(db.DropsAt(k, item)) ==> db.Contents() == old(db.Contents()))
      && (!old(db.TearsAt(k)) && !old(db.DropsAt(k, item)) && old(db.CutsAt(k)) ==>
        GroupCut(old(db.Contents()), db.Contents(), db.cap - db.cap / 2, k, item))
    ensures old(db.Current()) && !old(db.SplitsAt(k)) ==> db.Current()
  {
    ghost var c, lv := db.Contents(), db.leaves;
    ghost var cuts, tears, drops := db.CutsAt(k), db.TearsAt(k), db.DropsAt(k, item);
    var ids;
    fault, ids := FindKey(db, k, read);
    if fault || id in ids { return; }
    SameOutlook(db.store, lv, db.leaves, db.cap, db.root, db.levels, k, item);
    if item in Group(c, k) { ItemHasId(Group(c, k), k, item, read); }
    var ok;
    ghost var out;
    ok, out := db.Append(k, item);
    if db.Valid() { InsertedIds(c, db.Contents(), k, id, item, read); }
  }

  lemma InsertedIds<T(!new)>(c: seq<Entry>, c': seq<Entry>, k: Key, id: T, item: Item, read: Item -> T)
    requires Ordered(c) && Grown(c, c', k, item, Stored) && read(item) == id
    ensures Inserted(c, c', k, id, read)
  {
    forall q ensures Ids(c', q, read) == if q == k then Ids(c, k, read) + multiset{id} else Ids(c, q, read) {
      GrownIds(c, c', k, item, q, read);
    }
  }

  /** What remove makes of a tree. */
  ghost predicate KeyGone<T(!new)>(c: seq<Entry>, c': seq<Entry>, k: Key, read: Item -> T) {
    forall q :: Ids(c', q, read) == if q == k then multiset{} else Ids(c, q, read)
  }

  /** remove(key): every id under the key goes, and nothing else changes, if and only if the tree is not stranded,
      which cannot be from capacity 12 on, and no leaf borrows from a torn one. */
  method RemoveKey<T(!new)>(db: BTree, k: Key, ghost read: Item -> T) returns (fault: bool)
    requires db.Valid() && !db.StarvesOn(k)
    modifies db
    ensures fault <==> old(db.FaultsAt(k))
    ensures fault ==> db.Valid() && db.Contents() == old(db.Contents())
    ensures !fault ==> (db.Valid() <==> !old(db.StrandsOn(k)) && !old(db.BorrowsTornOn(k)))
    ensures !fault && db.Valid() ==> KeyGone(old(db.Contents()), db.Contents(), k, read)
    ensures db.cap >= 12 ==> !old(db.StrandsOn(k))
    ensures old(db.Current()) && !old(db.BorrowsLeftOn(k)) && !old(db.StrandsOn(k)) ==> db.Current()
  {
    ghost var c := db.Contents();
    var ok;
    fault, ok := db.RemoveIndex(k);
    if !fault && db.Valid() { GoneIds(c, k, read); }
  }

  lemma GoneIds<T(!new)>(c: seq<Entry>, k: Key, read: Item -> T)
    requires Ordered(c)
    ensures KeyGone(c, Drop(c, k), k, read)
  {
    forall q ensures Ids(Drop(c, k), q, read) == if q == k then multiset{} else Ids(c, q, read) {
      GroupOfDrop(c, k, q);
    }
  }

  /** find: exactly the ids whose key satisfies the comparison, unless it ends in a block that is not in memory. */
  method FindAll<T(!new)>(db: BTree, v: Key, cmp: Compare, bottom: Key, top: Key, read: Item -> T)
    returns (fault: bool, ids: seq<T>)
    requires db.Valid() && Within(Pairs(db.Contents()), bottom, top) && |Pairs(db.Contents())| <= MAX_SIZE
    modifies db`leaves, db`files
    ensures db.Valid() && db.Contents() == old(db.Contents()) && db.files == old(db.files)
    ensures fault <==> (cmp == Eq || cmp == Gte) && old(db.FaultsAt(v))
    ensures !fault ==> multiset(ids) == Where(Pairs(db.Contents()), cmp, v, read)
    ensures old(db.Current()) ==> db.Current()
  {
    var lv;
    fault, ids, lv := Find(db.cap, db.store, db.leaves, db.files, db.root, v, cmp, bottom, top, read, db.levels);
    db.SetLeaves(lv, db.files);
  }
}
