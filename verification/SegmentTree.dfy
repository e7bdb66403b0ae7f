/** segment_tree_t as an object: the leaf of the B+ tree. */
module SegmentTree {
  import opened Multimap
  import opened BlockSpec
  import opened Segments
  import opened SegmentAppend
  import Balance = SegmentBalance
  import Remove = SegmentRemove

  type Tree = Balance.Tree

  /** The ranges of the two trees are apart, one way or the other. */
  ghost predicate Apart(t: Tree, u: Tree) { Balance.LiesBelow(t, u) || Balance.LiesBelow(u, t) }

  /** What balancing makes of two trees: nothing is lost, and the first ends up with half of the indices. */
  ghost predicate Balanced(t: Tree, u: Tree, t': Tree, u': Tree) {
    && Pairs(t'.bs) + Pairs(u'.bs) == Pairs(t.bs) + Pairs(u.bs) && t'.items + u'.items == t.items + u.items
    && t'.uniques == (t.uniques + u.uniques) / 2 && u'.uniques == t.uniques + u.uniques - t'.uniques
  }

  /** The other tree is below, and the block in which taking its largest indices stops shares an index with
      the block above it. */
  ghost predicate BalanceTears(t: Tree, u: Tree) {
    Balance.LiesBelow(u, t) && Balance.Torn(u.bs, Balance.Share(t, u))
  }

  /** Both trees are valid and their ranges are apart, in the order they had. */
  ghost predicate StillApart(t: Tree, u: Tree, t': Tree, u': Tree) {
    if Balance.LiesBelow(u, t) then Balance.Settled(u', t') else Balance.Settled(t', u')
  }

  method BalanceTrees(t: Tree, u: Tree) returns (t': Tree, u': Tree, ghost d: Balance.Division)
    requires Balance.SoundTree(t) && Balance.SoundTree(u) && Apart(t, u) && t.uniques < u.uniques
    ensures Balanced(t, u, t', u')
    ensures StillApart(t, u, t', u') <==> !BalanceTears(t, u)
    ensures BalanceTears(t, u) ==> Balance.TornCounts(d, u', t')
  {
    t', u', d := Balance.BalanceWith(t, u);
    Balance.OrderTest(t, u);
    if Balance.LiesBelow(u, t) { Swapped(t, u, t', u', d); }
  }

  lemma Swapped(t: Tree, u: Tree, t': Tree, u': Tree, d: Balance.Division)
    requires Balance.Share(t, u) >= 0 && Balance.TookTop(u, t, Balance.Share(t, u), d, u', t')
    ensures Balanced(t, u, t', u')
  {
    Balance.Commute(Pairs(u'.bs), Pairs(t'.bs));
    Balance.Commute(Pairs(u.bs), Pairs(t.bs));
  }

  /** What merging makes of them. */
  ghost predicate Joined(t: Tree, u: Tree, t': Tree) {
    && Balance.SoundTree(t') && Pairs(t'.bs) == Pairs(t.bs) + Pairs(u.bs)
    && t'.items == t.items + u.items && t'.uniques == t.uniques + u.uniques
    && (Balance.NoSpan(t.bs) && Balance.NoSpan(u.bs) ==> Balance.NoSpan(t'.bs))
  }

  method MergeTrees(t: Tree, u: Tree) returns (t': Tree, none: Tree)
    requires Balance.SoundTree(t) && Balance.SoundTree(u) && Apart(t, u)
    ensures Joined(t, u, t') && Balance.SoundTree(none) && none.bs == []
  {
    t' := Balance.Merge(t, u);
    none := Balance.Tree([], [], 0, 0);
    Balance.NoneSound(none);
    Balance.Commute(Pairs(u.bs), Pairs(t.bs));
  }

  class SegmentTree {
    var bs: seq<Blk>
    var meta: seq<Bounds>
    var items: int
    var uniques: int

    ghost predicate Valid()
      reads this
    {
      Sound(bs, meta, items, uniques)
    }

    function Value(): Tree
      reads this
    {
      Balance.Tree(bs, meta, items, uniques)
    }

    ghost function Contents(): multiset<Pair>
      reads this
    {
      Pairs(bs)
    }

    constructor ()
      ensures Valid() && Contents() == multiset{}
    {
      bs, meta, items, uniques := [], [], 0, 0;
      new;
      Balance.NoneSound(Value());
    }

    method Set(t: Tree)
      modifies this
      ensures Value() == t
    {
      bs, meta, items, uniques := t.bs, t.meta, t.items, t.uniques;
    }

    /** append: exactly the item is added and the invariant kept, unless split_append drops the item. */
    method Append(k: Key, item: Item) returns (ok: bool)
      requires Valid() && |item| > 0
      modifies this
      ensures ok <==> (k, item) !in old(Contents())
      ensures !ok ==> Valid() && Contents() == old(Contents())
      ensures ok ==> (Valid() <==> !old(Drops(bs, k, item)))
      ensures ok ==>
        Contents() == if old(Drops(bs, k, item)) then old(Contents()) else old(Contents()) + multiset{(k, item)}
    {
      var p;
      ok, bs, meta, items, uniques, p := AppendTo(bs, meta, items, uniques, k, item, 0);
    }

    /** find_range_: exactly the blocks whose range covers the index. */
    method FindBlocks(k: Key) returns (b: nat, e: nat)
      requires Valid()
      ensures Covers(bs, k, b, e)
    {
      b, e := FindRange(meta, k, bs);
    }

    /** remove_index: exactly the entries of the index go, and the result tells whether there were any. */
    method RemoveIndex(k: Key) returns (ok: bool)
      requires Valid()
      modifies this
      ensures Valid() && Remove.Cleared(old(Contents()), Contents(), k) && (ok <==> k in old(KeysOf(Contents())))
    {
      var t;
      var c;
      ok, t, c := Remove.RemoveIndex(Value(), k);
      Set(t);
    }

    /** split: the new tree counts the floor(n / 2) largest of the n indices. Both trees are valid and apart
        exactly if the block the loop stops in does not share its largest index with the block above it;
        otherwise this tree counts one index too few, and if no block is cut, that index is in both trees, and
        if one is cut, the new tree counts one too many. */
    method Split() returns (other: SegmentTree, ghost d: Balance.Division)
      requires Valid() && uniques > 1
      modifies this
      ensures fresh(other) && Contents() + other.Contents() == old(Contents()) && items + other.items == old(items)
      ensures other.uniques == old(uniques) / 2 && uniques == old(uniques) - other.uniques
      ensures Valid() && other.Valid() && Balance.Below(Value(), other.Value()) <==> !old(Balance.Torn(bs, uniques / 2))
      ensures old(Balance.Torn(bs, uniques / 2)) ==> Balance.TornCounts(d, Value(), other.Value())
      ensures d == old(Balance.DivideTop(bs, uniques / 2)) && Balance.Divides(old(bs), d)
      ensures bs == Balance.LowerPart(old(bs), d) && other.bs == Balance.UpperPart(old(bs), d)
      ensures old(Balance.NoSpan(bs)) ==> Balance.NoSpan(bs + other.bs)
    {
      var low, high, where := Balance.Split(Value());
      d := where;
      other := new SegmentTree();
      other.Set(high);
      Set(low);
    }

    /** balance_with. */
    method BalanceWith(other: SegmentTree) returns (ghost d: Balance.Division)
      requires Valid() && other.Valid() && other != this && Apart(Value(), other.Value()) && uniques < other.uniques
      modifies this, other
      ensures Balanced(old(Value()), old(other.Value()), Value(), other.Value())
      ensures StillApart(old(Value()), old(other.Value()), Value(), other.Value()) <==>
        !old(BalanceTears(Value(), other.Value()))
      ensures old(BalanceTears(Value(), other.Value())) ==> Balance.TornCounts(d, other.Value(), Value())
    {
      var t, u;
      t, u, d := BalanceTrees(Value(), other.Value());
      Set(t);
      other.Set(u);
    }

    /** merge: the other tree ends up empty. */
    method Merge(other: SegmentTree)
      requires Valid() && other.Valid() && other != this && Apart(Value(), other.Value())
      modifies this, other
      ensures Valid() && Contents() == old(Contents()) + old(other.Contents())
      ensures items == old(items) + old(other.items) && uniques == old(uniques) + old(other.uniques)
      ensures old(Balance.NoSpan(bs)) && old(Balance.NoSpan(other.bs)) ==> Balance.NoSpan(bs)
      ensures other.Valid() && other.Contents() == multiset{}
    {
      var t, none := MergeTrees(Value(), other.Value());
      Set(t);
      other.Set(none);
    }
  }
}
