/** Why remove_index needs a capacity of at least 12: below that a node that is not the root may have two
    children, lose one to a merge, and be taken for the root. */
module SmallCapacity {
  import opened Wrappers
  import opened Multimap
  import opened NodeStore
  import opened TreeGrow
  import opened TreeRemove
  import opened TreeLeaves
  import LeafBuild
  import opened B = BTree

  function One(k: Key): Entry { Entry(k, [[0]]) }

  function Pair(i: nat, left: Option<Id>, right: Option<Id>): Node {
    Leaf([One(2 * i), One(2 * i + 1)], i, left, right)
  }

  /** Four leaves of two groups under two inner nodes under a root. */
  function Small(): Store {
    map[
      0 := Pair(0, None, Some(1)),
      1 := Pair(1, Some(0), Some(2)),
      2 := Pair(2, Some(1), Some(3)),
      3 := Pair(3, Some(2), None),
      4 := Inner([0, 1], None, Some(5)),
      5 := Inner([2, 3], Some(4), None),
      6 := Inner([4, 5], None, None)]
  }

  const LEVELS: Levels := [[0, 1, 2, 3], [4, 5], [6]]

  lemma SmallLeaves(cap: nat)
    requires 8 <= cap < 12
    ensures LevelGood(Small(), LEVELS, cap, NoHole, 0)
  {
    var st, l := Small(), LEVELS[0];
    assert LinkedAt(st, l, 0) && LinkedAt(st, l, 1) && LinkedAt(st, l, 2) && LinkedAt(st, l, 3);
  }

  lemma SmallInner(cap: nat)
    requires 8 <= cap < 12
    ensures LevelGood(Small(), LEVELS, cap, NoHole, 1)
  {
    var st, l := Small(), LEVELS[1];
    assert LinkedAt(st, l, 0) && LinkedAt(st, l, 1);
    assert l[1..] == [5] && [5][1..] == [];
    assert Flat(st, [5]) == [2, 3] + Flat(st, []) && Flat(st, l) == [0, 1] + Flat(st, [5]);
  }

  lemma SmallRoot(cap: nat)
    requires 8 <= cap < 12
    ensures LevelGood(Small(), LEVELS, cap, NoHole, 2)
  {
    var st, l := Small(), LEVELS[2];
    assert LinkedAt(st, l, 0);
    FlatOne(st, 6);
  }

  /** The groups of the small tree. */
  lemma SmallContents()
    ensures FlatE(Small(), LEVELS[0]) == [One(0), One(1), One(2), One(3), One(4), One(5), One(6), One(7)]
  {
    var st := Small();
    assert [0, 1, 2, 3][1..] == [1, 2, 3] && [1, 2, 3][1..] == [2, 3] && [2, 3][1..] == [3] && [3][1..] == [];
    assert FlatE(st, [3]) == [One(6), One(7)];
    assert FlatE(st, [2, 3]) == [One(4), One(5)] + FlatE(st, [3]);
    assert FlatE(st, [1, 2, 3]) == [One(2), One(3)] + FlatE(st, [2, 3]);
    assert FlatE(st, LEVELS[0]) == [One(0), One(1)] + FlatE(st, [1, 2, 3]);
  }

  lemma SmallLevel(cap: nat, h: nat)
    requires 8 <= cap < 12 && h < 3
    ensures LevelGood(Small(), LEVELS, cap, NoHole, h)
  {
    if h == 0 { SmallLeaves(cap); } else if h == 1 { SmallInner(cap); } else { SmallRoot(cap); }
  }

  lemma SmallDistinct()
    ensures Distinct(LEVELS)
  {
  }

  lemma SmallOrdered()
    ensures Ordered(FlatE(Small(), LEVELS[0])) && Grouped(FlatE(Small(), LEVELS[0]))
  {
    SmallContents();
  }

  lemma SmallTree(cap: nat)
    requires 8 <= cap < 12
    ensures GoodTree(Small(), LEVELS, cap, 6)
  {
    forall h | 0 <= h < |LEVELS| ensures LevelGood(Small(), LEVELS, cap, NoHole, h) { SmallLevel(cap, h); }
    SmallDistinct();
    AllLevels(Small(), LEVELS, cap);
    SmallOrdered();
  }

  /** It is in order for every capacity from 8 to 11: four leaves with files of their own, eight items, no number
      given up. */
  lemma SmallGood(cap: nat)
    requires 8 <= cap < 12
    ensures Consistent(cap, Small(), Some(6), 7, 8, 4, [], LEVELS)
  {
    SmallTree(cap);
    SmallContents();
    SinglesTotal(FlatE(Small(), LEVELS[0]));
  }

  /** A segment tree for each of its leaves. */
  method SmallStates() returns (lv: Leaves)
    ensures Backed(Small(), lv, map[], LEVELS[0])
  {
    lv := map[];
    for i := 0 to 4
      invariant forall x :: 0 <= x < i ==> x in lv && LeafBuild.Serves(lv[x], [One(2 * x), One(2 * x + 1)])
    {
      var s := LeafBuild.BuildServing([One(2 * i), One(2 * i + 1)]);
      lv := lv[i := s];
    }
    forall i | 0 <= i < |LEVELS[0]| ensures BackedAt(Small(), lv, map[], LEVELS[0][i]) { LeafServes(lv, i); }
  }

  lemma LeafServes(lv: Leaves, i: nat)
    requires i < 4 && i in lv && LeafBuild.Serves(lv[i], [One(2 * i), One(2 * i + 1)])
    ensures LEVELS[0][i] == i && BackedAt(Small(), lv, map[], i)
  {
    LeafBuild.ServesAt(Small(), lv, i, lv[i], [One(2 * i), One(2 * i + 1)]);
  }

  /** Removing index 0 strands it: its leaf is at the minimum, the right neighbour is small enough to be merged
      into, and the parent has one other child and is not the root. */
  lemma SmallCapacityLoses(cap: nat)
    requires 8 <= cap < 12
    ensures Consistent(cap, Small(), Some(6), 7, 8, 4, [], LEVELS) && StrandsAt(Small(), cap, 6, LEVELS, 0)
  {
    SmallGood(cap);
    var st := Small();
    assert Flat(st, LEVELS[1][..0]) == [];
    assert Rank([One(0), One(1)], 0) == 0;
    assert Owns(st, LEVELS, 0, 0, 0);
    assert Strands(st, cap, 6, LEVELS[0][0], LEVELS[1][0]);
  }
}
