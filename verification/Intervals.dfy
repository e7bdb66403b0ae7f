/** Counting the numbers of an interval. */
module Intervals {
  /** The numbers from lo up to hi. */
  ghost function Addresses(lo: int, hi: int): (r: set<int>)
    requires lo <= hi
    ensures |r| == hi - lo && forall a :: a in r <==> lo <= a < hi
    decreases hi - lo
  {
    if lo == hi then {} else Addresses(lo, hi - 1) + {hi - 1}
  }

  lemma SubsetFull(s: set<int>, t: set<int>)
    requires s <= t && |s| == |t|
    ensures s == t
  {
    assert t == s + (t - s) && |t| == |s| + |t - s|;
  }

  ghost function Members(s: seq<nat>): set<nat> { set x | x in s }

  /** A list without repetitions has as many members as it is long. */
  lemma {:induction false} DistinctCount(s: seq<nat>)
    requires forall i, j :: 0 <= i < j < |s| ==> s[i] != s[j]
    ensures |Members(s)| == |s|
  {
    if s != [] {
      var t := s[1..];
      assert forall i :: 0 <= i < |t| ==> t[i] == s[i + 1];
      DistinctCount(t);
      assert s == [s[0]] + t;
      assert Members(s) == Members(t) + {s[0]};
      assert s[0] !in Members(t);
    } else {
      assert Members(s) == {};
    }
  }
}
