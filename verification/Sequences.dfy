/** Taking sequences apart. */
module Sequences {
  lemma InTwo<T>(s: seq<T>, i: nat)
    requires i <= |s|
    ensures s == s[..i] + s[i..]
  {
  }

  lemma InThree<T>(s: seq<T>, i: nat, j: nat)
    requires i <= j <= |s|
    ensures s == s[..i] + s[i..j] + s[j..]
  {
  }

  lemma Around<T>(s: seq<T>, i: nat)
    requires i < |s|
    ensures s == s[..i] + [s[i]] + s[i + 1..]
  {
  }

  lemma Regroup<T>(s: seq<T>, i: nat, t: seq<T>)
    requires i <= |s|
    ensures s[..i] + (s[i..] + t) == s + t && (t + s[..i]) + s[i..] == t + s
  {
  }

  lemma RegroupAround<T>(s: seq<T>, i: nat, t: seq<T>)
    requires i < |s|
    ensures s[..i] + [s[i]] + (s[i + 1..] + t) == s + t && (t + s[..i]) + [s[i]] + s[i + 1..] == t + s
  {
  }

  lemma AllButLast<T>(s: seq<T>)
    requires s != []
    ensures s == s[..|s| - 1] + [s[|s| - 1]]
  {
  }

  lemma Assoc<T>(a: seq<T>, b: seq<T>, c: seq<T>)
    ensures (a + b) + c == a + (b + c)
  {
  }

  lemma AssocMiddle<T>(a: seq<T>, x: seq<T>, y: seq<T>, z: seq<T>, c: seq<T>)
    ensures (a + x) + y + (z + c) == a + (x + y + z) + c
  {
  }

  lemma Whole<T>(s: seq<T>)
    ensures s[0..] == s && s[..|s|] == s && s + [] == s && [] + s == s
  {
  }

  lemma Ends<T>(s: seq<T>, i: nat)
    requires i < |s|
    ensures s[i..] == [s[i]] + s[i + 1..] && s[..i + 1] == s[..i] + [s[i]]
  {
  }

  function Reversed<T>(s: seq<T>): seq<T> {
    if s == [] then [] else Reversed(s[1..]) + [s[0]]
  }

  lemma {:induction false} ReversedAt<T>(s: seq<T>)
    ensures |Reversed(s)| == |s| && forall i :: 0 <= i < |s| ==> Reversed(s)[i] == s[|s| - 1 - i]
  {
    if s != [] { ReversedAt(s[1..]); }
  }

  lemma ReversedAdd<T>(a: seq<T>, b: seq<T>)
    ensures Reversed(a + b) == Reversed(b) + Reversed(a)
  {
    ReversedAt(a);
    ReversedAt(b);
    ReversedAt(a + b);
  }

  lemma {:induction false} ReversedItems<T>(s: seq<T>)
    ensures multiset(Reversed(s)) == multiset(s)
  {
    if s != [] {
      ReversedItems(s[1..]);
      assert s == [s[0]] + s[1..];
    }
  }
}
