/** Facts about slices, kept apart so that their proofs meet no other quantifier. */
module Sequences {

  lemma SliceExtend<T>(s: seq<T>, run: seq<T>, more: seq<T>, lo: int, mid: int)
    requires 0 <= lo <= mid && mid + |more| <= |s|
    requires run == s[lo..mid] && more == s[mid..mid + |more|]
    ensures run + more == s[lo..mid + |more|]
  {
  }

  lemma SliceSnoc<T>(s: seq<T>, lo: int, hi: int)
    requires 0 <= lo <= hi < |s|
    ensures s[lo..hi] + [s[hi]] == s[lo..hi + 1]
  {
  }

  lemma Snoc<T>(s: seq<T>)
    requires s != []
    ensures s == s[..|s| - 1] + [s[|s| - 1]]
  {
  }

  lemma SliceGrows<T>(run: seq<T>, s: seq<T>, at: int)
    requires run != [] && 0 <= at && at + |run| <= |s|
    requires run[..|run| - 1] == s[at..at + |run| - 1] && run[|run| - 1] == s[at + |run| - 1]
    ensures run == s[at..at + |run|]
  {
    Snoc(run);
  }

  lemma NotInSlice<T>(s: seq<T>, lo: int, hi: int, k: int)
    requires 0 <= lo <= hi <= |s| && 0 <= k < |s| && s[k] !in s[lo..hi]
    ensures !(lo <= k < hi)
  {
  }

  lemma SliceOfTake<T>(s: seq<T>, lo: int, hi: int, n: int)
    requires 0 <= lo <= hi <= n <= |s|
    ensures s[..n][lo..hi] == s[lo..hi]
  {
  }

  lemma Associates<T>(a: seq<T>, b: seq<T>, c: seq<T>)
    ensures a + (b + c) == (a + b) + c
  {
  }

  function Flatten<T>(parts: seq<seq<T>>): seq<T> {
    if parts == [] then [] else Flatten(parts[..|parts| - 1]) + parts[|parts| - 1]
  }

  lemma FlattenNone<T>()
    ensures Flatten<T>([]) == []
  {
  }

  lemma FlattenSnoc<T>(parts: seq<seq<T>>, part: seq<T>)
    ensures Flatten(parts + [part]) == Flatten(parts) + part
  {
    assert (parts + [part])[..|parts|] == parts;
  }

  lemma {:induction false} FlattenFront<T>(parts: seq<seq<T>>)
    requires parts != []
    ensures Flatten(parts) == parts[0] + Flatten(parts[1..])
  {
    var n := |parts| - 1;
    if n == 0 {
      assert Flatten(parts[..0]) == [] && Flatten(parts[1..]) == [];
    } else {
      FlattenFront(parts[..n]);
      assert parts[..n][1..] == parts[1..][..n - 1];
      Associates(parts[0], Flatten(parts[..n][1..]), parts[n]);
    }
  }

  lemma {:induction false} FlattenPrefix<T>(parts: seq<seq<T>>, i: nat, j: nat)
    requires i <= j <= |parts|
    ensures Flatten(parts[..i]) <= Flatten(parts[..j])
    decreases j
  {
    if i < j {
      FlattenPrefix(parts, i, j - 1);
      assert parts[..j][..j - 1] == parts[..j - 1];
    }
  }

  /** Part i of the whole lies behind the parts before it. */
  lemma FlattenAt<T>(parts: seq<seq<T>>, i: nat)
    requires i < |parts|
    ensures var at := |Flatten(parts[..i])|;
            && |Flatten(parts[..i + 1])| == at + |parts[i]| <= |Flatten(parts)|
            && Flatten(parts)[at..at + |parts[i]|] == parts[i]
  {
    var at := |Flatten(parts[..i])|;
    assert parts[..i + 1][..i] == parts[..i];
    var upto := Flatten(parts[..i + 1]);
    assert upto[at..at + |parts[i]|] == parts[i];
    FlattenPrefix(parts, i + 1, |parts|);
    assert parts[..|parts|] == parts;
    SliceOfTake(Flatten(parts), at, at + |parts[i]|, |upto|);
    assert Flatten(parts)[..|upto|] == upto;
  }

  lemma {:induction false} FlattenGrows<T>(parts: seq<seq<T>>, i: nat, j: nat)
    requires i <= j <= |parts| && forall k :: 0 <= k < |parts| ==> parts[k] != []
    ensures |Flatten(parts[..i])| <= |Flatten(parts[..j])|
    ensures i < j ==> |Flatten(parts[..i])| < |Flatten(parts[..j])|
    decreases j
  {
    if i < j {
      FlattenGrows(parts, i, j - 1);
      assert parts[..j][..j - 1] == parts[..j - 1];
    }
  }

  lemma SubSlice<T>(s: seq<T>, lo: nat, hi: nat, a: nat, b: nat)
    requires lo <= hi <= |s| && a <= b && lo + b <= hi
    ensures s[lo..hi][a..b] == s[lo + a..lo + b]
  {
    var x, y := s[lo..hi][a..b], s[lo + a..lo + b];
    assert forall k :: 0 <= k < |x| ==> x[k] == y[k];
  }
}
