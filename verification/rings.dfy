/** Circular doubly linked lists through a head that is not an element (util/cache.cc, db/snapshot.h).
    Nodes are numbers; `next` and `prev` are the two pointers of each node. */
module Rings {

  type Links = map<int, int>

  /** Node number i of the ring: the head, the elements, and the head again. */
  function At(head: int, s: seq<int>, i: int): int
    requires 0 <= i <= |s| + 1
  {
    if i == 0 || i == |s| + 1 then head else s[i - 1]
  }

  ghost predicate Linked(next: Links, prev: Links, head: int, s: seq<int>, i: int) {
    0 <= i <= |s| ==>
      && At(head, s, i) in next && next[At(head, s, i)] == At(head, s, i + 1)
      && At(head, s, i + 1) in prev && prev[At(head, s, i + 1)] == At(head, s, i)
  }

  ghost predicate Differ(s: seq<int>, i: int, j: int) {
    0 <= i < j < |s| ==> s[i] != s[j]
  }

  ghost predicate Ring(next: Links, prev: Links, head: int, s: seq<int>) {
    && head !in s
    && (forall i, j :: Differ(s, i, j))
    && (forall i :: Linked(next, prev, head, s, i))
  }

  lemma EmptyRing(next: Links, prev: Links, head: int)
    requires head in next && next[head] == head && head in prev && prev[head] == head
    ensures Ring(next, prev, head, [])
  {
  }

  /** Where the head points. */
  lemma HeadPoints(next: Links, prev: Links, head: int, s: seq<int>)
    requires Ring(next, prev, head, s)
    ensures head in next && head in prev
    ensures if s == [] then next[head] == head && prev[head] == head else next[head] == s[0] && prev[head] == s[|s| - 1]
    ensures (next[head] == head <==> s == []) && (prev[head] == head <==> s == [])
  {
    assert Linked(next, prev, head, s, 0) && Linked(next, prev, head, s, |s|);
    if s != [] { assert s[0] in s && s[|s| - 1] in s; }
  }

  function Cut(s: seq<int>, k: int): seq<int>
    requires 0 <= k < |s|
  {
    s[..k] + s[k + 1..]
  }

  /** The two stores that take a node out. */
  function CutNext(next: Links, prev: Links, e: int): Links
    requires e in next && e in prev
  {
    next[prev[e] := next[e]]
  }

  function CutPrev(next: Links, prev: Links, e: int): Links
    requires e in next && e in prev
  {
    prev[next[e] := prev[e]]
  }

  lemma NodeLinked(next: Links, prev: Links, head: int, s: seq<int>, k: int)
    requires Ring(next, prev, head, s) && 0 <= k < |s|
    ensures s[k] in next && s[k] in prev && next[s[k]] == At(head, s, k + 2) && prev[s[k]] == At(head, s, k)
    ensures next[s[k]] != s[k] && prev[s[k]] != s[k]
  {
    assert Linked(next, prev, head, s, k) && Linked(next, prev, head, s, k + 1);
    assert s[k] in s;
    if k + 1 < |s| { assert Differ(s, k, k + 1); }
    if k > 0 { assert Differ(s, k - 1, k); }
  }

  lemma CutRing(next: Links, prev: Links, head: int, s: seq<int>, k: int)
    requires Ring(next, prev, head, s) && 0 <= k < |s|
    ensures s[k] in next && s[k] in prev
    ensures Ring(CutNext(next, prev, s[k]), CutPrev(next, prev, s[k]), head, Cut(s, k))
  {
    NodeLinked(next, prev, head, s, k);
    var t := Cut(s, k);
    forall i, j ensures Differ(t, i, j) {
      assert Differ(s, if i < k then i else i + 1, if j < k then j else j + 1);
    }
    forall i ensures Linked(CutNext(next, prev, s[k]), CutPrev(next, prev, s[k]), head, t, i) {
      if 0 <= i <= |t| { CutLinked(next, prev, head, s, k, i); }
    }
  }

  lemma CutLinked(next: Links, prev: Links, head: int, s: seq<int>, k: int, i: int)
    requires Ring(next, prev, head, s) && 0 <= k < |s| && 0 <= i < |s|
    requires s[k] in next && s[k] in prev && next[s[k]] == At(head, s, k + 2) && prev[s[k]] == At(head, s, k)
    ensures Linked(CutNext(next, prev, s[k]), CutPrev(next, prev, s[k]), head, Cut(s, k), i)
  {
    var t := Cut(s, k);
    var at := if i < k then i else i + 1;
    assert Linked(next, prev, head, s, at) && Linked(next, prev, head, s, i);
    assert At(head, t, i) == At(head, s, if i <= k then i else i + 1);
    assert At(head, t, i + 1) == At(head, s, if i < k then i + 1 else i + 2);
    if i != k {
      NodesDiffer(head, s, at, k);
      NodesDiffer(head, s, at + 1, k + 2);
    }
  }

  /** Nodes at different places differ, unless both are the head. */
  lemma NodesDiffer(head: int, s: seq<int>, i: int, j: int)
    requires head !in s && (forall a, b :: Differ(s, a, b))
    requires 0 <= i <= |s| + 1 && 0 <= j <= |s| + 1 && i != j && !(i == 0 && j == |s| + 1) && !(j == 0 && i == |s| + 1)
    ensures At(head, s, i) != At(head, s, j)
  {
    assert Differ(s, i - 1, j - 1) && Differ(s, j - 1, i - 1);
    if 1 <= i <= |s| { assert s[i - 1] in s; }
    if 1 <= j <= |s| { assert s[j - 1] in s; }
  }

  /** The four stores that put a node before the head. */
  function PutNext(next: Links, prev: Links, head: int, e: int): Links
    requires head in prev
  {
    next[e := head][prev[head] := e]
  }

  function PutPrev(next: Links, prev: Links, head: int, e: int): Links
    requires head in prev
  {
    prev[e := prev[head]][head := e]
  }

  lemma PutRing(next: Links, prev: Links, head: int, s: seq<int>, e: int)
    requires Ring(next, prev, head, s) && e != head && e !in s
    ensures head in prev && Ring(PutNext(next, prev, head, e), PutPrev(next, prev, head, e), head, s + [e])
  {
    assert Linked(next, prev, head, s, |s|);
    var t := s + [e];
    forall i, j ensures Differ(t, i, j) {
      assert Differ(s, i, j);
      if 0 <= i < |s| { assert s[i] in s; }
    }
    forall i ensures Linked(PutNext(next, prev, head, e), PutPrev(next, prev, head, e), head, t, i) {
      if 0 <= i <= |t| {
        assert Linked(next, prev, head, s, i);
        if i < |s| {
          NodesDiffer(head, s, i, |s|);
          assert s[i] in s;
          if i > 0 { assert s[i - 1] in s; }
        }
      }
    }
  }

  /** Stores to nodes of another ring leave a ring alone. */
  lemma OtherRing(next: Links, prev: Links, next': Links, prev': Links, head: int, s: seq<int>)
    requires Ring(next, prev, head, s)
    requires forall x :: x == head || x in s ==>
               (x in next ==> x in next' && next'[x] == next[x]) && (x in prev ==> x in prev' && prev'[x] == prev[x])
    ensures Ring(next', prev', head, s)
  {
    forall i ensures Linked(next', prev', head, s, i) {
      assert Linked(next, prev, head, s, i);
      if 0 < i <= |s| { assert s[i - 1] in s; }
      if 0 <= i < |s| { assert s[i] in s; }
    }
  }
}
