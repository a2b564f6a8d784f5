/** The list of live snapshots (db/snapshot.h) and the snapshot that a compaction must respect. */
module SnapshotList {
  import opened Rings

  const HEAD := -1

  class List {
    /** The sequence numbers of all snapshots ever taken, live or not. */
    var sequence: seq<nat>
    var next: Links
    var prev: Links
    /** The live ones, in the order in which they were taken. */
    ghost var live: seq<nat>

    ghost predicate Valid()
      reads this
    {
      && Ring(next, prev, HEAD, live)
      && (forall e :: e in live ==> e < |sequence|)
      && (forall i, j :: Ascends(live, sequence, i, j))
    }

    constructor ()
      ensures Valid() && live == [] && sequence == []
    {
      sequence, live := [], [];
      next, prev := map[HEAD := HEAD], map[HEAD := HEAD];
      new;
      EmptyRing(next, prev, HEAD);
    }

    predicate Empty()
      reads this
      requires HEAD in next
    {
      next[HEAD] == HEAD
    }

    lemma EmptyIsEmpty()
      requires Valid()
      ensures HEAD in next && HEAD in prev && (Empty() <==> live == [])
      ensures live != [] ==> next[HEAD] == live[0] && prev[HEAD] == live[|live| - 1]
    {
      HeadPoints(next, prev, HEAD, live);
    }

    /** A snapshot at the latest sequence number, which no snapshot exceeds. */
    method New(sequenceNumber: nat) returns (e: nat)
      requires Valid() && (live != [] ==> Last(live, sequence) <= sequenceNumber)
      modifies this
      ensures Valid() && e == |old(sequence)| && sequence == old(sequence) + [sequenceNumber] && live == old(live) + [e]
    {
      e := |sequence|;
      PutRing(next, prev, HEAD, live, e);
      HeadPoints(next, prev, HEAD, live);
      TakenLast(live, sequence, sequenceNumber);
      if live != [] { assert live[|live| - 1] in live; }
      sequence := sequence + [sequenceNumber];
      next := next[e := HEAD];
      prev := prev[e := prev[HEAD]];
      next := next[prev[e] := e];
      prev := prev[next[e] := e];
      live := live + [e];
    }

    method Delete(e: nat)
      requires Valid() && e in live
      modifies this
      ensures Valid() && sequence == old(sequence)
      ensures forall k :: 0 <= k < |old(live)| && old(live)[k] == e ==> live == old(live)[..k] + old(live)[k + 1..]
      ensures forall d :: d in live <==> d in old(live) && d != e
    {
      ghost var k :| 0 <= k < |live| && live[k] == e;
      CutRing(next, prev, HEAD, live, k);
      NodeLinked(next, prev, HEAD, live, k);
      CutAscends(live, sequence, k);
      CutOut(live, k);
      next := next[prev[e] := next[e]];
      prev := prev[next[e] := prev[e]];
      live := Without(live, k);
    }

    /** The snapshot that DoCompactionWork keeps entries for: no live snapshot is below it. */
    method SmallestSnapshot(lastSequence: nat) returns (s: nat)
      requires Valid() && (live != [] ==> Last(live, sequence) <= lastSequence)
      ensures s <= lastSequence && forall e :: e in live ==> s <= sequence[e]
      ensures s == lastSequence || exists e :: e in live && sequence[e] == s
    {
      EmptyIsEmpty();
      if Empty() {
        return lastSequence;
      }
      assert live[0] in live && live[|live| - 1] in live;
      assert Ascends(live, sequence, 0, |live| - 1);
      s := sequence[next[HEAD]];
      forall e | e in live ensures s <= sequence[e] {
        var i :| 0 <= i < |live| && live[i] == e;
        assert Ascends(live, sequence, 0, i);
      }
    }
  }

  ghost predicate Ascends(live: seq<nat>, sequence: seq<nat>, i: int, j: int) {
    0 <= i < j < |live| && live[i] < |sequence| && live[j] < |sequence| ==> sequence[live[i]] <= sequence[live[j]]
  }

  /** The newest live snapshot. */
  ghost function Last(live: seq<nat>, sequence: seq<nat>): nat
    requires live != []
  {
    if live[|live| - 1] < |sequence| then sequence[live[|live| - 1]] else 0
  }

  ghost function Without(live: seq<nat>, k: nat): (r: seq<nat>)
    requires k < |live|
    ensures r == Cut(live, k)
  {
    live[..k] + live[k + 1..]
  }

  lemma TakenLast(live: seq<nat>, sequence: seq<nat>, number: nat)
    requires forall e :: e in live ==> e < |sequence|
    requires forall i, j :: Ascends(live, sequence, i, j)
    requires live != [] ==> Last(live, sequence) <= number
    ensures forall i, j :: Ascends(live + [|sequence|], sequence + [number], i, j)
    ensures |sequence| !in live
  {
    forall i, j ensures Ascends(live + [|sequence|], sequence + [number], i, j) {
      assert Ascends(live, sequence, i, j) && Ascends(live, sequence, i, |live| - 1);
      if 0 <= i < |live| { assert live[i] in live && live[|live| - 1] in live; }
      if 0 <= j < |live| { assert live[j] in live; }
    }
  }

  lemma CutAscends(live: seq<nat>, sequence: seq<nat>, k: nat)
    requires k < |live| && forall i, j :: Ascends(live, sequence, i, j)
    ensures forall i, j :: Ascends(Without(live, k), sequence, i, j)
  {
    forall i, j ensures Ascends(Without(live, k), sequence, i, j) {
      assert Ascends(live, sequence, if i < k then i else i + 1, if j < k then j else j + 1);
    }
  }

  lemma CutOut(live: seq<nat>, k: nat)
    requires k < |live| && forall i, j :: Differ(live, i, j)
    ensures forall d :: d in Without(live, k) <==> d in live && d != live[k]
    ensures forall i :: 0 <= i < |live| && live[i] == live[k] ==> i == k
  {
    var t := Without(live, k);
    forall d | d in live && d != live[k] ensures d in t {
      var i :| 0 <= i < |live| && live[i] == d;
      assert t[if i < k then i else i - 1] == d;
    }
    forall i | 0 <= i < |live| && live[i] == live[k] ensures i == k {
      assert Differ(live, i, k) && Differ(live, k, i);
    }
    forall d | d in t ensures d in live && d != live[k] {
      var i :| 0 <= i < |t| && t[i] == d;
      assert Differ(live, i, k) && Differ(live, k, i + 1);
    }
  }
}
