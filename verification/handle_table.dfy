/** The hash table of a cache shard (util/cache.cc): buckets that are chains of handles. */
module HandleTable {
  import opened CacheSpec
  import opened Wrappers

  /** hash & (length - 1), where the length is a power of two. */
  function Bucket(hash: nat, length: nat): (b: nat)
    requires length > 0
    ensures b < length
  {
    hash % length
  }

  predicate IsLength(n: nat) {
    n == 4 || (n > 4 && n % 2 == 0 && IsLength(n / 2))
  }

  function Total(list: seq<seq<nat>>): nat {
    if list == [] then 0 else Total(list[..|list| - 1]) + |list[|list| - 1]|
  }

  ghost predicate EntryOk(list: seq<seq<nat>>, handles: seq<Handle>, members: set<nat>, b: int, i: int) {
    0 <= b < |list| && 0 <= i < |list[b]| ==>
      list[b][i] in members && list[b][i] < |handles| && Bucket(handles[list[b][i]].hash, |list|) == b
  }

  ghost predicate MemberOk(list: seq<seq<nat>>, handles: seq<Handle>, members: set<nat>, e: nat) {
    e in members && list != [] ==> e < |handles| && e in list[Bucket(handles[e].hash, |list|)]
  }

  ghost predicate ChainOk(list: seq<seq<nat>>, b: int) {
    0 <= b < |list| ==> Distinct(list[b])
  }

  /** The chains hold the members, each once and in its bucket. */
  ghost predicate Holds(list: seq<seq<nat>>, handles: seq<Handle>, members: set<nat>) {
    && list != []
    && (forall b, i :: EntryOk(list, handles, members, b, i))
    && (forall e :: MemberOk(list, handles, members, e))
    && (forall b :: ChainOk(list, b))
  }

  ghost predicate KeysDiffer(handles: seq<Handle>, members: set<nat>) {
    forall e, f ::
        e in members && f in members && e < |handles| && f < |handles| && handles[e].key == handles[f].key ==> e == f
  }

  ghost predicate HashesOk(handles: seq<Handle>, hashOf: Key -> nat) {
    forall e :: 0 <= e < |handles| ==> handles[e].hash == hashOf(handles[e].key)
  }

  // ---------------------------------------------------------------- one chain changes

  lemma {:induction false} TotalUpdate(list: seq<seq<nat>>, b: nat, chain: seq<nat>)
    requires b < |list|
    ensures Total(list[b := chain]) == Total(list) - |list[b]| + |chain|
  {
    var n := |list| - 1;
    if b < n {
      TotalUpdate(list[..n], b, chain);
      assert list[b := chain][..n] == list[..n][b := chain];
    } else {
      assert list[b := chain][..n] == list[..n];
    }
  }

  /** Replacing one chain by another one with the wanted members. */
  lemma ChainUpdate(list: seq<seq<nat>>, handles: seq<Handle>, members: set<nat>, b: nat, chain: seq<nat>,
                    now: set<nat>)
    requires Holds(list, handles, members) && b < |list| && Distinct(chain)
    requires forall e :: e in chain ==> e in now && e < |handles| && Bucket(handles[e].hash, |list|) == b
    requires forall e :: e in now && e !in chain ==> e in members && e !in list[b]
    requires forall e :: e in members && e !in now ==> e in list[b]
    ensures Holds(list[b := chain], handles, now)
  {
    var t := list[b := chain];
    forall c, i ensures EntryOk(t, handles, now, c, i) {
      assert EntryOk(list, handles, members, c, i);
      if 0 <= c < |t| && 0 <= i < |t[c]| {
        assert t[c][i] in t[c];
        if c != b && list[c][i] in list[b] { ChainMember(list, handles, members, b, list[c][i]); }
      }
    }
    forall e ensures MemberOk(t, handles, now, e) {
      assert MemberOk(list, handles, members, e);
    }
    forall c ensures ChainOk(t, c) {
      assert ChainOk(list, c);
    }
  }

  lemma ChainMember(list: seq<seq<nat>>, handles: seq<Handle>, members: set<nat>, b: nat, e: nat)
    requires Holds(list, handles, members) && b < |list| && e in list[b]
    ensures e in members && e < |handles| && Bucket(handles[e].hash, |list|) == b
  {
    var i :| 0 <= i < |list[b]| && list[b][i] == e;
    assert EntryOk(list, handles, members, b, i);
  }

  lemma AppendUpdate(list: seq<seq<nat>>, handles: seq<Handle>, members: set<nat>, h: nat, front: bool)
    requires Holds(list, handles, members) && h < |handles| && h !in members
    ensures var b := Bucket(handles[h].hash, |list|);
            Holds(list[b := if front then [h] + list[b] else list[b] + [h]], handles, members + {h})
  {
    var b := Bucket(handles[h].hash, |list|);
    var chain := if front then [h] + list[b] else list[b] + [h];
    if h in list[b] { ChainMember(list, handles, members, b, h); }
    assert ChainOk(list, b);
    forall e | e in chain ensures e in members + {h} && e < |handles| && Bucket(handles[e].hash, |list|) == b {
      if e != h { ChainMember(list, handles, members, b, e); }
    }
    DistinctAppend(list[b], h);
    ChainUpdate(list, handles, members, b, chain, members + {h});
  }

  lemma DistinctAppend(s: seq<nat>, h: nat)
    requires Distinct(s) && h !in s
    ensures Distinct([h] + s) && Distinct(s + [h])
  {
  }

  function Replaced(chain: seq<nat>, i: nat, h: nat): seq<nat>
    requires i < |chain|
  {
    chain[i := h]
  }

  lemma DistinctReplace(s: seq<nat>, i: nat, h: nat)
    requires Distinct(s) && i < |s| && h !in s
    ensures Distinct(s[i := h]) && s[i] !in s[i := h]
    ensures forall e :: e in s[i := h] <==> e == h || (e in s && e != s[i])
  {
    var t := s[i := h];
    forall e | e in s && e != s[i] ensures e in t {
      var k :| 0 <= k < |s| && s[k] == e;
      assert t[k] == e;
    }
    assert t[i] == h;
  }

  lemma DistinctCut(s: seq<nat>, i: nat)
    requires Distinct(s) && i < |s|
    ensures Distinct(s[..i] + s[i + 1..]) && s[i] !in s[..i] + s[i + 1..]
    ensures forall e :: e in s[..i] + s[i + 1..] <==> e in s && e != s[i]
  {
    var t := s[..i] + s[i + 1..];
    forall e | e in s && e != s[i] ensures e in t {
      var k :| 0 <= k < |s| && s[k] == e;
      assert t[if k < i then k else k - 1] == e;
    }
  }

  class Table {
    var list: seq<seq<nat>>
    var elems: nat
    ghost var members: set<nat>

    ghost predicate Valid(handles: seq<Handle>)
      reads this
    {
      && IsLength(|list|) && elems == Total(list)
      && Holds(list, handles, members) && KeysDiffer(handles, members)
    }

    /** There are at least as many chains as handles, so that a chain holds one handle on average. */
    ghost predicate Roomy()
      reads this
    {
      elems <= |list|
    }

    constructor ()
      ensures forall handles :: Valid(handles)
      ensures members == {} && Roomy()
    {
      list, elems, members := [[], [], [], []], 0, {};
      new;
      forall handles: seq<Handle> ensures Holds(list, handles, {}) {
        forall b ensures ChainOk(list, b) {}
      }
      TotalOfEmpty(list);
    }

    /** The bucket of the key and its place in the chain, or the end of the chain. */
    method FindPointer(handles: seq<Handle>, key: Key, hash: nat, ghost hashOf: Key -> nat) returns (b: nat, i: nat)
      requires Valid(handles) && HashesOk(handles, hashOf) && hash == hashOf(key)
      ensures b < |list| && b == Bucket(hash, |list|) && i <= |list[b]|
      ensures i < |list[b]| ==> list[b][i] in members && list[b][i] < |handles| && handles[list[b][i]].key == key
      ensures i == |list[b]| ==> forall e :: e in members && e < |handles| ==> handles[e].key != key
    {
      b, i := Bucket(hash, |list|), 0;
      assert EntryOk(list, handles, members, b, 0);
      while i < |list[b]| && (handles[list[b][i]].hash != hash || handles[list[b][i]].key != key)
        invariant i <= |list[b]|
        invariant i < |list[b]| ==> list[b][i] in members && list[b][i] < |handles|
        invariant forall k :: 0 <= k < i ==> list[b][k] < |handles| && handles[list[b][k]].key != key
      {
        i := i + 1;
        assert EntryOk(list, handles, members, b, i);
      }
      forall e | i == |list[b]| && e in members && e < |handles| ensures handles[e].key != key {
        assert MemberOk(list, handles, members, e);
      }
    }

    method Lookup(handles: seq<Handle>, key: Key, hash: nat, ghost hashOf: Key -> nat) returns (r: Option<nat>)
      requires Valid(handles) && HashesOk(handles, hashOf) && hash == hashOf(key)
      ensures r.Some? ==> r.value in members && r.value < |handles| && handles[r.value].key == key
      ensures r.None? ==> forall e :: e in members && e < |handles| ==> handles[e].key != key
    {
      var b, i := FindPointer(handles, key, hash, hashOf);
      r := if i < |list[b]| then Some(list[b][i]) else None;
    }

    /** Handle h takes the place of the one with its key, if there is one. */
    method Insert(handles: seq<Handle>, h: nat, ghost hashOf: Key -> nat) returns (r: Option<nat>)
      requires Valid(handles) && HashesOk(handles, hashOf) && h < |handles| && h !in members
      modifies this
      ensures Valid(handles)
      ensures r.Some? ==>
                r.value in old(members) && r.value < |handles| && handles[r.value].key == handles[h].key &&
                  members == old(members) - {r.value} + {h}
      ensures r.None? ==> members == old(members) + {h} && forall e :: e in old(members) && e < |handles| ==>
                handles[e].key != handles[h].key
      ensures old(Roomy()) ==> Roomy()
    {
      var b, i := FindPointer(handles, handles[h].key, handles[h].hash, hashOf);
      if i < |list[b]| {
        r := Some(list[b][i]);
        ReplaceUpdate(list, handles, members, b, i, h);
        TotalUpdate(list, b, Replaced(list[b], i, h));
        list := list[b := Replaced(list[b], i, h)];
        members := members - {r.value} + {h};
      } else {
        r := None;
        AppendUpdate(list, handles, members, h, false);
        TotalUpdate(list, b, list[b] + [h]);
        list := list[b := list[b] + [h]];
        members := members + {h};
        elems := elems + 1;
        if elems > |list| {
          Resize(handles);
        }
      }
    }

    method Remove(handles: seq<Handle>, key: Key, hash: nat, ghost hashOf: Key -> nat) returns (r: Option<nat>)
      requires Valid(handles) && HashesOk(handles, hashOf) && hash == hashOf(key)
      modifies this
      ensures Valid(handles)
      ensures r.Some? ==>
                r.value in old(members) && r.value < |handles| && handles[r.value].key == key &&
                  members == old(members) - {r.value}
      ensures r.None? ==> members == old(members) && forall e :: e in members && e < |handles| ==> handles[e].key != key
      ensures old(Roomy()) ==> Roomy()
    {
      var b, i := FindPointer(handles, key, hash, hashOf);
      if i == |list[b]| {
        return None;
      }
      r := Some(list[b][i]);
      var chain := list[b][..i] + list[b][i + 1..];
      CutUpdate(list, handles, members, b, i);
      TotalUpdate(list, b, chain);
      list := list[b := chain];
      members := members - {r.value};
      elems := elems - 1;
    }

    /** Every chain is taken apart and put into a table that is long enough. */
    method Resize(handles: seq<Handle>)
      requires Valid(handles)
      modifies this
      ensures Valid(handles) && members == old(members) && elems == old(elems) && |list| >= elems
    {
      var newLength := 4;
      while newLength < elems
        invariant IsLength(newLength)
        decreases elems - newLength
      {
        newLength := newLength * 2;
      }
      var newList := seq(newLength, _ => []);
      var count := 0;
      ghost var done: set<nat> := {};
      TotalOfEmpty(newList);
      for i := 0 to |list|
        invariant unchanged(this) && |newList| == newLength
        invariant Holds(newList, handles, done) && done == Ids(list, i)
        invariant Total(newList) == count == Total(list[..i])
      {
        assert list[..i + 1][..i] == list[..i];
        newList, done := MoveChain(handles, list[i], newList, done, i);
        count := count + |list[i]|;
        IdsStep(list, i);
      }
      assert list[..|list|] == list;
      IdsAreMembers(list, handles, members);
      list := newList;
    }

    /** The inner loop of Resize: each handle of one chain goes to the front of its new chain. */
    method MoveChain(handles: seq<Handle>, chain: seq<nat>, into: seq<seq<nat>>, ghost before: set<nat>, ghost b: nat)
      returns (newList: seq<seq<nat>>, ghost done: set<nat>)
      requires Valid(handles) && b < |list| && chain == list[b] && before == Ids(list, b)
      requires Holds(into, handles, before)
      ensures |newList| == |into| && Total(newList) == Total(into) + |chain|
      ensures done == before + Elements(chain) && Holds(newList, handles, done)
    {
      newList, done := into, before;
      var rest := chain;
      ghost var j := 0;
      while rest != []
        invariant j <= |chain| && rest == chain[j..]
        invariant |newList| == |into| && Total(newList) == Total(into) + j
        invariant done == before + Elements(chain[..j]) && Holds(newList, handles, done)
        decreases |rest|
      {
        var h := rest[0];
        NotYetMoved(list, handles, members, b, j);
        var to := Bucket(handles[h].hash, |newList|);
        AppendUpdate(newList, handles, done, h, true);
        TotalUpdate(newList, to, [h] + newList[to]);
        newList := newList[to := [h] + newList[to]];
        done := done + {h};
        assert chain[..j + 1] == chain[..j] + [h];
        rest, j := rest[1..], j + 1;
      }
      assert chain[..|chain|] == chain;
    }
  }

  ghost function Elements(chain: seq<nat>): set<nat> {
    set e | e in chain
  }

  ghost function Ids(list: seq<seq<nat>>, n: nat): (r: set<nat>)
    requires n <= |list|
  {
    if n == 0 then {} else Ids(list, n - 1) + Elements(list[n - 1])
  }

  lemma IdsStep(list: seq<seq<nat>>, i: nat)
    requires i < |list|
    ensures Ids(list, i + 1) == Ids(list, i) + Elements(list[i])
  {
  }

  lemma {:induction false} IdsAreIn(list: seq<seq<nat>>, n: nat, e: nat)
    requires n <= |list|
    ensures e in Ids(list, n) <==> exists b :: 0 <= b < n && e in list[b]
  {
    if n > 0 { IdsAreIn(list, n - 1, e); }
  }

  lemma IdsAreMembers(list: seq<seq<nat>>, handles: seq<Handle>, members: set<nat>)
    requires Holds(list, handles, members)
    ensures Ids(list, |list|) == members
  {
    forall e ensures e in Ids(list, |list|) <==> e in members {
      IdsAreIn(list, |list|, e);
      assert MemberOk(list, handles, members, e);
      if b :| 0 <= b < |list| && e in list[b] { ChainMember(list, handles, members, b, e); }
    }
  }

  lemma NotYetMoved(list: seq<seq<nat>>, handles: seq<Handle>, members: set<nat>, b: nat, j: nat)
    requires Holds(list, handles, members) && b < |list| && j < |list[b]|
    ensures list[b][j] < |handles| && list[b][j] !in Ids(list, b) && list[b][j] !in list[b][..j]
  {
    var h := list[b][j];
    assert EntryOk(list, handles, members, b, j) && ChainOk(list, b);
    IdsAreIn(list, b, h);
    if c :| 0 <= c < b && h in list[c] { ChainMember(list, handles, members, c, h); }
  }

  lemma {:induction false} TotalOfEmpty(list: seq<seq<nat>>)
    requires forall b :: 0 <= b < |list| ==> list[b] == []
    ensures Total(list) == 0
  {
    if list != [] { TotalOfEmpty(list[..|list| - 1]); }
  }

  lemma ReplaceUpdate(list: seq<seq<nat>>, handles: seq<Handle>, members: set<nat>, b: nat, i: nat, h: nat)
    requires Holds(list, handles, members) && h < |handles| && h !in members
    requires b < |list| && b == Bucket(handles[h].hash, |list|) && i < |list[b]|
    ensures Holds(list[b := Replaced(list[b], i, h)], handles, members - {list[b][i]} + {h})
  {
    hide Bucket;
    var was, chain, now := list[b], Replaced(list[b], i, h), members - {list[b][i]} + {h};
    if h in was { ChainMember(list, handles, members, b, h); }
    assert ChainOk(list, b);
    DistinctReplace(was, i, h);
    forall e | e in was ensures e in members && e < |handles| && Bucket(handles[e].hash, |list|) == b {
      ChainMember(list, handles, members, b, e);
    }
    forall e | e in chain ensures e in now && e < |handles| && Bucket(handles[e].hash, |list|) == b {
      assert e == h || (e in was && e != was[i]);
    }
    hide Holds;
    ChainUpdate(list, handles, members, b, chain, now);
  }

  lemma CutUpdate(list: seq<seq<nat>>, handles: seq<Handle>, members: set<nat>, b: nat, i: nat)
    requires Holds(list, handles, members) && b < |list| && i < |list[b]|
    ensures Holds(list[b := list[b][..i] + list[b][i + 1..]], handles, members - {list[b][i]})
  {
    var chain := list[b][..i] + list[b][i + 1..];
    assert ChainOk(list, b);
    DistinctCut(list[b], i);
    forall e | e in list[b] ensures e in members && e < |handles| && Bucket(handles[e].hash, |list|) == b {
      ChainMember(list, handles, members, b, e);
    }
    forall e | e in chain ensures e in list[b] {
      var k :| 0 <= k < |chain| && chain[k] == e;
      assert e == list[b][if k < i then k else k + 1];
    }
    ChainUpdate(list, handles, members, b, chain, members - {list[b][i]});
  }
}
