/** One shard of the cache (util/cache.cc): a hash table, two rings of entries and reference counts. */
module Cache {
  import opened CacheSpec
  import opened HandleTable
  import opened Rings
  import opened Wrappers

  /** The heads of the two rings. */
  const LRU := -1
  const IN_USE := -2

  // ---------------------------------------------------------------- rings

  ghost predicate RingsOk(next: Links, prev: Links, idle: seq<nat>, inUse: seq<nat>) {
    && Ring(next, prev, LRU, idle) && Ring(next, prev, IN_USE, inUse)
    && (forall e :: e in idle ==> e !in inUse)
  }

  lemma {:induction false} WithoutIsCut(s: seq<nat>, k: nat)
    requires k < |s| && forall i, j :: Differ(s, i, j)
    ensures Without(s, s[k]) == Cut(s, k)
  {
    if k == 0 {
      forall i | 0 <= i < |s[1..]| ensures s[1..][i] != s[0] {
        assert Differ(s, 0, i + 1);
      }
      WithoutAbsent(s[1..], s[0]);
    } else {
      forall i, j ensures Differ(s[1..], i, j) {
        assert Differ(s, i + 1, j + 1);
      }
      assert Differ(s, 0, k);
      WithoutIsCut(s[1..], k - 1);
    }
  }

  /** Taking a node out of one ring leaves the other. */
  lemma CutOne(next: Links, prev: Links, head: int, s: seq<nat>, other: int, t: seq<nat>, e: nat)
    requires Ring(next, prev, head, s) && Ring(next, prev, other, t) && head != other && head < 0 && other < 0
    requires e in s && forall x :: x in t ==> x !in s
    ensures e in next && e in prev
    ensures Ring(CutNext(next, prev, e), CutPrev(next, prev, e), head, Without(s, e))
    ensures Ring(CutNext(next, prev, e), CutPrev(next, prev, e), other, t)
    ensures next[e] != e
  {
    var k :| 0 <= k < |s| && s[k] == e;
    CutRing(next, prev, head, s, k);
    WithoutIsCut(s, k);
    NodeLinked(next, prev, head, s, k);
    NodeIsMember(head, s, k);
    NodeIsMember(head, s, k + 2);
    OtherRing(next, prev, CutNext(next, prev, e), CutPrev(next, prev, e), other, t);
  }

  lemma NodeIsMember(head: int, s: seq<nat>, i: nat)
    requires i <= |s| + 1
    ensures At(head, s, i) == head || At(head, s, i) in s
  {
  }

  lemma PutOne(next: Links, prev: Links, head: int, s: seq<nat>, other: int, t: seq<nat>, e: nat)
    requires Ring(next, prev, head, s) && Ring(next, prev, other, t) && head != other && head < 0 && other < 0
    requires e !in s && e !in t && forall x :: x in t ==> x !in s
    ensures head in prev
    ensures Ring(PutNext(next, prev, head, e), PutPrev(next, prev, head, e), head, s + [e])
    ensures Ring(PutNext(next, prev, head, e), PutPrev(next, prev, head, e), other, t)
    ensures prev[head] != e
  {
    PutRing(next, prev, head, s, e);
    HeadPoints(next, prev, head, s);
    if s != [] { assert s[|s| - 1] in s; }
    OtherRing(next, prev, PutNext(next, prev, head, e), PutPrev(next, prev, head, e), other, t);
  }

  // ---------------------------------------------------------------- what a shard stores

  /** Entry e is in the cache, or is on its way in. */
  ghost predicate Inside(s: State, x: int, e: nat)
    requires e < |s.handles|
  {
    Cached(s, e) || e == x
  }

  ghost predicate CountOk(s: State, x: int, refs: seq<nat>, inCache: seq<bool>, inUse: seq<nat>, e: nat) {
    e < |s.handles| == |s.held| == |refs| == |inCache| ==>
      && inCache[e] == Inside(s, x, e)
      && refs[e] == s.held[e] + (if Inside(s, x, e) then 1 else 0)
      && (e in inUse <==> Inside(s, x, e) && s.held[e] > 0)
  }

  ghost predicate CountsOk(s: State, x: int, refs: seq<nat>, inCache: seq<bool>, inUse: seq<nat>) {
    && |s.handles| == |s.held| == |refs| == |inCache|
    && (forall e :: e in inUse ==> e < |s.handles|)
    && (forall e :: CountOk(s, x, refs, inCache, inUse, e))
  }

  /** The hash table has the cached entries. */
  ghost predicate TableOk(s: State, members: set<nat>) {
    && (forall e :: e in members ==> e < |s.handles| && Cached(s, e))
    && (forall k :: k in s.table ==> s.table[k] in members)
  }

  lemma {:induction false} ChargesDrop(s: State, e: nat, n: nat)
    requires IdsOk(s) && n <= |s.handles| && e < |s.handles| && Cached(s, e)
    ensures Charges(Drop(s, e), n) == Charges(s, n) - if e < n then s.handles[e].charge else 0
  {
    if n > 0 { ChargesDrop(s, e, n - 1); }
  }

  lemma {:induction false} ChargesEnter(s: State, e: nat, n: nat)
    requires IdsOk(s) && n <= |s.handles| && e < |s.handles| && s.handles[e].key !in s.table
    ensures Charges(s.(table := s.table[s.handles[e].key := e]), n) ==
            Charges(s, n) + if e < n then s.handles[e].charge else 0
  {
    if n > 0 { ChargesEnter(s, e, n - 1); }
  }

  lemma {:induction false} ChargesSame(s: State, t: State, n: nat)
    requires n <= |s.handles| && s.handles <= t.handles && s.table == t.table
    ensures Charges(s, n) == Charges(t, n)
  {
    if n > 0 { ChargesSame(s, t, n - 1); }
  }

  /** The counts and the usage fit the state, while entry x may be on its way in. */
  ghost predicate Core(s: State, x: int, refs: seq<nat>, inCache: seq<bool>, inUse: seq<nat>, usage: int) {
    && Inv(s) && CountsOk(s, x, refs, inCache, inUse) && x < |s.handles|
    && usage == Usage(s) + if x >= 0 then s.handles[x].charge else 0
  }

  // ---------------------------------------------------------------- how the counts follow

  lemma DropCounts(s: State, x: int, refs: seq<nat>, inCache: seq<bool>, inUse: seq<nat>, e: nat)
    requires Inv(s) && CountsOk(s, x, refs, inCache, inUse) && e < |s.handles| && Cached(s, e) && e != x
    ensures refs[e] == s.held[e] + 1
    ensures CountsOk(Drop(s, e), x, refs[e := refs[e] - 1], inCache[e := false], Without(inUse, e))
  {
    var t := Drop(s, e);
    assert CountOk(s, x, refs, inCache, inUse, e);
    var refs', inCache', inUse' := refs[e := refs[e] - 1], inCache[e := false], Without(inUse, e);
    forall d ensures CountOk(t, x, refs', inCache', inUse', d) {
      assert CountOk(s, x, refs, inCache, inUse, d);
    }
  }

  lemma DropCore(s: State, x: int, refs: seq<nat>, inCache: seq<bool>, inUse: seq<nat>, usage: int, e: nat)
    requires Core(s, x, refs, inCache, inUse, usage) && e < |s.handles| && Cached(s, e) && e != x
    ensures IdsOk(s) && e < |refs| == |inCache| && (e in s.idle || e in inUse)
    ensures s.handles[e].charge <= usage && refs[e] > 0
    ensures Core(Drop(s, e), x, refs[e := refs[e] - 1], inCache[e := false], Without(inUse, e),
                 usage - s.handles[e].charge)
    ensures Drop(s, e).deleted == s.deleted + if refs[e] == 1 then [e] else []
  {
    assert CountOk(s, x, refs, inCache, inUse, e) && PlaceOk(s, e);
    DropCounts(s, x, refs, inCache, inUse, e);
    DropKeeps(s, e);
    ChargesDrop(s, e, |s.handles|);
  }

  lemma TakenCounts(s: State, refs: seq<nat>, inCache: seq<bool>, inUse: seq<nat>, now: seq<nat>, e: nat)
    requires Inv(s) && CountsOk(s, -1, refs, inCache, inUse) && e < |s.handles| && Cached(s, e)
    requires now == if refs[e] == 1 then inUse + [e] else inUse
    ensures CountsOk(Taken(s, s.handles[e].key), -1, refs[e := refs[e] + 1], inCache, now)
  {
    var t := Taken(s, s.handles[e].key);
    assert CountOk(s, -1, refs, inCache, inUse, e);
    var refs' := refs[e := refs[e] + 1];
    forall d ensures CountOk(t, -1, refs', inCache, now, d) {
      assert CountOk(s, -1, refs, inCache, inUse, d);
    }
  }

  lemma TakenCore(s: State, refs: seq<nat>, inCache: seq<bool>, inUse: seq<nat>, usage: int, e: nat)
    requires Core(s, -1, refs, inCache, inUse, usage) && e < |s.handles| && Cached(s, e)
    ensures |refs| == |inCache| == |s.handles| == |s.held| && IdsOk(s) && inCache[e] && (refs[e] == 1 ==> e in s.idle)
    ensures Core(Taken(s, s.handles[e].key), -1, refs[e := refs[e] + 1], inCache,
                 if refs[e] == 1 then inUse + [e] else inUse, usage)
    ensures Taken(s, s.handles[e].key).idle == if refs[e] == 1 then Without(s.idle, e) else s.idle
  {
    assert CountOk(s, -1, refs, inCache, inUse, e) && PlaceOk(s, e);
    TakenCounts(s, refs, inCache, inUse, if refs[e] == 1 then inUse + [e] else inUse, e);
    TakenKeeps(s, s.handles[e].key);
    ChargesSame(s, Taken(s, s.handles[e].key), |s.handles|);
    if refs[e] != 1 { WithoutAbsent(s.idle, e); }
  }

  lemma ReleasedCounts(s: State, refs: seq<nat>, inCache: seq<bool>, inUse: seq<nat>, now: seq<nat>, e: nat)
    requires Inv(s) && CountsOk(s, -1, refs, inCache, inUse) && e < |s.handles| && s.held[e] > 0
    requires now == if inCache[e] && refs[e] == 2 then Without(inUse, e) else inUse
    ensures refs[e] > 0 && CountsOk(Released(s, e), -1, refs[e := refs[e] - 1], inCache, now)
  {
    var t := Released(s, e);
    assert CountOk(s, -1, refs, inCache, inUse, e);
    var refs' := refs[e := refs[e] - 1];
    forall d ensures CountOk(t, -1, refs', inCache, now, d) {
      assert CountOk(s, -1, refs, inCache, inUse, d);
    }
  }

  lemma ReleasedCore(s: State, refs: seq<nat>, inCache: seq<bool>, inUse: seq<nat>, usage: int, e: nat)
    requires Core(s, -1, refs, inCache, inUse, usage) && e < |s.handles| && s.held[e] > 0
    ensures e < |refs| == |inCache| && refs[e] > 0 && (refs[e] == 2 && inCache[e] ==> e in inUse)
    ensures Core(Released(s, e), -1, refs[e := refs[e] - 1], inCache,
                 if inCache[e] && refs[e] == 2 then Without(inUse, e) else inUse, usage)
    ensures Released(s, e).idle == s.idle + if inCache[e] && refs[e] == 2 then [e] else []
    ensures Released(s, e).deleted == s.deleted + if refs[e] == 1 then [e] else []
  {
    assert CountOk(s, -1, refs, inCache, inUse, e) && PlaceOk(s, e);
    ReleasedCounts(s, refs, inCache, inUse, if inCache[e] && refs[e] == 2 then Without(inUse, e) else inUse, e);
    ReleasedKeeps(s, e);
    ChargesSame(s, Released(s, e), |s.handles|);
  }

  /** A new handle: for the client only, or for the client and the cache. */
  lemma GrownCounts(s: State, refs: seq<nat>, inCache: seq<bool>, inUse: seq<nat>, h: Handle, cache: bool)
    requires Inv(s) && CountsOk(s, -1, refs, inCache, inUse)
    ensures var x := |s.handles|;
            CountsOk(s.(handles := s.handles + [h], held := s.held + [1]), if cache then x else -1,
                     refs + [if cache then 2 else 1], inCache + [cache], if cache then inUse + [x] else inUse)
  {
    var n := |s.handles|;
    var x := if cache then n else -1;
    var t := s.(handles := s.handles + [h], held := s.held + [1]);
    var now := if cache then inUse + [n] else inUse;
    var refs', inCache' := refs + [if cache then 2 else 1], inCache + [cache];
    forall d ensures CountOk(t, x, refs', inCache', now, d) {
      assert CountOk(s, -1, refs, inCache, inUse, d);
    }
  }

  lemma GrownCore(s: State, refs: seq<nat>, inCache: seq<bool>, inUse: seq<nat>, usage: int, h: Handle, cache: bool)
    requires Core(s, -1, refs, inCache, inUse, usage)
    ensures var x := |s.handles|;
            Core(s.(handles := s.handles + [h], held := s.held + [1]), if cache then x else -1,
                 refs + [if cache then 2 else 1], inCache + [cache], if cache then inUse + [x] else inUse,
                 usage + if cache then h.charge else 0)
    ensures |s.handles| !in s.idle && |s.handles| !in inUse
  {
    GrownCounts(s, refs, inCache, inUse, h, cache);
    FreshKeeps(s, h);
    ChargesSame(s, s.(handles := s.handles + [h], held := s.held + [1]), |s.handles|);
  }

  /** The entry on its way in is in. */
  lemma EnteredCounts(s: State, x: nat, refs: seq<nat>, inCache: seq<bool>, inUse: seq<nat>)
    requires CountsOk(s, x, refs, inCache, inUse) && x < |s.handles| && s.handles[x].key !in s.table && IdsOk(s)
    ensures CountsOk(s.(table := s.table[s.handles[x].key := x]), -1, refs, inCache, inUse)
  {
    var t := s.(table := s.table[s.handles[x].key := x]);
    forall d ensures CountOk(t, -1, refs, inCache, inUse, d) {
      assert CountOk(s, x, refs, inCache, inUse, d);
    }
  }

  /** Only the cache refers to the least recently released entry. */
  lemma OldestCounts(s: State, refs: seq<nat>, inCache: seq<bool>, inUse: seq<nat>, usage: int)
    requires Core(s, -1, refs, inCache, inUse, usage) && s.idle != []
    ensures var e := Oldest(s); e < |s.handles| && Cached(s, e) && refs[e] == 1
  {
    assert PlaceOk(s, Oldest(s)) && CountOk(s, -1, refs, inCache, inUse, Oldest(s));
  }

  lemma EnteredCore(s: State, x: nat, refs: seq<nat>, inCache: seq<bool>, inUse: seq<nat>, usage: int)
    requires Core(s, x, refs, inCache, inUse, usage) && s.held[x] > 0 && s.handles[x].key !in s.table && s.capacity > 0
    ensures Core(s.(table := s.table[s.handles[x].key := x]), -1, refs, inCache, inUse, usage)
  {
    EnteredCounts(s, x, refs, inCache, inUse);
    EntryKeeps(s, x);
    ChargesEnter(s, x, |s.handles|);
  }

  class LRUCache {
    const capacity: nat
    const table: Table
    ghost const hashOf: Key -> nat

    var handles: seq<Handle>
    var refs: seq<nat>
    var inCache: seq<bool>
    var next: Links
    var prev: Links
    var usage: nat
    /** The handles whose deleter was called. */
    var deleted: seq<nat>

    ghost var idle: seq<nat>
    ghost var inUse: seq<nat>
    ghost var state: State

    /** Everything but the hash table, while entry x may be on its way in. */
    ghost predicate Near(x: int)
      reads this
    {
      && Core(state, x, refs, inCache, inUse, usage)
      && state.capacity == capacity && state.handles == handles && state.idle == idle && state.deleted == deleted
      && RingsOk(next, prev, idle, inUse)
      && HashesOk(handles, hashOf)
    }

    ghost predicate Valid()
      reads this, table
    {
      Near(-1) && table.Valid(handles) && table.Roomy() && TableOk(state, table.members)
    }

    constructor (capacity: nat, ghost hashOf: Key -> nat)
      ensures Valid() && state == Initial(capacity) && this.capacity == capacity && this.hashOf == hashOf &&
              fresh(table)
    {
      this.capacity, this.hashOf := capacity, hashOf;
      table := new Table();
      handles, refs, inCache, usage, deleted := [], [], [], 0, [];
      next, prev := map[LRU := LRU, IN_USE := IN_USE], map[LRU := LRU, IN_USE := IN_USE];
      idle, inUse, state := [], [], Initial(capacity);
      new;
      EmptyRing(next, prev, LRU);
      EmptyRing(next, prev, IN_USE);
    }

    method LruRemove(e: nat)
      requires RingsOk(next, prev, idle, inUse) && (e in idle || e in inUse)
      modifies this`next, this`prev, this`idle, this`inUse
      ensures RingsOk(next, prev, idle, inUse)
      ensures idle == Without(old(idle), e) && inUse == Without(old(inUse), e)
    {
      if e in idle {
        CutOne(next, prev, LRU, idle, IN_USE, inUse, e);
        WithoutAbsent(inUse, e);
      } else {
        CutOne(next, prev, IN_USE, inUse, LRU, idle, e);
        WithoutAbsent(idle, e);
      }
      prev := prev[next[e] := prev[e]];
      next := next[prev[e] := next[e]];
      idle, inUse := Without(idle, e), Without(inUse, e);
    }

    /** Put e in as the newest of the ring. */
    method LruAppend(list: int, e: nat)
      requires RingsOk(next, prev, idle, inUse) && (list == LRU || list == IN_USE) && e !in idle && e !in inUse
      modifies this`next, this`prev, this`idle, this`inUse
      ensures RingsOk(next, prev, idle, inUse)
      ensures idle == old(idle) + if list == LRU then [e] else []
      ensures inUse == old(inUse) + if list == IN_USE then [e] else []
    {
      if list == LRU {
        PutOne(next, prev, LRU, idle, IN_USE, inUse, e);
        idle := idle + [e];
      } else {
        PutOne(next, prev, IN_USE, inUse, LRU, idle, e);
        inUse := inUse + [e];
      }
      next := next[e := list];
      prev := prev[e := prev[list]];
      next := next[prev[e] := e];
      prev := prev[next[e] := e];
    }

    method Ref(e: nat)
      requires RingsOk(next, prev, idle, inUse) && e < |refs| == |inCache|
      requires refs[e] == 1 && inCache[e] ==> e in idle
      modifies this`next, this`prev, this`idle, this`inUse, this`refs
      ensures RingsOk(next, prev, idle, inUse) && refs == old(refs)[e := old(refs)[e] + 1]
      ensures old(refs)[e] == 1 && inCache[e] ==> idle == Without(old(idle), e) && inUse == old(inUse) + [e]
      ensures !(old(refs)[e] == 1 && inCache[e]) ==> idle == old(idle) && inUse == old(inUse)
    {
      if refs[e] == 1 && inCache[e] {
        assert e !in inUse;
        LruRemove(e);
        WithoutAbsent(old(inUse), e);
        LruAppend(IN_USE, e);
      }
      refs := refs[e := refs[e] + 1];
    }

    method Unref(e: nat)
      requires RingsOk(next, prev, idle, inUse) && e < |refs| == |inCache| && refs[e] > 0
      requires refs[e] == 2 && inCache[e] ==> e in inUse
      modifies this`next, this`prev, this`idle, this`inUse, this`refs, this`deleted
      ensures RingsOk(next, prev, idle, inUse) && refs == old(refs)[e := old(refs)[e] - 1]
      ensures deleted == if old(refs)[e] == 1 then old(deleted) + [e] else old(deleted)
      ensures old(refs)[e] == 2 && inCache[e] ==> idle == old(idle) + [e] && inUse == Without(old(inUse), e)
      ensures !(old(refs)[e] == 2 && inCache[e]) ==> idle == old(idle) && inUse == old(inUse)
    {
      refs := refs[e := refs[e] - 1];
      if refs[e] == 0 {
        deleted := deleted + [e];
      } else if inCache[e] && refs[e] == 1 {
        assert e !in idle;
        LruRemove(e);
        WithoutAbsent(old(idle), e);
        LruAppend(LRU, e);
      }
    }

    /** Finish taking an entry out that the hash table no longer has. */
    method FinishErase(r: Option<nat>, ghost x: int) returns (erased: bool)
      requires Near(x) && (r.Some? ==> r.value < |handles| && Cached(state, r.value) && r.value != x)
      modifies this
      ensures Near(x) && handles == old(handles) && erased == r.Some?
      ensures state == if r.Some? then Drop(old(state), r.value) else old(state)
    {
      if r.Some? {
        LeaveCache(r.value, x);
      }
      erased := r.Some?;
    }

    method LeaveCache(e: nat, ghost x: int)
      requires Near(x) && e < |handles| && Cached(state, e) && e != x
      modifies this
      ensures Near(x) && handles == old(handles) && state == Drop(old(state), e)
    {
      hide CountsOk, Ring, HashesOk, Inv;
      DropCore(state, x, refs, inCache, inUse, usage, e);
      state := Drop(state, e);
      LruRemove(e);
      inCache := inCache[e := false];
      usage := usage - handles[e].charge;
      Unref(e);
    }

    method Lookup(key: Key, hash: nat) returns (r: Option<nat>)
      requires Valid() && hash == hashOf(key)
      modifies this
      ensures Valid() && state == Apply(old(state), CacheSpec.Lookup(key))
      ensures r == if key in old(state).table then Some(old(state).table[key]) else None
    {
      hide Inv, CountsOk, Ring, TableOk, HashesOk;
      InvIds(state);
      r := table.Lookup(handles, key, hash, hashOf);
      FoundInTable(state, table.members, key, r);
      if r.Some? {
        var e := r.value;
        TakenCore(state, refs, inCache, inUse, usage, e);
        TakenTable(state, table.members, key);
        Ref(e);
        state := Taken(state, key);
      }
    }

    /** A new entry, held by the client that brings it in; the capacity decides whether the cache keeps it. */
    method Insert(key: Key, hash: nat, value: int, charge: nat) returns (e: nat)
      requires Valid() && hash == hashOf(key)
      modifies this, table
      ensures Valid() && e == |old(state).handles|
      ensures state == Apply(old(state), CacheSpec.Insert(Handle(key, hash, value, charge)))
    {
      var h := Handle(key, hash, value, charge);
      e := |handles|;
      InsertedKeeps(state, h);
      if capacity > 0 {
        Enter(h);
      } else {
        Create(h, false);
      }
      EvictIdle();
    }

    /** The entry itself; if it is to be cached it is in use, but not yet in the hash table. */
    method Create(h: Handle, cache: bool)
      requires Valid() && h.hash == hashOf(h.key)
      modifies this
      ensures Near(if cache then |old(handles)| else -1) && handles == old(handles) + [h]
      ensures state == old(state).(handles := old(state).handles + [h], held := old(state).held + [1])
      ensures table.Valid(handles) && table.Roomy() && TableOk(state, table.members)
    {
      ghost var s := state;
      var e := |handles|;
      GrownCore(state, refs, inCache, inUse, usage, h, cache);
      TableGrows(table, handles, h);
      handles := handles + [h];
      state := s.(handles := s.handles + [h], held := s.held + [1]);
      if cache {
        refs := refs + [2];
        inCache := inCache + [true];
        LruAppend(IN_USE, e);
        usage := usage + h.charge;
      } else {
        refs := refs + [1];
        inCache := inCache + [false];
      }
    }

    method Enter(h: Handle)
      requires Valid() && h.hash == hashOf(h.key) && capacity > 0
      modifies this, table
      ensures Valid() && state == Inserted(old(state), h)
    {
      var e := |handles|;
      Create(h, true);
      GrownDrops(old(state), h);
      Replace(e);
      EnteredCore(state, e, refs, inCache, inUse, usage);
      state := state.(table := state.table[h.key := e]);
    }

    /** The hash table gets entry e; the one that had its key leaves the cache. */
    method Replace(e: nat)
      requires Near(e) && table.Valid(handles) && table.Roomy() && TableOk(state, table.members) && e < |handles|
      requires !Cached(state, e)
      modifies this, table
      ensures Near(e) && table.Valid(handles) && table.Roomy() && handles == old(handles)
      ensures state == Dropped(old(state), handles[e].key)
      ensures TableOk(state.(table := state.table[handles[e].key := e]), table.members)
    {
      ghost var s, members := state, table.members;
      var r := table.Insert(handles, e, hashOf);
      FoundInTable(s, members, handles[e].key, r);
      ReplacedTable(s, members, e, table.members, r);
      var _ := FinishErase(r, e);
    }

    method Release(e: nat)
      requires Valid() && Allowed(state, CacheSpec.Release(e))
      modifies this
      ensures Valid() && state == Apply(old(state), CacheSpec.Release(e))
    {
      hide CountsOk, Ring, HashesOk;
      ReleasedCore(state, refs, inCache, inUse, usage, e);
      state := Released(state, e);
      Unref(e);
    }

    /** Take the entry with this key out of the hash table and out of the cache. */
    method RemoveKey(key: Key, hash: nat) returns (erased: bool)
      requires Valid() && hash == hashOf(key)
      modifies this, table
      ensures Valid() && state == Dropped(old(state), key) && erased == (key in old(state).table)
      ensures handles == old(handles)
    {
      var r := table.Remove(handles, key, hash, hashOf);
      FoundInTable(state, old(table.members), key, r);
      erased := FinishErase(r, -1);
    }

    method Erase(key: Key, hash: nat)
      requires Valid() && hash == hashOf(key)
      modifies this, table
      ensures Valid() && state == Apply(old(state), CacheSpec.Erase(key))
    {
      var _ := RemoveKey(key, hash);
    }

    /** The entry at the front of the ring of idle entries. */
    method RemoveOldest()
      requires Valid() && state.idle != []
      modifies this, table
      ensures Valid() && state == Drop(old(state), Oldest(old(state)))
    {
      HeadPoints(next, prev, LRU, idle);
      var e := next[LRU];
      OldestCounts(state, refs, inCache, inUse, usage);
      assert refs[e] == 1;
      var erased := RemoveKey(handles[e].key, handles[e].hash);
      assert erased;
    }

    /** The loop at the end of Insert. */
    method EvictIdle()
      requires Valid()
      modifies this, table
      ensures Valid() && state == Evict(old(state))
    {
      HeadPoints(next, prev, LRU, idle);
      while usage > capacity && next[LRU] != LRU
        invariant Valid() && Evict(state) == Evict(old(state)) && LRU in next &&
                  (next[LRU] == LRU <==> state.idle == [])
        decreases |state.idle|
      {
        RemoveOldest();
        HeadPoints(next, prev, LRU, idle);
      }
    }

    method Prune()
      requires Valid()
      modifies this, table
      ensures Valid() && state == Apply(old(state), CacheSpec.Prune)
    {
      HeadPoints(next, prev, LRU, idle);
      while next[LRU] != LRU
        invariant Valid() && DropAll(state) == DropAll(old(state)) && LRU in next &&
                  (next[LRU] == LRU <==> state.idle == [])
        decreases |state.idle|
      {
        RemoveOldest();
        HeadPoints(next, prev, LRU, idle);
      }
    }
  }

  /** In a valid cache the usage field is the sum of the cached charges, the counter of an entry counts
      its clients and the cache itself, and counter and flag dictate its place: the ring of idle entries,
      the ring of entries in use, the hash table, or the deleter. */
  lemma CountersFit(c: LRUCache, e: nat)
    requires c.Valid() && e < |c.handles|
    ensures c.usage == Usage(c.state)
    ensures |c.refs| == |c.inCache| == |c.handles| == |c.state.handles| == |c.state.held|
    ensures c.refs[e] == Refs(c.state, e) && c.inCache[e] == Cached(c.state, e)
    ensures Ring(c.next, c.prev, LRU, c.idle) && (e in c.idle <==> c.inCache[e] && c.refs[e] == 1)
    ensures Ring(c.next, c.prev, IN_USE, c.inUse) && (e in c.inUse <==> c.inCache[e] && c.refs[e] > 1)
    ensures e in c.table.members <==> c.inCache[e]
    ensures e in c.deleted <==> c.refs[e] == 0
  {
    hide Ring, HashesOk;
    assert CountOk(c.state, -1, c.refs, c.inCache, c.inUse, e) && PlaceOk(c.state, e);
  }

  /** The key of the new entry is free once the entry that had it is dropped. */
  lemma GrownDrops(s: State, h: Handle)
    requires Inv(s)
    ensures var grown := s.(handles := s.handles + [h], held := s.held + [1]);
            && Inv(grown) && h.key !in Dropped(grown, h.key).table
            && (h.key in grown.table ==> grown.table[h.key] < |s.handles|)
            && Dropped(grown, h.key).held == grown.held && Dropped(grown, h.key).handles == grown.handles
  {
    FreshKeeps(s, h);
  }

  lemma ReplacedTable(s: State, members: set<nat>, e: nat, now: set<nat>, r: Option<nat>)
    requires IdsOk(s) && TableOk(s, members) && e < |s.handles|
    requires r == if s.handles[e].key in s.table then Some(s.table[s.handles[e].key]) else None
    requires now == (if r.Some? then members - {r.value} else members) + {e}
    ensures var t := Dropped(s, s.handles[e].key); TableOk(t.(table := t.table[s.handles[e].key := e]), now)
  {
  }

  lemma TakenTable(s: State, members: set<nat>, key: Key)
    requires TableOk(s, members) && IdsOk(s)
    ensures TableOk(Taken(s, key), members)
  {
  }

  lemma HoldsGrows(list: seq<seq<nat>>, handles: seq<Handle>, members: set<nat>, h: Handle)
    requires Holds(list, handles, members) && KeysDiffer(handles, members)
    ensures Holds(list, handles + [h], members) && KeysDiffer(handles + [h], members)
    ensures |handles| !in members
  {
    forall b, i ensures EntryOk(list, handles + [h], members, b, i) {
      assert EntryOk(list, handles, members, b, i);
    }
    forall e ensures MemberOk(list, handles + [h], members, e) {
      assert MemberOk(list, handles, members, e);
    }
    assert MemberOk(list, handles, members, |handles|);
    forall e, f | e in members && f in members && e < |handles + [h]| && f < |handles + [h]| &&
      (handles + [h])[e].key == (handles + [h])[f].key
      ensures e == f
    {
      assert MemberOk(list, handles, members, e) && MemberOk(list, handles, members, f);
    }
  }

  lemma TableGrows(table: Table, handles: seq<Handle>, h: Handle)
    requires table.Valid(handles)
    ensures table.Valid(handles + [h]) && |handles| !in table.members
  {
    HoldsGrows(table.list, handles, table.members, h);
  }

  /** What the hash table finds is what the map has. */
  lemma FoundInTable(s: State, members: set<nat>, key: Key, r: Option<nat>)
    requires IdsOk(s) && TableOk(s, members)
    requires r.Some? ==> r.value in members && r.value < |s.handles| && s.handles[r.value].key == key
    requires r.None? ==> forall e :: e in members && e < |s.handles| ==> s.handles[e].key != key
    ensures r == if key in s.table then Some(s.table[key]) else None
  {
  }
}
