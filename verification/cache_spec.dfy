/** What a cache shard promises (util/cache.cc): a bounded map whose entries are counted by reference. */
module CacheSpec {
  import opened Wrappers

  type Key = seq<int>

  datatype Handle = Handle(key: Key, hash: nat, value: int, charge: nat)

  /** Handles are numbered in the order of their insertion.  `table` is what the cache holds, `idle` the
      entries that no client uses, least recently released first, `held` how many references clients have
      to each handle, and `deleted` the handles whose deleter has run, in that order. */
  datatype State = State(capacity: nat, handles: seq<Handle>, table: map<Key, nat>, idle: seq<nat>,
                         held: seq<nat>, deleted: seq<nat>)

  datatype Op =
    | Insert(entry: Handle)
    | Lookup(key: Key)
    | Release(handle: nat)
    | Erase(key: Key)
    | Prune

  function Initial(capacity: nat): State {
    State(capacity, [], map[], [], [], [])
  }

  predicate Cached(s: State, e: nat)
    requires e < |s.handles|
  {
    s.handles[e].key in s.table && s.table[s.handles[e].key] == e
  }

  /** References to a handle, the cache's own included. */
  function Refs(s: State, e: nat): nat
    requires e < |s.handles| == |s.held|
  {
    s.held[e] + if Cached(s, e) then 1 else 0
  }

  /** The charges of the cached ones among the first n handles. */
  function Charges(s: State, n: nat): nat
    requires n <= |s.handles|
  {
    if n == 0 then 0 else Charges(s, n - 1) + if Cached(s, n - 1) then s.handles[n - 1].charge else 0
  }

  function Usage(s: State): nat {
    Charges(s, |s.handles|)
  }

  function Without(list: seq<nat>, e: nat): (r: seq<nat>)
    ensures |r| <= |list| && (e in list ==> |r| < |list|)
    ensures forall x :: x in r <==> x in list && x != e
  {
    if list == [] then [] else
      if list[0] == e then Without(list[1..], e) else [list[0]] + Without(list[1..], e)
  }

  /** The cache gives up an entry; the handle goes when no client holds it. */
  function Drop(s: State, e: nat): State
    requires e < |s.handles| == |s.held|
  {
    s.(table := s.table - {s.handles[e].key}, idle := Without(s.idle, e),
       deleted := if s.held[e] == 0 then s.deleted + [e] else s.deleted)
  }

  predicate IdsOk(s: State) {
    && |s.held| == |s.handles|
    && (forall k :: k in s.table ==> s.table[k] < |s.handles| && s.handles[s.table[k]].key == k)
    && (forall e :: e in s.idle ==> e < |s.handles|)
  }

  function Oldest(s: State): (e: nat)
    requires s.idle != []
    ensures e in s.idle && e == s.idle[0]
  {
    assert s.idle[0] in s.idle;
    s.idle[0]
  }

  /** Entries go, the least recently released first, until the rest fits. */
  function Evict(s: State): (r: State)
    requires IdsOk(s)
    ensures IdsOk(r)
    decreases |s.idle|
  {
    if Usage(s) > s.capacity && s.idle != [] then Evict(Drop(s, Oldest(s))) else s
  }

  function DropAll(s: State): (r: State)
    requires IdsOk(s)
    ensures IdsOk(r)
    decreases |s.idle|
  {
    if s.idle != [] then DropAll(Drop(s, Oldest(s))) else s
  }

  function Dropped(s: State, key: Key): State
    requires IdsOk(s)
  {
    if key in s.table then Drop(s, s.table[key]) else s
  }

  function Inserted(s: State, h: Handle): State
    requires IdsOk(s)
  {
    var grown := s.(handles := s.handles + [h], held := s.held + [1]);
    if s.capacity == 0 then grown else
      var rest := Dropped(grown, h.key);
      rest.(table := rest.table[h.key := |s.handles|])
  }

  function Taken(s: State, key: Key): State
    requires IdsOk(s)
  {
    if key !in s.table then s else
      var e := s.table[key];
      s.(held := s.held[e := s.held[e] + 1], idle := Without(s.idle, e))
  }

  function Released(s: State, e: nat): State
    requires e < |s.handles| == |s.held| && s.held[e] > 0
  {
    var t := s.(held := s.held[e := s.held[e] - 1]);
    if t.held[e] > 0 then t
    else if Cached(s, e) then t.(idle := t.idle + [e])
    else t.(deleted := t.deleted + [e])
  }

  /** What clients may ask for: only handles they hold are released. */
  predicate Allowed(s: State, op: Op) {
    |s.held| == |s.handles| && (op.Release? ==> op.handle < |s.held| && s.held[op.handle] > 0)
  }

  ghost function Apply(s: State, op: Op): State
    requires Inv(s) && Allowed(s, op)
  {
    match op
    case Insert(h) => InsertedIds(s, h); Evict(Inserted(s, h))
    case Lookup(key) => Taken(s, key)
    case Release(e) => Released(s, e)
    case Erase(key) => Dropped(s, key)
    case Prune => DropAll(s)
  }

  // ---------------------------------------------------------------- the invariant

  /** Every handle is in exactly one place: in use, idle, held outside the cache, or deleted. */
  ghost predicate PlaceOk(s: State, e: nat) {
    e < |s.handles| == |s.held| ==>
      && (e in s.idle <==> Cached(s, e) && s.held[e] == 0)
      && (e in s.deleted <==> Refs(s, e) == 0)
  }

  ghost predicate Distinct(list: seq<nat>) {
    forall i, j :: 0 <= i < j < |list| ==> list[i] != list[j]
  }

  ghost predicate Inv(s: State) {
    && IdsOk(s)
    && (forall e :: e in s.deleted ==> e < |s.handles|)
    && (forall e :: PlaceOk(s, e))
    && Distinct(s.idle) && Distinct(s.deleted)
    && (s.capacity == 0 ==> s.table == map[])
  }

  lemma InvIds(s: State)
    requires Inv(s)
    ensures IdsOk(s)
  {
  }

  lemma InsertedIds(s: State, h: Handle)
    requires Inv(s)
    ensures IdsOk(Inserted(s, h))
  {
  }

  lemma {:induction false} WithoutDistinct(list: seq<nat>, e: nat)
    requires Distinct(list)
    ensures Distinct(Without(list, e))
  {
    if list != [] {
      assert Distinct(list[1..]);
      WithoutDistinct(list[1..], e);
      var rest := Without(list[1..], e);
      forall i | 0 <= i < |rest| ensures rest[i] != list[0] {
        assert rest[i] in rest && rest[i] in list[1..];
      }
    }
  }

  lemma {:induction false} WithoutAbsent(list: seq<nat>, e: nat)
    requires e !in list
    ensures Without(list, e) == list
  {
    if list != [] {
      WithoutAbsent(list[1..], e);
    }
  }

  lemma WithoutFirst(list: seq<nat>)
    requires Distinct(list) && list != []
    ensures Without(list, list[0]) == list[1..]
  {
    assert list[0] !in list[1..];
    WithoutAbsent(list[1..], list[0]);
  }

  lemma DropKeeps(s: State, e: nat)
    requires Inv(s) && e < |s.handles| && Cached(s, e)
    ensures Inv(Drop(s, e))
  {
    var t := Drop(s, e);
    WithoutDistinct(s.idle, e);
    assert PlaceOk(s, e);
    forall x ensures PlaceOk(t, x) {
      assert PlaceOk(s, x);
    }
  }

  /** The least recently released entry is in the cache, and dropping it runs its deleter. */
  lemma OldestDrops(s: State)
    requires Inv(s) && s.idle != []
    ensures var t := Drop(s, Oldest(s));
            Inv(t) && t.idle == s.idle[1..] && t.deleted == s.deleted + [s.idle[0]] && t.capacity == s.capacity
  {
    assert PlaceOk(s, Oldest(s));
    DropKeeps(s, Oldest(s));
    WithoutFirst(s.idle);
  }

  lemma {:induction false} EvictKeeps(s: State)
    requires Inv(s)
    ensures Inv(Evict(s))
    decreases |s.idle|
  {
    if Usage(s) > s.capacity && s.idle != [] {
      OldestDrops(s);
      EvictKeeps(Drop(s, Oldest(s)));
    }
  }

  lemma {:induction false} DropAllKeeps(s: State)
    requires Inv(s)
    ensures Inv(DropAll(s)) && DropAll(s).idle == []
    decreases |s.idle|
  {
    if s.idle != [] {
      OldestDrops(s);
      DropAllKeeps(Drop(s, Oldest(s)));
    }
  }

  lemma DroppedKeeps(s: State, key: Key)
    requires Inv(s)
    ensures Inv(Dropped(s, key)) && key !in Dropped(s, key).table
  {
    if key in s.table { DropKeeps(s, s.table[key]); }
  }

  lemma FreshKeeps(s: State, h: Handle)
    requires Inv(s)
    ensures Inv(s.(handles := s.handles + [h], held := s.held + [1]))
  {
    var t := s.(handles := s.handles + [h], held := s.held + [1]);
    forall x ensures PlaceOk(t, x) {
      assert PlaceOk(s, x);
    }
  }

  lemma EntryKeeps(s: State, e: nat)
    requires Inv(s) && e < |s.handles| && s.held[e] > 0 && s.handles[e].key !in s.table && s.capacity > 0
    ensures Inv(s.(table := s.table[s.handles[e].key := e]))
  {
    var t := s.(table := s.table[s.handles[e].key := e]);
    forall x ensures PlaceOk(t, x) {
      assert PlaceOk(s, x);
    }
  }

  lemma InsertedKeeps(s: State, h: Handle)
    requires Inv(s)
    ensures Inv(Inserted(s, h))
  {
    var grown := s.(handles := s.handles + [h], held := s.held + [1]);
    FreshKeeps(s, h);
    if s.capacity > 0 {
      DroppedKeeps(grown, h.key);
      EntryKeeps(Dropped(grown, h.key), |s.handles|);
    }
  }

  lemma TakenKeeps(s: State, key: Key)
    requires Inv(s)
    ensures Inv(Taken(s, key))
  {
    if key in s.table {
      var e, t := s.table[key], Taken(s, key);
      WithoutDistinct(s.idle, e);
      forall x ensures PlaceOk(t, x) {
        assert PlaceOk(s, x);
      }
    }
  }

  lemma ReleasedKeeps(s: State, e: nat)
    requires Inv(s) && e < |s.handles| && s.held[e] > 0
    ensures Inv(Released(s, e))
  {
    var t := Released(s, e);
    assert PlaceOk(s, e);
    forall x ensures PlaceOk(t, x) {
      assert PlaceOk(s, x);
    }
  }

  /** Every operation keeps the invariant. */
  lemma ApplyKeeps(s: State, op: Op)
    requires Inv(s) && Allowed(s, op)
    ensures Inv(Apply(s, op))
  {
    match op
    case Insert(h) =>
      InsertedKeeps(s, h);
      EvictKeeps(Inserted(s, h));
    case Lookup(key) => TakenKeeps(s, key);
    case Release(e) => ReleasedKeeps(s, e);
    case Erase(key) => DroppedKeeps(s, key);
    case Prune => DropAllKeeps(s);
  }

  // ---------------------------------------------------------------- eviction

  /** The state after the k least recently released entries are gone. */
  function DropOldest(s: State, k: nat): State
    requires IdsOk(s)
    decreases k
  {
    if k == 0 || s.idle == [] then s else DropOldest(Drop(s, Oldest(s)), k - 1)
  }

  lemma PrefixSteps(deleted: seq<nat>, idle: seq<nat>, k: nat)
    requires 0 < k <= |idle|
    ensures (deleted + [idle[0]]) + idle[1..][..k - 1] == deleted + idle[..k]
    ensures idle[1..][k - 1..] == idle[k..]
  {
  }

  lemma {:induction false} DropOldestTakesPrefix(s: State, k: nat)
    requires Inv(s) && k <= |s.idle|
    ensures DropOldest(s, k).idle == s.idle[k..] && DropOldest(s, k).deleted == s.deleted + s.idle[..k]
    decreases k
  {
    if k > 0 {
      OldestDrops(s);
      DropOldestTakesPrefix(Drop(s, Oldest(s)), k - 1);
      PrefixSteps(s.deleted, s.idle, k);
    }
  }

  /** How many entries go. */
  function EvictCount(s: State): (k: nat)
    requires IdsOk(s)
    ensures k <= |s.idle|
    decreases |s.idle|
  {
    if Usage(s) > s.capacity && s.idle != [] then EvictCount(Drop(s, Oldest(s))) + 1 else 0
  }

  lemma {:induction false} EvictIsDropOldest(s: State)
    requires IdsOk(s)
    ensures Evict(s) == DropOldest(s, EvictCount(s))
    ensures Usage(Evict(s)) <= Evict(s).capacity || Evict(s).idle == []
    decreases |s.idle|
  {
    if Usage(s) > s.capacity && s.idle != [] { EvictIsDropOldest(Drop(s, Oldest(s))); }
  }

  lemma {:induction false} FewerDoNotFit(s: State, j: nat)
    requires IdsOk(s) && j < EvictCount(s)
    ensures Usage(DropOldest(s, j)) > s.capacity
    decreases j
  {
    if j > 0 { FewerDoNotFit(Drop(s, Oldest(s)), j - 1); }
  }

  /** Eviction takes the least recently released entries and no more of them than it must: what is left
      fits or is all in use, and with fewer of them gone it did not fit. */
  lemma EvictsOldest(s: State)
    requires Inv(s)
    ensures var k := EvictCount(s);
            && Evict(s) == DropOldest(s, k)
            && Evict(s).idle == s.idle[k..] && Evict(s).deleted == s.deleted + s.idle[..k]
            && (Usage(Evict(s)) <= Evict(s).capacity || Evict(s).idle == [])
    ensures forall j :: 0 <= j < EvictCount(s) ==> Usage(DropOldest(s, j)) > s.capacity
  {
    EvictIsDropOldest(s);
    DropOldestTakesPrefix(s, EvictCount(s));
    forall j | 0 <= j < EvictCount(s) ensures Usage(DropOldest(s, j)) > s.capacity {
      FewerDoNotFit(s, j);
    }
  }

  // ---------------------------------------------------------------- whole runs

  /** The state after a run; what clients may not ask for is not done. */
  ghost function After(capacity: nat, ops: seq<Op>): (s: State)
    ensures Inv(s) && s.capacity == capacity
  {
    if ops == [] then Initial(capacity) else
      var n := |ops| - 1;
      var before := After(capacity, ops[..n]);
      if Allowed(before, ops[n]) then
        ApplyKeeps(before, ops[n]);
        ApplyCapacity(before, ops[n]);
        Apply(before, ops[n])
      else before
  }

  lemma {:induction false} EvictFrame(s: State)
    requires IdsOk(s)
    ensures var r := Evict(s);
            r.capacity == s.capacity && r.handles == s.handles && r.held == s.held && s.deleted <= r.deleted
    decreases |s.idle|
  {
    if Usage(s) > s.capacity && s.idle != [] { EvictFrame(Drop(s, Oldest(s))); }
  }

  lemma {:induction false} DropAllFrame(s: State)
    requires IdsOk(s)
    ensures var r := DropAll(s);
            r.capacity == s.capacity && r.handles == s.handles && r.held == s.held && s.deleted <= r.deleted
    decreases |s.idle|
  {
    if s.idle != [] { DropAllFrame(Drop(s, Oldest(s))); }
  }

  /** Handles only grow, deleters that ran have run, and the capacity stays. */
  lemma ApplyFrame(s: State, op: Op)
    requires Inv(s) && Allowed(s, op)
    ensures var r := Apply(s, op); r.capacity == s.capacity && s.handles <= r.handles && s.deleted <= r.deleted
  {
    match op
    case Insert(h) => InsertedIds(s, h); EvictFrame(Inserted(s, h));
    case Lookup(key) =>
    case Release(e) =>
    case Erase(key) =>
    case Prune => DropAllFrame(s);
  }

  lemma ApplyCapacity(s: State, op: Op)
    requires Inv(s) && Allowed(s, op)
    ensures Apply(s, op).capacity == s.capacity
  {
    ApplyFrame(s, op);
  }

  /** A deleter runs once, exactly when the last reference goes. */
  lemma DeletedOnce(capacity: nat, ops: seq<Op>, e: nat)
    requires e < |After(capacity, ops).handles|
    ensures var s := After(capacity, ops);
            && Distinct(s.deleted)
            && (e in s.deleted <==> Refs(s, e) == 0)
            && (s.held[e] > 0 ==> e !in s.deleted)
  {
    assert PlaceOk(After(capacity, ops), e);
  }

  /** After an insertion the cache fits, or nothing in it can be evicted. */
  lemma InsertFits(s: State, h: Handle)
    requires Inv(s)
    ensures var r := Apply(s, Insert(h)); Usage(r) <= r.capacity || r.idle == []
  {
    InsertedKeeps(s, h);
    EvictFrame(Inserted(s, h));
    EvictsOldest(Inserted(s, h));
  }

  /** How many steps had been taken when the handle was last released; 0 if never. */
  ghost function LastRelease(capacity: nat, ops: seq<Op>, e: nat): (n: nat)
    ensures n <= |ops|
  {
    if ops == [] then 0
    else if ops[|ops| - 1] == Release(e) && Allowed(After(capacity, ops[..|ops| - 1]), ops[|ops| - 1]) then |ops|
    else LastRelease(capacity, ops[..|ops| - 1], e)
  }

  ghost predicate ReleasedBefore(capacity: nat, ops: seq<Op>, list: seq<nat>, i: int, j: int) {
    0 <= i < j < |list| ==> LastRelease(capacity, ops, list[i]) < LastRelease(capacity, ops, list[j])
  }

  ghost predicate InReleaseOrder(capacity: nat, ops: seq<Op>, list: seq<nat>) {
    forall i, j :: ReleasedBefore(capacity, ops, list, i, j)
  }

  lemma WithoutOrdered(capacity: nat, ops: seq<Op>, list: seq<nat>, e: nat)
    requires InReleaseOrder(capacity, ops, list)
    ensures InReleaseOrder(capacity, ops, Without(list, e))
    decreases list
  {
    if list != [] {
      forall i, j ensures ReleasedBefore(capacity, ops, list[1..], i, j) {
        assert ReleasedBefore(capacity, ops, list, i + 1, j + 1);
      }
      WithoutOrdered(capacity, ops, list[1..], e);
      var r, rest := Without(list, e), Without(list[1..], e);
      forall i, j ensures ReleasedBefore(capacity, ops, r, i, j) {
        if list[0] == e {
          assert ReleasedBefore(capacity, ops, rest, i, j);
        } else if 0 < i < j < |r| {
          assert ReleasedBefore(capacity, ops, rest, i - 1, j - 1);
        } else if 0 == i < j < |r| {
          assert rest[j - 1] in rest;
          var at :| 0 <= at < |list[1..]| && list[1..][at] == rest[j - 1];
          assert ReleasedBefore(capacity, ops, list, 0, at + 1);
        }
      }
    }
  }

  lemma SuffixOrdered(capacity: nat, ops: seq<Op>, list: seq<nat>, k: nat)
    requires InReleaseOrder(capacity, ops, list) && k <= |list|
    ensures InReleaseOrder(capacity, ops, list[k..])
  {
    forall i, j ensures ReleasedBefore(capacity, ops, list[k..], i, j) {
      assert ReleasedBefore(capacity, ops, list, i + k, j + k);
    }
  }

  /** A step that releases none of these leaves their order. */
  lemma OrderStays(capacity: nat, ops: seq<Op>, list: seq<nat>)
    requires ops != [] && InReleaseOrder(capacity, ops[..|ops| - 1], list)
    requires forall e :: e in list ==>
               !(ops[|ops| - 1] == Release(e) && Allowed(After(capacity, ops[..|ops| - 1]), Release(e)))
    ensures InReleaseOrder(capacity, ops, list)
  {
    forall i, j ensures ReleasedBefore(capacity, ops, list, i, j) {
      assert ReleasedBefore(capacity, ops[..|ops| - 1], list, i, j);
      if 0 <= i < j < |list| { assert list[i] in list && list[j] in list; }
    }
  }

  /** A handle that was just released comes behind all others. */
  lemma ReleasedIsNewest(capacity: nat, ops: seq<Op>, list: seq<nat>, e: nat)
    requires ops != [] && InReleaseOrder(capacity, ops, list) && e !in list
    requires ops[|ops| - 1] == Release(e) && Allowed(After(capacity, ops[..|ops| - 1]), Release(e))
    ensures InReleaseOrder(capacity, ops, list + [e])
  {
    forall i, j ensures ReleasedBefore(capacity, ops, list + [e], i, j) {
      assert ReleasedBefore(capacity, ops, list, i, j);
      if 0 <= i < j == |list| { assert list[i] in list; }
    }
  }

  /** At the end of every run the entries that can be evicted stand in the order of their last release, so
      that eviction, which takes them from the front, takes the least recently released. */
  lemma {:induction false} IdleInReleaseOrder(capacity: nat, ops: seq<Op>)
    ensures InReleaseOrder(capacity, ops, After(capacity, ops).idle)
  {
    if ops != [] {
      var n := |ops| - 1;
      var s, op := After(capacity, ops[..n]), ops[n];
      IdleInReleaseOrder(capacity, ops[..n]);
      if Allowed(s, op) {
        StepKeepsOrder(capacity, ops, s, op);
      } else {
        OrderStays(capacity, ops, s.idle);
      }
    }
  }

  lemma StepKeepsOrder(capacity: nat, ops: seq<Op>, s: State, op: Op)
    requires ops != [] && s == After(capacity, ops[..|ops| - 1]) && op == ops[|ops| - 1] && Allowed(s, op)
    requires InReleaseOrder(capacity, ops[..|ops| - 1], s.idle)
    ensures InReleaseOrder(capacity, ops, Apply(s, op).idle)
  {
    match op
    case Insert(h) =>
      OrderStays(capacity, ops, s.idle);
      InsertKeepsOrder(capacity, ops, s, h);
    case Lookup(key) =>
      OrderStays(capacity, ops, s.idle);
      if key in s.table { WithoutOrdered(capacity, ops, s.idle, s.table[key]); }
    case Release(e) =>
      assert PlaceOk(s, e);
      OrderStays(capacity, ops, s.idle);
      if Released(s, e).idle != s.idle { ReleasedIsNewest(capacity, ops, s.idle, e); }
    case Erase(key) =>
      OrderStays(capacity, ops, s.idle);
      if key in s.table { WithoutOrdered(capacity, ops, s.idle, s.table[key]); }
    case Prune =>
      DropAllKeeps(s);
  }

  lemma InsertKeepsOrder(capacity: nat, ops: seq<Op>, s: State, h: Handle)
    requires Inv(s) && InReleaseOrder(capacity, ops, s.idle)
    ensures InReleaseOrder(capacity, ops, Apply(s, Insert(h)).idle)
  {
    InsertedKeeps(s, h);
    var t := Inserted(s, h);
    if s.capacity > 0 && h.key in s.table { WithoutOrdered(capacity, ops, s.idle, s.table[h.key]); }
    EvictsOldest(t);
    SuffixOrdered(capacity, ops, t.idle, EvictCount(t));
  }

  // ---------------------------------------------------------------- as a map

  /** What a map without bounds would hold under the key: the latest insertion, unless erased since. */
  ghost function Latest(capacity: nat, ops: seq<Op>, key: Key): Option<nat> {
    if ops == [] then None
    else
      match ops[|ops| - 1]
      case Insert(h) =>
        if h.key == key && capacity > 0 then Some(|After(capacity, ops[..|ops| - 1]).handles|)
          else Latest(capacity, ops[..|ops| - 1], key)
      case Erase(k) => if k == key then None else Latest(capacity, ops[..|ops| - 1], key)
      case Lookup(_) => Latest(capacity, ops[..|ops| - 1], key)
      case Release(_) => Latest(capacity, ops[..|ops| - 1], key)
      case Prune => Latest(capacity, ops[..|ops| - 1], key)
  }

  lemma {:induction false} EvictShrinks(s: State)
    requires IdsOk(s)
    ensures forall k :: k in Evict(s).table ==> k in s.table && s.table[k] == Evict(s).table[k]
    decreases |s.idle|
  {
    if Usage(s) > s.capacity && s.idle != [] { EvictShrinks(Drop(s, Oldest(s))); }
  }

  lemma {:induction false} DropAllShrinks(s: State)
    requires IdsOk(s)
    ensures forall k :: k in DropAll(s).table ==> k in s.table && s.table[k] == DropAll(s).table[k]
    decreases |s.idle|
  {
    if s.idle != [] { DropAllShrinks(Drop(s, Oldest(s))); }
  }

  /** Every step but an insertion only takes keys away. */
  lemma StepShrinks(s: State, op: Op, key: Key)
    requires Inv(s) && Allowed(s, op) && key in Apply(s, op).table
    ensures match op
            case Insert(h) =>
              if h.key == key then Apply(s, op).table[key] == |s.handles|
              else key in s.table && s.table[key] == Apply(s, op).table[key]
            case Lookup(_) => key in s.table && s.table[key] == Apply(s, op).table[key]
            case Release(_) => key in s.table && s.table[key] == Apply(s, op).table[key]
            case Erase(k) => k != key && key in s.table && s.table[key] == Apply(s, op).table[key]
            case Prune => key in s.table && s.table[key] == Apply(s, op).table[key]
  {
    match op
    case Insert(h) => InsertedIds(s, h); EvictShrinks(Inserted(s, h));
    case Lookup(k) =>
    case Release(e) =>
    case Erase(k) =>
    case Prune => DropAllShrinks(s);
  }

  /** In every run a lookup that hits finds the latest insertion under its key. */
  lemma {:induction false} HitIsLatest(capacity: nat, ops: seq<Op>, key: Key)
    requires key in After(capacity, ops).table
    ensures Latest(capacity, ops, key) == Some(After(capacity, ops).table[key])
    ensures After(capacity, ops).handles[After(capacity, ops).table[key]].key == key
  {
    if ops != [] {
      var n := |ops| - 1;
      var s, op := After(capacity, ops[..n]), ops[n];
      if Allowed(s, op) {
        StepShrinks(s, op, key);
      }
      if key in s.table { HitIsLatest(capacity, ops[..n], key); }
    }
  }

  // ---------------------------------------------------------------- what leaves

  lemma {:induction false} EvictTakesIdle(s: State, key: Key)
    requires Inv(s) && key in s.table && key !in Evict(s).table
    ensures s.table[key] in s.idle
    decreases |s.idle|
  {
    if Usage(s) > s.capacity && s.idle != [] {
      OldestDrops(s);
      var t := Drop(s, Oldest(s));
      assert PlaceOk(s, Oldest(s));
      if key in t.table { EvictTakesIdle(t, key); }
    }
  }

  lemma {:induction false} DropAllTakesIdle(s: State, key: Key)
    requires Inv(s) && key in s.table && key !in DropAll(s).table
    ensures s.table[key] in s.idle
    decreases |s.idle|
  {
    if s.idle != [] {
      OldestDrops(s);
      var t := Drop(s, Oldest(s));
      assert PlaceOk(s, Oldest(s));
      if key in t.table { DropAllTakesIdle(t, key); }
    }
  }

  /** An entry in use stays: only its own erasure takes it out, or eviction when no client uses it. */
  lemma OnlyIdleLeaves(s: State, op: Op, key: Key)
    requires Inv(s) && Allowed(s, op) && key in s.table && key !in Apply(s, op).table
    ensures op == Erase(key) || ((op.Insert? || op.Prune?) && s.held[s.table[key]] == 0)
  {
    match op
    case Insert(h) =>
      InsertedKeeps(s, h);
      EvictTakesIdle(Inserted(s, h), key);
      assert PlaceOk(Inserted(s, h), Inserted(s, h).table[key]);
    case Lookup(k) =>
    case Release(e) =>
    case Erase(k) =>
    case Prune =>
      DropAllTakesIdle(s, key);
      assert PlaceOk(s, s.table[key]);
  }

  /** An insertion puts its entry into the cache, unless the cache is turned off: the eviction that
      follows takes idle entries only, and the new one is held by the client that brought it in. */
  lemma InsertPuts(s: State, h: Handle)
    requires Inv(s)
    ensures var r := Apply(s, Insert(h));
            if s.capacity == 0 then r.table == map[] else h.key in r.table && r.table[h.key] == |s.handles|
    ensures Apply(s, Insert(h)).handles == s.handles + [h] && Apply(s, Insert(h)).held == s.held + [1]
  {
    InsertedKeeps(s, h);
    var t := Inserted(s, h);
    EvictFrame(t);
    EvictShrinks(t);
    if s.capacity == 0 {
      EvictKeeps(t);
    } else {
      assert PlaceOk(t, |s.handles|);
      if h.key !in Evict(t).table { EvictTakesIdle(t, h.key); }
    }
  }

  /** Step i took the entry under the key away because no client used it. */
  ghost predicate TakenIdle(capacity: nat, ops: seq<Op>, i: nat, key: Key, e: nat)
    requires i < |ops|
  {
    var s := After(capacity, ops[..i]);
    && (ops[i].Insert? || ops[i].Prune?)
    && key in s.table && s.table[key] == e && e in s.idle
    && key !in After(capacity, ops[..i + 1]).table
  }

  /** What leaves the cache without its own erasure is idle, and is not what the step puts in. */
  lemma LeavesIdle(s: State, op: Op, key: Key)
    requires Inv(s) && Allowed(s, op) && op != Erase(key) && key !in Apply(s, op).table
    ensures !(op.Insert? && op.entry.key == key && s.capacity > 0)
    ensures key in s.table ==> (op.Insert? || op.Prune?) && s.table[key] in s.idle
  {
    if op.Insert? { InsertPuts(s, op.entry); }
    if key in s.table {
      OnlyIdleLeaves(s, op, key);
      assert PlaceOk(s, s.table[key]);
    }
  }

  /** In every run the latest insertion under a key is found, unless it was erased, or a later step took
      it while it was idle: Prune, or the eviction of an insertion. */
  lemma {:induction false} MissIsExplained(capacity: nat, ops: seq<Op>, key: Key)
    requires Latest(capacity, ops, key).Some? && key !in After(capacity, ops).table
    ensures exists i :: 0 <= i < |ops| && TakenIdle(capacity, ops, i, key, Latest(capacity, ops, key).value)
  {
    hide Apply, Inv, TakenIdle;
    var n := |ops| - 1;
    var s, op := After(capacity, ops[..n]), ops[n];
    assert ops[..n + 1] == ops;
    if Allowed(s, op) { LeavesIdle(s, op, key); }
    if key in s.table {
      HitIsLatest(capacity, ops[..n], key);
      IsTakenIdle(capacity, ops, n, key);
    } else {
      if op.Insert? { AllowsInsert(s, op); }
      MissIsExplained(capacity, ops[..n], key);
      var i :| 0 <= i < n && TakenIdle(capacity, ops[..n], i, key, Latest(capacity, ops[..n], key).value);
      TakenInPrefix(capacity, ops, n, i, key, Latest(capacity, ops, key).value);
    }
  }

  lemma IsTakenIdle(capacity: nat, ops: seq<Op>, i: nat, key: Key)
    requires i < |ops| && key in After(capacity, ops[..i]).table && key !in After(capacity, ops[..i + 1]).table
    requires ops[i] != Erase(key)
    ensures TakenIdle(capacity, ops, i, key, After(capacity, ops[..i]).table[key])
  {
    assert ops[..i + 1][..i] == ops[..i];
    LeavesIdle(After(capacity, ops[..i]), ops[i], key);
  }

  lemma AllowsInsert(s: State, op: Op)
    requires Inv(s) && op.Insert?
    ensures Allowed(s, op)
  {
  }

  lemma TakenInPrefix(capacity: nat, ops: seq<Op>, n: nat, i: nat, key: Key, e: nat)
    requires i < n <= |ops| && TakenIdle(capacity, ops[..n], i, key, e)
    ensures TakenIdle(capacity, ops, i, key, e)
  {
    assert ops[..n][..i] == ops[..i] && ops[..n][..i + 1] == ops[..i + 1];
  }

  // ---------------------------------------------------------------- references are conserved

  /** The lookups of a run that found the handle. */
  ghost function Hits(capacity: nat, ops: seq<Op>, e: nat): nat {
    if ops == [] then 0
    else
      var n := |ops| - 1;
      var s := After(capacity, ops[..n]);
      Hits(capacity, ops[..n], e) +
      if ops[n].Lookup? && ops[n].key in s.table && s.table[ops[n].key] == e then 1 else 0
  }

  /** The releases of the handle, by clients that held it. */
  ghost function Releases(capacity: nat, ops: seq<Op>, e: nat): nat {
    if ops == [] then 0
    else
      var n := |ops| - 1;
      Releases(capacity, ops[..n], e) +
      if ops[n] == Release(e) && Allowed(After(capacity, ops[..n]), ops[n]) then 1 else 0
  }

  lemma StepBalance(s: State, op: Op, e: nat)
    requires Inv(s) && Allowed(s, op) && e < |Apply(s, op).handles|
    ensures |s.handles| <= |Apply(s, op).handles| == |Apply(s, op).held|
    ensures e >= |s.handles| ==> op.Insert? && Apply(s, op).held[e] == 1
    ensures e < |s.handles| ==>
              Apply(s, op).held[e] == s.held[e]
                + (if op.Lookup? && op.key in s.table && s.table[op.key] == e then 1 else 0)
                - (if op == Release(e) then 1 else 0)
  {
    ApplyKeeps(s, op);
    match op
    case Insert(h) => InsertPuts(s, h);
    case Lookup(key) =>
    case Release(x) =>
    case Erase(key) =>
    case Prune => DropAllFrame(s);
  }

  /** A handle that is not there yet has not been found or released. */
  lemma {:induction false} NotYetUsed(capacity: nat, ops: seq<Op>, e: nat)
    requires e >= |After(capacity, ops).handles|
    ensures Hits(capacity, ops, e) == 0 && Releases(capacity, ops, e) == 0
  {
    hide Apply;
    if ops != [] {
      var s, op := After(capacity, ops[..|ops| - 1]), ops[|ops| - 1];
      if Allowed(s, op) { ApplyFrame(s, op); }
      NotYetUsed(capacity, ops[..|ops| - 1], e);
    }
  }

  /** Over every run a client's references are its insertion and the lookups that found the handle, less
      the releases. */
  lemma {:induction false} ReferencesBalance(capacity: nat, ops: seq<Op>, e: nat)
    requires e < |After(capacity, ops).handles|
    ensures After(capacity, ops).held[e] == 1 + Hits(capacity, ops, e) - Releases(capacity, ops, e)
  {
    hide Apply, Inv, IdsOk;
    InvIds(After(capacity, ops));
    var n := |ops| - 1;
    var s, op := After(capacity, ops[..n]), ops[n];
    InvIds(s);
    if Allowed(s, op) { StepBalance(s, op, e); }
    if e < |s.handles| {
      ReferencesBalance(capacity, ops[..n], e);
    } else {
      NotYetUsed(capacity, ops[..n], e);
    }
  }
}
