/** Sorted blocks: prefix compression and restart points (table/block_builder.cc). */
module BlockFormat {
  import opened Coding
  import opened Wrappers
  import Sequences

  datatype Pair = Pair(key: Bytes, value: Bytes)

  function CommonPrefix(a: Bytes, b: Bytes): (n: nat)
    ensures n <= |a| && n <= |b| && a[..n] == b[..n]
    ensures n < |a| && n < |b| ==> a[n] != b[n]
  {
    if a == [] || b == [] || a[0] != b[0] then 0
    else
      var n := CommonPrefix(a[1..], b[1..]);
      assert a[..n + 1] == [a[0]] + a[1..][..n] && b[..n + 1] == [b[0]] + b[1..][..n];
      n + 1
  }

  /** counter_ after i entries. */
  function Counter(interval: nat, i: nat): nat {
    if i == 0 then 0 else if Counter(interval, i - 1) < interval then Counter(interval, i - 1) + 1 else 1
  }

  /** Entry i starts afresh: its key is stored whole. */
  predicate IsRestart(interval: nat, i: nat) {
    i == 0 || Counter(interval, i) >= interval
  }

  /** How much of key i is taken over from the key before it. */
  function Shared(interval: nat, entries: seq<Pair>, i: nat): (n: nat)
    requires i < |entries|
    ensures n <= |entries[i].key|
    ensures n > 0 ==> i > 0 && n <= |entries[i - 1].key| && entries[i - 1].key[..n] == entries[i].key[..n]
  {
    if IsRestart(interval, i) then 0 else CommonPrefix(entries[i - 1].key, entries[i].key)
  }

  /** Lengths shared and not shared, length of the value, rest of the key, value. */
  function EntryBytes(shared: nat, e: Pair): (s: Bytes)
    requires shared <= |e.key|
    ensures |s| >= 3
  {
    Varint(shared) + Varint(|e.key| - shared) + Varint(|e.value|) + e.key[shared..] + e.value
  }

  /** The bytes of each entry. */
  function Parts(interval: nat, entries: seq<Pair>): (r: seq<Bytes>)
    ensures |r| == |entries|
  {
    seq(|entries|, i requires 0 <= i < |entries| => EntryBytes(Shared(interval, entries, i), entries[i]))
  }

  /** buffer_ after these entries. */
  function Body(interval: nat, entries: seq<Pair>): Bytes {
    Sequences.Flatten(Parts(interval, entries))
  }

  /** Where entry i starts; the end of the body for i == |entries|. */
  function Offset(interval: nat, entries: seq<Pair>, i: nat): nat
    requires i <= |entries|
  {
    |Sequences.Flatten(Parts(interval, entries)[..i])|
  }

  /** The entries that are restart points, after n entries; the first is always there. */
  function Restarts(interval: nat, n: nat): (r: seq<nat>)
    ensures r != [] && r[0] == 0
    ensures forall k :: 0 <= k < |r| ==> IsRestart(interval, r[k]) && (r[k] == 0 || r[k] < n)
    ensures forall j, k :: 0 <= j < k < |r| ==> r[j] < r[k]
  {
    if n == 0 then [0]
    else if n > 1 && IsRestart(interval, n - 1) then Restarts(interval, n - 1) + [n - 1]
    else Restarts(interval, n - 1)
  }

  function Offsets(interval: nat, entries: seq<Pair>, indices: seq<nat>): seq<nat>
    requires forall k :: 0 <= k < |indices| ==> indices[k] <= |entries|
  {
    seq(|indices|, k requires 0 <= k < |indices| => Offset(interval, entries, indices[k]))
  }

  /** restarts_ after these entries. */
  function RestartOffsets(interval: nat, entries: seq<Pair>): seq<nat> {
    Offsets(interval, entries, Restarts(interval, |entries|))
  }

  function FixedAll(offsets: seq<nat>): (s: Bytes)
    ensures |s| == 4 * |offsets|
  {
    if offsets == [] then [] else FixedAll(offsets[..|offsets| - 1]) + Fixed(offsets[|offsets| - 1], 4)
  }

  /** The finished block. */
  function BlockBytes(interval: nat, entries: seq<Pair>): Bytes {
    var restarts := RestartOffsets(interval, entries);
    Body(interval, entries) + FixedAll(restarts) + Fixed(|restarts|, 4)
  }

  // ---------------------------------------------------------------- where things are

  lemma PartsSnoc(interval: nat, entries: seq<Pair>, e: Pair)
    ensures Parts(interval, entries + [e]) ==
            Parts(interval, entries) + [EntryBytes(Shared(interval, entries + [e], |entries|), e)]
  {
  }

  lemma BodySnoc(interval: nat, entries: seq<Pair>, e: Pair)
    ensures Body(interval, entries + [e]) ==
            Body(interval, entries) + EntryBytes(Shared(interval, entries + [e], |entries|), e)
  {
    PartsSnoc(interval, entries, e);
    Sequences.FlattenSnoc(Parts(interval, entries), EntryBytes(Shared(interval, entries + [e], |entries|), e));
  }

  /** Entry i lies between its offset and the next. */
  lemma EntryAt(interval: nat, entries: seq<Pair>, i: nat)
    requires i < |entries|
    ensures var body := Body(interval, entries);
            var at := Offset(interval, entries, i);
            && at < Offset(interval, entries, i + 1) <= |body|
            && body[at..Offset(interval, entries, i + 1)] == EntryBytes(Shared(interval, entries, i), entries[i])
  {
    Sequences.FlattenAt(Parts(interval, entries), i);
  }

  lemma {:induction false} FixedAllAt(offsets: seq<nat>, k: nat)
    requires k < |offsets|
    ensures FixedAll(offsets)[4 * k..4 * k + 4] == Fixed(offsets[k], 4)
  {
    var n := |offsets| - 1;
    if k < n {
      FixedAllAt(offsets[..n], k);
      assert FixedAll(offsets)[..4 * n] == FixedAll(offsets[..n]);
      Sequences.SliceOfTake(FixedAll(offsets), 4 * k, 4 * k + 4, 4 * n);
    }
  }

  // ---------------------------------------------------------------- the builder

  function LastKey(entries: seq<Pair>): Bytes {
    if entries == [] then [] else entries[|entries| - 1].key
  }

  ghost predicate Built(interval: nat, entries: seq<Pair>, buffer: Bytes, restarts: seq<nat>, counter: nat,
                        lastKey: Bytes)
  {
    && buffer == Body(interval, entries)
    && restarts == RestartOffsets(interval, entries)
    && counter == Counter(interval, |entries|)
    && lastKey == LastKey(entries)
  }

  /** One more entry, with or without a new restart point. */
  lemma BuiltSnoc(interval: nat, entries: seq<Pair>, e: Pair, buffer: Bytes, restarts: seq<nat>, counter: nat,
                  lastKey: Bytes,
                  shared: nat, now: seq<nat>)
    requires interval >= 1 && Built(interval, entries, buffer, restarts, counter, lastKey)
    requires shared == if counter < interval then CommonPrefix(lastKey, e.key) else 0
    requires now == if counter < interval then restarts else restarts + [|buffer|]
    ensures counter <= interval && shared <= |e.key|
    ensures Built(interval, entries + [e], buffer + EntryBytes(shared, e), now,
                  if counter < interval then counter + 1 else 1, e.key)
  {
    CounterIsBounded(interval, |entries|);
    SharedOfLast(interval, entries, e, lastKey);
    BodySnoc(interval, entries, e);
    RestartsSnoc(interval, entries, e);
  }

  class BlockBuilder {
    const interval: nat
    var buffer: Bytes
    var restarts: seq<nat>
    var counter: nat
    var lastKey: Bytes
    ghost var entries: seq<Pair>

    ghost predicate Valid()
      reads this
    {
      interval >= 1 && Built(interval, entries, buffer, restarts, counter, lastKey)
    }

    constructor (interval: nat)
      requires interval >= 1
      ensures Valid() && entries == [] && this.interval == interval
    {
      this.interval, buffer, restarts, counter, lastKey, entries := interval, [], [0], 0, [], [];
    }

    method Reset()
      requires interval >= 1
      modifies this
      ensures Valid() && entries == []
    {
      buffer, restarts, counter, lastKey, entries := [], [0], 0, [], [];
    }

    function CurrentSizeEstimate(): nat
      reads this
    {
      |buffer| + 4 * |restarts| + 4
    }

    /** The estimate is the size of the finished block. */
    lemma EstimateIsSize()
      requires Valid()
      ensures CurrentSizeEstimate() == |BlockBytes(interval, entries)|
    {
    }

    predicate Empty()
      reads this
    {
      buffer == []
    }

    lemma EmptyHasNone()
      requires Valid()
      ensures Empty() <==> entries == []
    {
      if entries != [] { EntryAt(interval, entries, 0); }
    }

    /** How much of the key is the same as in the last key. */
    method SharedWithLast(key: Bytes) returns (shared: nat)
      ensures shared == CommonPrefix(lastKey, key)
    {
      shared := 0;
      var minLength := if |lastKey| < |key| then |lastKey| else |key|;
      while shared < minLength && lastKey[shared] == key[shared]
        invariant shared <= minLength
        invariant lastKey[..shared] == key[..shared]
      {
        shared := shared + 1;
      }
      PrefixIsCommon(lastKey, key, shared);
    }

    method Add(key: Bytes, value: Bytes)
      requires Valid()
      modifies this
      ensures Valid() && entries == old(entries) + [Pair(key, value)]
    {
      ghost var e := Pair(key, value);
      ghost var was := restarts;
      var shared := 0;
      if counter < interval {
        shared := SharedWithLast(key);
      } else {
        restarts := restarts + [|buffer|];
        counter := 0;
      }
      BuiltSnoc(interval, entries, e, buffer, was, old(counter), lastKey, shared, restarts);
      KeyRejoins(lastKey, key, shared);
      Append(key, value, shared);
      lastKey := lastKey[..shared] + key[shared..];
      counter := counter + 1;
      entries := entries + [e];
      assert Built(interval, entries, buffer, restarts, counter, lastKey);
    }

    /** The lengths, the rest of the key, and the value. */
    method Append(key: Bytes, value: Bytes, shared: nat)
      requires shared <= |key|
      modifies this`buffer
      ensures buffer == old(buffer) + EntryBytes(shared, Pair(key, value))
    {
      var nonShared := |key| - shared;
      buffer := buffer + (Varint(shared) + Varint(nonShared) + Varint(|value|) + key[shared..] + value);
    }

    method Finish() returns (block: Bytes)
      requires Valid()
      modifies this`buffer
      ensures block == BlockBytes(interval, entries)
    {
      ghost var body := buffer;
      for i := 0 to |restarts|
        invariant buffer == body + FixedAll(restarts[..i])
      {
        FixedAllSnoc(body, restarts, i);
        buffer := buffer + Fixed(restarts[i], 4);
      }
      assert restarts[..|restarts|] == restarts;
      buffer := buffer + Fixed(|restarts|, 4);
      block := buffer;
    }
  }

  lemma FixedAllSnoc(body: Bytes, offsets: seq<nat>, i: nat)
    requires i < |offsets|
    ensures body + FixedAll(offsets[..i + 1]) == (body + FixedAll(offsets[..i])) + Fixed(offsets[i], 4)
  {
    assert offsets[..i + 1][..i] == offsets[..i];
    Sequences.Associates(body, FixedAll(offsets[..i]), Fixed(offsets[i], 4));
  }

  lemma {:induction false} CounterIsBounded(interval: nat, i: nat)
    requires interval >= 1
    ensures Counter(interval, i) <= interval && (i > 0 ==> Counter(interval, i) >= 1)
  {
    if i > 0 { CounterIsBounded(interval, i - 1); }
  }

  lemma {:induction false} CounterCounts(interval: nat, i: nat)
    requires i <= interval
    ensures Counter(interval, i) == i
  {
    if i > 0 { CounterCounts(interval, i - 1); }
  }

  lemma {:induction false} CounterRepeats(interval: nat, i: nat)
    requires interval >= 1 && i > 0
    ensures Counter(interval, interval + i) == Counter(interval, i)
  {
    if i == 1 {
      CounterCounts(interval, interval);
    } else {
      CounterRepeats(interval, i - 1);
    }
  }

  /** Entry 0 starts afresh, and from each entry that does, the next one to do so is interval entries on. */
  lemma RestartsEveryInterval(interval: nat, i: nat)
    requires interval >= 1
    ensures i < interval ==> (IsRestart(interval, i) <==> i == 0)
    ensures IsRestart(interval, interval + i) <==> IsRestart(interval, i)
  {
    if i <= interval { CounterCounts(interval, i); }
    if i == 0 { CounterCounts(interval, interval); } else { CounterRepeats(interval, i); }
  }

  lemma PrefixIsCommon(a: Bytes, b: Bytes, n: nat)
    requires n <= |a| && n <= |b| && a[..n] == b[..n] && (n < |a| && n < |b| ==> a[n] != b[n])
    ensures CommonPrefix(a, b) == n
  {
    var m := CommonPrefix(a, b);
  }

  lemma KeyRejoins(lastKey: Bytes, key: Bytes, shared: nat)
    requires shared == 0 || shared == CommonPrefix(lastKey, key)
    ensures shared <= |lastKey| && shared <= |key| && lastKey[..shared] + key[shared..] == key
  {
    assert key == key[..shared] + key[shared..];
  }

  lemma SharedOfLast(interval: nat, entries: seq<Pair>, e: Pair, lastKey: Bytes)
    requires lastKey == LastKey(entries)
    requires Counter(interval, |entries|) <= interval && interval >= 1
    ensures Shared(interval, entries + [e], |entries|) ==
            if Counter(interval, |entries|) < interval then CommonPrefix(lastKey, e.key) else 0
  {
  }

  lemma OffsetInLonger(interval: nat, entries: seq<Pair>, e: Pair, i: nat)
    requires i <= |entries|
    ensures Offset(interval, entries + [e], i) == Offset(interval, entries, i)
  {
    PartsSnoc(interval, entries, e);
    assert (Parts(interval, entries) + [EntryBytes(Shared(interval, entries + [e], |entries|), e)])[..i] ==
           Parts(interval, entries)[..i];
  }

  lemma OffsetsInLonger(interval: nat, entries: seq<Pair>, e: Pair, indices: seq<nat>)
    requires forall k :: 0 <= k < |indices| ==> indices[k] <= |entries|
    ensures Offsets(interval, entries + [e], indices) == Offsets(interval, entries, indices)
  {
    forall k | 0 <= k < |indices|
      ensures Offset(interval, entries + [e], indices[k]) == Offset(interval, entries, indices[k])
    {
      OffsetInLonger(interval, entries, e, indices[k]);
    }
  }

  lemma OffsetsSnoc(interval: nat, entries: seq<Pair>, indices: seq<nat>, i: nat)
    requires i <= |entries| && forall k :: 0 <= k < |indices| ==> indices[k] <= |entries|
    ensures Offsets(interval, entries, indices + [i]) ==
            Offsets(interval, entries, indices) + [Offset(interval, entries, i)]
  {
  }

  lemma RestartsSnoc(interval: nat, entries: seq<Pair>, e: Pair)
    requires interval >= 1
    ensures RestartOffsets(interval, entries + [e]) ==
            RestartOffsets(interval, entries) +
            if entries != [] && Counter(interval, |entries|) >= interval then [|Body(interval, entries)|] else []
  {
    var n := |entries|;
    var before := Restarts(interval, n);
    OffsetsInLonger(interval, entries, e, before);
    if n > 0 && IsRestart(interval, n) {
      OffsetsSnoc(interval, entries + [e], before, n);
      OffsetInLonger(interval, entries, e, n);
      assert Parts(interval, entries)[..n] == Parts(interval, entries);
    }
  }
}
