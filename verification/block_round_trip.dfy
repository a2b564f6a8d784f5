/** A block that was built reads back (table/block_builder.cc, table/block.cc). */
module BlockRoundTrip {
  import opened BlockFormat
  import opened BlockIter
  import opened Coding
  import opened Wrappers
  import Sequences

  ghost function LayoutOf(interval: nat, entries: seq<Pair>): Layout {
    Layout(seq(|entries| + 1, i requires 0 <= i <= |entries| => Offset(interval, entries, i)),
           seq(|entries|, i requires 0 <= i < |entries| => Shared(interval, entries, i)),
           Restarts(interval, |entries|))
  }

  lemma OffsetsAscend(interval: nat, entries: seq<Pair>, i: nat, j: nat)
    requires i <= j <= |entries|
    ensures Offset(interval, entries, i) <= Offset(interval, entries, j)
    ensures i < j ==> Offset(interval, entries, i) < Offset(interval, entries, j)
  {
    Sequences.FlattenGrows(Parts(interval, entries), i, j);
  }

  lemma LastOffset(interval: nat, entries: seq<Pair>)
    ensures Offset(interval, entries, |entries|) == |Body(interval, entries)|
  {
    assert Parts(interval, entries)[..|entries|] == Parts(interval, entries);
  }

  lemma BodyInBlock(body: Bytes, restarts: Bytes, count: Bytes)
    ensures (body + restarts + count)[..|body|] == body
    ensures (body + restarts + count)[|body| + |restarts|..] == count
  {
  }

  lemma RestartInBlock(body: Bytes, restarts: Bytes, count: Bytes, i: nat)
    requires i + 4 <= |restarts|
    ensures (body + restarts + count)[|body| + i..|body| + i + 4] == restarts[i..i + 4]
  {
  }

  /** The number of restart points is at the end of the block. */
  lemma CountAtEnd(interval: nat, entries: seq<Pair>)
    requires |BlockBytes(interval, entries)| < LIMIT
    ensures var block, n := BlockBytes(interval, entries), |Restarts(interval, |entries|)|;
            |block| == |Body(interval, entries)| + 4 * n + 4 && Unfixed(block[|block| - 4..]) == n
  {
    var offsets := RestartOffsets(interval, entries);
    BodyInBlock(Body(interval, entries), FixedAll(offsets), Fixed(|offsets|, 4));
    LimitIsPower();
    FixedRoundTrip(|offsets|, 4);
  }

  lemma StartBytes(body: Bytes, offsets: seq<nat>, count: Bytes, k: nat)
    requires k < |offsets| && offsets[k] < LIMIT
    ensures var at := |body| + 4 * k;
            var block := body + FixedAll(offsets) + count;
            at + 4 <= |block| && Unfixed(block[at..at + 4]) == offsets[k]
  {
    RestartInBlock(body, FixedAll(offsets), count, 4 * k);
    FixedAllAt(offsets, k);
    LimitIsPower();
    FixedRoundTrip(offsets[k], 4);
  }

  /** A restart point lies in the body. */
  lemma StartIsShort(interval: nat, entries: seq<Pair>, k: nat)
    requires k < |Restarts(interval, |entries|)|
    ensures RestartOffsets(interval, entries)[k] <= |Body(interval, entries)|
  {
    OffsetsAscend(interval, entries, Restarts(interval, |entries|)[k], |entries|);
    LastOffset(interval, entries);
  }

  lemma StartBytesIn(body: Bytes, offsets: seq<nat>, k: nat)
    requires k < |offsets| && offsets[k] <= |body|
    requires |body + FixedAll(offsets) + Fixed(|offsets|, 4)| < LIMIT
    ensures var at := |body| + 4 * k;
            var block := body + FixedAll(offsets) + Fixed(|offsets|, 4);
            at + 4 <= |block| && Unfixed(block[at..at + 4]) == offsets[k]
  {
    StartBytes(body, offsets, Fixed(|offsets|, 4), k);
  }

  lemma StartIsWhole(interval: nat, entries: seq<Pair>, k: nat)
    requires k < |Restarts(interval, |entries|)|
    ensures var l := LayoutOf(interval, entries);
            && l.starts[k] <= |entries| && RestartOffsets(interval, entries)[k] == l.offsets[l.starts[k]]
            && (entries != [] ==> l.starts[k] < |entries| && l.shares[l.starts[k]] == 0)
  {
  }

  lemma StartReadsIs(data: Bytes, restarts: nat, l: Layout, entries: seq<Pair>, k: nat, offset: nat)
    requires |l.offsets| == |entries| + 1 && |l.shares| == |entries| && k < |l.starts| && l.starts[k] <= |entries|
    requires entries != [] ==> l.starts[k] < |entries| && l.shares[l.starts[k]] == 0
    requires restarts + 4 * k + 4 <= |data| &&
             Unfixed(data[restarts + 4 * k..restarts + 4 * k + 4]) == offset == l.offsets[l.starts[k]]
    ensures StartReads(data, restarts, l, entries, k)
  {
  }

  lemma StartIn(body: Bytes, offsets: seq<nat>, l: Layout, entries: seq<Pair>, k: nat)
    requires |l.offsets| == |entries| + 1 && |l.shares| == |entries| && k < |l.starts| == |offsets| &&
             l.starts[k] <= |entries|
    requires entries != [] ==> l.starts[k] < |entries| && l.shares[l.starts[k]] == 0
    requires offsets[k] == l.offsets[l.starts[k]] <= |body|
    requires |body + FixedAll(offsets) + Fixed(|offsets|, 4)| < LIMIT
    ensures StartReads(body + FixedAll(offsets) + Fixed(|offsets|, 4), |body|, l, entries, k)
  {
    StartBytesIn(body, offsets, k);
    StartReadsIs(body + FixedAll(offsets) + Fixed(|offsets|, 4), |body|, l, entries, k, offsets[k]);
  }

  lemma StartAt(interval: nat, entries: seq<Pair>, k: nat)
    requires k < |Restarts(interval, |entries|)| && |BlockBytes(interval, entries)| < LIMIT
    ensures StartReads(BlockBytes(interval, entries), |Body(interval, entries)|, LayoutOf(interval, entries), entries,
                       k)
  {
    StartIsShort(interval, entries, k);
    StartIsWhole(interval, entries, k);
    StartIn(Body(interval, entries), RestartOffsets(interval, entries), LayoutOf(interval, entries), entries, k);
  }

  lemma Places(data: Bytes, p: nat, head: Bytes, key: Bytes, value: Bytes)
    requires p + |head + key + value| <= |data| && data[p..p + |head + key + value|] == head + key + value
    ensures data[p + |head|..p + |head| + |key|] == key
    ensures data[p + |head| + |key|..p + |head| + |key| + |value|] == value
  {
    var all := head + key + value;
    Sequences.SubSlice(data, p, p + |all|, |head|, |head| + |key|);
    Sequences.SubSlice(data, p, p + |all|, |head| + |key|, |all|);
    assert all[|head|..|head| + |key|] == key && all[|head| + |key|..|all|] == value;
  }

  /** The header of an entry that these bytes hold. */
  lemma HeaderReads(data: Bytes, limit: nat, p: nat, q: nat, shared: nat, e: Pair)
    requires shared <= |e.key| < LIMIT && |e.value| < LIMIT && p <= q <= limit <= |data| &&
             data[p..q] == EntryBytes(shared, e)
    ensures DecodeEntry(data[p..limit]) == Some(Header(shared, |e.key| - shared, |e.value|, HeadLength(shared, e)))
  {
    assert data[p..limit] == data[p..q] + data[q..limit];
    DecodesEntry(shared, e, data[q..limit]);
  }

  /** Bytes that hold an entry read as that entry. */
  lemma EntryReadsAt(data: Bytes, limit: nat, p: nat, q: nat, shared: nat, e: Pair)
    requires shared <= |e.key| < LIMIT && |e.value| < LIMIT && p <= q <= limit <= |data| &&
             data[p..q] == EntryBytes(shared, e)
    ensures DecodeEntry(data[p..limit]) == Some(Header(shared, |e.key| - shared, |e.value|, HeadLength(shared, e)))
    ensures var at := p + HeadLength(shared, e);
            && at + (|e.key| - shared) + |e.value| == q
            && data[at..at + (|e.key| - shared)] == e.key[shared..]
            && data[at + (|e.key| - shared)..q] == e.value
  {
    hide DecodeEntry;
    HeaderReads(data, limit, p, q, shared, e);
    EntryPlaces(data, p, q, Varint(shared), Varint(|e.key| - shared), Varint(|e.value|), e.key[shared..], e.value);
  }

  lemma EntryPlaces(data: Bytes, p: nat, q: nat, a: Bytes, b: Bytes, c: Bytes, key: Bytes, value: Bytes)
    requires p <= q <= |data| && data[p..q] == a + b + c + key + value
    ensures var at := p + |a| + |b| + |c|;
            at + |key| + |value| == q && data[at..at + |key|] == key && data[at + |key|..q] == value
  {
    Places(data, p, a + b + c, key, value);
  }

  lemma EntryReadsIs(data: Bytes, restarts: nat, l: Layout, entries: seq<Pair>, j: nat, p: nat, q: nat, shared: nat)
    requires |l.offsets| == |entries| + 1 && |l.shares| == |entries| && j < |entries|
    requires l.offsets[j] == p && l.offsets[j + 1] == q && l.shares[j] == shared
    requires p < q <= restarts <= |data| && shared <= |entries[j].key| < LIMIT && |entries[j].value| < LIMIT
    requires data[p..q] == EntryBytes(shared, entries[j])
    ensures EntryReads(data, restarts, l, entries, j)
  {
    EntryReadsAt(data, restarts, p, q, shared, entries[j]);
  }

  lemma EntryReadsBack(interval: nat, entries: seq<Pair>, j: nat)
    requires j < |entries| && |BlockBytes(interval, entries)| < LIMIT
    ensures EntryReads(BlockBytes(interval, entries), |Body(interval, entries)|, LayoutOf(interval, entries), entries,
                       j)
  {
    var data, body, offsets :=
      BlockBytes(interval, entries), Body(interval, entries), RestartOffsets(interval, entries);
    var p, q := Offset(interval, entries, j), Offset(interval, entries, j + 1);
    BodyInBlock(body, FixedAll(offsets), Fixed(|offsets|, 4));
    EntryAt(interval, entries, j);
    Sequences.SliceOfTake(data, p, q, |body|);
    EntryIsShort(Shared(interval, entries, j), entries[j], q - p);
    KeyIsShort(interval, entries, j);
    EntryReadsIs(data, |body|, LayoutOf(interval, entries), entries, j, p, q, Shared(interval, entries, j));
  }

  /** A key is no longer than what has been written of it and of the keys before it. */
  lemma {:induction false} KeyIsShort(interval: nat, entries: seq<Pair>, j: nat)
    requires j < |entries|
    ensures |entries[j].key| <= Offset(interval, entries, j + 1)
  {
    hide EntryBytes, Shared;
    var shared := Shared(interval, entries, j);
    EntryAt(interval, entries, j);
    EntryIsLonger(shared, entries[j]);
    if shared > 0 { KeyIsShort(interval, entries, j - 1); }
  }

  lemma EntryIsLonger(shared: nat, e: Pair)
    requires shared <= |e.key|
    ensures |EntryBytes(shared, e)| >= |e.key| - shared
  {
  }

  lemma EntryIsShort(shared: nat, e: Pair, n: nat)
    requires shared <= |e.key| && |EntryBytes(shared, e)| == n < LIMIT
    ensures |e.value| < LIMIT
  {
  }

  /** The bytes that the builder leaves are a block with its entries. */
  lemma BuilderMakesBlock(interval: nat, entries: seq<Pair>)
    requires |BlockBytes(interval, entries)| < LIMIT
    ensures LayoutOk(BlockBytes(interval, entries), |Body(interval, entries)|, LayoutOf(interval, entries), entries)
  {
    var l := LayoutOf(interval, entries);
    LastOffset(interval, entries);
    forall i, j ensures InOrder(l.offsets, i, j) {
      if 0 <= i < j < |l.offsets| { OffsetsAscend(interval, entries, i, j); }
    }
    forall i ensures EntryReads(BlockBytes(interval, entries), |Body(interval, entries)|, l, entries, i) {
      if 0 <= i < |entries| { EntryReadsBack(interval, entries, i); }
    }
    forall k ensures StartReads(BlockBytes(interval, entries), |Body(interval, entries)|, l, entries, k) {
      if 0 <= k < |l.starts| { StartAt(interval, entries, k); }
    }
  }

  /** Block::Block and NewIterator, for a block that a builder finished. */
  method Open(block: Bytes, ghost interval: nat, ghost entries: seq<Pair>) returns (iter: Iter)
    requires block == BlockBytes(interval, entries) && |block| < LIMIT
    ensures fresh(iter) && iter.Valid() && iter.at == |entries| && iter.entries == entries
  {
    CountAtEnd(interval, entries);
    BuilderMakesBlock(interval, entries);
    var numRestarts := Unfixed(block[|block| - 4..]);
    var restartOffset := |block| - (1 + numRestarts) * 4;
    iter := new Iter(block, restartOffset, numRestarts, LayoutOf(interval, entries), entries);
  }

  method Build(interval: nat, pairs: seq<Pair>) returns (block: Bytes)
    requires interval >= 1
    ensures block == BlockBytes(interval, pairs)
  {
    var builder := new BlockBuilder(interval);
    for i := 0 to |pairs|
      invariant builder.Valid() && builder.interval == interval && builder.entries == pairs[..i] && fresh(builder)
    {
      builder.Add(pairs[i].key, pairs[i].value);
    }
    assert pairs[..|pairs|] == pairs;
    block := builder.Finish();
  }

  method ReadAll(iter: Iter) returns (read: seq<Pair>)
    requires iter.Valid()
    modifies iter
    ensures iter.Valid() && read == iter.entries
  {
    read := [];
    iter.SeekToFirst();
    while iter.IsValid()
      invariant iter.Valid() && read == iter.entries[..iter.at]
      decreases |iter.entries| - iter.at
    {
      iter.ValidMeansAtEntry();
      var e := iter.Current();
      read := read + [e];
      iter.Next();
    }
    iter.ValidMeansAtEntry();
    assert iter.entries[..|iter.entries|] == iter.entries;
  }

  /** Building a block and reading it from front to back gives the pairs that were added. */
  method BuildAndRead(interval: nat, pairs: seq<Pair>) returns (read: seq<Pair>)
    requires interval >= 1 && |BlockBytes(interval, pairs)| < LIMIT
    ensures read == pairs
  {
    var block := Build(interval, pairs);
    var iter := Open(block, interval, pairs);
    read := ReadAll(iter);
  }
}
