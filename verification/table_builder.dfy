/** Building a table file (table/table_builder.cc): data blocks, index keys between them, and filters. */
module TableBuilding {
  import opened BlockFormat
  import opened Coding
  import opened Comparators
  import opened FilterBlock
  import opened TableFormat
  import opened TableLookup
  import Sequences

  // ---------------------------------------------------------------- blocks and index keys

  /** The blocks, the one in the making included. */
  function With(blocks: Blocks, current: seq<Pair>): Blocks {
    if current == [] then blocks else blocks + [current]
  }

  /** Written blocks, the one in the making, and the index keys; the last block may still wait for its own. */
  ghost predicate Cut(blocks: Blocks, current: seq<Pair>, seps: seq<Bytes>, waiting: bool, lastKey: Bytes) {
    && KeyAscending(All(With(blocks, current))) && lastKey == LastKey(All(With(blocks, current)))
    && (forall b :: NonEmpty(blocks, b))
    && (forall b :: SeparatorOk(With(blocks, current), seps, b))
    && (waiting ==> current == [] && blocks != [])
    && |blocks| == |seps| + if waiting then 1 else 0
  }

  lemma AllSnoc(blocks: Blocks, current: seq<Pair>)
    ensures All(With(blocks, current)) == All(blocks) + current
  {
    if current == [] {
      assert All(blocks) + [] == All(blocks);
    } else {
      Sequences.FlattenSnoc(blocks, current);
    }
  }

  lemma LastOfBlocks(blocks: Blocks)
    requires blocks != [] && blocks[|blocks| - 1] != []
    ensures LastKey(All(blocks)) == LastKey(blocks[|blocks| - 1]) && All(blocks) != []
  {
  }

  /** A further entry, behind all others. */
  lemma AscendingSnoc(all: seq<Pair>, e: Pair)
    requires KeyAscending(all) && (all != [] ==> KeyLess(LastKey(all), e.key))
    ensures KeyAscending(all + [e])
  {
    hide KeyLess;
    forall i, j ensures KeyOrder(all + [e], i, j) {
      assert KeyOrder(all, i, j) && KeyOrder(all, i, |all| - 1);
      if 0 <= i < |all| - 1 { KeyTransitive(all[i].key, LastKey(all), e.key); }
    }
  }

  /** The first entry of a block: the block before it gets its index key. */
  lemma FirstEntryCuts(blocks: Blocks, seps: seq<Bytes>, lastKey: Bytes, e: Pair)
    requires Cut(blocks, [], seps, true, lastKey) && KeyLess(lastKey, e.key)
    ensures Cut(blocks, [e], seps + [KeySeparator(lastKey, e.key)], false, e.key)
  {
    var n := |blocks| - 1;
    var t := seps + [KeySeparator(lastKey, e.key)];
    assert NonEmpty(blocks, n);
    AllSnoc(blocks, [e]);
    LastOfBlocks(blocks);
    AscendingSnoc(All(blocks), e);
    KeySeparatorSeparates(lastKey, e.key);
    forall b ensures SeparatorOk(With(blocks, [e]), t, b) {
      assert SeparatorOk(blocks, seps, b) && NonEmpty(blocks, b + 1);
    }
  }

  /** Another entry of the block in the making, or the first of all. */
  lemma NextEntryCuts(blocks: Blocks, current: seq<Pair>, seps: seq<Bytes>, lastKey: Bytes, e: Pair)
    requires Cut(blocks, current, seps, false, lastKey) && (current == [] ==> blocks == [])
    requires All(With(blocks, current)) != [] ==> KeyLess(lastKey, e.key)
    ensures Cut(blocks, current + [e], seps, false, e.key)
  {
    AllSnoc(blocks, current);
    AllSnoc(blocks, current + [e]);
    Sequences.Associates(All(blocks), current, [e]);
    AscendingSnoc(All(blocks) + current, e);
    SeparatorsStay(blocks, current, seps, e);
  }

  lemma SeparatorsStay(blocks: Blocks, current: seq<Pair>, seps: seq<Bytes>, e: Pair)
    requires (current == [] ==> blocks == []) && |seps| == |blocks| && forall b ::
               SeparatorOk(With(blocks, current), seps, b)
    ensures forall b :: SeparatorOk(With(blocks, current + [e]), seps, b)
  {
    forall b ensures SeparatorOk(With(blocks, current + [e]), seps, b) {
      assert SeparatorOk(With(blocks, current), seps, b);
    }
  }

  /** The block in the making is written. */
  lemma WrittenCuts(blocks: Blocks, current: seq<Pair>, seps: seq<Bytes>, lastKey: Bytes)
    requires Cut(blocks, current, seps, false, lastKey) && current != []
    ensures Cut(blocks + [current], [], seps, true, lastKey)
  {
    forall b ensures NonEmpty(blocks + [current], b) {
      assert NonEmpty(blocks, b);
    }
  }

  /** The last block gets its index key. */
  lemma LastCuts(blocks: Blocks, seps: seq<Bytes>, lastKey: Bytes)
    requires Cut(blocks, [], seps, true, lastKey)
    ensures IndexOk(blocks, seps + [KeySuccessor(lastKey)])
  {
    assert NonEmpty(blocks, |blocks| - 1);
    LastOfBlocks(blocks);
    KeySuccessorSucceeds(lastKey);
    forall b ensures SeparatorOk(blocks, seps + [KeySuccessor(lastKey)], b) {
      assert SeparatorOk(blocks, seps, b);
    }
  }

  lemma EmptyCuts(seps: seq<Bytes>, lastKey: Bytes)
    requires Cut([], [], seps, false, lastKey)
    ensures IndexOk([], seps)
  {
  }

  // ---------------------------------------------------------------- what is in the file

  /** The entries of the index block. */
  function IndexEntries(seps: seq<Bytes>, handles: seq<Handle>): (r: seq<Pair>)
    requires |seps| <= |handles|
    ensures |r| == |seps|
  {
    seq(|seps|, i requires 0 <= i < |seps| => Pair(seps[i], EncodeHandle(handles[i])))
  }

  ghost predicate WrittenAt(file: Bytes, crc: Checksum, interval: nat, blocks: Blocks, handles: seq<Handle>, b: int) {
    0 <= b < |blocks| && b < |handles| ==> BlockAt(file, crc, handles[b], BlockBytes(interval, blocks[b]))
  }

  ghost predicate Written(file: Bytes, crc: Checksum, interval: nat, blocks: Blocks, handles: seq<Handle>) {
    |blocks| == |handles| && forall b :: WrittenAt(file, crc, interval, blocks, handles, b)
  }

  lemma WrittenStays(file: Bytes, more: Bytes, crc: Checksum, interval: nat, blocks: Blocks, handles: seq<Handle>)
    requires Written(file, crc, interval, blocks, handles)
    ensures Written(file + more, crc, interval, blocks, handles)
  {
    forall b ensures WrittenAt(file + more, crc, interval, blocks, handles, b) {
      assert WrittenAt(file, crc, interval, blocks, handles, b);
      if 0 <= b < |blocks| { BlockStays(file, more, crc, handles[b], BlockBytes(interval, blocks[b])); }
    }
  }

  lemma AppendedAtEnd(file: Bytes, crc: Checksum, contents: Bytes)
    ensures BlockAt(file + (contents + Trailer(crc, contents)), crc, Handle(|file|, |contents|), contents)
  {
    AppendedBlock(file, crc, contents, []);
    assert file + contents + Trailer(crc, contents) + [] == file + (contents + Trailer(crc, contents));
  }

  lemma WrittenSnoc(file: Bytes, crc: Checksum, interval: nat, blocks: Blocks, handles: seq<Handle>, block: seq<Pair>,
                    h: Handle)
    requires Written(file, crc, interval, blocks, handles) && BlockAt(file, crc, h, BlockBytes(interval, block))
    ensures Written(file, crc, interval, blocks + [block], handles + [h])
  {
    forall b ensures WrittenAt(file, crc, interval, blocks + [block], handles + [h], b) {
      assert WrittenAt(file, crc, interval, blocks, handles, b);
    }
  }

  // ---------------------------------------------------------------- filters

  /** The key is among those of the 2 KB range `index`, finished or not. */
  ghost predicate InGroup(groups: seq<seq<Bytes>>, pending: seq<Bytes>, index: nat, key: Bytes) {
    if index < |groups| then key in groups[index] else index == |groups| && key in pending
  }

  lemma {:induction false} AdvancedKeeps(groups: seq<seq<Bytes>>, pending: seq<Bytes>, index: nat, i: nat, key: Bytes)
    requires index >= |groups| && InGroup(groups, pending, i, key)
    ensures InGroup(Advanced(groups, pending, index), if index > |groups| then [] else pending, i, key)
    decreases index
  {
    if index > |groups| + 1 { AdvancedKeeps(groups, pending, index - 1, i, key); }
  }

  ghost predicate KeyCovered(groups: seq<seq<Bytes>>, pending: seq<Bytes>, blocks: Blocks, handles: seq<Handle>,
                             b: int, j: int)
  {
    0 <= b < |blocks| && b < |handles| && 0 <= j < |blocks[b]| ==>
      InGroup(groups, pending, handles[b].offset / BASE, blocks[b][j].key)
  }

  /** Every key is in the group of the range in which its block starts. */
  ghost predicate Covers(groups: seq<seq<Bytes>>, pending: seq<Bytes>, blocks: Blocks, handles: seq<Handle>) {
    forall b, j :: KeyCovered(groups, pending, blocks, handles, b, j)
  }

  ghost predicate Pending(pending: seq<Bytes>, current: seq<Pair>) {
    forall j :: 0 <= j < |current| ==> current[j].key in pending
  }

  lemma CoversAfterAdd(groups: seq<seq<Bytes>>, pending: seq<Bytes>, blocks: Blocks, handles: seq<Handle>,
                       current: seq<Pair>, e: Pair)
    requires Covers(groups, pending, blocks, handles) && Pending(pending, current)
    ensures Covers(groups, pending + [e.key], blocks, handles) && Pending(pending + [e.key], current + [e])
  {
    forall b, j ensures KeyCovered(groups, pending + [e.key], blocks, handles, b, j) {
      assert KeyCovered(groups, pending, blocks, handles, b, j);
    }
    assert (pending + [e.key])[|pending|] == e.key;
  }

  lemma CoversAfterFlush(groups: seq<seq<Bytes>>, pending: seq<Bytes>, blocks: Blocks, handles: seq<Handle>,
                         current: seq<Pair>, h: Handle, index: nat)
    requires Covers(groups, pending, blocks, handles) && Pending(pending, current) && |blocks| == |handles|
    requires h.offset / BASE == |groups| <= index
    ensures Covers(Advanced(groups, pending, index), if index > |groups| then [] else pending, blocks + [current],
                   handles + [h])
  {
    var now, rest := Advanced(groups, pending, index), if index > |groups| then [] else pending;
    forall b, j ensures KeyCovered(now, rest, blocks + [current], handles + [h], b, j) {
      assert KeyCovered(groups, pending, blocks, handles, b, j);
      if 0 <= b <= |blocks| && 0 <= j < |(blocks + [current])[b]| {
        AdvancedKeeps(groups, pending, index, (handles + [h])[b].offset / BASE, (blocks + [current])[b][j].key);
      }
    }
  }

  lemma CoversAtEnd(groups: seq<seq<Bytes>>, pending: seq<Bytes>, blocks: Blocks, handles: seq<Handle>)
    requires Covers(groups, pending, blocks, handles)
    ensures Covers(Finished(groups, pending), [], blocks, handles)
  {
    forall b, j ensures KeyCovered(Finished(groups, pending), [], blocks, handles, b, j) {
      assert KeyCovered(groups, pending, blocks, handles, b, j);
    }
  }

  // ---------------------------------------------------------------- where blocks end

  /** A block with these entries has reached block_size. */
  ghost predicate IsFull(interval: nat, blockSize: nat, entries: seq<Pair>) {
    |BlockBytes(interval, entries)| >= blockSize
  }

  /** Nothing inside the block ended it. */
  ghost predicate Unfilled(interval: nat, blockSize: nat, entries: seq<Pair>) {
    entries != [] && forall k :: 0 < k < |entries| ==> !IsFull(interval, blockSize, entries[..k])
  }

  /** Every block but the last ends with the entry that fills it. */
  ghost predicate BlocksFilled(interval: nat, blockSize: nat, blocks: Blocks) {
    && (forall b :: b in blocks ==> Unfilled(interval, blockSize, b))
    && forall i :: 0 <= i < |blocks| - 1 ==> IsFull(interval, blockSize, blocks[i])
  }

  /** The written blocks are full, the one in the making is not. */
  ghost predicate Filling(interval: nat, blockSize: nat, blocks: Blocks, current: seq<Pair>) {
    && (forall b :: b in blocks ==> Unfilled(interval, blockSize, b) && IsFull(interval, blockSize, b))
    && forall k :: 0 < k <= |current| ==> !IsFull(interval, blockSize, current[..k])
  }

  lemma FillingGrows(interval: nat, blockSize: nat, blocks: Blocks, current: seq<Pair>, e: Pair)
    requires Filling(interval, blockSize, blocks, current)
    ensures Unfilled(interval, blockSize, current + [e])
    ensures if IsFull(interval, blockSize, current + [e])
            then Filling(interval, blockSize, blocks + [current + [e]], [])
            else Filling(interval, blockSize, blocks, current + [e])
  {
    hide IsFull;
    var more := current + [e];
    forall k | 0 < k < |more| ensures !IsFull(interval, blockSize, more[..k]) {
      assert more[..k] == current[..k];
    }
    assert more[..|more|] == more;
  }

  lemma FillingEnds(interval: nat, blockSize: nat, blocks: Blocks, current: seq<Pair>)
    requires Filling(interval, blockSize, blocks, current)
    ensures BlocksFilled(interval, blockSize, With(blocks, current))
  {
    hide IsFull;
    forall i | 0 <= i < |With(blocks, current)| - 1 ensures IsFull(interval, blockSize, With(blocks, current)[i]) {
      assert With(blocks, current)[i] == blocks[i] && blocks[i] in blocks;
    }
  }

  lemma NothingFilled(interval: nat, blockSize: nat)
    ensures Filling(interval, blockSize, [], [])
  {
  }

  lemma FilledFront(interval: nat, blockSize: nat, blocks: Blocks)
    requires BlocksFilled(interval, blockSize, blocks) && blocks != []
    ensures blocks[0] != [] && All(blocks) == blocks[0] + All(blocks[1..])
    ensures BlocksFilled(interval, blockSize, blocks[1..])
  {
    hide IsFull, Sequences.Flatten;
    Sequences.FlattenFront(blocks);
    assert blocks[0] in blocks;
    forall i | 0 <= i < |blocks[1..]| - 1 ensures IsFull(interval, blockSize, blocks[1..][i]) {
      assert blocks[1..][i] == blocks[i + 1];
    }
  }

  lemma BeginningIsNotFull(interval: nat, blockSize: nat, entries: seq<Pair>, n: nat)
    requires Unfilled(interval, blockSize, entries) && 0 < n < |entries|
    ensures !IsFull(interval, blockSize, entries[..n])
  {
  }

  lemma FirstBlocksAgree(interval: nat, blockSize: nat, a: Blocks, b: Blocks)
    requires BlocksFilled(interval, blockSize, a) && BlocksFilled(interval, blockSize, b) && a != [] && b != []
    requires All(a) == All(b)
    ensures |a[0]| >= |b[0]|
  {
    hide IsFull, Unfilled, Sequences.Flatten;
    FilledFront(interval, blockSize, a);
    FilledFront(interval, blockSize, b);
    var all, n := All(a), |a[0]|;
    Sequences.FlattenNone<Pair>();
    assert |a| == 1 ==> a[1..] == [];
    assert |a[0]| < |b[0]| ==> |a| > 1 && a[0] == b[0][..n] by { assert a[0] == all[..n]; }
    assert b[0] in b;
    if n < |b[0]| {
      BeginningIsNotFull(interval, blockSize, b[0], n);
    }
  }

  /** Entries are cut into blocks in one way only. */
  lemma {:induction false} BlocksAreUnique(interval: nat, blockSize: nat, a: Blocks, b: Blocks)
    requires BlocksFilled(interval, blockSize, a) && BlocksFilled(interval, blockSize, b) && All(a) == All(b)
    ensures a == b
  {
    hide BlocksFilled, Sequences.Flatten;
    Sequences.FlattenNone<Pair>();
    if a != [] { FilledFront(interval, blockSize, a); }
    if b != [] { FilledFront(interval, blockSize, b); }
    if a != [] && b != [] {
      FirstBlocksAgree(interval, blockSize, a, b);
      FirstBlocksAgree(interval, blockSize, b, a);
      var all, n := All(a), |a[0]|;
      assert a[0] == all[..n] == b[0];
      assert All(a[1..]) == all[n..] == All(b[1..]);
      BlocksAreUnique(interval, blockSize, a[1..], b[1..]);
      assert a == [a[0]] + a[1..] && b == [b[0]] + b[1..];
    }
  }

  // ---------------------------------------------------------------- the builder

  class TableBuilder {
    const crc: Checksum
    /** block_restart_interval and block_size. */
    const interval: nat
    const blockSize: nat
    const dataBlock: BlockBuilder
    const indexBlock: BlockBuilder
    /** Null when the table has no filters. */
    const filterBlock: FilterBlockBuilder?

    var file: Bytes
    var offset: nat
    var lastKey: Bytes
    var numEntries: nat
    var pendingIndexEntry: bool
    var pendingHandle: Handle

    ghost var blocks: Blocks
    ghost var handles: seq<Handle>
    ghost var seps: seq<Bytes>

    ghost predicate Parts()
      reads this, dataBlock, indexBlock
    {
      && dataBlock != indexBlock && dataBlock.Valid() && indexBlock.Valid()
      && dataBlock.interval == interval && indexBlock.interval == 1
    }

    ghost predicate FilterValid()
      reads this, dataBlock, filterBlock
    {
      filterBlock != null ==>
        && filterBlock.Valid() && |filterBlock.groups| == offset / BASE
        && Covers(filterBlock.groups, filterBlock.pending, blocks, handles)
        && Pending(filterBlock.pending, dataBlock.entries)
    }

    ghost predicate FileValid()
      reads this, indexBlock
    {
      && offset == |file| && Written(file, crc, interval, blocks, handles)
      && |seps| <= |handles| && indexBlock.entries == IndexEntries(seps, handles)
      && (pendingIndexEntry ==> handles != [] && pendingHandle == handles[|handles| - 1])
    }

    ghost predicate Valid()
      reads this, dataBlock, indexBlock, filterBlock
    {
      && Parts() && FileValid() && FilterValid()
      && Cut(blocks, dataBlock.entries, seps, pendingIndexEntry, lastKey)
      && (numEntries == 0 <==> Entries() == [])
      && (pendingIndexEntry || dataBlock.entries != [] || blocks == [])
      && (numEntries > 0 ==> |lastKey| >= 8) && (pendingIndexEntry ==> numEntries > 0)
    }

    /** All entries added so far. */
    ghost function Entries(): seq<Pair>
      reads this, dataBlock
    {
      All(With(blocks, dataBlock.entries))
    }

    constructor (crc: Checksum, interval: nat, blockSize: nat, filterBlock: FilterBlockBuilder?)
      requires interval >= 1
      requires filterBlock != null ==> filterBlock.Valid() && filterBlock.groups == [] && filterBlock.pending == []
      ensures Valid() && Entries() == [] && this.crc == crc && this.interval == interval &&
              this.filterBlock == filterBlock
      ensures blocks == [] && dataBlock.entries == [] && this.blockSize == blockSize
      ensures fresh(dataBlock) && fresh(indexBlock)
    {
      this.crc, this.interval, this.blockSize, this.filterBlock := crc, interval, blockSize, filterBlock;
      dataBlock := new BlockBuilder(interval);
      indexBlock := new BlockBuilder(1);
      file, offset, lastKey, numEntries, pendingIndexEntry, pendingHandle := [], 0, [], 0, false, Handle(0, 0);
      blocks, handles, seps := [], [], [];
    }

    lemma LastKeyIsLast()
      requires Valid()
      ensures lastKey == LastKey(Entries()) && (numEntries > 0 ==> Entries() != [])
    {
    }

    method WriteRawBlock(contents: Bytes) returns (handle: Handle)
      requires offset == |file|
      modifies this`file, this`offset
      ensures handle == Handle(old(offset), |contents|) && offset == |file|
      ensures file == old(file) + (contents + Trailer(crc, contents))
      ensures BlockAt(file, crc, handle, contents)
    {
      handle := Handle(offset, |contents|);
      AppendedAtEnd(file, crc, contents);
      file := file + (contents + Trailer(crc, contents));
      offset := offset + |contents| + TRAILER_SIZE;
    }

    /** The index entry of the last block. */
    method AddIndexEntry(sep: Bytes)
      requires Parts() && FileValid() && pendingIndexEntry && |seps| + 1 == |handles|
      modifies this`pendingIndexEntry, this`seps, indexBlock
      ensures Parts() && FileValid() && !pendingIndexEntry && seps == old(seps) + [sep]
    {
      hide Built;
      IndexSnoc(seps, handles, sep);
      indexBlock.Add(sep, EncodeHandle(pendingHandle));
      pendingIndexEntry := false;
      seps := seps + [sep];
    }

    method Add(key: Bytes, value: Bytes)
      requires Valid() && |key| >= 8 && (numEntries > 0 ==> KeyLess(lastKey, key))
      modifies this, dataBlock, indexBlock, filterBlock
      ensures Valid() && Entries() == old(Entries()) + [Pair(key, value)]
      ensures var grown := old(dataBlock.entries) + [Pair(key, value)];
              if IsFull(interval, blockSize, grown) then blocks == old(blocks) + [grown] && dataBlock.entries == []
              else blocks == old(blocks) && dataBlock.entries == grown
    {
      hide Built, BlockBytes, Cut, FileValid, FilterValid, IsFull, All, With;
      EntriesGrow(blocks, dataBlock.entries, Pair(key, value));
      CutBefore(key, value);
      AddToBlock(key, value);
      FlushIfFull();
    }

    method FlushIfFull()
      requires Valid()
      modifies this, dataBlock, filterBlock
      ensures Valid() && Entries() == old(Entries())
      ensures if IsFull(interval, blockSize, old(dataBlock.entries)) && old(dataBlock.entries) != []
              then blocks == old(blocks) + [old(dataBlock.entries)] && dataBlock.entries == []
              else blocks == old(blocks) && dataBlock.entries == old(dataBlock.entries)
    {
      hide Built, BlockBytes;
      dataBlock.EstimateIsSize();
      if dataBlock.CurrentSizeEstimate() >= blockSize {
        Flush();
      }
    }

    /** The index entry of the last block can be made when the first key of the next is known. */
    method CutBefore(key: Bytes, ghost value: Bytes)
      requires Valid() && |key| >= 8 && (numEntries > 0 ==> KeyLess(lastKey, key))
      modifies this`pendingIndexEntry, this`seps, indexBlock
      ensures Parts() && FileValid() && FilterValid() && !pendingIndexEntry
      ensures Cut(blocks, dataBlock.entries + [Pair(key, value)], seps, false, key)
    {
      hide Built;
      ghost var e := Pair(key, value);
      if pendingIndexEntry {
        FirstEntryCuts(blocks, seps, lastKey, e);
        assert dataBlock.entries + [e] == [e];
        var sep := FindShortestKeySeparator(lastKey, key);
        AddIndexEntry(sep);
      } else {
        NextEntryCuts(blocks, dataBlock.entries, seps, lastKey, e);
      }
    }

    method AddToBlock(key: Bytes, value: Bytes)
      requires Parts() && FileValid() && FilterValid() && !pendingIndexEntry && |key| >= 8
      requires Cut(blocks, dataBlock.entries + [Pair(key, value)], seps, false, key)
      modifies this`lastKey, this`numEntries, dataBlock, filterBlock
      ensures Valid() && dataBlock.entries == old(dataBlock.entries) + [Pair(key, value)]
    {
      hide Built;
      EntriesGrow(blocks, dataBlock.entries, Pair(key, value));
      AddFilterKey(key, value);
      lastKey := key;
      numEntries := numEntries + 1;
      dataBlock.Add(key, value);
    }

    method AddFilterKey(key: Bytes, ghost value: Bytes)
      requires FilterValid()
      modifies filterBlock
      ensures filterBlock != null ==>
                && filterBlock.Valid() && |filterBlock.groups| == offset / BASE
                && Covers(filterBlock.groups, filterBlock.pending, blocks, handles)
                && Pending(filterBlock.pending, dataBlock.entries + [Pair(key, value)])
    {
      if filterBlock != null {
        CoversAfterAdd(filterBlock.groups, filterBlock.pending, blocks, handles, dataBlock.entries, Pair(key, value));
        filterBlock.AddKey(key);
      }
    }

    method Flush()
      requires Valid()
      modifies this, dataBlock, filterBlock
      ensures Valid() && Entries() == old(Entries()) && dataBlock.entries == []
      ensures blocks == With(old(blocks), old(dataBlock.entries))
      ensures seps == old(seps) && numEntries == old(numEntries)
    {
      hide Built;
      dataBlock.EmptyHasNone();
      if dataBlock.Empty() {
        return;
      }
      ghost var current := dataBlock.entries;
      AllSnoc(blocks, current);
      AllSnoc(blocks + [current], []);
      WrittenCuts(blocks, current, seps, lastKey);
      WriteDataBlock();
      if filterBlock != null {
        CoversAfterFlush(filterBlock.groups, filterBlock.pending, blocks[..|blocks| - 1], handles[..|handles| - 1],
                         current, pendingHandle, offset / BASE);
        filterBlock.StartBlock(offset);
      }
    }

    method WriteDataBlock()
      requires Parts() && FileValid() && !pendingIndexEntry && |seps| == |handles|
      modifies this`file, this`offset, this`pendingHandle, this`pendingIndexEntry, this`blocks, this`handles, dataBlock
      ensures Parts() && FileValid() && pendingIndexEntry && dataBlock.entries == []
      ensures blocks == old(blocks) + [old(dataBlock.entries)] && handles == old(handles) + [pendingHandle]
      ensures pendingHandle.offset == old(offset) && offset >= old(offset)
    {
      hide Built;
      ghost var current, was := dataBlock.entries, file;
      var raw := dataBlock.Finish();
      pendingHandle := WriteRawBlock(raw);
      dataBlock.Reset();
      pendingIndexEntry := true;
      WrittenStays(was, raw + Trailer(crc, raw), crc, interval, blocks, handles);
      WrittenSnoc(file, crc, interval, blocks, handles, current, pendingHandle);
      IndexLonger(seps, handles, pendingHandle);
      blocks, handles := blocks + [current], handles + [pendingHandle];
    }

    /** WriteRawBlock once the data blocks are written. */
    method AppendBlock(contents: Bytes) returns (handle: Handle)
      requires FileValid()
      modifies this`file, this`offset
      ensures FileValid() && old(file) <= file && BlockAt(file, crc, handle, contents)
    {
      ghost var was := file;
      handle := WriteRawBlock(contents);
      WrittenStays(was, contents + Trailer(crc, contents), crc, interval, blocks, handles);
    }

    method WriteFilters() returns (handle: Handle, ghost groups: seq<seq<Bytes>>)
      requires FileValid() && FilterValid()
      modifies this`file, this`offset, filterBlock
      ensures FileValid() && old(file) <= file
      ensures filterBlock != null ==>
                BlockAt(file, crc, handle, FilterBlockBytes(filterBlock.policy, groups)) &&
                  Covers(groups, [], blocks, handles)
    {
      handle, groups := Handle(0, 0), [];
      if filterBlock != null {
        groups := Finished(filterBlock.groups, filterBlock.pending);
        CoversAtEnd(filterBlock.groups, filterBlock.pending, blocks, handles);
        var contents := filterBlock.Finish();
        handle := AppendBlock(contents);
      }
    }

    /** One entry: where the filters are. */
    method WriteMetaindex(filterName: Bytes, filterHandle: Handle) returns (handle: Handle)
      requires FileValid() && interval >= 1
      modifies this`file, this`offset
      ensures FileValid() && old(file) <= file
      ensures BlockAt(file, crc, handle,
                      BlockBytes(interval, MetaEntries(filterBlock != null, filterName, filterHandle)))
    {
      var metaIndexBlock := new BlockBuilder(interval);
      if filterBlock != null {
        metaIndexBlock.Add(FilterKey(filterName), EncodeHandle(filterHandle));
      }
      assert metaIndexBlock.entries == MetaEntries(filterBlock != null, filterName, filterHandle);
      var raw := metaIndexBlock.Finish();
      handle := AppendBlock(raw);
    }

    /** The index entry of the last block. */
    method CloseIndex()
      requires Parts() && FileValid() && Cut(blocks, [], seps, pendingIndexEntry, lastKey)
      requires (pendingIndexEntry ==> |lastKey| >= 8) && (pendingIndexEntry || blocks == [])
      modifies this`pendingIndexEntry, this`seps, indexBlock
      ensures Parts() && FileValid() && IndexOk(blocks, seps) && |seps| == |handles|
    {
      hide Built;
      if pendingIndexEntry {
        LastCuts(blocks, seps, lastKey);
        var sep := FindShortKeySuccessor(lastKey);
        AddIndexEntry(sep);
      } else {
        EmptyCuts(seps, lastKey);
      }
    }

    method WriteIndex() returns (handle: Handle)
      requires Parts() && FileValid()
      modifies this`file, this`offset, indexBlock
      ensures old(file) <= file && Written(file, crc, interval, blocks, handles)
      ensures BlockAt(file, crc, handle, BlockBytes(1, IndexEntries(seps, handles)))
    {
      ghost var was := file;
      var raw := indexBlock.Finish();
      handle := WriteRawBlock(raw);
      WrittenStays(was, raw + Trailer(crc, raw), crc, interval, blocks, handles);
    }

    /** The end of the file: filters, the metaindex, the index and the footer. */
    method Finish(filterName: Bytes) returns (footer: Footer, filterHandle: Handle, ghost groups: seq<seq<Bytes>>)
      requires Valid() && interval >= 1
      modifies this, dataBlock, indexBlock, filterBlock
      ensures HoldsTable(file, crc, interval, footer, blocks, handles, seps) && All(blocks) == old(Entries())
      ensures blocks == With(old(blocks), old(dataBlock.entries))
      ensures BlockAt(file, crc, footer.metaindex,
                      BlockBytes(interval, MetaEntries(filterBlock != null, filterName, filterHandle)))
      ensures filterBlock != null ==>
                BlockAt(file, crc, filterHandle, FilterBlockBytes(filterBlock.policy, groups)) &&
                  Covers(groups, [], blocks, handles)
    {
      hide Built, BlockAt, Written, Covers, FilterBlockBytes, BlockBytes, EncodeFooter, IndexEntries, IndexOk, Trailer;
      Flush();
      assert With(blocks, dataBlock.entries) == blocks;
      filterHandle, groups := WriteFilters();
      ghost var file0 := file;
      var metaindexHandle := WriteMetaindex(filterName, filterHandle);
      CloseIndex();
      ghost var file1 := file;
      var indexHandle := WriteIndex();
      footer := Footer(metaindexHandle, indexHandle);
      ghost var file2 := file;
      file := file + EncodeFooter(footer);
      offset := offset + FOOTER_LENGTH;
      WrittenStays(file2, EncodeFooter(footer), crc, interval, blocks, handles);
      BlockStaysIn(file2, file, crc, indexHandle, BlockBytes(1, IndexEntries(seps, handles)));
      BlockStaysIn(file1, file, crc, metaindexHandle,
                   BlockBytes(interval, MetaEntries(filterBlock != null, filterName, filterHandle)));
      if filterBlock != null {
        BlockStaysIn(file0, file, crc, filterHandle, FilterBlockBytes(filterBlock.policy, groups));
      }
    }
  }

  /** "filter." and the name of the policy. */
  function FilterKey(name: Bytes): Bytes {
    [102, 105, 108, 116, 101, 114, 46] + name
  }

  function MetaEntries(filters: bool, name: Bytes, filterHandle: Handle): seq<Pair> {
    if filters then [Pair(FilterKey(name), EncodeHandle(filterHandle))] else []
  }

  /** A complete table file. */
  ghost predicate HoldsTable(file: Bytes, crc: Checksum, interval: nat, footer: Footer, blocks: Blocks,
                             handles: seq<Handle>, seps: seq<Bytes>)
  {
    && IndexOk(blocks, seps) && |seps| == |handles|
    && Written(file, crc, interval, blocks, handles)
    && BlockAt(file, crc, footer.index, BlockBytes(1, IndexEntries(seps, handles)))
    && FOOTER_LENGTH <= |file| && file[|file| - FOOTER_LENGTH..] == EncodeFooter(footer)
  }

  lemma BlockStaysIn(file: Bytes, longer: Bytes, crc: Checksum, h: Handle, contents: Bytes)
    requires BlockAt(file, crc, h, contents) && file <= longer
    ensures BlockAt(longer, crc, h, contents)
  {
    BlockStays(file, longer[|file|..], crc, h, contents);
    assert file + longer[|file|..] == longer;
  }

  lemma IndexSnoc(seps: seq<Bytes>, handles: seq<Handle>, sep: Bytes)
    requires |seps| < |handles|
    ensures IndexEntries(seps + [sep], handles) ==
            IndexEntries(seps, handles) + [Pair(sep, EncodeHandle(handles[|seps|]))]
  {
  }

  lemma IndexLonger(seps: seq<Bytes>, handles: seq<Handle>, h: Handle)
    requires |seps| <= |handles|
    ensures IndexEntries(seps, handles + [h]) == IndexEntries(seps, handles)
  {
  }

  lemma EntriesGrow(blocks: Blocks, current: seq<Pair>, e: Pair)
    ensures All(With(blocks, current + [e])) == All(With(blocks, current)) + [e]
  {
    AllSnoc(blocks, current);
    AllSnoc(blocks, current + [e]);
    Sequences.Associates(All(blocks), current, [e]);
  }

  /** BuildTable without its file handling: a table with these entries. */
  method BuildTable(crc: Checksum, interval: nat, blockSize: nat, filterBlock: FilterBlockBuilder?, filterName: Bytes,
                    pairs: seq<Pair>)
    returns (file: Bytes, footer: Footer, ghost blocks: Blocks, ghost handles: seq<Handle>, ghost seps: seq<Bytes>)
    requires interval >= 1 && KeyAscending(pairs) && forall i :: 0 <= i < |pairs| ==> |pairs[i].key| >= 8
    requires filterBlock != null ==> filterBlock.Valid() && filterBlock.groups == [] && filterBlock.pending == []
    modifies filterBlock
    ensures HoldsTable(file, crc, interval, footer, blocks, handles, seps) && All(blocks) == pairs
    ensures BlocksFilled(interval, blockSize, blocks)
  {
    hide TableBuilder.Valid, TableBuilder.Entries, FilterBlockBuilder.Valid, HoldsTable, All, Filling, BlocksFilled,
      IsFull;
    var builder := new TableBuilder(crc, interval, blockSize, filterBlock);
    NothingFilled(interval, blockSize);
    for i := 0 to |pairs|
      invariant builder.Valid() && builder.Entries() == pairs[..i] && builder.filterBlock == filterBlock
      invariant builder.crc == crc && builder.interval == interval && builder.blockSize == blockSize
      invariant Filling(interval, blockSize, builder.blocks, builder.dataBlock.entries)
      invariant fresh(builder) && fresh(builder.dataBlock) && fresh(builder.indexBlock)
    {
      assert KeyOrder(pairs, i - 1, i);
      builder.LastKeyIsLast();
      assert pairs[..i + 1] == pairs[..i] + [pairs[i]];
      FillingGrows(interval, blockSize, builder.blocks, builder.dataBlock.entries, pairs[i]);
      builder.Add(pairs[i].key, pairs[i].value);
    }
    assert pairs[..|pairs|] == pairs;
    var filterHandle;
    ghost var groups;
    FillingEnds(interval, blockSize, builder.blocks, builder.dataBlock.entries);
    footer, filterHandle, groups := builder.Finish(filterName);
    file, blocks, handles, seps := builder.file, builder.blocks, builder.handles, builder.seps;
  }
}
