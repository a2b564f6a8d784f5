/** Opening a table file and looking a key up in it (table/table.cc). */
module Tables {
  import opened BlockFormat
  import opened BlockIter
  import opened BlockRoundTrip
  import opened Coding
  import opened Comparators
  import opened FilterBlock
  import opened TableBuilding
  import opened TableFormat
  import opened TableLookup
  import opened Wrappers
  import Bloom

  // ---------------------------------------------------------------- filters by user key

  /** InternalFilterPolicy: a filter policy that sees only user keys. */
  function ByUserKey(policy: Policy): Policy {
    Policy(keys => policy.create(UserKeys(keys)), (key, filter) => policy.passes(UserKey(key), filter))
  }

  function UserKeys(keys: seq<Bytes>): (r: seq<Bytes>)
    ensures |r| == |keys|
  {
    seq(|keys|, i requires 0 <= i < |keys| => UserKey(keys[i]))
  }

  /** A filter never holds up a key that has the user key of one it was made for. */
  ghost predicate PassesUserKeys(policy: Policy) {
    forall group: seq<Bytes>, key: Bytes,
      target: Bytes {:trigger policy.passes(target, policy.create(group)), key in group} ::
      key in group && UserKey(key) == UserKey(target) ==> policy.passes(target, policy.create(group))
  }

  lemma ByUserKeyPasses(policy: Policy)
    requires NoFalseNegatives(policy)
    ensures PassesUserKeys(ByUserKey(policy))
  {
    var internal := ByUserKey(policy);
    forall group: seq<Bytes>, key: Bytes, target: Bytes | key in group && UserKey(key) == UserKey(target)
      ensures internal.passes(target, internal.create(group))
    {
      var i :| 0 <= i < |group| && group[i] == key;
      assert UserKeys(group)[i] == UserKey(target);
      assert UserKey(target) in UserKeys(group);
    }
  }

  /** The Bloom filter as a policy. */
  function BloomPolicy(hash: Bloom.HashFunction, bitsPerKey: nat, rounded: int): Policy {
    Policy(keys => Bloom.Filter(hash, bitsPerKey, rounded, keys), (key, filter) => Bloom.Passes(hash, key, filter))
  }

  lemma BloomHasNoFalseNegatives(hash: Bloom.HashFunction, bitsPerKey: nat, rounded: int)
    ensures NoFalseNegatives(BloomPolicy(hash, bitsPerKey, rounded))
  {
    var policy := BloomPolicy(hash, bitsPerKey, rounded);
    forall keys: seq<Bytes>, key: Bytes | key in keys ensures policy.passes(key, policy.create(keys)) {
      Bloom.MadeForPasses(hash, bitsPerKey, rounded, keys, key);
    }
  }

  // ---------------------------------------------------------------- the index block

  lemma SeparatorsAscend(blocks: Blocks, seps: seq<Bytes>, b: nat)
    requires IndexOk(blocks, seps) && b + 1 < |blocks|
    ensures KeyLess(seps[b], seps[b + 1])
  {
    hide KeyLess;
    assert SeparatorOk(blocks, seps, b) && SeparatorOk(blocks, seps, b + 1) && NonEmpty(blocks, b) &&
           NonEmpty(blocks, b + 1);
    var first, last := FirstKey(blocks[b + 1]), LastKey(blocks[b + 1]);
    AllAt(blocks, b + 1, 0);
    AllAt(blocks, b + 1, |blocks[b + 1]| - 1);
    assert KeyOrder(All(blocks), From(blocks, b + 1), From(blocks, b + 1) + |blocks[b + 1]| - 1);
    if first != last { KeyTransitive(seps[b], first, last); }
    LessThenNotBefore(seps[b], last, seps[b + 1]);
  }

  lemma LessThenNotBefore(a: Bytes, b: Bytes, c: Bytes)
    requires KeyLess(a, b) && !KeyLess(c, b)
    ensures KeyLess(a, c)
  {
    BytesTrichotomy(UserKey(b), UserKey(c));
    if BytesLess(UserKey(a), UserKey(b)) && BytesLess(UserKey(b), UserKey(c)) {
      BytesTransitive(UserKey(a), UserKey(b), UserKey(c));
    }
  }

  lemma {:induction false} SeparatorsAscendFar(blocks: Blocks, seps: seq<Bytes>, a: nat, b: nat)
    requires IndexOk(blocks, seps) && a < b < |blocks|
    ensures KeyLess(seps[a], seps[b])
  {
    hide KeyLess, SeparatorOk;
    SeparatorsAscend(blocks, seps, b - 1);
    if a < b - 1 {
      SeparatorsAscendFar(blocks, seps, a, b - 1);
      KeyTransitive(seps[a], seps[b - 1], seps[b]);
    }
  }

  lemma IndexAscends(blocks: Blocks, seps: seq<Bytes>, handles: seq<Handle>)
    requires IndexOk(blocks, seps) && |seps| == |handles|
    ensures Ascending(KeyLess, IndexEntries(seps, handles))
  {
    forall a, b | 0 <= a < b < |seps| ensures KeyLess(seps[a], seps[b]) {
      SeparatorsAscendFar(blocks, seps, a, b);
    }
  }

  lemma KeyLessIsTransitive()
    ensures Transitive(KeyLess)
  {
    forall a, b, c | KeyLess(a, b) && KeyLess(b, c) ensures KeyLess(a, c) {
      KeyTransitive(a, b, c);
    }
  }

  lemma BlockAscends(blocks: Blocks, b: nat)
    requires KeyAscending(All(blocks)) && b < |blocks|
    ensures Ascending(KeyLess, blocks[b])
  {
    forall i, j | 0 <= i < j < |blocks[b]| ensures KeyLess(blocks[b][i].key, blocks[b][j].key) {
      AllAt(blocks, b, i);
      AllAt(blocks, b, j);
      assert KeyOrder(All(blocks), From(blocks, b) + i, From(blocks, b) + j);
    }
  }

  // ---------------------------------------------------------------- what a lookup finds

  /** Nothing that is not before the target has its user key. */
  ghost predicate NoneWithUserKey(all: seq<Pair>, target: Bytes) {
    forall n :: 0 <= n < |all| && !KeyLess(all[n].key, target) ==> UserKey(all[n].key) != UserKey(target)
  }

  /** The answer of a lookup, as a scan of all entries would give it: an answer is the first entry not before
      the target, and no answer means that no such entry has the user key of the target. */
  ghost predicate IsScan(all: seq<Pair>, target: Bytes, r: Option<Pair>) {
    match r
    case Some(e) => exists i: nat :: IsBound(KeyLess, all, target, i) && i < |all| && all[i] == e
    case None => NoneWithUserKey(all, target)
  }

  /** If the first entry not before the target has another user key, none has its user key. */
  lemma FirstDecides(all: seq<Pair>, target: Bytes, i: nat)
    requires KeyAscending(all) && IsBound(KeyLess, all, target, i)
    requires i < |all| ==> UserKey(all[i].key) != UserKey(target)
    ensures NoneWithUserKey(all, target)
  {
    forall n | 0 <= n < |all| && !KeyLess(all[n].key, target) ensures UserKey(all[n].key) != UserKey(target) {
      if UserKey(all[n].key) == UserKey(target) { SameUserComesFirst(all, target, i, n); }
    }
  }

  /** An entry with the user key of the target, at or after it: then a scan finds one, the newest of them. */
  lemma ScanFinds(all: seq<Pair>, target: Bytes, r: Option<Pair>, n: nat)
    requires KeyAscending(all) && IsScan(all, target, r)
    requires n < |all| && UserKey(all[n].key) == UserKey(target) && !KeyLess(all[n].key, target)
    ensures r.Some? && UserKey(r.value.key) == UserKey(target) && !KeyLess(all[n].key, r.value.key)
  {
    var i: nat :| IsBound(KeyLess, all, target, i) && i < |all| && all[i] == r.value;
    SameUserComesFirst(all, target, i, n);
    KeyIrreflexive(all[n].key);
    NotBothLess(all, i, n);
  }

  lemma NotBothLess(all: seq<Pair>, i: nat, n: nat)
    requires KeyAscending(all) && i <= n < |all|
    ensures !KeyLess(all[n].key, all[i].key)
  {
    assert KeyOrder(all, i, n);
    KeyIrreflexive(all[i].key);
    if KeyLess(all[n].key, all[i].key) && i < n { KeyTransitive(all[i].key, all[n].key, all[i].key); }
  }

  /** Seek in a block that a builder finished. */
  method SeekIn(block: Bytes, ghost interval: nat, ghost entries: seq<Pair>, less: Less, target: Bytes)
    returns (r: Option<Pair>, ghost i: nat)
    requires block == BlockBytes(interval, entries) && |block| < LIMIT && Transitive(less) && Ascending(less, entries)
    ensures IsBound(less, entries, target, i) && r == if i < |entries| then Some(entries[i]) else None
  {
    var iter := BlockRoundTrip.Open(block, interval, entries);
    iter.Seek(less, target);
    iter.ValidMeansAtEntry();
    i, r := iter.at, None;
    if iter.IsValid() {
      var e := iter.Current();
      r := Some(e);
    }
  }

  lemma IndexBound(seps: seq<Bytes>, handles: seq<Handle>, k: Bytes, b: nat)
    requires |seps| == |handles| && IsBound(KeyLess, IndexEntries(seps, handles), k, b)
    ensures b <= |seps| && (b > 0 ==> KeyLess(seps[b - 1], k)) && (b < |seps| ==> !KeyLess(seps[b], k))
  {
    var entries := IndexEntries(seps, handles);
    assert b > 0 ==> KeyLess(entries[b - 1].key, k);
  }

  // ---------------------------------------------------------------- the table

  /** The blocks fit their 32-bit offsets, the file its 64-bit ones, and checksums are words. */
  ghost predicate Sizes(file: Bytes, crc: Checksum, interval: nat, blocks: Blocks, index: seq<Pair>) {
    && |file| < Pow2(64) && (forall s :: crc(s) < Pow2(32))
    && |BlockBytes(1, index)| < LIMIT && (forall b :: 0 <= b < |blocks| ==> |BlockBytes(interval, blocks[b])| < LIMIT)
  }

  class Table {
    const file: Bytes
    const crc: Checksum
    const verify: bool
    const indexBlock: Bytes
    /** Null without filters. */
    const filter: FilterBlockReader?
    ghost const interval: nat
    ghost const blocks: Blocks
    ghost const handles: seq<Handle>
    ghost const seps: seq<Bytes>
    ghost const groups: seq<seq<Bytes>>

    ghost predicate IndexValid() {
      && IndexOk(blocks, seps) && |seps| == |handles| && indexBlock == BlockBytes(1, IndexEntries(seps, handles))
      && Written(file, crc, interval, blocks, handles)
      && Sizes(file, crc, interval, blocks, IndexEntries(seps, handles))
    }

    ghost predicate FilterValid() {
      filter != null ==> Serves(filter, groups) && Covers(groups, [], blocks, handles) && PassesUserKeys(filter.policy)
    }

    constructor (file: Bytes, crc: Checksum, verify: bool, indexBlock: Bytes, filter: FilterBlockReader?,
                 ghost interval: nat,
                 ghost blocks: Blocks, ghost handles: seq<Handle>, ghost seps: seq<Bytes>,
                   ghost groups: seq<seq<Bytes>>)
      ensures this.file == file && this.crc == crc && this.indexBlock == indexBlock && this.filter == filter
      ensures this.interval == interval && this.blocks == blocks && this.handles == handles && this.seps == seps &&
              this.groups == groups
    {
      this.file, this.crc, this.verify, this.indexBlock, this.filter := file, crc, verify, indexBlock, filter;
      this.interval, this.blocks, this.handles, this.seps, this.groups := interval, blocks, handles, seps, groups;
    }

    /** The block that an index entry leads to. */
    method ReadDataBlock(handleValue: Bytes, ghost b: nat) returns (handle: Handle, contents: Bytes)
      requires IndexValid() && b < |blocks| && handleValue == EncodeHandle(handles[b])
      ensures handle == handles[b] && contents == BlockBytes(interval, blocks[b]) && |contents| < LIMIT
    {
      hide BlockBytes;
      assert WrittenAt(file, crc, interval, blocks, handles, b);
      HandleRoundTrip(handles[b], []);
      assert handleValue + [] == handleValue;
      BlockReads(file, crc, verify, handles[b], BlockBytes(interval, blocks[b]));
      // the source reports a bad handle and a damaged block
      handle := DecodeHandle(handleValue).value.value;
      contents := ReadBlock(file, crc, verify, handle).data;
    }

    /** The answer of the filter of the range in which the block starts; it lets every key pass whose user
        key is in the block. */
    method MayContain(handle: Handle, k: Bytes, ghost b: nat) returns (may: bool)
      requires FilterValid() && b < |blocks| == |handles| && handle == handles[b]
      ensures may == (filter != null && handle.offset / BASE < |groups| ==>
                        filter.policy.passes(k, FilterOf(filter.policy, groups[handle.offset / BASE])))
      ensures !may ==> forall j :: 0 <= j < |blocks[b]| ==> UserKey(blocks[b][j].key) != UserKey(k)
    {
      if filter == null {
        return true;
      }
      may := Query(filter, groups, handle.offset, k);
      forall j | !may && 0 <= j < |blocks[b]| ensures UserKey(blocks[b][j].key) != UserKey(k) {
        assert KeyCovered(groups, [], blocks, handles, b, j);
      }
    }

    /** Seek in the index block. */
    method SeekIndex(k: Bytes) returns (found: bool, handleValue: Bytes, ghost b: nat)
      requires IndexValid()
      ensures b <= |blocks| && found == (b < |blocks|) && (found ==> handleValue == EncodeHandle(handles[b]))
      ensures (b > 0 ==> KeyLess(seps[b - 1], k)) && (found ==> !KeyLess(seps[b], k))
    {
      IndexAscends(blocks, seps, handles);
      KeyLessIsTransitive();
      var r;
      r, b := SeekIn(indexBlock, 1, IndexEntries(seps, handles), KeyLess, k);
      IndexBound(seps, handles, k, b);
      found, handleValue := r.Some?, if r.Some? then r.value.value else [];
    }

    /** Seek in a data block. */
    method SeekBlock(contents: Bytes, k: Bytes, ghost b: nat) returns (r: Option<Pair>, ghost j: nat)
      requires IndexValid() && b < |blocks| && contents == BlockBytes(interval, blocks[b]) && |contents| < LIMIT
      ensures IsBound(KeyLess, blocks[b], k, j) && r == if j < |blocks[b]| then Some(blocks[b][j]) else None
    {
      BlockAscends(blocks, b);
      KeyLessIsTransitive();
      r, j := SeekIn(contents, interval, blocks[b], KeyLess, k);
    }

    method InternalGet(k: Bytes) returns (r: Option<Pair>)
      requires IndexValid() && FilterValid()
      ensures IsScan(All(blocks), k, r)
    {
      hide BlockBytes, IsScan, IsBound, KeyLess, All;
      var found, handleValue, b := SeekIndex(k);
      if !found {
        BehindIndex(blocks, seps, k);
        return None;
      }
      var handle, contents := ReadDataBlock(handleValue, b);
      var may := MayContain(handle, k, b);
      ghost var j;
      if !may {
        FilteredOut(blocks, seps, k, b);
        return None;
      }
      r, j := SeekBlock(contents, k, b);
      FoundInBlock(blocks, seps, k, b, j, r);
    }
  }

  /** Beyond the index there is nothing. */
  lemma BehindIndex(blocks: Blocks, seps: seq<Bytes>, k: Bytes)
    requires IndexOk(blocks, seps) && (blocks != [] ==> KeyLess(seps[|seps| - 1], k))
    ensures IsScan(All(blocks), k, None)
  {
    BehindAll(blocks, seps, k);
    FirstDecides(All(blocks), k, |All(blocks)|);
  }

  /** Where the index leads decides. */
  lemma FoundInBlock(blocks: Blocks, seps: seq<Bytes>, k: Bytes, b: nat, j: nat, r: Option<Pair>)
    requires IndexOk(blocks, seps) && b < |blocks| && (b > 0 ==> KeyLess(seps[b - 1], k)) && !KeyLess(seps[b], k)
    requires IsBound(KeyLess, blocks[b], k, j) && r == if j < |blocks[b]| then Some(blocks[b][j]) else None
    ensures IsScan(All(blocks), k, r)
  {
    if j < |blocks[b]| {
      InBlock(blocks, seps, k, b, j);
    } else {
      BehindBlock(blocks, seps, k, b);
      FirstDecides(All(blocks), k, From(blocks, b + 1));
    }
  }

  /** If no key of the block has the user key of the target, no key at or after the target has. */
  lemma FilteredOut(blocks: Blocks, seps: seq<Bytes>, k: Bytes, b: nat)
    requires IndexOk(blocks, seps) && b < |blocks| && (b > 0 ==> KeyLess(seps[b - 1], k)) && !KeyLess(seps[b], k)
    requires forall j :: 0 <= j < |blocks[b]| ==> UserKey(blocks[b][j].key) != UserKey(k)
    ensures IsScan(All(blocks), k, None)
  {
    var j := FirstNotBefore(blocks, b, k);
    if j < |blocks[b]| {
      InBlock(blocks, seps, k, b, j);
      FirstDecides(All(blocks), k, From(blocks, b) + j);
    } else {
      BehindBlock(blocks, seps, k, b);
      FirstDecides(All(blocks), k, From(blocks, b + 1));
    }
  }

  lemma FirstNotBefore(blocks: Blocks, b: nat, k: Bytes) returns (j: nat)
    requires b < |blocks|
    ensures IsBound(KeyLess, blocks[b], k, j)
  {
    j := 0;
    while j < |blocks[b]| && KeyLess(blocks[b][j].key, k)
      invariant j <= |blocks[b]| && forall i :: 0 <= i < j ==> KeyLess(blocks[b][i].key, k)
    {
      j := j + 1;
    }
  }

  // ---------------------------------------------------------------- opening

  lemma SingleKeySeek(entries: seq<Pair>, key: Bytes, i: nat)
    requires |entries| == 1 && entries[0].key == key && IsBound(BytesLess, entries, key, i)
    ensures i == 0
  {
    BytesIrreflexive(key);
  }

  lemma BytesLessIsTransitive()
    ensures Transitive(BytesLess)
  {
    forall a, b, c | BytesLess(a, b) && BytesLess(b, c) ensures BytesLess(a, c) {
      BytesTransitive(a, b, c);
    }
  }

  lemma HandleInFile(file: Bytes, crc: Checksum, h: Handle, contents: Bytes)
    requires |file| < Pow2(64) && BlockAt(file, crc, h, contents)
    ensures HandleOk(h)
  {
  }

  /** ReadFilter. */
  method ReadFilter(file: Bytes, crc: Checksum, verify: bool, handleValue: Bytes, policy: Policy,
                    ghost filterHandle: Handle, ghost groups: seq<seq<Bytes>>)
    returns (filter: FilterBlockReader)
    requires |file| < Pow2(64) && forall s :: crc(s) < Pow2(32)
    requires handleValue == EncodeHandle(filterHandle)
    requires BlockAt(file, crc, filterHandle, FilterBlockBytes(policy, groups)) &&
             |FilterBlockBytes(policy, groups)| < LIMIT
    ensures filter.policy == policy && Serves(filter, groups)
  {
    hide FilterBlockBytes, Serves, BlockAt, ReadBlock, EncodeHandle, Pow2;
    HandleInFile(file, crc, filterHandle, FilterBlockBytes(policy, groups));
    BlockReads(file, crc, verify, filterHandle, FilterBlockBytes(policy, groups));
    HandleRoundTrip(filterHandle, []);
    assert handleValue + [] == handleValue;
    var handle := DecodeHandle(handleValue).value.value;
    filter := FilterBlock.Open(policy, groups, ReadBlock(file, crc, verify, handle).data);
  }

  /** ReadMeta: the filters, found by name in the metaindex block. */
  method ReadMeta(file: Bytes, crc: Checksum, verify: bool, metaindex: Handle, policy: Policy, name: Bytes,
                  ghost interval: nat, ghost filterHandle: Handle, ghost groups: seq<seq<Bytes>>)
    returns (filter: FilterBlockReader?)
    requires |file| < Pow2(64) && forall s :: crc(s) < Pow2(32)
    requires BlockAt(file, crc, metaindex, BlockBytes(interval, MetaEntries(true, name, filterHandle)))
    requires BlockAt(file, crc, filterHandle, FilterBlockBytes(policy, groups))
    requires |BlockBytes(interval, MetaEntries(true, name, filterHandle))| < LIMIT &&
             |FilterBlockBytes(policy, groups)| < LIMIT
    ensures filter != null && filter.policy == policy && Serves(filter, groups)
  {
    hide BlockBytes, FilterBlockBytes, Serves, EncodeHandle, Pow2, BlockAt, ReadBlock;
    ghost var entries := MetaEntries(true, name, filterHandle);
    BlockReads(file, crc, verify, metaindex, BlockBytes(interval, entries));
    BytesLessIsTransitive();
    var contents := ReadBlock(file, crc, verify, metaindex).data;
    var key := FilterKey(name);
    var e, at := SeekIn(contents, interval, entries, BytesLess, key);
    SingleKeySeek(entries, key, at);
    filter := null;
    if e.Some? && e.value.key == key {
      filter := ReadFilter(file, crc, verify, e.value.value, policy, filterHandle, groups);
    }
  }

  /** Table::Open on a file that a builder finished; the source reports a file that is too short or whose
      footer is bad. */
  method Open(file: Bytes, crc: Checksum, verify: bool, policy: Option<Policy>, name: Bytes, ghost footer: Footer,
              ghost interval: nat,
              ghost blocks: Blocks, ghost handles: seq<Handle>, ghost seps: seq<Bytes>, ghost filterHandle: Handle,
                ghost groups: seq<seq<Bytes>>)
    returns (table: Table)
    requires HoldsTable(file, crc, interval, footer, blocks, handles, seps)
    requires Sizes(file, crc, interval, blocks, IndexEntries(seps, handles)) && HandleOk(footer.metaindex)
    requires policy.Some? ==>
               && BlockAt(file, crc, footer.metaindex, BlockBytes(interval, MetaEntries(true, name, filterHandle)))
               && BlockAt(file, crc, filterHandle, FilterBlockBytes(policy.value, groups)) &&
                  Covers(groups, [], blocks, handles)
               && |BlockBytes(interval, MetaEntries(true, name, filterHandle))| < LIMIT &&
                  |FilterBlockBytes(policy.value, groups)| < LIMIT
               && PassesUserKeys(policy.value)
    ensures table.IndexValid() && table.FilterValid() && table.blocks == blocks &&
            (policy.Some? <==> table.filter != null)
  {
    hide BlockBytes, FilterBlockBytes, EncodeFooter, DecodeFooter, BlockAt, ReadBlock, Pow2, Written, IndexOk;
    HandleInFile(file, crc, footer.index, BlockBytes(1, IndexEntries(seps, handles)));
    FooterRoundTrip(footer);
    BlockReads(file, crc, verify, footer.index, BlockBytes(1, IndexEntries(seps, handles)));
    var read := DecodeFooter(file[|file| - FOOTER_LENGTH..]).value;
    var indexBlock := ReadBlock(file, crc, verify, read.index).data;
    var filter: FilterBlockReader? := null;
    if policy.Some? {
      filter := ReadMeta(file, crc, verify, read.metaindex, policy.value, name, interval, filterHandle, groups);
    }
    table := new Table(file, crc, verify, indexBlock, filter, interval, blocks, handles, seps, groups);
  }
}
