/** Why a lookup through the index equals a scan of the whole table (table/table.cc, table/table_builder.cc). */
module TableLookup {
  import opened BlockFormat
  import opened BlockIter
  import opened Coding
  import opened Comparators
  import opened Wrappers
  import Sequences

  type Blocks = seq<seq<Pair>>

  /** All entries of a table, in order. */
  function All(blocks: Blocks): seq<Pair> {
    Sequences.Flatten(blocks)
  }

  /** Where block b starts among all entries. */
  function From(blocks: Blocks, b: nat): nat
    requires b <= |blocks|
  {
    |All(blocks[..b])|
  }

  function FirstKey(block: seq<Pair>): Bytes
    requires block != []
  {
    block[0].key
  }

  ghost predicate KeyOrder(entries: seq<Pair>, i: int, j: int) {
    0 <= i < j < |entries| ==> KeyLess(entries[i].key, entries[j].key)
  }

  /** The keys ascend, by the order of internal keys. */
  ghost predicate KeyAscending(entries: seq<Pair>) {
    forall i, j :: KeyOrder(entries, i, j)
  }

  ghost predicate NonEmpty(blocks: Blocks, b: int) {
    0 <= b < |blocks| ==> blocks[b] != []
  }

  /** If block b has an index key, it is not before the last key of the block and before the next block, and
      unless it is the last key itself, its user key is before that of the next block. */
  ghost predicate SeparatorOk(blocks: Blocks, seps: seq<Bytes>, b: int) {
    0 <= b < |blocks| && b < |seps| && blocks[b] != [] ==>
      && !KeyLess(seps[b], LastKey(blocks[b]))
      && (b + 1 < |blocks| && blocks[b + 1] != [] ==>
            && KeyLess(seps[b], FirstKey(blocks[b + 1]))
            && (seps[b] == LastKey(blocks[b]) || BytesLess(UserKey(seps[b]), UserKey(FirstKey(blocks[b + 1])))))
  }

  ghost predicate IndexOk(blocks: Blocks, seps: seq<Bytes>) {
    && |blocks| == |seps| && KeyAscending(All(blocks))
    && (forall b :: NonEmpty(blocks, b)) && (forall b :: SeparatorOk(blocks, seps, b))
  }

  lemma AllAt(blocks: Blocks, b: nat, j: nat)
    requires b < |blocks| && j < |blocks[b]|
    ensures From(blocks, b) + j < |All(blocks)| && All(blocks)[From(blocks, b) + j] == blocks[b][j]
    ensures From(blocks, b + 1) == From(blocks, b) + |blocks[b]|
  {
    Sequences.FlattenAt(blocks, b);
    assert All(blocks)[From(blocks, b)..From(blocks, b) + |blocks[b]|][j] == blocks[b][j];
  }

  /** What comes before an entry that is before the target is before the target. */
  lemma BeforeEntry(all: seq<Pair>, target: Bytes, n: nat)
    requires KeyAscending(all) && n < |all| && KeyLess(all[n].key, target)
    ensures forall i :: 0 <= i <= n ==> KeyLess(all[i].key, target)
  {
    forall i | 0 <= i <= n ensures KeyLess(all[i].key, target) {
      assert KeyOrder(all, i, n);
      if i < n { KeyTransitive(all[i].key, all[n].key, target); }
    }
  }

  /** The blocks before the one that the index leads to have nothing at or after the target. */
  lemma EarlierBlocksAreBefore(blocks: Blocks, seps: seq<Bytes>, target: Bytes, b: nat)
    requires IndexOk(blocks, seps) && b <= |blocks| && (b > 0 ==> KeyLess(seps[b - 1], target))
    ensures From(blocks, b) <= |All(blocks)|
    ensures forall i :: 0 <= i < From(blocks, b) ==> KeyLess(All(blocks)[i].key, target)
  {
    if b > 0 {
      assert SeparatorOk(blocks, seps, b - 1) && NonEmpty(blocks, b - 1);
      var last := |blocks[b - 1]| - 1;
      AllAt(blocks, b - 1, last);
      KeyNotBefore(LastKey(blocks[b - 1]), seps[b - 1], target);
      BeforeEntry(All(blocks), target, From(blocks, b - 1) + last);
    }
  }

  /** When the block has an entry at or after the target, it is the first of the table. */
  lemma InBlock(blocks: Blocks, seps: seq<Bytes>, target: Bytes, b: nat, j: nat)
    requires IndexOk(blocks, seps) && b < |blocks| && (b > 0 ==> KeyLess(seps[b - 1], target))
    requires j < |blocks[b]| && IsBound(KeyLess, blocks[b], target, j)
    ensures IsBound(KeyLess, All(blocks), target, From(blocks, b) + j)
    ensures From(blocks, b) + j < |All(blocks)| && All(blocks)[From(blocks, b) + j] == blocks[b][j]
  {
    BoundIs(blocks[b], target, j);
    AllAt(blocks, b, j);
    EarlierBlocksAreBefore(blocks, seps, target, b);
    EntriesAscend(blocks, seps);
    hide IndexOk, All, From, KeyLess, KeyAscending, IsBound;
    if j > 0 {
      AllAt(blocks, b, j - 1);
      BeforeEntry(All(blocks), target, From(blocks, b) + j - 1);
    }
    BoundFrom(All(blocks), target, From(blocks, b) + j);
  }

  lemma BoundIs(entries: seq<Pair>, target: Bytes, j: nat)
    requires j < |entries| && IsBound(KeyLess, entries, target, j)
    ensures !KeyLess(entries[j].key, target) && (j > 0 ==> KeyLess(entries[j - 1].key, target))
  {
  }

  lemma EntriesAscend(blocks: Blocks, seps: seq<Bytes>)
    requires IndexOk(blocks, seps)
    ensures KeyAscending(All(blocks))
  {
  }

  /** When it has none, neither has any block before the next; and the next does not begin with the user key
      of the target. */
  lemma BehindBlock(blocks: Blocks, seps: seq<Bytes>, target: Bytes, b: nat)
    requires IndexOk(blocks, seps) && b < |blocks| && !KeyLess(seps[b], target)
    requires forall j :: 0 <= j < |blocks[b]| ==> KeyLess(blocks[b][j].key, target)
    ensures From(blocks, b + 1) <= |All(blocks)| && IsBound(KeyLess, All(blocks), target, From(blocks, b + 1))
    ensures From(blocks, b + 1) < |All(blocks)| ==> UserKey(All(blocks)[From(blocks, b + 1)].key) != UserKey(target)
  {
    BlockIsBefore(blocks, seps, target, b);
    if b + 1 < |blocks| {
      NextBlockIsBehind(blocks, seps, target, b);
    } else {
      assert blocks[..b + 1] == blocks;
    }
    BoundFrom(All(blocks), target, From(blocks, b + 1));
  }

  lemma BoundFrom(all: seq<Pair>, target: Bytes, n: nat)
    requires n <= |all| && (forall i :: 0 <= i < n ==> KeyLess(all[i].key, target)) &&
             (n < |all| ==> !KeyLess(all[n].key, target))
    ensures IsBound(KeyLess, all, target, n)
  {
  }

  lemma BlockIsBefore(blocks: Blocks, seps: seq<Bytes>, target: Bytes, b: nat)
    requires IndexOk(blocks, seps) && b < |blocks|
    requires forall j :: 0 <= j < |blocks[b]| ==> KeyLess(blocks[b][j].key, target)
    ensures From(blocks, b + 1) <= |All(blocks)|
    ensures forall i :: 0 <= i < From(blocks, b + 1) ==> KeyLess(All(blocks)[i].key, target)
  {
    assert NonEmpty(blocks, b);
    var last := |blocks[b]| - 1;
    AllAt(blocks, b, last);
    BeforeEntry(All(blocks), target, From(blocks, b) + last);
  }

  lemma NextBlockIsBehind(blocks: Blocks, seps: seq<Bytes>, target: Bytes, b: nat)
    requires IndexOk(blocks, seps) && b + 1 < |blocks| && !KeyLess(seps[b], target)
    requires forall j :: 0 <= j < |blocks[b]| ==> KeyLess(blocks[b][j].key, target)
    ensures From(blocks, b + 1) < |All(blocks)|
    ensures var next := All(blocks)[From(blocks, b + 1)].key; !KeyLess(next, target) && UserKey(next) != UserKey(target)
  {
    assert SeparatorOk(blocks, seps, b) && NonEmpty(blocks, b) && NonEmpty(blocks, b + 1);
    AllAt(blocks, b + 1, 0);
    SplitsUserKeys(LastKey(blocks[b]), seps[b], FirstKey(blocks[b + 1]), target);
  }

  /** A target between the last key of a block and its index key has another user key than the next block. */
  lemma SplitsUserKeys(last: Bytes, sep: Bytes, next: Bytes, target: Bytes)
    requires KeyLess(last, target) && !KeyLess(sep, target) && KeyLess(sep, next)
    requires sep == last || BytesLess(UserKey(sep), UserKey(next))
    ensures !KeyLess(next, target) && UserKey(next) != UserKey(target)
  {
    BytesTrichotomy(UserKey(sep), UserKey(target));
    BytesTrichotomy(UserKey(sep), UserKey(next));
    if BytesLess(UserKey(target), UserKey(sep)) && BytesLess(UserKey(sep), UserKey(next)) {
      BytesTransitive(UserKey(target), UserKey(sep), UserKey(next));
    }
    BytesTrichotomy(UserKey(next), UserKey(target));
  }

  /** Beyond the last index key there is nothing at or after the target. */
  lemma BehindAll(blocks: Blocks, seps: seq<Bytes>, target: Bytes)
    requires IndexOk(blocks, seps) && (blocks != [] ==> KeyLess(seps[|seps| - 1], target))
    ensures IsBound(KeyLess, All(blocks), target, |All(blocks)|)
  {
    EarlierBlocksAreBefore(blocks, seps, target, |blocks|);
    assert blocks[..|blocks|] == blocks;
  }

  /** Entries with the user key of the target, at or after it, come first among those at or after it. */
  lemma SameUserComesFirst(all: seq<Pair>, target: Bytes, i: nat, n: nat)
    requires KeyAscending(all) && IsBound(KeyLess, all, target, i) && n < |all|
    requires UserKey(all[n].key) == UserKey(target) && !KeyLess(all[n].key, target)
    ensures i <= n && UserKey(all[i].key) == UserKey(target)
  {
    BytesTrichotomy(UserKey(all[i].key), UserKey(target));
    assert KeyOrder(all, i, n);
  }
}
