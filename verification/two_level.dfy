/** The two-level iterator (table/two_level_iterator.cc): an index cursor picks data blocks, and the
    whole looks like one cursor over the blocks laid end to end. */
module TwoLevel {
  import opened DbFormat
  import opened Wrappers
  import opened Cursors
  import Lookup

  datatype IndexEntry = IndexEntry(separator: InternalKey, handle: nat)

  /** What the index and the block reader see of a table; two index entries may name one block. */
  datatype Table = Table(index: seq<IndexEntry>, blocks: seq<seq<Entry>>)

  predicate HandlesOk(t: Table) {
    forall i :: 0 <= i < |t.index| ==> t.index[i].handle < |t.blocks|
  }

  function Block(t: Table, i: int): seq<Entry>
    requires HandlesOk(t) && 0 <= i < |t.index|
  {
    t.blocks[t.index[i].handle]
  }

  ghost predicate BlockBelow(t: Table, i: int)
    requires HandlesOk(t) && 0 <= i < |t.index|
  {
    && Ascending(Block(t, i))
    && forall e :: e in Block(t, i) ==> !Less(t.index[i].separator, e.key)
  }

  ghost predicate BlockAbove(t: Table, i: int, j: int)
    requires HandlesOk(t) && 0 <= i < j < |t.index|
  {
    && Less(t.index[i].separator, t.index[j].separator)
    && forall e :: e in Block(t, j) ==> Less(t.index[i].separator, e.key)
  }

  /** Blocks are sorted; an index key is at or after its block and before every later block. */
  ghost predicate TableOk(t: Table) {
    && HandlesOk(t)
    && (forall i :: 0 <= i < |t.index| ==> BlockBelow(t, i))
    && forall i, j :: 0 <= i < j < |t.index| ==> BlockAbove(t, i, j)
  }

  /** The first n blocks end to end. */
  function Flat(t: Table, n: nat): seq<Entry>
    requires HandlesOk(t) && n <= |t.index|
  {
    if n == 0 then [] else Flat(t, n - 1) + Block(t, n - 1)
  }

  function All(t: Table): seq<Entry>
    requires HandlesOk(t)
  {
    Flat(t, |t.index|)
  }

  lemma {:induction false} FlatIsPrefix(t: Table, m: nat, n: nat)
    requires HandlesOk(t) && m <= n <= |t.index|
    ensures Flat(t, m) <= Flat(t, n)
  {
    if m < n { FlatIsPrefix(t, m, n - 1); }
  }

  /** Entry j of block i is at |Flat(i)| + j of the whole. */
  lemma BlockInAll(t: Table, i: int, j: int)
    requires HandlesOk(t) && 0 <= i < |t.index| && 0 <= j < |Block(t, i)|
    ensures |Flat(t, i)| + j < |All(t)| && All(t)[|Flat(t, i)| + j] == Block(t, i)[j]
  {
    FlatIsPrefix(t, i + 1, |t.index|);
    assert Flat(t, i + 1)[|Flat(t, i)| + j] == Block(t, i)[j];
  }

  lemma {:induction false} FlatBelow(t: Table, n: nat, e: Entry)
    requires TableOk(t) && n <= |t.index| && e in Flat(t, n)
    ensures n > 0 && !Less(t.index[n - 1].separator, e.key)
  {
    if e in Block(t, n - 1) {
      assert BlockBelow(t, n - 1);
    } else {
      FlatBelow(t, n - 1, e);
      assert BlockAbove(t, n - 2, n - 1);
      CompareIsTotalOrder(t.index[n - 2].separator, t.index[n - 1].separator, e.key);
    }
  }

  lemma {:induction false} FlatAscends(t: Table, n: nat)
    requires TableOk(t) && n <= |t.index|
    ensures Ascending(Flat(t, n))
  {
    if n > 0 {
      FlatAscends(t, n - 1);
      var front, last := Flat(t, n - 1), Block(t, n - 1);
      assert BlockBelow(t, n - 1);
      forall i, j | 0 <= i < |front| && 0 <= j < |last| ensures Less(front[i].key, last[j].key) {
        FlatBelow(t, n - 1, front[i]);
        assert BlockAbove(t, n - 2, n - 1) && last[j] in Block(t, n - 1);
        CompareIsTotalOrder(front[i].key, t.index[n - 2].separator, last[j].key);
      }
    }
  }

  /** The first index entry whose key is at or after the target. */
  function IndexBound(index: seq<IndexEntry>, target: InternalKey): (i: nat)
    ensures i <= |index|
    ensures forall j :: 0 <= j < i ==> Less(index[j].separator, target)
    ensures i < |index| ==> !Less(index[i].separator, target)
  {
    if index == [] || !Less(index[0].separator, target) then 0 else 1 + IndexBound(index[1..], target)
  }

  /** Searching the index and then one block finds the lower bound of the whole. */
  lemma SeekIsBound(t: Table, target: InternalKey)
    requires TableOk(t)
    ensures var i := IndexBound(t.index, target);
            Lookup.LowerBound(All(t), target) ==
            |Flat(t, i)| + if i < |t.index| then Lookup.LowerBound(Block(t, i), target) else 0
  {
    var i := IndexBound(t.index, target);
    var found := |Flat(t, i)| + if i < |t.index| then Lookup.LowerBound(Block(t, i), target) else 0;
    FlatIsPrefix(t, i, |t.index|);
    FlatAscends(t, |t.index|);
    EarlierBlocksAreBefore(t, i, target);
    if i < |t.index| {
      var j := Lookup.LowerBound(Block(t, i), target);
      FlatIsPrefix(t, i + 1, |t.index|);
      forall k | |Flat(t, i)| <= k < found ensures Less(All(t)[k].key, target) {
        BlockInAll(t, i, k - |Flat(t, i)|);
      }
      if j < |Block(t, i)| {
        BlockInAll(t, i, j);
      } else if found < |All(t)| {
        LaterBlocksAreAfter(t, i + 1, |t.index|, target, All(t)[found], found);
      }
    }
    BoundIs(All(t), target, found);
  }

  lemma EarlierBlocksAreBefore(t: Table, i: nat, target: InternalKey)
    requires TableOk(t) && i <= |t.index| && (i > 0 ==> Less(t.index[i - 1].separator, target))
    ensures |Flat(t, i)| <= |All(t)|
    ensures forall k :: 0 <= k < |Flat(t, i)| ==> Less(All(t)[k].key, target)
  {
    FlatIsPrefix(t, i, |t.index|);
    forall k | 0 <= k < |Flat(t, i)| ensures Less(All(t)[k].key, target) {
      FlatBelow(t, i, Flat(t, i)[k]);
      CompareIsTotalOrder(Flat(t, i)[k].key, t.index[i - 1].separator, target);
    }
  }

  lemma BoundIs(entries: seq<Entry>, target: InternalKey, n: nat)
    requires Ascending(entries) && n <= |entries|
    requires forall k :: 0 <= k < n ==> Less(entries[k].key, target)
    requires n < |entries| ==> !Less(entries[n].key, target)
    ensures Lookup.LowerBound(entries, target) == n
  {
    var i := Lookup.LowerBound(entries, target);
    if n < |entries| { LowerBoundSplits(entries, target, n); }
    if i < |entries| { LowerBoundSplits(entries, target, i); }
  }

  lemma {:induction false} LaterBlocksAreAfter(t: Table, m: nat, n: nat, target: InternalKey, e: Entry, k: nat)
    requires TableOk(t) && 0 < m <= n <= |t.index| && !Less(t.index[m - 1].separator, target)
    requires |Flat(t, m)| <= k < |Flat(t, n)| && Flat(t, n)[k] == e
    ensures !Less(e.key, target)
  {
    if k < |Flat(t, n - 1)| {
      FlatIsPrefix(t, m, n);
      LaterBlocksAreAfter(t, m, n - 1, target, e, k);
    } else {
      assert e == Block(t, n - 1)[k - |Flat(t, n - 1)|];
      assert BlockAbove(t, m - 1, n - 1);
      CompareIsTotalOrder(t.index[m - 1].separator, e.key, target);
    }
  }

  // ---------------------------------------------------------------- the iterator

  /** A cursor over the block that `handle` names. */
  datatype DataIter = DataIter(handle: nat, pos: int)

  class TwoLevelIterator {
    const table: Table
    /** Position of the index cursor; outside the index when it is not valid. */
    var ipos: int
    var data: Option<DataIter>

    ghost predicate Placed()
      reads this
    {
      && TableOk(table)
      && -1 <= ipos <= |table.index|
      && (data.Some? ==> IndexValid() && data.value.handle == table.index[ipos].handle &&
                         -1 <= data.value.pos <= |Block(table, ipos)|)
    }

    predicate IndexValid()
      reads this
    {
      0 <= ipos < |table.index|
    }

    predicate DataValid()
      requires HandlesOk(table) && (data.Some? ==> data.value.handle < |table.blocks|)
      reads this
    {
      data.Some? && 0 <= data.value.pos < |table.blocks[data.value.handle]|
    }

    ghost predicate Valid()
      reads this
    {
      Placed() && (data.Some? ==> DataValid())
    }

    /** The place in the whole that the two cursors stand for, also while it is being looked for. */
    ghost function Place(): int
      requires Placed()
      reads this
    {
      if data.Some? then |Flat(table, ipos)| + data.value.pos
      else if ipos < 0 then -1
      else |Flat(table, ipos)|
    }

    ghost function Shown(): (at: Cursor)
      requires Valid()
      reads this
      ensures On(All(table), at)
    {
      if data.Some? then
        BlockInAll(table, ipos, data.value.pos);
        Some(Place())
      else None
    }

    constructor (t: Table)
      requires TableOk(t)
      ensures Valid() && table == t && Shown() == None
    {
      table, ipos, data := t, -1, None;
    }

    method Current() returns (e: Entry)
      requires Valid() && data.Some?
      ensures e == All(table)[Shown().value]
    {
      e := table.blocks[data.value.handle][data.value.pos];
      BlockInAll(table, ipos, data.value.pos);
    }

    /** InitDataBlock: the cursor is kept when it is already over the block the index names. */
    method InitDataBlock()
      requires TableOk(table) && -1 <= ipos <= |table.index|
      requires data.Some? ==>
                 data.value.handle < |table.blocks| && -1 <= data.value.pos <= |table.blocks[data.value.handle]|
      modifies this`data
      ensures Placed() && (data.Some? <==> IndexValid())
    {
      if !IndexValid() {
        data := None;
      } else if data.Some? && data.value.handle == table.index[ipos].handle {
      } else {
        data := Some(DataIter(table.index[ipos].handle, -1));
      }
    }

    method SkipEmptyDataBlocksForward()
      requires Placed() && (if data.Some? then data.value.pos >= 0 else ipos == |table.index|)
      modifies this
      ensures Valid() && Shown() == At(All(table), old(Place()))
    {
      while data.None? || !DataValid()
        invariant Placed() && Place() == old(Place()) &&
                  (if data.Some? then data.value.pos >= 0 else ipos == |table.index|)
        decreases |table.index| - ipos, data.Some?
      {
        if !IndexValid() {
          data := None;
          return;
        }
        ipos := ipos + 1;
        InitDataBlock();
        if data.Some? {
          data := Some(data.value.(pos := 0));
        }
      }
      BlockInAll(table, ipos, data.value.pos);
    }

    method SkipEmptyDataBlocksBackward()
      requires Placed() && Place() < |All(table)| && (data.None? ==> ipos == -1)
      requires data.Some? ==> data.value.pos < |Block(table, ipos)|
      modifies this
      ensures Valid() && Shown() == At(All(table), old(Place()))
    {
      while data.None? || !DataValid()
        invariant Placed() && Place() == old(Place()) && (data.None? ==> ipos == -1)
        invariant data.Some? ==> data.value.pos < |Block(table, ipos)|
        decreases ipos + 1, data.Some?
      {
        if !IndexValid() {
          data := None;
          return;
        }
        ipos := ipos - 1;
        InitDataBlock();
        if data.Some? {
          data := Some(data.value.(pos := |table.blocks[data.value.handle]| - 1));
        }
      }
      BlockInAll(table, ipos, data.value.pos);
    }

    method Seek(target: InternalKey)
      requires Valid()
      modifies this
      ensures Valid() && Shown() == At(All(table), Lookup.LowerBound(All(table), target))
    {
      ipos := IndexBound(table.index, target);
      InitDataBlock();
      if data.Some? {
        data := Some(data.value.(pos := Lookup.LowerBound(table.blocks[data.value.handle], target)));
      }
      SeekIsBound(table, target);
      SkipEmptyDataBlocksForward();
    }

    method SeekToFirst()
      requires Valid()
      modifies this
      ensures Valid() && Shown() == At(All(table), 0)
    {
      ipos := 0;
      InitDataBlock();
      if data.Some? {
        data := Some(data.value.(pos := 0));
      }
      SkipEmptyDataBlocksForward();
    }

    method SeekToLast()
      requires Valid()
      modifies this
      ensures Valid() && Shown() == At(All(table), |All(table)| - 1)
    {
      ipos := |table.index| - 1;
      InitDataBlock();
      if data.Some? {
        data := Some(data.value.(pos := |table.blocks[data.value.handle]| - 1));
      }
      SkipEmptyDataBlocksBackward();
    }

    method Next()
      requires Valid() && data.Some?
      modifies this
      ensures Valid() && Shown() == At(All(table), old(Shown()).value + 1)
    {
      data := Some(data.value.(pos := data.value.pos + 1));
      SkipEmptyDataBlocksForward();
    }

    method Prev()
      requires Valid() && data.Some?
      modifies this
      ensures Valid() && Shown() == At(All(table), old(Shown()).value - 1)
    {
      BlockInAll(table, ipos, data.value.pos);
      data := Some(data.value.(pos := data.value.pos - 1));
      SkipEmptyDataBlocksBackward();
    }

    method Perform(move: Move)
      requires Valid()
      modifies this
      ensures Valid() && Shown() == Moved(All(table), old(Shown()), move)
    {
      match move {
        case SeekTo(target) => Seek(target);
        case ToFirst => SeekToFirst();
        case ToLast => SeekToLast();
        case Forward => if data.Some? { Next(); }
        case Back => if data.Some? { Prev(); }
      }
    }

    /** Any run of moves shows what a plain cursor over the blocks laid end to end shows. */
    method Run(moves: seq<Move>)
      requires Valid()
      modifies this
      ensures Valid() && Shown() == MovedAll(All(table), old(Shown()), moves)
    {
      for i := 0 to |moves|
        invariant Valid() && Shown() == MovedAll(All(table), old(Shown()), moves[..i])
      {
        assert moves[..i + 1][..i] == moves[..i];
        Perform(moves[i]);
      }
      assert moves[..|moves|] == moves;
    }
  }
}
