/** A plain cursor over a sorted sequence of entries: what every iterator of the tree is to look like
    (include/leveldb/iterator.h). */
module Cursors {
  import opened DbFormat
  import opened Wrappers
  import Lookup

  /** None is the invalid position. */
  type Cursor = Option<nat>

  datatype Move = SeekTo(target: InternalKey) | ToFirst | ToLast | Forward | Back

  ghost predicate Ascending(entries: seq<Entry>) {
    forall i, j :: 0 <= i < j < |entries| ==> Less(entries[i].key, entries[j].key)
  }

  predicate On(entries: seq<Entry>, at: Cursor) {
    at.Some? ==> at.value < |entries|
  }

  function At(entries: seq<Entry>, i: int): (at: Cursor)
    ensures On(entries, at)
  {
    if 0 <= i < |entries| then Some(i) else None
  }

  /** One move.  Forward and Back are asked only of a valid cursor. */
  function Moved(entries: seq<Entry>, at: Cursor, move: Move): (r: Cursor)
    ensures On(entries, r)
  {
    match move
    case SeekTo(target) => At(entries, Lookup.LowerBound(entries, target))
    case ToFirst => At(entries, 0)
    case ToLast => At(entries, |entries| - 1)
    case Forward => if at.Some? then At(entries, at.value + 1) else None
    case Back => if at.Some? then At(entries, at.value - 1) else None
  }

  /** A whole run of moves. */
  function MovedAll(entries: seq<Entry>, at: Cursor, moves: seq<Move>): (r: Cursor)
    requires On(entries, at)
    ensures On(entries, r)
  {
    if moves == [] then at
    else Moved(entries, MovedAll(entries, at, moves[..|moves| - 1]), moves[|moves| - 1])
  }

  /** In an ascending sequence the lower bound splits the entries by key. */
  lemma LowerBoundSplits(entries: seq<Entry>, key: InternalKey, j: int)
    requires Ascending(entries) && 0 <= j < |entries|
    ensures j < Lookup.LowerBound(entries, key) <==> Less(entries[j].key, key)
  {
    var i := Lookup.LowerBound(entries, key);
    if i < j { CompareIsTotalOrder(entries[i].key, entries[j].key, key); }
  }
}
