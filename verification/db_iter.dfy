/** The user-visible iterator: a two-direction cursor over the live keys at a snapshot, on top of a
    cursor over internal entries (db/db_iter.cc). */
module DbIter {
  import opened DbFormat
  import opened Wrappers
  import Lookup

  // ---------------------------------------------------------------- the view

  predicate VisibleAt(e: Entry, snapshot: SequenceNumber) {
    e.key.sequence <= snapshot
  }

  /** Position i holds the newest visible entry of its user key, and that entry is a value. */
  predicate Live(entries: seq<Entry>, snapshot: SequenceNumber, i: int) {
    && 0 <= i < |entries|
    && VisibleAt(entries[i], snapshot)
    && entries[i].key.kind.Value?
    && forall j :: 0 <= j < i && entries[j].key.user == entries[i].key.user ==> !VisibleAt(entries[j], snapshot)
  }

  /** The first live position at or after `from`; the number of entries when there is none. */
  function FirstLive(entries: seq<Entry>, snapshot: SequenceNumber, from: nat): (i: nat)
    requires from <= |entries|
    ensures from <= i <= |entries|
    ensures i < |entries| ==> Live(entries, snapshot, i)
    ensures forall j :: from <= j < i ==> !Live(entries, snapshot, j)
    decreases |entries| - from
  {
    if from == |entries| || Live(entries, snapshot, from) then from else FirstLive(entries, snapshot, from + 1)
  }

  /** The last live position at or before `upto`; -1 when there is none. */
  function LastLive(entries: seq<Entry>, snapshot: SequenceNumber, upto: int): (i: int)
    requires -1 <= upto < |entries|
    ensures -1 <= i <= upto
    ensures i >= 0 ==> Live(entries, snapshot, i)
    ensures forall j :: i < j <= upto ==> !Live(entries, snapshot, j)
    decreases upto + 1
  {
    if upto == -1 || Live(entries, snapshot, upto) then upto else LastLive(entries, snapshot, upto - 1)
  }

  /** The live positions are exactly the keys a read at the snapshot finds, with the values it returns. */
  lemma LiveIsRead(entries: seq<Entry>, snapshot: SequenceNumber, user: UserKey)
    requires Sorted(entries)
    ensures match Read(Elements(entries), user, snapshot)
            case Some(v) => exists i ::
                Live(entries, snapshot, i) && entries[i].key.user == user && entries[i].value == v
            case None => forall i :: Live(entries, snapshot, i) ==> entries[i].key.user != user
  {
    SortedIsCoherent(entries);
    NewestCases(Elements(entries), user, snapshot);
    match Newest(Elements(entries), user, snapshot) {
      case None =>
        assert forall i :: 0 <= i < |entries| ==> entries[i] in Elements(entries);
      case Some(e) =>
        var i :| 0 <= i < |entries| && entries[i] == e;
        NewestIs(Elements(entries), user, snapshot, e);
        forall j | 0 <= j < i && entries[j].key.user == user ensures !VisibleAt(entries[j], snapshot) {
          assert Precedes(entries[j].key, entries[i].key);
          assert entries[j] in Elements(entries);
        }
        forall k | Live(entries, snapshot, k) && entries[k].key.user == user ensures k == i {
          assert entries[k] in Elements(entries);
        }
        assert e.key.kind.Value? ==> Live(entries, snapshot, i);
    }
  }

  lemma SortedIsCoherent(entries: seq<Entry>)
    requires Sorted(entries)
    ensures Coherent(Elements(entries))
  {
    forall a, b | a in entries && b in entries && a.key.user == b.key.user && a.key.sequence == b.key.sequence
      ensures a == b
    {
      var i :| 0 <= i < |entries| && entries[i] == a;
      var j :| 0 <= j < |entries| && entries[j] == b;
    }
  }

  /** Live positions ascend strictly by user key: each key is shown once, in order. */
  lemma LiveAscends(entries: seq<Entry>, snapshot: SequenceNumber, i: int, j: int)
    requires Sorted(entries) && Live(entries, snapshot, i) && Live(entries, snapshot, j) && i < j
    ensures entries[i].key.user < entries[j].key.user
  {
    assert Precedes(entries[i].key, entries[j].key);
  }

  // ---------------------------------------------------------------- a plain cursor on the view

  /** A cursor over the live positions; None is the invalid position. */
  type Cursor = Option<nat>

  function AtOrAfter(entries: seq<Entry>, snapshot: SequenceNumber, from: nat): Cursor
    requires from <= |entries|
  {
    var i := FirstLive(entries, snapshot, from);
    if i < |entries| then Some(i) else None
  }

  function AtOrBefore(entries: seq<Entry>, snapshot: SequenceNumber, upto: int): Cursor
    requires -1 <= upto < |entries|
  {
    var i := LastLive(entries, snapshot, upto);
    if i >= 0 then Some(i) else None
  }

  /** On the view, Prev and Next undo each other. */
  lemma NextAndPrevAreInverse(entries: seq<Entry>, snapshot: SequenceNumber, at: nat)
    requires Live(entries, snapshot, at)
    ensures match AtOrAfter(entries, snapshot, at + 1)
            case Some(next) => AtOrBefore(entries, snapshot, next - 1) == Some(at)
            case None => AtOrBefore(entries, snapshot, |entries| - 1) == Some(at)
    ensures match AtOrBefore(entries, snapshot, at - 1)
            case Some(prev) => AtOrAfter(entries, snapshot, prev + 1) == Some(at)
            case None => AtOrAfter(entries, snapshot, 0) == Some(at)
  {
  }

  /** Seeking a user key stops at the first live key that is not smaller. */
  lemma SeekStopsAtFirstKey(entries: seq<Entry>, snapshot: SequenceNumber, target: UserKey)
    requires Sorted(entries)
    ensures match AtOrAfter(entries, snapshot, Lookup.LowerBound(entries, SeekKey(target, snapshot)))
            case Some(i) => entries[i].key.user >= target &&
              forall j :: Live(entries, snapshot, j) && entries[j].key.user >= target ==> i <= j
            case None => forall j :: Live(entries, snapshot, j) ==> entries[j].key.user < target
  {
    var seek := SeekKey(target, snapshot);
    var from := Lookup.LowerBound(entries, seek);
    forall j | Live(entries, snapshot, j) && j < from ensures entries[j].key.user < target {
      assert Less(entries[j].key, seek);
    }
    forall j | from <= j < |entries| ensures entries[j].key.user >= target {
      assert from < j ==> Precedes(entries[from].key, entries[j].key);
    }
  }

  // ---------------------------------------------------------------- scanning forward

  predicate HiddenBy(skip: Option<UserKey>, user: UserKey) {
    skip.Some? && user <= skip.value
  }

  /** The user keys that still have entries at or after `p` and a visible one before it are hidden. */
  ghost predicate Covers(entries: seq<Entry>, snapshot: SequenceNumber, skip: Option<UserKey>, p: int)
    requires 0 <= p <= |entries|
  {
    forall j, k ::
        0 <= j < p <= k < |entries| && VisibleAt(entries[j], snapshot) && entries[j].key.user == entries[k].key.user ==>
      HiddenBy(skip, entries[k].key.user)
  }

  /** Everything visible from `p` on has at least the skipped key. */
  ghost predicate NotBehind(entries: seq<Entry>, snapshot: SequenceNumber, skip: Option<UserKey>, p: int)
    requires 0 <= p <= |entries|
  {
    forall k :: p <= k < |entries| && VisibleAt(entries[k], snapshot) && skip.Some? ==>
        skip.value <= entries[k].key.user
  }

  /** A scan that set out to hide `first` now hides `skip`: more, but no live key more. */
  ghost predicate Scanning(entries: seq<Entry>, snapshot: SequenceNumber, first: Option<UserKey>,
                           skip: Option<UserKey>, p: int)
    requires 0 <= p <= |entries|
  {
    && Covers(entries, snapshot, skip, p)
    && NotBehind(entries, snapshot, first, p)
    && (first.Some? ==> skip.Some? && first.value <= skip.value)
    && forall k :: p <= k < |entries| && Live(entries, snapshot, k) && HiddenBy(skip, entries[k].key.user) ==>
         HiddenBy(first, entries[k].key.user)
  }

  lemma KeysAround(entries: seq<Entry>, p: int)
    requires Sorted(entries) && 0 <= p < |entries|
    ensures forall k :: p <= k < |entries| ==> entries[p].key.user <= entries[k].key.user
    ensures forall j :: 0 <= j <= p ==> entries[j].key.user <= entries[p].key.user
  {
    forall k | p < k < |entries| ensures entries[p].key.user <= entries[k].key.user {
      assert Precedes(entries[p].key, entries[k].key);
    }
    forall j | 0 <= j < p ensures entries[j].key.user <= entries[p].key.user {
      assert Precedes(entries[j].key, entries[p].key);
    }
  }

  /** Passing an entry that is invisible, a deletion, or hidden passes no live key but hidden ones. */
  lemma PassEntry(entries: seq<Entry>, snapshot: SequenceNumber, first: Option<UserKey>, skip: Option<UserKey>, p: int)
    requires Sorted(entries) && 0 <= p < |entries| && Scanning(entries, snapshot, first, skip, p)
    requires VisibleAt(entries[p], snapshot) && entries[p].key.kind.Value? ==> HiddenBy(skip, entries[p].key.user)
    ensures var nowSkip :=
      if VisibleAt(entries[p], snapshot) && entries[p].key.kind.Deletion? then Some(entries[p].key.user) else skip;
            Scanning(entries, snapshot, first, nowSkip, p + 1)
    ensures Live(entries, snapshot, p) ==> HiddenBy(first, entries[p].key.user)
  {
    KeysAround(entries, p);
  }

  /** A visible value that is not hidden is the live entry of its key. */
  lemma StopAtEntry(entries: seq<Entry>, snapshot: SequenceNumber, first: Option<UserKey>, skip: Option<UserKey>,
                    p: int)
    requires Sorted(entries) && 0 <= p < |entries| && Scanning(entries, snapshot, first, skip, p)
    requires VisibleAt(entries[p], snapshot) && entries[p].key.kind.Value? && !HiddenBy(skip, entries[p].key.user)
    ensures Live(entries, snapshot, p) && !HiddenBy(first, entries[p].key.user)
  {
  }

  // ---------------------------------------------------------------- scanning backward

  /** Moving backwards at `pos` with `last` shown: `last` is ahead, nothing in between is visible,
      and the entry at `pos` belongs to a smaller key. */
  ghost predicate Behind(entries: seq<Entry>, snapshot: SequenceNumber, pos: int, last: int) {
    && -1 <= pos < last < |entries|
    && (pos >= 0 ==> entries[pos].key.user < entries[last].key.user)
    && forall j :: pos < j < last ==> !VisibleAt(entries[j], snapshot)
  }

  /** A backward scan from `start` that has reached `pos` and would show `last`, if any. */
  ghost predicate ScanningBack(entries: seq<Entry>, snapshot: SequenceNumber, start: int, pos: int, last: Option<int>) {
    && -1 <= pos <= start < |entries|
    && match last
       case None => forall k :: pos < k <= start ==> !Live(entries, snapshot, k)
       case Some(i) =>
         && pos < i <= start && VisibleAt(entries[i], snapshot) && entries[i].key.kind.Value?
         && (forall j :: pos < j < i ==> !VisibleAt(entries[j], snapshot))
         && forall k :: i < k <= start ==> !Live(entries, snapshot, k)
  }

  lemma PassBack(entries: seq<Entry>, snapshot: SequenceNumber, start: int, pos: int, last: Option<int>)
    requires Sorted(entries) && pos >= 0 && ScanningBack(entries, snapshot, start, pos, last)
    requires VisibleAt(entries[pos], snapshot) && last.Some? ==> entries[pos].key.user >= entries[last.value].key.user
    ensures var now := if !VisibleAt(entries[pos], snapshot) then last
                       else if entries[pos].key.kind.Value? then Some(pos) else None;
            ScanningBack(entries, snapshot, start, pos - 1, now)
  {
    KeysAround(entries, pos);
  }

  /** The scan may stop in front of a smaller key, or at the start: what it holds is the last live entry. */
  lemma StopBack(entries: seq<Entry>, snapshot: SequenceNumber, start: int, pos: int, last: Option<int>)
    requires Sorted(entries) && ScanningBack(entries, snapshot, start, pos, last)
    requires pos >= 0 ==> last.Some? && entries[pos].key.user < entries[last.value].key.user
    ensures LastLive(entries, snapshot, start) == if last.Some? then last.value else -1
    ensures last.Some? ==> Live(entries, snapshot, last.value) && Behind(entries, snapshot, pos, last.value)
  {
    if last.Some? && pos >= 0 {
      KeysAround(entries, pos);
    }
  }

  // ---------------------------------------------------------------- the iterator

  datatype Move = SeekTo(target: UserKey) | ToFirst | ToLast | Forward | Back

  /** One move of the plain cursor.  Forward and Back are asked only of a valid cursor. */
  function Moved(entries: seq<Entry>, snapshot: SequenceNumber, at: Cursor, move: Move): Cursor
    requires at.Some? ==> at.value < |entries|
  {
    match move
    case SeekTo(target) => AtOrAfter(entries, snapshot, Lookup.LowerBound(entries, SeekKey(target, snapshot)))
    case ToFirst => AtOrAfter(entries, snapshot, 0)
    case ToLast => AtOrBefore(entries, snapshot, |entries| - 1)
    case Forward => if at.Some? then AtOrAfter(entries, snapshot, at.value + 1) else None
    case Back => if at.Some? then AtOrBefore(entries, snapshot, at.value - 1) else None
  }

  /** A whole run of moves of the plain cursor. */
  function MovedAll(entries: seq<Entry>, snapshot: SequenceNumber, at: Cursor, moves: seq<Move>): (r: Cursor)
    requires at.Some? ==> at.value < |entries|
    ensures r.Some? ==> r.value < |entries|
  {
    if moves == [] then at
    else Moved(entries, snapshot, MovedAll(entries, snapshot, at, moves[..|moves| - 1]), moves[|moves| - 1])
  }

  class DBIter {
    const entries: seq<Entry>
    const snapshot: SequenceNumber
    /** Position of the internal iterator; outside the entries when it is not valid. */
    var pos: int
    var savedKey: Option<UserKey>
    var savedValue: Value
    var forward: bool
    var valid: bool
    /** The live position shown to the user while `valid`. */
    ghost var at: nat

    ghost predicate Valid()
      reads this
    {
      && Sorted(entries)
      && -1 <= pos <= |entries|
      && (valid ==>
            && Live(entries, snapshot, at)
            && (forward ==> pos == at)
            && (!forward ==> savedKey == Some(entries[at].key.user) && savedValue == entries[at].value &&
                             Behind(entries, snapshot, pos, at)))
    }

    /** The abstract state: where a plain cursor over the view would stand. */
    ghost function Shown(): (c: Cursor)
      requires Valid()
      reads this
      ensures c.Some? ==> c.value < |entries|
    {
      if valid then Some(at) else None
    }

    constructor (entries: seq<Entry>, snapshot: SequenceNumber)
      requires Sorted(entries)
      ensures Valid() && Shown() == None && this.entries == entries && this.snapshot == snapshot
    {
      this.entries, this.snapshot := entries, snapshot;
      pos, savedKey, savedValue, forward, valid, at := -1, None, "", true, false, 0;
    }

    method Key() returns (user: UserKey)
      requires Valid() && valid
      ensures user == entries[at].key.user
    {
      user := if forward then entries[pos].key.user else savedKey.value;
    }

    method CurrentValue() returns (v: Value)
      requires Valid() && valid
      ensures v == entries[at].value
    {
      v := if forward then entries[pos].value else savedValue;
    }

    /** FindNextUserEntry, with the key to skip when skipping. */
    method FindNextUserEntry(skipping: Option<UserKey>)
      requires Sorted(entries) && 0 <= pos < |entries| && forward
      requires Covers(entries, snapshot, skipping, pos) && NotBehind(entries, snapshot, skipping, pos)
      modifies this`pos, this`valid, this`at, this`savedKey
      ensures Valid()
      ensures valid ==> old(pos) <= at && !HiddenBy(skipping, entries[at].key.user)
      ensures forall k :: old(pos) <= k < (if valid then at else |entries|) && Live(entries, snapshot, k) ==>
                HiddenBy(skipping, entries[k].key.user)
    {
      var skip := skipping;
      ghost var start := pos;
      while pos < |entries|
        invariant start <= pos <= |entries| && forward
        invariant Scanning(entries, snapshot, skipping, skip, pos)
        invariant forall k :: start <= k < pos && Live(entries, snapshot, k) ==> HiddenBy(skipping, entries[k].key.user)
        decreases |entries| - pos
      {
        var e := entries[pos];
        ghost var was := skip;
        if VisibleAt(e, snapshot) {
          match e.key.kind {
            case Deletion =>
              skip := Some(e.key.user);
            case Value =>
              if !HiddenBy(skip, e.key.user) {
                StopAtEntry(entries, snapshot, skipping, skip, pos);
                valid, at := true, pos;
                savedKey := None;
                return;
              }
          }
        }
        PassEntry(entries, snapshot, skipping, was, pos);
        pos := pos + 1;
      }
      savedKey := None;
      valid := false;
    }

    method Next()
      requires Valid() && valid
      modifies this
      ensures Valid() && Shown() == AtOrAfter(entries, snapshot, old(at) + 1)
    {
      KeysAround(entries, at);
      if !forward {
        forward := true;
        if pos < 0 {
          pos := 0;
        } else {
          KeysAround(entries, pos);
          pos := pos + 1;
        }
        // The source tests for the end here; the shown entry is still ahead, so it is never reached.
        assert pos < |entries|;
      } else {
        savedKey := Some(entries[pos].key.user);
      }
      ghost var start := pos;
      FindNextUserEntry(savedKey);
      NextIsFirstLive(entries, snapshot, old(at), start, if valid then at else |entries|);
    }

    /** FindPrevUserEntry. */
    method FindPrevUserEntry()
      requires Sorted(entries) && -1 <= pos < |entries| && !forward
      modifies this
      ensures Valid() && Shown() == AtOrBefore(entries, snapshot, old(pos))
    {
      ghost var start := pos;
      ghost var last: Option<int> := None;
      var valueType := ValueType.Deletion;
      while pos >= 0
        invariant -1 <= pos <= start && !forward
        invariant valueType.Value? <==> last.Some?
        invariant ScanningBack(entries, snapshot, start, pos, last)
        invariant last.Some? ==>
                    savedKey == Some(entries[last.value].key.user) && savedValue == entries[last.value].value
        decreases pos
      {
        var e := entries[pos];
        ghost var was := last;
        if VisibleAt(e, snapshot) {
          if valueType != ValueType.Deletion && e.key.user < savedKey.value {
            break;
          }
          valueType := e.key.kind;
          if valueType == ValueType.Deletion {
            savedKey, savedValue, last := None, "", None;
          } else {
            savedKey, savedValue, last := Some(e.key.user), e.value, Some(pos);
          }
        }
        PassBack(entries, snapshot, start, pos, was);
        pos := pos - 1;
      }
      StopBack(entries, snapshot, start, pos, last);
      if valueType == ValueType.Deletion {
        valid, savedKey, savedValue, forward := false, None, "", true;
      } else {
        valid, at := true, last.value;
      }
    }

    method Prev()
      requires Valid() && valid
      modifies this
      ensures Valid() && Shown() == AtOrBefore(entries, snapshot, old(at) - 1)
    {
      if forward {
        savedKey := Some(entries[pos].key.user);
        KeysAround(entries, pos);
        while true
          invariant 0 <= pos <= old(at) && valid && forward && savedKey == Some(entries[old(at)].key.user)
          invariant forall j :: pos <= j < old(at) ==> entries[j].key.user == entries[old(at)].key.user
          decreases pos
        {
          pos := pos - 1;
          if pos < 0 {
            valid, savedKey, savedValue := false, None, "";
            return;
          }
          if entries[pos].key.user < savedKey.value {
            break;
          }
        }
        forward := false;
      }
      assert forall k :: pos < k <= old(at) - 1 ==> !VisibleAt(entries[k], snapshot);
      FindPrevUserEntry();
    }

    method Seek(target: UserKey)
      requires Valid()
      modifies this
      ensures Valid()
      ensures Shown() == AtOrAfter(entries, snapshot, Lookup.LowerBound(entries, SeekKey(target, snapshot)))
    {
      forward, savedValue, savedKey := true, "", None;
      SeekLandsOnKey(entries, snapshot, target);
      pos := Lookup.LowerBound(entries, SeekKey(target, snapshot));
      if pos < |entries| {
        FindNextUserEntry(None);
      } else {
        valid := false;
      }
    }

    method SeekToFirst()
      requires Valid()
      modifies this
      ensures Valid() && Shown() == AtOrAfter(entries, snapshot, 0)
    {
      forward, savedValue := true, "";
      pos := 0;
      if pos < |entries| {
        FindNextUserEntry(None);
      } else {
        valid := false;
      }
    }

    method SeekToLast()
      requires Valid()
      modifies this
      ensures Valid() && Shown() == AtOrBefore(entries, snapshot, |entries| - 1)
    {
      forward, savedValue := false, "";
      pos := |entries| - 1;
      FindPrevUserEntry();
    }

    method Perform(move: Move)
      requires Valid()
      modifies this
      ensures Valid() && Shown() == Moved(entries, snapshot, old(Shown()), move)
    {
      match move {
        case SeekTo(target) => Seek(target);
        case ToFirst => SeekToFirst();
        case ToLast => SeekToLast();
        case Forward => if valid { Next(); }
        case Back => if valid { Prev(); }
      }
    }

    /** Any run of moves, with reversals, shows what the plain cursor over the view shows. */
    method Run(moves: seq<Move>)
      requires Valid()
      modifies this
      ensures Valid() && Shown() == MovedAll(entries, snapshot, old(Shown()), moves)
    {
      for i := 0 to |moves|
        invariant Valid() && Shown() == MovedAll(entries, snapshot, old(Shown()), moves[..i])
      {
        assert moves[..i + 1][..i] == moves[..i];
        Perform(moves[i]);
      }
      assert moves[..|moves|] == moves;
    }
  }

  lemma SeekLandsOnKey(entries: seq<Entry>, snapshot: SequenceNumber, target: UserKey)
    requires Sorted(entries)
    ensures Covers(entries, snapshot, None, Lookup.LowerBound(entries, SeekKey(target, snapshot)))
  {
    var from := Lookup.LowerBound(entries, SeekKey(target, snapshot));
    if from < |entries| {
      KeysAround(entries, from);
      forall j | 0 <= j < from && VisibleAt(entries[j], snapshot) ensures entries[j].key.user < target {
        assert Less(entries[j].key, SeekKey(target, snapshot));
      }
    }
  }

  /** Skipping past the key shown at `at`, from a place with nothing visible before it, is a move to
      the next live position. */
  lemma NextIsFirstLive(entries: seq<Entry>, snapshot: SequenceNumber, at: nat, start: nat, found: nat)
    requires Sorted(entries) && Live(entries, snapshot, at) && start <= at && start <= found <= |entries|
    requires forall j :: start <= j < at ==> !VisibleAt(entries[j], snapshot)
    requires found < |entries| ==> Live(entries, snapshot, found) && entries[found].key.user > entries[at].key.user
    requires forall k :: start <= k < found && Live(entries, snapshot, k) ==>
               entries[k].key.user <= entries[at].key.user
    ensures found == FirstLive(entries, snapshot, at + 1)
  {
    KeysAround(entries, at);
    forall k | at < k < found ensures !Live(entries, snapshot, k) {
      if Live(entries, snapshot, k) { LiveAscends(entries, snapshot, at, k); }
    }
  }
}
