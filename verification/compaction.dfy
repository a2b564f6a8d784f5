/** The compaction loop: which entries it drops, how it cuts its outputs, and what that does to
    reads (DBImpl::DoCompactionWork, Compaction::IsBaseLevelForKey, Compaction::ShouldStopBefore). */
module CompactionLoop {
  import opened DbFormat
  import opened Wrappers
  import opened Versions
  import opened CutRule
  import Inputs = CompactionInputs
  import Lookup
  import Sequences

  /** No file two or more levels down can hold the user key. */
  ghost predicate IsBaseLevel(files: seq<seq<File>>, level: nat, user: UserKey) {
    forall l, i :: level + 2 <= l < |files| && 0 <= i < |files[l]| ==> !Lookup.CoversUser(files[l][i], user)
  }

  /** Every file a cursor has passed ends before the last user key asked about. */
  ghost predicate Passed(files: seq<File>, ptr: nat, asked: Option<UserKey>) {
    && ptr <= |files|
    && (ptr > 0 ==> asked.Some?)
    && forall i :: 0 <= i < ptr ==> files[i].largest.user < asked.value
  }

  lemma PassedLater(files: seq<File>, ptr: nat, asked: Option<UserKey>, user: UserKey)
    requires Passed(files, ptr, asked) && (asked.Some? ==> asked.value <= user)
    ensures Passed(files, ptr, Some(user))
  {
  }

  /** The cursors a compaction keeps over the files below its output level. */
  class Compaction {
    const level: nat
    const inputVersion: seq<seq<File>>
    const grandparents: seq<File>
    const maxFileSize: nat
    var levelPtrs: seq<nat>
    var grandparentIndex: nat
    var seenKey: bool
    var overlappedBytes: nat
    /** The last user key asked about: the cursors only move forward, so keys must not descend. */
    ghost var asked: Option<UserKey>

    ghost predicate Valid()
      reads this
    {
      && |inputVersion| == NUM_LEVELS == |levelPtrs|
      && (forall l :: level + 2 <= l < NUM_LEVELS ==> RangesOk(inputVersion[l]) && SortedDisjoint(inputVersion[l]))
      && (forall l :: level + 2 <= l < NUM_LEVELS ==> Passed(inputVersion[l], levelPtrs[l], asked))
      && grandparentIndex <= |grandparents|
      && overlappedBytes <= 10 * maxFileSize
    }

    /** As the constructor leaves it: no key has been asked about. */
    ghost predicate Fresh()
      reads this
    {
      asked == None && grandparentIndex == 0 && !seenKey && overlappedBytes == 0
    }

    /** What decides about cuts, with kMaxGrandParentOverlapBytes as ten file sizes. */
    ghost function CutsBy(full: seq<Entry> -> bool): Rule {
      Rule(grandparents, 10 * maxFileSize, full)
    }

    /** ShouldStopBefore has been asked about the first n entries. */
    ghost predicate HasPassed(r: Rule, input: seq<Entry>, n: nat)
      requires n <= |input|
      reads this`grandparentIndex, this`seenKey, this`overlappedBytes
    {
      if n == 0 then grandparentIndex == 0 && !seenKey && overlappedBytes == 0
      else
        && seenKey && grandparentIndex == PassedBy(grandparents, input[n - 1].key)
        && overlappedBytes == BytesBetween(grandparents, input[LastStop(r, input, n)].key, input[n - 1].key)
    }

    constructor (level: nat, inputVersion: seq<seq<File>>, grandparents: seq<File>, maxFileSize: nat)
      requires |inputVersion| == NUM_LEVELS
      requires forall l :: level + 2 <= l < NUM_LEVELS ==> RangesOk(inputVersion[l]) && SortedDisjoint(inputVersion[l])
      ensures Valid() && Fresh()
      ensures this.level == level && this.inputVersion == inputVersion
      ensures this.grandparents == grandparents && this.maxFileSize == maxFileSize
    {
      this.level, this.inputVersion, this.grandparents := level, inputVersion, grandparents;
      this.maxFileSize := maxFileSize;
      levelPtrs := [0, 0, 0, 0, 0, 0, 0];
      grandparentIndex, seenKey, overlappedBytes := 0, false, 0;
      asked := None;
    }

    /** IsBaseLevelForKey: moving each cursor forward is as good as scanning every file, as long as
        keys are asked for in ascending order. */
    method IsBaseLevelForKey(user: UserKey) returns (base: bool)
      requires Valid() && (asked.Some? ==> asked.value <= user)
      modifies this`levelPtrs, this`asked
      ensures Valid() && asked == Some(user)
      ensures base <==> IsBaseLevel(inputVersion, level, user)
    {
      forall l | level + 2 <= l < NUM_LEVELS ensures Passed(inputVersion[l], levelPtrs[l], Some(user)) {
        PassedLater(inputVersion[l], levelPtrs[l], asked, user);
      }
      asked := Some(user);
      var lvl := level + 2;
      while lvl < NUM_LEVELS
        invariant level + 2 <= lvl
        invariant Valid() && asked == Some(user)
        invariant forall l, i :: level + 2 <= l < lvl && l < NUM_LEVELS && 0 <= i < |inputVersion[l]| ==>
                    !Lookup.CoversUser(inputVersion[l][i], user)
      {
        var covered := AdvanceLevel(lvl, user);
        if covered { return false; }
        lvl := lvl + 1;
      }
      return true;
    }

    /** One level of IsBaseLevelForKey. */
    method AdvanceLevel(lvl: nat, user: UserKey) returns (covered: bool)
      requires Valid() && asked == Some(user) && level + 2 <= lvl < NUM_LEVELS
      modifies this`levelPtrs
      ensures Valid()
      ensures covered <==> exists i :: 0 <= i < |inputVersion[lvl]| && Lookup.CoversUser(inputVersion[lvl][i], user)
    {
      var files := inputVersion[lvl];
      while levelPtrs[lvl] < |files|
        invariant Valid()
        decreases |files| - levelPtrs[lvl]
      {
        var p := levelPtrs[lvl];
        if user <= files[p].largest.user {
          CursorDecides(files, p, user);
          return user >= files[p].smallest.user;
        }
        levelPtrs := levelPtrs[lvl := p + 1];
      }
      return false;
    }

    /** The grandparent bytes the output overlaps once the cursor has moved from `first` to `index`. */
    ghost function BytesAfter(bytes: nat, seen: bool, first: nat, index: nat): nat
      reads this
      requires first <= index <= |grandparents|
    {
      bytes + if seen then Inputs.TotalFileSize(grandparents[first..index]) else 0
    }

    /** ShouldStopBefore: cut the output once the grandparent files it has passed, counted from the
        first key on, weigh more than ten times the file size limit. */
    method ShouldStopBefore(key: InternalKey) returns (stop: bool)
      requires Valid()
      modifies this`grandparentIndex, this`seenKey, this`overlappedBytes
      ensures Valid() && seenKey
      ensures old(grandparentIndex) <= grandparentIndex
      ensures forall i :: old(grandparentIndex) <= i < grandparentIndex ==> Less(grandparents[i].largest, key)
      ensures grandparentIndex < |grandparents| ==> !Less(grandparents[grandparentIndex].largest, key)
      ensures var bytes := BytesAfter(old(overlappedBytes), old(seenKey), old(grandparentIndex), grandparentIndex);
              && (stop <==> bytes > 10 * maxFileSize)
              && overlappedBytes == if stop then 0 else bytes
    {
      var bytes := overlappedBytes;
      while grandparentIndex < |grandparents| && Less(grandparents[grandparentIndex].largest, key)
        invariant Valid()
        invariant old(grandparentIndex) <= grandparentIndex
        invariant forall i :: old(grandparentIndex) <= i < grandparentIndex ==> Less(grandparents[i].largest, key)
        invariant seenKey == old(seenKey) && overlappedBytes == old(overlappedBytes)
        invariant bytes == BytesAfter(overlappedBytes, seenKey, old(grandparentIndex), grandparentIndex)
      {
        TotalSizeGrows(grandparents, old(grandparentIndex), grandparentIndex);
        if seenKey { bytes := bytes + grandparents[grandparentIndex].size; }
        grandparentIndex := grandparentIndex + 1;
      }
      seenKey := true;
      if bytes > 10 * maxFileSize {
        overlappedBytes := 0;
        stop := true;
      } else {
        overlappedBytes := bytes;
        stop := false;
      }
    }
  }

  lemma {:induction false} TotalSizeGrows(files: seq<File>, lo: nat, hi: nat)
    requires lo <= hi < |files|
    ensures Inputs.TotalFileSize(files[lo..hi + 1]) == Inputs.TotalFileSize(files[lo..hi]) + files[hi].size
    decreases hi - lo
  {
    assert files[lo..hi + 1][1..] == files[lo + 1..hi + 1];
    if lo < hi {
      assert files[lo..hi][1..] == files[lo + 1..hi];
      TotalSizeGrows(files, lo + 1, hi);
    }
  }

  /** On a sorted level the first file ending at or after the key decides. */
  lemma CursorDecides(files: seq<File>, p: nat, user: UserKey)
    requires RangesOk(files) && SortedDisjoint(files) && p < |files| && user <= files[p].largest.user
    requires forall i :: 0 <= i < p ==> files[i].largest.user < user
    ensures user >= files[p].smallest.user <==> exists i :: 0 <= i < |files| && Lookup.CoversUser(files[i], user)
  {
    if user >= files[p].smallest.user {
      assert Lookup.CoversUser(files[p], user);
    } else {
      forall i | p < i < |files| ensures user < files[i].smallest.user {
        assert Precedes(files[p].largest, files[i].smallest);
      }
    }
  }

  // ---------------------------------------------------------------- the drop rule

  /** Rule (A) sees only the previous entry of the same user key; rule (B) drops a deletion marker. */
  ghost predicate Dropped(input: seq<Entry>, i: nat, smallestSnapshot: SequenceNumber, files: seq<seq<File>>,
                          level: nat)
    requires i < |input|
  {
    || (i > 0 && input[i - 1].key.user == input[i].key.user && input[i - 1].key.sequence <= smallestSnapshot)
    || (input[i].key.kind.Deletion? && input[i].key.sequence <= smallestSnapshot &&
        IsBaseLevel(files, level, input[i].key.user))
  }

  ghost function Kept(input: seq<Entry>, n: nat, smallestSnapshot: SequenceNumber, files: seq<seq<File>>,
                      level: nat): seq<Entry>
    requires n <= |input|
  {
    if n == 0 then []
    else
      var before := Kept(input, n - 1, smallestSnapshot, files, level);
      if Dropped(input, n - 1, smallestSnapshot, files, level) then before else before + [input[n - 1]]
  }

  lemma KeptNext(input: seq<Entry>, n: nat, smallestSnapshot: SequenceNumber, files: seq<seq<File>>, level: nat)
    requires n < |input|
    ensures Kept(input, n + 1, smallestSnapshot, files, level) ==
            Kept(input, n, smallestSnapshot, files, level) +
            if Dropped(input, n, smallestSnapshot, files, level) then [] else [input[n]]
  {
  }

  lemma KeptNone(input: seq<Entry>, smallestSnapshot: SequenceNumber, files: seq<seq<File>>, level: nat)
    ensures Kept(input, 0, smallestSnapshot, files, level) == []
  {
  }

  /** What the loop remembers of the entry before entry n. */
  predicate Remembers(input: seq<Entry>, n: nat, user: Option<UserKey>, sequence: SequenceNumber)
    requires n <= |input|
  {
    if n == 0 then user == None else user == Some(input[n - 1].key.user) && sequence == input[n - 1].key.sequence
  }

  ghost predicate AskedUpTo(c: Compaction, input: seq<Entry>, n: nat)
    requires n <= |input|
    reads c`asked
  {
    c.asked.Some? ==> n > 0 && c.asked.value <= input[n - 1].key.user
  }

  /** Whether the loop drops entry n. */
  method DecideDrop(c: Compaction, input: seq<Entry>, n: nat, user: Option<UserKey>, sequence: SequenceNumber,
                    smallestSnapshot: SequenceNumber)
    returns (drop: bool)
    requires Sorted(input) && n < |input| && c.Valid() && AskedUpTo(c, input, n)
    requires Remembers(input, n, user, sequence) && smallestSnapshot < MAX_SEQUENCE
    modifies c`levelPtrs, c`asked
    ensures c.Valid() && AskedUpTo(c, input, n + 1)
    ensures drop == Dropped(input, n, smallestSnapshot, c.inputVersion, c.level)
  {
    hide IsBaseLevel, Compaction.Valid;
    var e := input[n];
    var currentUserKey, lastSequenceForKey := user, sequence;
    if n > 0 { assert Precedes(input[n - 1].key, e.key); }
    drop := false;
    if currentUserKey.None? || e.key.user != currentUserKey.value {
      currentUserKey := Some(e.key.user);
      lastSequenceForKey := MAX_SEQUENCE;
    }
    if lastSequenceForKey <= smallestSnapshot {
      drop := true;
    } else if e.key.kind.Deletion? && e.key.sequence <= smallestSnapshot {
      drop := c.IsBaseLevelForKey(e.key.user);
    }
  }

  /** ShouldStopBefore, asked about one entry after the other, stops exactly where the rule says. */
  method AskAt(c: Compaction, ghost r: Rule, input: seq<Entry>, n: nat) returns (stop: bool)
    requires Sorted(input) && n < |input| && c.Valid() && c.HasPassed(r, input, n)
    requires r.grandparents == c.grandparents && r.limit == 10 * c.maxFileSize
    modifies c`grandparentIndex, c`seenKey, c`overlappedBytes
    ensures c.Valid() && c.HasPassed(r, input, n + 1)
    ensures stop <==> StopsAt(r, input, n)
  {
    hide RangesOk, SortedDisjoint, Passed;
    ghost var first := c.grandparentIndex;
    stop := c.ShouldStopBefore(input[n].key);
    if n > 0 {
      BytesAreExact(r, input, n, c.grandparentIndex);
      assert stop <==> StopsAt(r, input, n);
      assert LastStop(r, input, n + 1) == if stop then n else LastStop(r, input, n);
    } else {
      NothingPassed(c.grandparents, input[0].key, c.grandparentIndex);
    }
    assert c.grandparents[c.grandparentIndex..c.grandparentIndex] == [];
  }

  lemma FreshHasPassed(c: Compaction, r: Rule, input: seq<Entry>)
    requires c.Fresh()
    ensures c.asked == None && c.HasPassed(r, input, 0)
  {
  }

  lemma NothingPassed(files: seq<File>, key: InternalKey, index: nat)
    requires index <= |files| && forall i :: 0 <= i < index ==> Less(files[i].largest, key)
    requires index < |files| ==> !Less(files[index].largest, key)
    ensures index == PassedBy(files, key) && BytesBetween(files, key, key) == 0
  {
    PassedIs(files, key, index);
    assert files[index..index] == [];
  }

  /** The loop of DoCompactionWork over the merged input; `full` says when the table being built has
      reached the size limit.  The tables hold exactly the kept entries, in order, and are cut where the
      rule says. */
  method DoCompactionWork(c: Compaction, input: seq<Entry>, smallestSnapshot: SequenceNumber, full: seq<Entry> -> bool)
    returns (outputs: seq<seq<Entry>>)
    requires Sorted(input) && c.Valid() && c.Fresh()
    requires smallestSnapshot < MAX_SEQUENCE
    modifies c
    ensures Sequences.Flatten(outputs) == Kept(input, |input|, smallestSnapshot, c.inputVersion, c.level)
    ensures forall o :: o in outputs ==> o != []
    ensures AreCut(c.CutsBy(full), input, outputs)
  {
    hide RangesOk, SortedDisjoint, IsBaseLevel, Passed, Compaction.Valid, Dropped;
    hide Kept, Growing, AreCut, StopsAt, LastStop, BytesBetween, PassedBy, Compaction.HasPassed,
      Compaction.Fresh, Sequences.Flatten;
    ghost var r := c.CutsBy(full);
    NothingBuilt(r, input);
    FreshHasPassed(c, r, input);
    KeptNone(input, smallestSnapshot, c.inputVersion, c.level);
    Sequences.FlattenNone<Entry>();
    outputs := [];
    var builder: seq<Entry> := [];
    var currentUserKey: Option<UserKey> := None;
    var lastSequenceForKey: SequenceNumber := MAX_SEQUENCE;
    for n := 0 to |input|
      invariant c.Valid() && AskedUpTo(c, input, n)
      invariant Sequences.Flatten(outputs) + builder == Kept(input, n, smallestSnapshot, c.inputVersion, c.level)
      invariant forall o :: o in outputs ==> o != []
      invariant c.HasPassed(r, input, n) && Growing(r, input, outputs, builder, n, n)
      invariant Remembers(input, n, currentUserKey, lastSequenceForKey)
    {
      var e := input[n];
      var stop := AskAt(c, r, input, n);
      if stop && builder != [] {
        StopFinishes(r, input, outputs, builder, n);
        outputs, builder := FinishOutput(outputs, builder);
      } else {
        PassesStop(r, input, outputs, builder, n);
      }
      var drop := DecideDrop(c, input, n, currentUserKey, lastSequenceForKey, smallestSnapshot);
      currentUserKey, lastSequenceForKey := Some(e.key.user), e.key.sequence;
      KeptNext(input, n, smallestSnapshot, c.inputVersion, c.level);
      if !drop {
        Sequences.Associates(Sequences.Flatten(outputs), builder, [e]);
        AddsEntry(r, input, outputs, builder, n);
        builder := builder + [e];
        if full(builder) {
          outputs, builder := FinishOutput(outputs, builder);
        }
      } else {
        Skips(r, input, outputs, builder, n);
      }
    }
    LastTable(r, input, outputs, builder);
    if builder != [] {
      outputs, builder := FinishOutput(outputs, builder);
    }
  }

  method FinishOutput(outputs: seq<seq<Entry>>, builder: seq<Entry>) returns (r: seq<seq<Entry>>, empty: seq<Entry>)
    requires builder != [] && forall o :: o in outputs ==> o != []
    ensures Sequences.Flatten(r) + empty == Sequences.Flatten(outputs) + builder && empty == []
    ensures (forall o :: o in r ==> o != []) && r == outputs + [builder]
  {
    r := outputs + [builder];
    empty := [];
    Sequences.FlattenSnoc(outputs, builder);
  }

  // ---------------------------------------------------------------- what dropping does to reads

  /** Rule (A) as a set: a newer entry of the key is already visible to every snapshot that matters. */
  ghost predicate Superseded(input: set<Entry>, e: Entry, smallestSnapshot: SequenceNumber) {
    exists o :: o in input && o.key.user == e.key.user && e.key.sequence < o.key.sequence <= smallestSnapshot
  }

  /** Rule (B). */
  ghost predicate ObsoleteMarker(e: Entry, smallestSnapshot: SequenceNumber, files: seq<seq<File>>, level: nat) {
    e.key.kind.Deletion? && e.key.sequence <= smallestSnapshot && IsBaseLevel(files, level, e.key.user)
  }

  /** Looking at the previous entry only is as good as looking at all newer entries of the key. */
  lemma PreviousEntryDecides(input: seq<Entry>, i: nat, smallestSnapshot: SequenceNumber)
    requires Sorted(input) && i < |input|
    ensures (i > 0 && input[i - 1].key.user == input[i].key.user && input[i - 1].key.sequence <= smallestSnapshot)
            <==> Superseded(Elements(input), input[i], smallestSnapshot)
  {
    if i > 0 && input[i - 1].key.user == input[i].key.user && input[i - 1].key.sequence <= smallestSnapshot {
      assert Precedes(input[i - 1].key, input[i].key);
      assert input[i - 1] in Elements(input);
    }
    forall o | o in Elements(input) && o.key.user == input[i].key.user &&
               input[i].key.sequence < o.key.sequence <= smallestSnapshot
      ensures i > 0 && input[i - 1].key.user == input[i].key.user && input[i - 1].key.sequence <= smallestSnapshot
    {
      var j :| 0 <= j < |input| && input[j] == o;
      EntryInFile(input, if i < j then i else j, if i < j then j else i);
      assert j < i;
      EntryInFile(input, j, i - 1);
      EntryInFile(input, i - 1, i);
    }
  }

  lemma {:induction false} KeptHas(input: seq<Entry>, n: nat, smallestSnapshot: SequenceNumber, files: seq<seq<File>>,
                                   level: nat, e: Entry)
    requires Sorted(input) && n <= |input|
    ensures e in Kept(input, n, smallestSnapshot, files, level) <==>
              e in input[..n] && !Superseded(Elements(input), e, smallestSnapshot) &&
              !ObsoleteMarker(e, smallestSnapshot, files, level)
  {
    if n > 0 {
      KeptHas(input, n - 1, smallestSnapshot, files, level, e);
      PreviousEntryDecides(input, n - 1, smallestSnapshot);
      assert input[..n] == input[..n - 1] + [input[n - 1]];
    }
  }

  /** What the outputs hold, as a set. */
  ghost predicate IsKeptSet(input: set<Entry>, kept: set<Entry>, smallestSnapshot: SequenceNumber,
                            files: seq<seq<File>>, level: nat)
  {
    forall e :: e in kept <==>
      e in input && !Superseded(input, e, smallestSnapshot) && !ObsoleteMarker(e, smallestSnapshot, files, level)
  }

  lemma OutputsHoldKeptSet(input: seq<Entry>, smallestSnapshot: SequenceNumber, files: seq<seq<File>>, level: nat)
    requires Sorted(input)
    ensures IsKeptSet(Elements(input), Elements(Kept(input, |input|, smallestSnapshot, files, level)),
                      smallestSnapshot, files, level)
  {
    forall e {
      KeptHas(input, |input|, smallestSnapshot, files, level, e);
    }
    assert input[..|input|] == input;
  }

  /** The failing family: a deletion marker that answers reads at the smallest snapshot is dropped
      although an older value of its key stays outside the inputs. */
  ghost predicate Resurrects(rest: set<Entry>, input: set<Entry>, smallestSnapshot: SequenceNumber,
                             files: seq<seq<File>>, level: nat, user: UserKey)
  {
    && IsBaseLevel(files, level, user)
    && (exists m :: IsNewest(rest + input, user, smallestSnapshot, m) && m in input && m.key.kind.Deletion?)
    && (exists e :: IsNewest(rest, user, smallestSnapshot, e) && e.key.kind.Value?)
  }

  /** Reads of `user` at every snapshot that is still served are the same before and after. */
  ghost predicate ReadsKept(before: set<Entry>, after: set<Entry>, user: UserKey, smallestSnapshot: SequenceNumber) {
    forall s: SequenceNumber :: smallestSnapshot <= s ==> Read(before, user, s) == Read(after, user, s)
  }

  lemma KeptCoherent(rest: set<Entry>, input: set<Entry>, kept: set<Entry>)
    requires Coherent(rest + input) && kept <= input
    ensures Coherent(rest + kept) && Coherent(rest)
  {
    forall a, b | a in rest + kept && b in rest + kept && a.key.user == b.key.user && a.key.sequence == b.key.sequence
      ensures a == b
    {
      assert a in rest + input && b in rest + input;
    }
    forall a, b | a in rest && b in rest && a.key.user == b.key.user && a.key.sequence == b.key.sequence
      ensures a == b
    {
      assert a in rest + input && b in rest + input;
    }
  }

  /** When the entry answering a read is dropped, it is a deletion marker, and afterwards the read
      sees what the rest of the database holds at the smallest snapshot. */
  lemma DroppedAnswer(rest: set<Entry>, input: set<Entry>, kept: set<Entry>, smallestSnapshot: SequenceNumber,
                      files: seq<seq<File>>, level: nat, user: UserKey, s: SequenceNumber, n: Entry)
    requires Coherent(rest + input) && IsKeptSet(input, kept, smallestSnapshot, files, level)
    requires smallestSnapshot <= s && IsNewest(rest + input, user, s, n) && n !in rest + kept
    ensures n in input && ObsoleteMarker(n, smallestSnapshot, files, level)
    ensures IsNewest(rest + input, user, smallestSnapshot, n)
    ensures forall e :: Visible(e, user, s) ==>
              (e in rest + kept <==> e in rest && Visible(e, user, smallestSnapshot))
  {
    assert n in input;
    assert !Superseded(input, n, smallestSnapshot);
    forall e | Visible(e, user, s) && e in rest + kept
      ensures e in rest && Visible(e, user, smallestSnapshot)
    {
      assert e in rest + input;
      assert e in input && e != n ==> Superseded(input, e, smallestSnapshot);
    }
  }

  lemma ReadAfterDrop(rest: set<Entry>, kept: set<Entry>, smallestSnapshot: SequenceNumber, user: UserKey,
                      s: SequenceNumber)
    requires Coherent(rest + kept) && Coherent(rest) && smallestSnapshot <= s
    requires forall e :: Visible(e, user, s) ==>
               (e in rest + kept <==> e in rest && Visible(e, user, smallestSnapshot))
    ensures Read(rest + kept, user, s) == Read(rest, user, smallestSnapshot)
  {
    NewestCases(rest, user, smallestSnapshot);
    match Newest(rest, user, smallestSnapshot) {
      case Some(e) =>
        NewestIs(rest, user, smallestSnapshot, e);
        assert IsNewest(rest + kept, user, s, e);
        NewestIs(rest + kept, user, s, e);
      case None =>
        NothingVisible(rest + kept, user, s);
    }
  }

  /** Compaction preserves every read at a snapshot still served, exactly when no marker it drops
      hides an older value outside its inputs. */
  lemma CompactionPreservesReads(rest: set<Entry>, input: set<Entry>, kept: set<Entry>,
                                 smallestSnapshot: SequenceNumber,
                                 files: seq<seq<File>>, level: nat, user: UserKey)
    requires Coherent(rest + input) && IsKeptSet(input, kept, smallestSnapshot, files, level)
    ensures ReadsKept(rest + input, rest + kept, user, smallestSnapshot)
            <==> !Resurrects(rest, input, smallestSnapshot, files, level, user)
  {
    KeptCoherent(rest, input, kept);
    if !Resurrects(rest, input, smallestSnapshot, files, level, user) {
      forall s: SequenceNumber | smallestSnapshot <= s
        ensures Read(rest + input, user, s) == Read(rest + kept, user, s)
      {
        ReadUnchanged(rest, input, kept, smallestSnapshot, files, level, user, s);
      }
    } else {
      var m :| IsNewest(rest + input, user, smallestSnapshot, m) && m in input && m.key.kind.Deletion?;
      var e :| IsNewest(rest, user, smallestSnapshot, e) && e.key.kind.Value?;
      assert m !in kept;
      assert e in rest + input && (m in rest ==> m == e);
      DroppedAnswer(rest, input, kept, smallestSnapshot, files, level, user, smallestSnapshot, m);
      ReadAfterDrop(rest, kept, smallestSnapshot, user, smallestSnapshot);
      NewestIs(rest, user, smallestSnapshot, e);
      NewestIs(rest + input, user, smallestSnapshot, m);
      assert Read(rest + input, user, smallestSnapshot) != Read(rest + kept, user, smallestSnapshot);
    }
  }

  lemma ReadUnchanged(rest: set<Entry>, input: set<Entry>, kept: set<Entry>, smallestSnapshot: SequenceNumber,
                      files: seq<seq<File>>, level: nat, user: UserKey, s: SequenceNumber)
    requires Coherent(rest + input) && IsKeptSet(input, kept, smallestSnapshot, files, level)
    requires smallestSnapshot <= s && !Resurrects(rest, input, smallestSnapshot, files, level, user)
    ensures Read(rest + input, user, s) == Read(rest + kept, user, s)
  {
    KeptCoherent(rest, input, kept);
    NewestCases(rest + input, user, s);
    match Newest(rest + input, user, s) {
      case None =>
        NothingVisible(rest + kept, user, s);
      case Some(n) =>
        NewestIs(rest + input, user, s, n);
        if n in rest + kept {
          assert IsNewest(rest + kept, user, s, n);
          NewestIs(rest + kept, user, s, n);
        } else {
          DroppedAnswer(rest, input, kept, smallestSnapshot, files, level, user, s, n);
          ReadAfterDrop(rest, kept, smallestSnapshot, user, s);
          NewestCases(rest, user, smallestSnapshot);
        }
    }
  }
}
