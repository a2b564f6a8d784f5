/** Whole runs of the database: writes, memtable switches, flushes, compactions (with writes and
    flushes in between) and snapshots.  A snapshot reads the same data for as long as it is held. */
module Database {
  import opened DbFormat
  import opened Wrappers
  import opened Versions
  import opened CompactionInputs
  import opened Tree
  import opened CompactionInstall
  import opened OutputCuts
  import Lookup
  import Sequences
  import Loop = CompactionLoop

  /** A compaction between choosing its inputs and installing its outputs. */
  datatype Running = Running(level: nat, in0: seq<File>, in1: seq<File>, smallestSnapshot: SequenceNumber,
                             base: Version)

  /** `snapshots` is the SnapshotList, oldest first. */
  datatype DB = DB(mem: seq<Entry>, imm: Option<seq<Entry>>, version: Version, lastSequence: SequenceNumber,
                   nextFile: nat, snapshots: seq<SequenceNumber>, running: Option<Running>)

  ghost function All(db: DB): set<Entry> {
    Lookup.AllEntries(db.mem, db.imm, db.version)
  }

  ghost function Inputs(c: Running): set<File> {
    AsSet(c.in0) + AsSet(c.in1)
  }

  /** What stays true of a running compaction while writes and flushes happen around it. */
  ghost predicate RunningOk(v: Version, c: Running) {
    && TreeOk(c.base)
    && c.level + 1 < NUM_LEVELS
    && InputsOk(c.base.files[c.level], c.base.files[c.level + 1], c.level, c.in0, c.in1)
    && IsInputOf(v, c.level, AsSet(c.in0), AsSet(c.in1))
    && RestIsNewer(v, c.level, AsSet(c.in0))
    && AddedSince(v, c)
  }

  /** A file that joined level+1 or a deeper level since the start overlaps no input. */
  ghost predicate AddedSince(v: Version, c: Running) {
    forall l, g, f ::
        c.level < l < |v.files| && l < |c.base.files| && g in v.files[l] && g !in c.base.files[l] && f in Inputs(c) ==>
      !FilesOverlap(g, f)
  }

  /** Sequence numbers, file numbers and snapshots stay below their counters. */
  ghost predicate Bounds(db: DB) {
    && (forall e :: e in All(db) ==> e.key.sequence <= db.lastSequence)
    && (forall l, f :: 0 <= l < |db.version.files| && f in db.version.files[l] ==> f.number < db.nextFile)
    && (forall i, j :: 0 <= i < j < |db.snapshots| ==> db.snapshots[i] <= db.snapshots[j])
    && (forall s :: s in db.snapshots ==> s <= db.lastSequence)
  }

  ghost predicate RunningFits(db: DB) {
    match db.running
    case None => true
    case Some(c) =>
      && RunningOk(db.version, c)
      && c.smallestSnapshot <= db.lastSequence && c.smallestSnapshot < MAX_SEQUENCE
      && forall s :: s in db.snapshots ==> c.smallestSnapshot <= s
  }

  ghost predicate DBOk(db: DB) {
    Lookup.ReadPathOk(db.mem, db.imm, db.version) && Bounds(db) && RunningFits(db)
  }

  // ---------------------------------------------------------------- the steps

  datatype Update = Update(user: UserKey, kind: ValueType, value: Value)

  /** MemTableInserter: one entry per update, with consecutive sequence numbers. */
  ghost predicate IsBatch(updates: seq<Update>, lastSequence: SequenceNumber, batch: seq<Entry>) {
    && |batch| == |updates|
    && forall i :: 0 <= i < |updates| ==>
         && batch[i].key.user == updates[i].user && batch[i].key.kind == updates[i].kind
         && batch[i].value == updates[i].value && batch[i].key.sequence == lastSequence + 1 + i
  }

  ghost predicate Write(db: DB, updates: seq<Update>, after: DB) {
    && db.lastSequence + |updates| <= MAX_SEQUENCE
    && exists batch: seq<Entry> ::
         && IsBatch(updates, db.lastSequence, batch)
         && Sorted(after.mem) && Elements(after.mem) == Elements(db.mem) + Elements(batch)
         && after == db.(mem := after.mem, lastSequence := db.lastSequence + |updates|)
  }

  /** MakeRoomForWrite, last branch. */
  ghost predicate Switch(db: DB, after: DB) {
    db.imm.None? && after == db.(imm := Some(db.mem), mem := [])
  }

  /** CompactMemTable: the immutable memtable becomes a file of a safe level, or vanishes when empty. */
  ghost predicate Flush(db: DB, level: nat, size: nat, after: DB) {
    && db.imm.Some?
    && if db.imm.value == [] then after == db.(imm := None)
       else
         var file := MakeFile(db.nextFile, size, db.imm.value);
         && CanFlushTo(db.version, level, Range(Some(file.smallest.user), Some(file.largest.user)))
         && IsFlushed(db.version, level, file, after.version)
         && after == db.(imm := None, version := after.version, nextFile := db.nextFile + 1)
  }

  /** DoCompactionWork, up to the release of the mutex; trivial moves start the same way. */
  ghost predicate StartCompaction(db: DB, level: nat, in0: seq<File>, in1: seq<File>, after: DB) {
    && db.running.None? && level + 1 < NUM_LEVELS && |db.version.files| == NUM_LEVELS
    && InputsOk(db.version.files[level], db.version.files[level + 1], level, in0, in1)
    && var oldest := if db.snapshots == [] then db.lastSequence else db.snapshots[0];
       && oldest < MAX_SEQUENCE
       && after == db.(running := Some(Running(level, in0, in1, oldest, db.version)))
  }

  /** BackgroundCompaction's trivial move: one level file, no level+1 inputs, the file itself moves. */
  ghost predicate TrivialMove(db: DB, level: nat, file: File, after: DB) {
    && db.running.None? && level + 1 < NUM_LEVELS && |db.version.files| == NUM_LEVELS
    && InputsOk(db.version.files[level], db.version.files[level + 1], level, [file], [])
    && IsCompacted(db.version, level, {file}, {}, {file}, after.version)
    && after == db.(version := after.version)
  }

  /** The merged input of a compaction: all entries of its files, in order. */
  ghost predicate IsMerged(inputs: set<File>, merged: seq<Entry>) {
    Sorted(merged) && forall e :: e in merged <==> exists f :: f in inputs && e in f.entries
  }

  ghost predicate Install(db: DB, merged: seq<Entry>, outputs: seq<seq<Entry>>, size: seq<Entry> -> nat, after: DB) {
    && db.running.Some?
    && var c := db.running.value;
       && IsMerged(Inputs(c), merged)
       && (forall o :: o in outputs ==> o != [])
       && Sequences.Flatten(outputs) == Loop.Kept(merged, |merged|, c.smallestSnapshot, c.base.files, c.level)
       && var outs := AsSet(OutputFiles(outputs, db.nextFile, size));
          && IsCompacted(db.version, c.level, AsSet(c.in0), AsSet(c.in1), outs, after.version)
          && after == db.(version := after.version, nextFile := db.nextFile + |outputs|, running := None)
  }

  ghost predicate GetSnapshot(db: DB, after: DB) {
    after == db.(snapshots := db.snapshots + [db.lastSequence])
  }

  ghost predicate ReleaseSnapshot(db: DB, i: nat, after: DB) {
    i < |db.snapshots| && after == db.(snapshots := db.snapshots[..i] + db.snapshots[i + 1..])
  }

  datatype Action =
    | AWrite(updates: seq<Update>)
    | ASwitch
    | AFlush(level: nat, size: nat)
    | AStart(startLevel: nat, in0: seq<File>, in1: seq<File>)
    | ATrivialMove(moveLevel: nat, file: File)
    | AInstall(merged: seq<Entry>, outputs: seq<seq<Entry>>, sizeOf: seq<Entry> -> nat)
    | AGetSnapshot
    | AReleaseSnapshot(index: nat)

  ghost predicate Next(db: DB, a: Action, after: DB) {
    match a
    case AWrite(updates) => Write(db, updates, after)
    case ASwitch => Switch(db, after)
    case AFlush(level, size) => Flush(db, level, size, after)
    case AStart(level, in0, in1) => StartCompaction(db, level, in0, in1, after)
    case ATrivialMove(level, file) => TrivialMove(db, level, file, after)
    case AInstall(merged, outputs, size) => Install(db, merged, outputs, size, after)
    case AGetSnapshot => GetSnapshot(db, after)
    case AReleaseSnapshot(i) => ReleaseSnapshot(db, i, after)
  }

  // ---------------------------------------------------------------- every step keeps the invariant

  lemma AllHas(db: DB, e: Entry)
    ensures e in All(db) <==> e in db.mem || (db.imm.Some? && e in db.imm.value) || e in Entries(db.version)
  {
  }

  lemma WriteKeeps(db: DB, updates: seq<Update>, after: DB)
    requires DBOk(db) && Write(db, updates, after)
    ensures DBOk(after)
    ensures forall e: Entry :: e.key.sequence <= db.lastSequence ==> (e in All(after) <==> e in All(db))
  {
    var batch: seq<Entry> :| IsBatch(updates, db.lastSequence, batch) &&
      Elements(after.mem) == Elements(db.mem) + Elements(batch);
    forall e | e in batch ensures db.lastSequence < e.key.sequence <= after.lastSequence {
      var i :| 0 <= i < |batch| && batch[i] == e;
    }
    forall e ensures e in after.mem <==> e in db.mem || e in batch {
      assert e in Elements(after.mem) <==> e in Elements(db.mem) + Elements(batch);
    }
    forall e ensures e in All(after) <==> e in All(db) || e in batch {
      AllHas(db, e);
      AllHas(after, e);
    }
    forall x, y | x in after.mem && y in Entries(db.version) && x.key.user == y.key.user
      ensures x.key.sequence > y.key.sequence
    {
      AllHas(db, y);
    }
    if db.imm.Some? {
      forall x, y | x in after.mem && y in db.imm.value && x.key.user == y.key.user
        ensures x.key.sequence > y.key.sequence
      {
        AllHas(db, y);
      }
    }
  }

  lemma SwitchKeeps(db: DB, after: DB)
    requires DBOk(db) && Switch(db, after)
    ensures DBOk(after) && All(after) == All(db)
  {
    forall e ensures e in All(after) <==> e in All(db) {
      AllHas(db, e);
      AllHas(after, e);
    }
  }

  lemma FlushedEntries(v: Version, level: nat, file: File, after: Version)
    requires IsFlushed(v, level, file, after)
    ensures Entries(after) == Entries(v) + Elements(file.entries)
  {
    forall e ensures e in Entries(after) <==> e in Entries(v) + Elements(file.entries) {
      if e in Entries(after) {
        var l, f := WhereInEntries(after, e);
        FlushedFiles(v, level, file, after, l, f);
        if f in v.files[l] { InEntries(v, l, f, e); }
      }
      if e in Entries(v) {
        var l, f := WhereInEntries(v, e);
        FlushedFiles(v, level, file, after, l, f);
        InEntries(after, l, f, e);
      }
      if e in file.entries {
        FlushedFiles(v, level, file, after, level, file);
        InEntries(after, level, file, e);
      }
    }
  }

  lemma FlushedFileIsNewest(db: DB, size: nat)
    requires DBOk(db) && db.imm.Some? && db.imm.value != []
    ensures IsNewestFile(db.version, MakeFile(db.nextFile, size, db.imm.value))
  {
    var file := MakeFile(db.nextFile, size, db.imm.value);
    forall l, g | 0 <= l < NUM_LEVELS && g in db.version.files[l] ensures g.number < file.number && NewerThan(file, g) {
      forall x, y | x in file.entries && y in g.entries && x.key.user == y.key.user
        ensures x.key.sequence > y.key.sequence
      {
        InEntries(db.version, l, g, y);
      }
    }
  }

  lemma FlushKeepsNewer(v: Version, level: nat, file: File, after: Version, c: Running)
    requires TreeOk(v) && FlushOk(v, level, file) && IsFlushed(v, level, file, after) && RunningOk(v, c)
    ensures |after.files| == NUM_LEVELS && RestIsNewer(after, c.level, AsSet(c.in0))
  {
    forall g, f | g in after.files[c.level] && g !in AsSet(c.in0) && f in AsSet(c.in0) ensures NewerThan(g, f) {
      FlushedFiles(v, level, file, after, c.level, g);
      if g == file { assert f in v.files[c.level]; }
    }
  }

  lemma FlushKeepsApart(v: Version, level: nat, file: File, after: Version, c: Running)
    requires TreeOk(v) && FlushOk(v, level, file) && IsFlushed(v, level, file, after) && RunningOk(v, c)
    ensures AddedSince(after, c)
  {
    hide InputsOk, RestIsNewer, IsNewestFile, LevelsAge, NumbersDistinct, SortedDisjoint, NewestFileFirst, FilesOk,
      Ordered;
    forall l, g, f | c.level < l < NUM_LEVELS && g in after.files[l] && g !in c.base.files[l] && f in Inputs(c)
      ensures !FilesOverlap(g, f)
    {
      FlushedFiles(v, level, file, after, l, g);
      if g !in v.files[l] {
        assert f in v.files[c.level] || f in v.files[c.level + 1];
        assert !Overlaps(f, Range(Some(file.smallest.user), Some(file.largest.user)));
      }
    }
  }

  /** A flush next to a running compaction leaves the compaction's premises intact. */
  lemma FlushKeepsRunning(v: Version, level: nat, file: File, after: Version, c: Running)
    requires TreeOk(v) && FlushOk(v, level, file) && IsFlushed(v, level, file, after) && RunningOk(v, c)
    ensures RunningOk(after, c)
  {
    hide InputsOk, RestIsNewer, TreeOk, FlushOk, AddedSince;
    forall l: nat, f | l < NUM_LEVELS
      ensures f in after.files[l] <==> f in v.files[l] || (l == level && f == file)
    {
      FlushedFiles(v, level, file, after, l, f);
    }
    FlushKeepsNewer(v, level, file, after, c);
    FlushKeepsApart(v, level, file, after, c);
  }

  lemma FlushKeepsReadPath(db: DB, level: nat, file: File, after: DB)
    requires Lookup.ReadPathOk(db.mem, db.imm, db.version) && db.imm.Some? && file.entries == db.imm.value
    requires FlushOk(db.version, level, file) && IsFlushed(db.version, level, file, after.version)
    requires after.mem == db.mem && after.imm.None?
    ensures Lookup.ReadPathOk(after.mem, after.imm, after.version) && All(after) == All(db)
  {
    hide TreeOk, FlushOk, IsFlushed;
    FlushKeepsTree(db.version, level, file, after.version);
    FlushedEntries(db.version, level, file, after.version);
    forall e ensures e in All(after) <==> e in All(db) {
      AllHas(db, e);
      AllHas(after, e);
    }
  }

  lemma FlushKeepsBounds(db: DB, level: nat, file: File, after: DB)
    requires Bounds(db) && IsFlushed(db.version, level, file, after.version) && file.number == db.nextFile
    requires All(after) == All(db) && after.lastSequence == db.lastSequence && after.snapshots == db.snapshots
    requires after.nextFile == db.nextFile + 1
    ensures Bounds(after)
  {
    forall l: nat, f | l < |after.version.files| && f in after.version.files[l] ensures f.number < after.nextFile {
      FlushedFiles(db.version, level, file, after.version, l, f);
    }
  }

  lemma FlushKeeps(db: DB, level: nat, size: nat, after: DB)
    requires DBOk(db) && Flush(db, level, size, after)
    ensures DBOk(after) && All(after) == All(db)
  {
    hide CanFlushTo, IsFlushed, RunningOk, TreeOk;
    if db.imm.value == [] {
      assert All(after) == All(db);
    } else {
      Lookup.ReadPathTree(db.mem, db.imm, db.version);
      var file := MakeFile(db.nextFile, size, db.imm.value);
      FlushedFileIsNewest(db, size);
      FlushKeepsReadPath(db, level, file, after);
      FlushKeepsBounds(db, level, file, after);
      if db.running.Some? { FlushKeepsRunning(db.version, level, file, after.version, db.running.value); }
    }
  }

  lemma StartKeeps(db: DB, level: nat, in0: seq<File>, in1: seq<File>, after: DB)
    requires DBOk(db) && StartCompaction(db, level, in0, in1, after)
    ensures DBOk(after) && All(after) == All(db)
  {
    hide InputsOk, Lookup.ReadPathOk, IsInputOf, RestIsNewer, Lookup.AllEntries;
    assert TreeOk(db.version) by { Lookup.ReadPathTree(db.mem, db.imm, db.version); }
    hide TreeOk;
    InputsAreSafe(db.version, level, in0, in1);
    if db.snapshots != [] { assert db.snapshots[0] in db.snapshots; }
    assert All(after) == All(db);
  }

  // ---------------------------------------------------------------- trivial moves and installs

  ghost function RestOfVersion(v: Version, level: nat, in0: set<File>, in1: set<File>): set<Entry> {
    set l, f, e | 0 <= l < |v.files| && f in v.files[l] && !InputFile(level, in0, in1, l, f) && e in f.entries :: e
  }

  ghost function EntriesOf(files: set<File>): set<Entry> {
    set f, e | f in files && e in f.entries :: e
  }

  lemma SplitEntries(v: Version, level: nat, in0: set<File>, in1: set<File>)
    requires IsInputOf(v, level, in0, in1)
    ensures Entries(v) == RestOfVersion(v, level, in0, in1) + EntriesOf(in0 + in1)
  {
    forall e ensures e in Entries(v) <==> e in RestOfVersion(v, level, in0, in1) + EntriesOf(in0 + in1) {
      if e in Entries(v) {
        var l, f := WhereInEntries(v, e);
        assert InputFile(level, in0, in1, l, f) ==> f in in0 + in1;
      }
      if e in RestOfVersion(v, level, in0, in1) {
        var l, f :| 0 <= l < |v.files| && f in v.files[l] && !InputFile(level, in0, in1, l, f) && e in f.entries;
        InEntries(v, l, f, e);
      }
      if e in EntriesOf(in0 + in1) {
        var f :| f in in0 + in1 && e in f.entries;
        InEntries(v, if f in in0 then level else level + 1, f, e);
      }
    }
  }

  lemma CompactedHolds(v: Version, level: nat, in0: set<File>, in1: set<File>, outs: set<File>, after: Version,
                       e: Entry)
    requires NumbersDistinct(v.files) && IsInputOf(v, level, in0, in1)
    requires IsCompacted(v, level, in0, in1, outs, after)
    requires e in RestOfVersion(v, level, in0, in1) || e in EntriesOf(outs)
    ensures e in Entries(after)
  {
    if e in EntriesOf(outs) {
      var f :| f in outs && e in f.entries;
      CompactedFiles(v, level, in0, in1, outs, after, level + 1, f);
      InEntries(after, level + 1, f, e);
    } else {
      var l, f :| 0 <= l < |v.files| && f in v.files[l] && !InputFile(level, in0, in1, l, f) && e in f.entries;
      CompactedFiles(v, level, in0, in1, outs, after, l, f);
      InEntries(after, l, f, e);
    }
  }

  lemma CompactedHoldsOnly(v: Version, level: nat, in0: set<File>, in1: set<File>, outs: set<File>, after: Version,
                           e: Entry)
    requires NumbersDistinct(v.files) && IsInputOf(v, level, in0, in1)
    requires IsCompacted(v, level, in0, in1, outs, after)
    requires e in Entries(after)
    ensures e in RestOfVersion(v, level, in0, in1) || e in EntriesOf(outs)
  {
    var l, f := WhereInEntries(after, e);
    CompactedFiles(v, level, in0, in1, outs, after, l, f);
  }

  /** What a compaction leaves in the version: the entries outside its inputs, and its outputs. */
  lemma CompactedEntries(v: Version, level: nat, in0: set<File>, in1: set<File>, outs: set<File>, after: Version)
    requires NumbersDistinct(v.files) && IsInputOf(v, level, in0, in1)
    requires IsCompacted(v, level, in0, in1, outs, after)
    ensures Entries(after) == RestOfVersion(v, level, in0, in1) + EntriesOf(outs)
  {
    forall e | e in Entries(after) ensures e in RestOfVersion(v, level, in0, in1) + EntriesOf(outs) {
      CompactedHoldsOnly(v, level, in0, in1, outs, after, e);
    }
    forall e | e in RestOfVersion(v, level, in0, in1) + EntriesOf(outs) ensures e in Entries(after) {
      CompactedHolds(v, level, in0, in1, outs, after, e);
    }
  }

  lemma FewerEntriesKeepReadPath(db: DB, after: DB)
    requires DBOk(db) && TreeOk(after.version) && Entries(after.version) <= Entries(db.version)
    requires after.mem == db.mem && after.imm == db.imm
    ensures Lookup.ReadPathOk(after.mem, after.imm, after.version)
  {
  }

  /** A single closed level file with nothing below it is an acceptable output of its own move. */
  lemma MovedFileOk(v: Version, level: nat, file: File)
    requires TreeOk(v) && level + 1 < NUM_LEVELS
    requires InputsOk(v.files[level], v.files[level + 1], level, [file], [])
    ensures IsInputOf(v, level, {file}, {}) && RestIsNewer(v, level, {file})
    ensures OutputsOk(v, level, {file}, {}, {file}) && NoStraddle(v, level, {}, {file})
  {
    hide InputsOk, RestIsNewer, RestBeside;
    InputsAreSafe(v, level, [file], []);
    ChosenInputsLeaveRestBeside(v, level, [file], []);
    assert AsSet([file]) == {file} && AsSet([]) == {};
    assert MadeOf(file, {file}) && {file} + {} == {file};
    NothingBetweenNoStraddle(v, level, {file}, {}, {file});
  }

  lemma MoveKeepsTree(v: Version, level: nat, file: File, after: Version)
    requires TreeOk(v) && level + 1 < NUM_LEVELS
    requires InputsOk(v.files[level], v.files[level + 1], level, [file], [])
    requires IsCompacted(v, level, {file}, {}, {file}, after)
    ensures TreeOk(after) && IsInputOf(v, level, {file}, {})
  {
    MovedFileOk(v, level, file);
    InstalledTreeOk(v, level, {file}, {}, {file}, after);
  }

  lemma MoveKeepsEntries(v: Version, level: nat, file: File, after: Version)
    requires NumbersDistinct(v.files) && IsInputOf(v, level, {file}, {})
    requires IsCompacted(v, level, {file}, {}, {file}, after)
    ensures Entries(after) == Entries(v)
  {
    hide NumbersDistinct, IsCompacted, IsInputOf;
    SplitEntries(v, level, {file}, {});
    CompactedEntries(v, level, {file}, {}, {file}, after);
    assert {file} + {} == {file};
  }

  lemma TreeNumbers(v: Version)
    requires TreeOk(v)
    ensures NumbersDistinct(v.files)
  {
  }

  lemma MoveKeepsBounds(db: DB, level: nat, file: File, after: DB)
    requires Bounds(db) && TreeOk(db.version) && IsInputOf(db.version, level, {file}, {})
    requires IsCompacted(db.version, level, {file}, {}, {file}, after.version)
    requires All(after) == All(db) && after.nextFile == db.nextFile
    requires after.lastSequence == db.lastSequence && after.snapshots == db.snapshots
    ensures Bounds(after)
  {
    forall l: nat, f | l < NUM_LEVELS && f in after.version.files[l] ensures f.number < after.nextFile {
      CompactedFiles(db.version, level, {file}, {}, {file}, after.version, l, f);
    }
  }

  lemma TrivialMoveKeeps(db: DB, level: nat, file: File, after: DB)
    requires DBOk(db) && TrivialMove(db, level, file, after)
    ensures DBOk(after) && All(after) == All(db)
  {
    hide InputsOk, IsCompacted, TreeOk, IsInputOf, NumbersDistinct;
    Lookup.ReadPathTree(db.mem, db.imm, db.version);
    assert NumbersDistinct(db.version.files) by { TreeNumbers(db.version); }
    MoveKeepsTree(db.version, level, file, after.version);
    MoveKeepsEntries(db.version, level, file, after.version);
    FewerEntriesKeepReadPath(db, after);
    MoveKeepsBounds(db, level, file, after);
  }

  lemma EntriesOfList(files: seq<File>)
    ensures EntriesOf(AsSet(files)) == FileEntries(files)
  {
  }

  lemma MergedElements(inputs: set<File>, merged: seq<Entry>)
    requires IsMerged(inputs, merged)
    ensures Elements(merged) == EntriesOf(inputs)
  {
  }

  /** What the installed outputs hold: the input entries the loop kept. */
  lemma InstalledEntries(c: Running, merged: seq<Entry>, outputs: seq<seq<Entry>>, first: nat, size: seq<Entry> -> nat)
    requires IsMerged(Inputs(c), merged) && (forall o :: o in outputs ==> o != [])
    requires Sequences.Flatten(outputs) == Loop.Kept(merged, |merged|, c.smallestSnapshot, c.base.files, c.level)
    ensures var kept := EntriesOf(AsSet(OutputFiles(outputs, first, size)));
            Loop.IsKeptSet(EntriesOf(Inputs(c)), kept, c.smallestSnapshot, c.base.files, c.level)
  {
    KeptSorted(merged, |merged|, c.smallestSnapshot, c.base.files, c.level);
    OutputFilesOk(outputs, first, size);
    EntriesOfList(OutputFiles(outputs, first, size));
    MergedElements(Inputs(c), merged);
    Loop.OutputsHoldKeptSet(merged, c.smallestSnapshot, c.base.files, c.level);
  }

  /** The outputs a compaction installs are acceptable. */
  lemma InstalledOutputs(db: DB, c: Running, merged: seq<Entry>, outputs: seq<seq<Entry>>, size: seq<Entry> -> nat)
    requires Bounds(db) && |db.version.files| == NUM_LEVELS
    requires IsMerged(Inputs(c), merged) && (forall o :: o in outputs ==> o != [])
    requires Sequences.Flatten(outputs) == Loop.Kept(merged, |merged|, c.smallestSnapshot, c.base.files, c.level)
    ensures OutputsOk(db.version, c.level, AsSet(c.in0), AsSet(c.in1), AsSet(OutputFiles(outputs, db.nextFile, size)))
    ensures forall o :: o in OutputFiles(outputs, db.nextFile, size) ==> o.number < db.nextFile + |outputs|
  {
    KeptSorted(merged, |merged|, c.smallestSnapshot, c.base.files, c.level);
    assert merged[..|merged|] == merged;
    LoopOutputsOk(db.version, c.level, AsSet(c.in0), AsSet(c.in1), merged, outputs, db.nextFile, size);
    OutputFilesOk(outputs, db.nextFile, size);
  }

  lemma InputIsFile(v: Version, c: Running, f: File)
    requires TreeOk(v) && RunningOk(v, c) && f in Inputs(c)
    ensures FileOk(f)
  {
    hide InputsOk, RestIsNewer, AddedSince, SortedDisjoint, LevelsAge, NumbersDistinct, NewestFileFirst, FileOk;
    assert f in v.files[c.level] || f in v.files[c.level + 1];
  }

  /** A level+1 file that is not an input of a running compaction overlaps none of its inputs. */
  lemma StayingFileApart(v: Version, c: Running, g: File, f: File)
    requires TreeOk(v) && RunningOk(v, c)
    requires g in v.files[c.level + 1] && g !in c.in1 && f in Inputs(c)
    ensures FileOk(f) && FileOk(g) && Disjoint(g, f)
  {
    hide InputsOk, RestIsNewer, SortedDisjoint, LevelsAge, NumbersDistinct, NewestFileFirst, FileOk;
    InputIsFile(v, c, f);
    FileBoundsOrdered(g);
    FileBoundsOrdered(f);
    if g in c.base.files[c.level + 1] {
      ChosenInputsLeaveRestBeside(c.base, c.level, c.in0, c.in1);
      assert g !in AsSet(c.in1) && f in AsSet(c.in0) + AsSet(c.in1);
      assert Beside(g, AsSet(c.in0) + AsSet(c.in1));
    }
  }

  lemma StayingFileBesideKept(v: Version, c: Running, merged: seq<Entry>, kept: seq<Entry>, g: File)
    requires TreeOk(v) && RunningOk(v, c) && IsMerged(Inputs(c), merged)
    requires forall e :: e in kept ==> e in merged
    requires g in v.files[c.level + 1] && g !in c.in1
    ensures EntriesBeside(g, kept)
  {
    hide RunningOk, TreeOk, Disjoint, Inputs;
    forall i | 0 <= i < |kept| ensures Precedes(kept[i].key, g.smallest) || Precedes(g.largest, kept[i].key) {
      assert kept[i] in merged;
      var f :| f in Inputs(c) && kept[i] in f.entries;
      StayingFileApart(v, c, g, f);
      EntryBeside(g, f, kept[i]);
    }
  }

  /** Every staying level+1 file that falls between two kept entries has a table end there. */
  ghost predicate CutAroundRest(v: Version, c: Running, kept: seq<Entry>, outputs: seq<seq<Entry>>) {
    c.level + 1 < |v.files| && forall g :: g in v.files[c.level + 1] && g !in c.in1 ==> CutAround(g, kept, outputs)
  }

  lemma RunningLevel(v: Version, c: Running)
    requires RunningOk(v, c)
    ensures c.level + 1 < NUM_LEVELS == |v.files|
  {
  }

  lemma NoStraddleIsCut(db: DB, c: Running, merged: seq<Entry>, outputs: seq<seq<Entry>>, first: nat,
                        size: seq<Entry> -> nat)
    requires TreeOk(db.version) && RunningOk(db.version, c) && IsMerged(Inputs(c), merged)
    requires (forall o :: o in outputs ==> o != []) && Sorted(Sequences.Flatten(outputs))
    requires forall e :: e in Sequences.Flatten(outputs) ==> e in merged
    ensures NoStraddle(db.version, c.level, AsSet(c.in1), AsSet(OutputFiles(outputs, first, size)))
            <==> CutAroundRest(db.version, c, Sequences.Flatten(outputs), outputs)
  {
    hide RunningOk, IsMerged, CutAround, Sequences.Flatten, OutputFiles, Disjoint, Sorted, LevelsAge, FileOk,
      EntriesBeside;
    var kept, files := Sequences.Flatten(outputs), OutputFiles(outputs, first, size);
    assert c.level + 1 < NUM_LEVELS by { RunningLevel(db.version, c); }
    forall g | g in db.version.files[c.level + 1] && g !in c.in1
      ensures (forall o :: o in files ==> Disjoint(g, o)) <==> CutAround(g, kept, outputs)
    {
      StayingFileBesideKept(db.version, c, merged, kept, g);
      assert FileOk(g);
      FitsExactlyWhenCut(g, outputs, first, size);
    }
  }

  /** A finished compaction keeps the database invariant exactly when it ended a table wherever a
      level+1 file that stays falls between two of the entries it kept. */
  lemma InstallKeeps(db: DB, merged: seq<Entry>, outputs: seq<seq<Entry>>, size: seq<Entry> -> nat, after: DB)
    requires DBOk(db) && Install(db, merged, outputs, size, after)
    ensures var c := db.running.value;
            DBOk(after) <==>
            CutAroundRest(db.version, c, Loop.Kept(merged, |merged|, c.smallestSnapshot, c.base.files, c.level),
                          outputs)
  {
    hide RunningOk, Lookup.ReadPathOk, Bounds, IsCompacted, IsMerged, TreeOk, Loop.Kept, NoStraddle, CutAroundRest;
    var c := db.running.value;
    RunningIsOk(db, c);
    assert Sorted(merged) by { MergedSorted(Inputs(c), merged); }
    KeptSorted(merged, |merged|, c.smallestSnapshot, c.base.files, c.level);
    assert merged[..|merged|] == merged;
    NoStraddleIsCut(db, c, merged, outputs, db.nextFile, size);
    InstallKeepsExactly(db, merged, outputs, size, after);
  }

  lemma RunningIsOk(db: DB, c: Running)
    requires DBOk(db) && db.running == Some(c)
    ensures TreeOk(db.version) && RunningOk(db.version, c)
  {
    Lookup.ReadPathTree(db.mem, db.imm, db.version);
  }

  lemma MergedSorted(inputs: set<File>, merged: seq<Entry>)
    requires IsMerged(inputs, merged)
    ensures Sorted(merged)
  {
  }

  lemma InstallKeepsExactly(db: DB, merged: seq<Entry>, outputs: seq<seq<Entry>>, size: seq<Entry> -> nat, after: DB)
    requires DBOk(db) && Install(db, merged, outputs, size, after)
    ensures DBOk(after) <==> NoStraddle(db.version, db.running.value.level, AsSet(db.running.value.in1),
                                        AsSet(OutputFiles(outputs, db.nextFile, size)))
  {
    var c := db.running.value;
    var outs := AsSet(OutputFiles(outputs, db.nextFile, size));
    InstalledOutputs(db, c, merged, outputs, size);
    InstallKeepsTree(db.version, c.level, AsSet(c.in0), AsSet(c.in1), outs, after.version);
    if NoStraddle(db.version, c.level, AsSet(c.in1), outs) {
      SplitEntries(db.version, c.level, AsSet(c.in0), AsSet(c.in1));
      CompactedEntries(db.version, c.level, AsSet(c.in0), AsSet(c.in1), outs, after.version);
      InstalledEntries(c, merged, outputs, db.nextFile, size);
      assert Entries(after.version) <= Entries(db.version);
      FewerEntriesKeepReadPath(db, after);
      InstallKeepsBounds(db, c, outs, after);
    }
  }

  lemma InstallKeepsBounds(db: DB, c: Running, outs: set<File>, after: DB)
    requires DBOk(db) && db.running == Some(c)
    requires IsCompacted(db.version, c.level, AsSet(c.in0), AsSet(c.in1), outs, after.version)
    requires Entries(after.version) <= Entries(db.version) && after.mem == db.mem && after.imm == db.imm
    requires after.lastSequence == db.lastSequence && after.snapshots == db.snapshots && db.nextFile <= after.nextFile
    requires forall o :: o in outs ==> o.number < after.nextFile
    ensures Bounds(after)
  {
    forall e | e in All(after) ensures e in All(db) {
      AllHas(db, e);
      AllHas(after, e);
    }
    forall l: nat, f | l < NUM_LEVELS && f in after.version.files[l] ensures f.number < after.nextFile {
      CompactedFiles(db.version, c.level, AsSet(c.in0), AsSet(c.in1), outs, after.version, l, f);
    }
  }

  // ---------------------------------------------------------------- reads across an install

  /** No file starts inside the user key at which the inputs end. */
  ghost predicate EndsBetweenUsers(files: seq<File>, inputs: seq<File>) {
    forall key :: IsLargestKey(inputs, key) ==> NoBoundary(files, key)
  }

  /** AddBoundaryInputs' condition, one level further down: no level+1 file starts inside the user
      key at which the level+1 inputs end.  The code does not establish it. */
  ghost predicate BelowClosed(c: Running) {
    c.level + 1 < |c.base.files| && EndsBetweenUsers(c.base.files[c.level + 1], c.in1)
  }

  ghost function Outside(db: DB, c: Running): set<Entry> {
    Elements(db.mem) + (if db.imm.Some? then Elements(db.imm.value) else {}) +
    RestOfVersion(db.version, c.level, AsSet(c.in0), AsSet(c.in1))
  }

  lemma AllIsOutsideAnd(db: DB, now: DB, c: Running, part: set<Entry>)
    requires now.mem == db.mem && now.imm == db.imm
    requires Entries(now.version) == RestOfVersion(db.version, c.level, AsSet(c.in0), AsSet(c.in1)) + part
    ensures All(now) == Outside(db, c) + part
  {
  }

  lemma SplitAll(db: DB, c: Running, outs: set<File>, after: DB)
    requires NumbersDistinct(db.version.files) && IsInputOf(db.version, c.level, AsSet(c.in0), AsSet(c.in1))
    requires IsCompacted(db.version, c.level, AsSet(c.in0), AsSet(c.in1), outs, after.version)
    requires after.mem == db.mem && after.imm == db.imm
    ensures All(db) == Outside(db, c) + EntriesOf(Inputs(c))
    ensures All(after) == Outside(db, c) + EntriesOf(outs)
  {
    SplitEntries(db.version, c.level, AsSet(c.in0), AsSet(c.in1));
    AllIsOutsideAnd(db, db, c, EntriesOf(Inputs(c)));
    CompactedEntries(db.version, c.level, AsSet(c.in0), AsSet(c.in1), outs, after.version);
    AllIsOutsideAnd(db, after, c, EntriesOf(outs));
  }

  /** Installing preserves every read still served exactly when no dropped deletion marker hides an
      older value outside the inputs. */
  lemma InstallReads(db: DB, merged: seq<Entry>, outputs: seq<seq<Entry>>, size: seq<Entry> -> nat, after: DB,
                     user: UserKey)
    requires DBOk(db) && Install(db, merged, outputs, size, after)
    ensures var c := db.running.value;
            Loop.ReadsKept(All(db), All(after), user, c.smallestSnapshot) <==>
            !Loop.Resurrects(Outside(db, c), EntriesOf(Inputs(c)), c.smallestSnapshot, c.base.files, c.level, user)
  {
    var c := db.running.value;
    var outs := AsSet(OutputFiles(outputs, db.nextFile, size));
    InstalledEntries(c, merged, outputs, db.nextFile, size);
    SplitAll(db, c, outs, after);
    Lookup.ReadPathCoherent(db.mem, db.imm, db.version);
    Loop.CompactionPreservesReads(Outside(db, c), EntriesOf(Inputs(c)), EntriesOf(outs), c.smallestSnapshot,
                                  c.base.files, c.level, user);
  }

  // ---------------------------------------------------------------- when nothing can be resurrected

  /** A closed run of overlapping level+1 files leaves only newer data of their user keys behind. */
  lemma StayingBesideRun(next: seq<File>, r: Range, g: File, f: File)
    requires FilesOk(next) && SortedDisjoint(next)
    requires EndsBetweenUsers(next, InRange(next, r))
    requires g in next && g !in InRange(next, r) && f in InRange(next, r)
    ensures NewerThan(g, f)
  {
    FilesHaveRanges(next);
    var lo, hi := InRangeIsRun(next, r, |next|);
    assert next[..|next|] == next;
    InputsEndAt(next, lo, hi);
    var k :| 0 <= k < |next| && next[k] == g;
    Sequences.NotInSlice(next, lo, hi, k);
    var j :| lo <= j < hi && next[j] == f;
    RunRestIsNewer(next, lo, hi, k, j);
  }

  lemma StayingBesideRange(next: seq<File>, in0: seq<File>, r: Range, g: File, f: File)
    requires FileOk(g) && FileOk(f) && IsUserRange(in0, r) && f in in0
    requires g in next && g !in InRange(next, r)
    ensures NewerThan(g, f)
  {
    InRangeHas(next, r, g);
    RangeHoldsItsFiles2(in0, r, f);
    forall x, y | x in g.entries && y in f.entries ensures x.key.user != y.key.user {
      FileBounds(g, x);
      FileBounds(f, y);
    }
  }

  /** With the level+1 inputs closed, a level+1 file that stays holds no older entry of an input's user key. */
  lemma StayingFileIsNewer(c: Running, g: File, f: File)
    requires TreeOk(c.base) && c.level + 1 < NUM_LEVELS && BelowClosed(c)
    requires InputsOk(c.base.files[c.level], c.base.files[c.level + 1], c.level, c.in0, c.in1)
    requires g in c.base.files[c.level + 1] && g !in c.in1 && f in Inputs(c)
    ensures NewerThan(g, f)
  {
    hide Closed, IsUserRange, LevelsAge, NumbersDistinct, NewestFileFirst, FileOk, NewerThan, NoBoundary;
    var next := c.base.files[c.level + 1];
    var r: Range :| IsUserRange(c.in0, r) && c.in1 == InRange(next, r);
    if f in c.in1 {
      StayingBesideRun(next, r, g, f);
    } else {
      ClosedIsSelection(c.base.files[c.level], c.level, c.in0, f);
      StayingBesideRange(next, c.in0, r, g, f);
    }
  }

  lemma InputsEndAt(files: seq<File>, lo: int, hi: int)
    requires RangesOk(files) && SortedDisjoint(files) && 0 <= lo < hi <= |files|
    ensures IsLargestKey(files[lo..hi], files[hi - 1].largest)
  {
    Lookup.LargestAscends(files);
    assert files[hi - 1] in files[lo..hi];
    forall f | f in files[lo..hi] ensures !Less(files[hi - 1].largest, f.largest) {
      var i :| lo <= i < hi && files[i] == f;
      CompareIsTotalOrder(f.largest, files[hi - 1].largest, f.largest);
    }
  }

  lemma DeeperFileLacksKey(files: seq<seq<File>>, level: nat, l: int, g: File, user: UserKey, e: Entry)
    requires Loop.IsBaseLevel(files, level, user) && level + 2 <= l < |files|
    requires g in files[l] && FileOk(g) && e in g.entries
    ensures e.key.user != user
  {
    FileBounds(g, e);
  }

  lemma HigherFileIsNewer(v: Version, c: Running, l: int, g: File, f: File)
    requires TreeOk(v) && RunningOk(v, c) && f in Inputs(c) && 0 <= l <= c.level && g in v.files[l]
    requires !InputFile(c.level, AsSet(c.in0), AsSet(c.in1), l, g)
    ensures NewerThan(g, f)
  {
    hide InputsOk, SortedDisjoint, NumbersDistinct, NewestFileFirst, FileOk, NewerThan, AddedSince;
  }

  /** A file that is not an input holds only newer data of a base-level user key than an input file. */
  lemma OtherFileIsNewer(v: Version, c: Running, l: int, g: File, f: File, e: Entry, m: Entry)
    requires TreeOk(v) && RunningOk(v, c) && BelowClosed(c)
    requires f in Inputs(c) && m in f.entries && 0 <= l < NUM_LEVELS && g in v.files[l] && e in g.entries
    requires !InputFile(c.level, AsSet(c.in0), AsSet(c.in1), l, g)
    requires e.key.user == m.key.user && Loop.IsBaseLevel(c.base.files, c.level, m.key.user)
    ensures e.key.sequence > m.key.sequence
  {
    hide InputsOk, SortedDisjoint, NumbersDistinct, NewestFileFirst, BelowClosed, FileOk, Loop.IsBaseLevel, NoBoundary;
    if l <= c.level {
      HigherFileIsNewer(v, c, l, g, f);
    } else {
      InputIsFile(v, c, f);
      FileBounds(g, e);
      FileBounds(f, m);
      assert FilesOverlap(g, f);
      assert g in c.base.files[l];
      if l == c.level + 1 {
        StayingFileIsNewer(c, g, f);
      } else {
        DeeperFileLacksKey(c.base.files, c.level, l, g, m.key.user, e);
      }
    }
  }

  lemma MemtablesAreNewer(db: DB, c: Running, m: Entry, e: Entry)
    requires Lookup.ReadPathOk(db.mem, db.imm, db.version)
    requires IsInputOf(db.version, c.level, AsSet(c.in0), AsSet(c.in1))
    requires m in EntriesOf(Inputs(c)) && e in Outside(db, c) && e.key.user == m.key.user
    requires e !in RestOfVersion(db.version, c.level, AsSet(c.in0), AsSet(c.in1))
    ensures e.key.sequence > m.key.sequence
  {
    SplitEntries(db.version, c.level, AsSet(c.in0), AsSet(c.in1));
    OutsideHas(db, c, e);
  }

  lemma OutsideHas(db: DB, c: Running, e: Entry)
    requires e in Outside(db, c)
    ensures e in db.mem || (db.imm.Some? && e in db.imm.value) ||
            e in RestOfVersion(db.version, c.level, AsSet(c.in0), AsSet(c.in1))
  {
  }

  lemma WhereInRest(v: Version, level: nat, in0: set<File>, in1: set<File>, e: Entry) returns (l: int, f: File)
    requires e in RestOfVersion(v, level, in0, in1)
    ensures 0 <= l < |v.files| && f in v.files[l] && !InputFile(level, in0, in1, l, f) && e in f.entries
  {
    l, f :| 0 <= l < |v.files| && f in v.files[l] && !InputFile(level, in0, in1, l, f) && e in f.entries;
  }

  /** Everything outside the inputs that shares the user key of a base-level input entry is newer. */
  lemma OutsideIsNewer(db: DB, c: Running, m: Entry, e: Entry)
    requires Lookup.ReadPathOk(db.mem, db.imm, db.version) && RunningOk(db.version, c) && BelowClosed(c)
    requires m in EntriesOf(Inputs(c)) && e in Outside(db, c) && e.key.user == m.key.user
    requires Loop.IsBaseLevel(c.base.files, c.level, m.key.user)
    ensures e.key.sequence > m.key.sequence
  {
    if e in RestOfVersion(db.version, c.level, AsSet(c.in0), AsSet(c.in1)) {
      var f :| f in Inputs(c) && m in f.entries;
      var l, g := WhereInRest(db.version, c.level, AsSet(c.in0), AsSet(c.in1), e);
      OtherFileIsNewer(db.version, c, l, g, f, e, m);
    } else {
      MemtablesAreNewer(db, c, m, e);
    }
  }

  lemma NewerRestIsHarmless(rest: set<Entry>, input: set<Entry>, smallestSnapshot: SequenceNumber,
                            files: seq<seq<File>>, level: nat, user: UserKey)
    requires forall m, e :: m in input && e in rest && m.key.user == user && e.key.user == user ==>
               e.key.sequence > m.key.sequence
    ensures !Loop.Resurrects(rest, input, smallestSnapshot, files, level, user)
  {
    forall m, e | m in input && IsNewest(rest, user, smallestSnapshot, e)
      ensures !IsNewest(rest + input, user, smallestSnapshot, m)
    {
      assert e in rest + input;
    }
  }

  /** With closed level+1 inputs no deletion marker can hide anything outside the inputs. */
  lemma ClosedMeansNoResurrection(db: DB, c: Running, user: UserKey)
    requires Lookup.ReadPathOk(db.mem, db.imm, db.version) && RunningOk(db.version, c) && BelowClosed(c)
    ensures !Loop.Resurrects(Outside(db, c), EntriesOf(Inputs(c)), c.smallestSnapshot, c.base.files, c.level, user)
  {
    if Loop.IsBaseLevel(c.base.files, c.level, user) {
      forall m, e | m in EntriesOf(Inputs(c)) && e in Outside(db, c) && m.key.user == user && e.key.user == user
        ensures e.key.sequence > m.key.sequence
      {
        OutsideIsNewer(db, c, m, e);
      }
      NewerRestIsHarmless(Outside(db, c), EntriesOf(Inputs(c)), c.smallestSnapshot, c.base.files, c.level, user);
    }
  }
}
