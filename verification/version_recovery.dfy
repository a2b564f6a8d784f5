/** Replaying a manifest (VersionSet::LogAndApply, WriteSnapshot and Recover in db/version_set.cc). */
module VersionRecovery {
  import opened Coding
  import opened Manifest
  import opened VersionBuilder
  import opened VersionEdits
  import opened Wrappers

  type Version = seq<Level>

  // ---------------------------------------------------------------- one builder for all edits

  /** Each version is what LogAndApply made of the one before it: a builder of its own for each edit. */
  ghost predicate Installed(versions: seq<Version>, edits: seq<Edit>) {
    |versions| == |edits| + 1 && forall i {:trigger edits[i]} :: 0 <= i < |edits| ==>
        Saves(versions[i], [edits[i]], versions[i + 1])
  }

  ghost predicate AllAddedOnce(base: Version, edits: seq<Edit>) {
    |base| == NUM_LEVELS && forall level :: 0 <= level < NUM_LEVELS ==> AddedOnce(Elements(base[level]), edits, level)
  }

  lemma OnceInShorter(base: Version, edits: seq<Edit>)
    requires AllAddedOnce(base, edits) && edits != []
    ensures AllAddedOnce(base, edits[..|edits| - 1])
  {
    forall level | 0 <= level < NUM_LEVELS ensures AddedOnce(Elements(base[level]), edits[..|edits| - 1], level) {
      assert AddedOnce(Elements(base[level]), edits, level);
    }
  }

  /** One edit alone, as its own builder gathers it. */
  lemma OneEdit(files: set<FileMetaData>, e: Edit, level: nat)
    requires Numbers(AddedAt(e, level)) !! Numbers(files)
    ensures Saved(files, GatherAll([e], level)) == Step(files, e, level)
  {
    assert [e][..0] == [];
    assert files + {} == files;
    assert Saved(files, Gathered({}, {})) == files;
    OneMore(files, Gathered({}, {}), e, level);
  }

  lemma StepsAreKnown(base: set<FileMetaData>, edits: seq<Edit>, level: nat)
    requires AddedOnce(base, edits, level)
    ensures Steps(base, edits, level) <= base + GatherAll(edits, level).added
  {
    SavingOnceIsStepwise(base, edits, level);
  }

  /** The last of the installed versions, level by level. */
  lemma {:induction false} InstalledIsSteps(versions: seq<Version>, edits: seq<Edit>, level: nat)
    requires Installed(versions, edits) && AllAddedOnce(versions[0], edits) && level < NUM_LEVELS
    ensures |versions[|edits|]| == NUM_LEVELS
    ensures Elements(versions[|edits|][level]) == Steps(Elements(versions[0][level]), edits, level)
  {
    if edits != [] {
      var n := |edits| - 1;
      var e := edits[n];
      var base := Elements(versions[0][level]);
      assert Installed(versions[..n + 1], edits[..n]) by {
        forall i | 0 <= i < n ensures Saves(versions[..n + 1][i], [edits[..n][i]], versions[..n + 1][i + 1]) {
          assert edits[i] == edits[..n][i];
        }
      }
      OnceInShorter(versions[0], edits);
      InstalledIsSteps(versions[..n + 1], edits[..n], level);
      assert AddedOnce(base, edits, level);
      StepsAreKnown(base, edits[..n], level);
      NumbersOfSubset(Steps(base, edits[..n], level), base + GatherAll(edits[..n], level).added);
      OneEdit(Steps(base, edits[..n], level), e, level);
      assert Saves(versions[n], [edits[n]], versions[n + 1]);
      assert SavesLevel(versions[n], [e], versions[n + 1], level);
    }
  }

  lemma NumbersOfSubset(a: set<FileMetaData>, b: set<FileMetaData>)
    requires a <= b
    ensures Numbers(a) <= Numbers(b)
  {
  }

  /** Applying all edits to one builder and saving once gives the version that installing them one at a time
      gave, file by file and in the same order. */
  lemma ReplayIsStepwise(versions: seq<Version>, edits: seq<Edit>, w: Version)
    requires Installed(versions, edits) && AllAddedOnce(versions[0], edits) && Saves(versions[0], edits, w)
    requires forall level :: 0 <= level < NUM_LEVELS ==> SortedFiles(versions[0][level])
    ensures w == versions[|edits|]
  {
    InstalledIsSteps(versions, edits, 0);
    forall level | 0 <= level < NUM_LEVELS ensures w[level] == versions[|edits|][level] {
      assert SavesLevel(versions[0], edits, w, level);
      assert AddedOnce(Elements(versions[0][level]), edits, level);
      SavingOnceIsStepwise(Elements(versions[0][level]), edits, level);
      InstalledIsSteps(versions, edits, level);
      LastIsSorted(versions, edits, level);
      SortedIsUnique(w[level], versions[|edits|][level]);
    }
  }

  lemma LastIsSorted(versions: seq<Version>, edits: seq<Edit>, level: nat)
    requires Installed(versions, edits) && level < NUM_LEVELS && |versions[|edits|]| == NUM_LEVELS
    requires |versions[0]| == NUM_LEVELS && SortedFiles(versions[0][level])
    ensures SortedFiles(versions[|edits|][level])
  {
    if edits != [] {
      var n := |edits| - 1;
      assert Saves(versions[n], [edits[n]], versions[n + 1]);
      assert SavesLevel(versions[n], [edits[n]], versions[n + 1], level);
    }
  }

  // ---------------------------------------------------------------- the snapshot at the head of a manifest

  /** The files of a level, each with its level. */
  function AtLevel(level: nat, files: Level): (r: seq<(nat, FileMetaData)>)
    ensures |r| == |files|
  {
    seq(|files|, i requires 0 <= i < |files| => (level, files[i]))
  }

  function FilesBelow(v: Version, n: nat): seq<(nat, FileMetaData)>
    requires n <= |v|
  {
    if n == 0 then [] else FilesBelow(v, n - 1) + AtLevel(n - 1, v[n - 1])
  }

  /** The record that WriteSnapshot writes. */
  function SnapshotEdit(name: Bytes, pointers: seq<(nat, Bytes)>, v: Version): Edit {
    EmptyEdit().(comparator := Some(name), compactPointers := pointers, newFiles := FilesBelow(v, |v|))
  }

  function EmptyVersion(): Version {
    seq(NUM_LEVELS, _ => [])
  }

  /** No number twice in a level. */
  ghost predicate NumbersOnce(files: Level) {
    forall i, j :: 0 <= i < j < |files| ==> files[i].number != files[j].number
  }

  lemma {:induction false} FilesAt(v: Version, n: nat, level: nat)
    requires n <= |v| && level < |v| && (level < n ==> NumbersOnce(v[level]))
    ensures var e := EmptyEdit().(newFiles := FilesBelow(v, n));
            AddedAt(e, level) == (if level < n then Elements(v[level]) else {}) && Once(e, level)
    ensures forall i :: 0 <= i < |FilesBelow(v, n)| ==> FilesBelow(v, n)[i].0 < n
  {
    if n > 0 {
      FilesAt(v, n - 1, level);
      FilesAppend(FilesBelow(v, n - 1), n - 1, v[n - 1], level);
    }
  }

  lemma FilesAppend(below: seq<(nat, FileMetaData)>, n: nat, files: Level, level: nat)
    requires Once(EmptyEdit().(newFiles := below), level) && (forall i :: 0 <= i < |below| ==> below[i].0 < n)
    requires level == n ==> NumbersOnce(files)
    ensures var e := EmptyEdit().(newFiles := below + AtLevel(n, files));
            && AddedAt(e, level) ==
               AddedAt(EmptyEdit().(newFiles := below), level) + (if level == n then Elements(files) else {})
            && Once(e, level)
  {
    var a, e := EmptyEdit().(newFiles := below), EmptyEdit().(newFiles := below + AtLevel(n, files));
    forall f ensures f in AddedAt(e, level) <==> f in AddedAt(a, level) || (level == n && f in files) {
      if f in AddedAt(a, level) {
        var k :| 0 <= k < |a.newFiles| && a.newFiles[k].0 == level && a.newFiles[k].1 == f;
        assert e.newFiles[k].1 == f;
      }
      if level == n && f in files {
        var k :| 0 <= k < |files| && files[k] == f;
        assert e.newFiles[|below| + k] == (n, f);
      }
      if f in AddedAt(e, level) {
        var k :| 0 <= k < |e.newFiles| && e.newFiles[k].0 == level && e.newFiles[k].1 == f;
        if k < |below| { assert a.newFiles[k].1 == f; } else { assert files[k - |below|] == f; }
      }
    }
  }

  /** A snapshot read into an empty version gives the version back. */
  lemma SnapshotRestores(name: Bytes, pointers: seq<(nat, Bytes)>, v: Version)
    requires |v| == NUM_LEVELS && forall level :: 0 <= level < NUM_LEVELS ==>
               SortedFiles(v[level]) && NumbersOnce(v[level])
    ensures Saves(EmptyVersion(), [SnapshotEdit(name, pointers, v)], v)
    ensures AllAddedOnce(EmptyVersion(), [SnapshotEdit(name, pointers, v)])
  {
    var e := SnapshotEdit(name, pointers, v);
    forall level | 0 <= level < NUM_LEVELS
      ensures SavesLevel(EmptyVersion(), [e], v, level) && AddedOnce(Elements(EmptyVersion()[level]), [e], level)
    {
      SnapshotLevel(name, pointers, v, level);
    }
  }

  lemma SnapshotLevel(name: Bytes, pointers: seq<(nat, Bytes)>, v: Version, level: nat)
    requires |v| == NUM_LEVELS && level < NUM_LEVELS && SortedFiles(v[level]) && NumbersOnce(v[level])
    ensures var e := SnapshotEdit(name, pointers, v);
            SavesLevel(EmptyVersion(), [e], v, level) && AddedOnce(Elements(EmptyVersion()[level]), [e], level)
  {
    var e := SnapshotEdit(name, pointers, v);
    FilesAt(v, |v|, level);
    assert AddedAt(e, level) == AddedAt(EmptyEdit().(newFiles := FilesBelow(v, |v|)), level);
    assert Elements(EmptyVersion()[level]) == {} && Numbers({}) == {};
    OneEdit({}, e, level);
    assert Step({}, e, level) == Elements(v[level]);
    assert [e][..0] == [];
    assert Numbers({} + Gathered({}, {}).added) == {};
  }

  // ---------------------------------------------------------------- recovery

  /** The numbers that the last edit with each of them gives. */
  datatype Counters = Counters(log: Option<nat>, prevLog: Option<nat>, nextFile: Option<nat>, lastSequence: Option<nat>)

  function Newer(a: Option<nat>, b: Option<nat>): Option<nat> {
    if b.Some? then b else a
  }

  function Updated(c: Counters, e: Edit): Counters {
    Counters(Newer(c.log, e.logNumber), Newer(c.prevLog, e.prevLogNumber), Newer(c.nextFile, e.nextFileNumber),
             Newer(c.lastSequence, e.lastSequence))
  }

  function CountersOf(edits: seq<Edit>): Counters {
    if edits == [] then Counters(None, None, None, None)
      else Updated(CountersOf(edits[..|edits| - 1]), edits[|edits| - 1])
  }

  lemma CountersSnoc(edits: seq<Edit>, e: Edit)
    ensures CountersOf(edits + [e]) == Updated(CountersOf(edits), e)
  {
    assert (edits + [e])[..|edits|] == edits;
  }

  predicate Names(e: Edit, name: Bytes) {
    e.comparator.Some? ==> e.comparator.value == name
  }

  datatype Outcome =
    | Recovered(version: Version, manifestFile: nat, nextFile: nat, lastSequence: nat, logNumber: nat,
                prevLogNumber: nat)
    | BadRecord
    | WrongComparator
    | MissingEntry

  function Decoded(record: Bytes): Option<Edit> {
    DecodeFields(record, EmptyEdit())
  }

  predicate IsGood(record: Bytes, name: Bytes) {
    Decoded(record).Some? && Names(Decoded(record).value, name)
  }

  /** How many records are read before the first that recovery refuses. */
  function GoodRecords(records: seq<Bytes>, name: Bytes): (n: nat)
    ensures n <= |records|
  {
    if records == [] || !IsGood(records[0], name) then 0 else 1 + GoodRecords(records[1..], name)
  }

  lemma {:induction false} GoodRecordsAre(records: seq<Bytes>, name: Bytes)
    ensures var n := GoodRecords(records, name);
            (forall i :: 0 <= i < n ==> IsGood(records[i], name)) && (n < |records| ==> !IsGood(records[n], name))
  {
    if records != [] && IsGood(records[0], name) {
      GoodRecordsAre(records[1..], name);
    }
  }

  lemma GoodRecordsEnd(records: seq<Bytes>, name: Bytes, n: nat)
    requires n <= |records| && (forall i :: 0 <= i < n ==> IsGood(records[i], name))
    requires n < |records| ==> !IsGood(records[n], name)
    ensures GoodRecords(records, name) == n
  {
    GoodRecordsAre(records, name);
  }

  function EditsOf(records: seq<Bytes>): (edits: seq<Edit>)
    requires forall i :: 0 <= i < |records| ==> Decoded(records[i]).Some?
    ensures |edits| == |records|
  {
    seq(|records|, i requires 0 <= i < |records| => Decoded(records[i]).value)
  }

  /** The edits that recovery applies. */
  function ReadEdits(records: seq<Bytes>, name: Bytes): seq<Edit> {
    GoodRecordsAre(records, name);
    EditsOf(records[..GoodRecords(records, name)])
  }

  /** No two files that the edits name in a level have the same rank. */
  ghost predicate AllApart(base: Version, edits: seq<Edit>) {
    |base| == NUM_LEVELS && forall level :: 0 <= level < NUM_LEVELS ==>
        Apart(Elements(base[level]), GatherAll(edits, level).added)
  }

  lemma {:induction false} InsertedLevels(pairs: seq<(nat, nat)>, p: (nat, nat))
    requires p.0 < NUM_LEVELS && forall i :: 0 <= i < |pairs| ==> pairs[i].0 < NUM_LEVELS
    ensures forall i :: 0 <= i < |InsertPair(pairs, p)| ==> InsertPair(pairs, p)[i].0 < NUM_LEVELS
  {
    forall q | q in InsertPair(pairs, p) ensures q.0 < NUM_LEVELS {
      assert q in pairs || q == p;
    }
  }

  /** A record that decodes names levels of the tree only. */
  lemma {:induction false} DecodedLevelsOk(s: Bytes, e: Edit)
    requires LevelsOk(e)
    ensures DecodeFields(s, e).Some? ==> LevelsOk(DecodeFields(s, e).value)
    decreases |s|
  {
    hide GetVarint, InsertPair;
    var tag := GetVarint(s, 32);
    if tag.Some? {
      ParseShrinks(tag.value.value, tag.value.rest);
      var f := ParseContents(tag.value.value, tag.value.rest);
      if f.Some? {
        FieldLevelsOk(tag.value.value, tag.value.rest, e);
        DecodedLevelsOk(f.value.rest, WithField(e, f.value.value));
      }
    }
  }

  lemma FieldLevelsOk(tag: nat, s: Bytes, e: Edit)
    requires LevelsOk(e) && ParseContents(tag, s).Some?
    ensures LevelsOk(WithField(e, ParseContents(tag, s).value.value))
  {
    hide GetVarint, GetPrefixed, InsertPair;
    var f := ParseContents(tag, s).value.value;
    if f.DeletedFile? { InsertedLevels(e.deletedFiles, (f.level, f.number)); }
  }

  /** Recover, once the manifest is read into records: every record goes into one builder, up to the first that
      is corrupt or names another comparator, which decides. */
  method Recover(records: seq<Bytes>, name: Bytes) returns (r: Outcome)
    requires AllApart(EmptyVersion(), ReadEdits(records, name))
    ensures var n := GoodRecords(records, name);
            && (r.BadRecord? <==> n < |records| && Decoded(records[n]).None?)
            && (r.WrongComparator? <==> n < |records| && Decoded(records[n]).Some?)
    ensures var c := CountersOf(ReadEdits(records, name));
            r.MissingEntry? <==>
              GoodRecords(records, name) == |records| && (c.nextFile.None? || c.log.None? || c.lastSequence.None?)
    ensures var c := CountersOf(ReadEdits(records, name));
            r.Recovered? ==>
              && Saves(EmptyVersion(), ReadEdits(records, name), r.version)
              && c.nextFile == Some(r.manifestFile) && r.nextFile == r.manifestFile + 1
              && c.log == Some(r.logNumber) && c.lastSequence == Some(r.lastSequence)
              && r.prevLogNumber == if c.prevLog.Some? then c.prevLog.value else 0
  {
    hide Apart, DecodeFields, LevelsOk, Saves, Elements, Builder.Valid, GoodRecords, Names, EmptyVersion;
    GoodRecordsAre(records, name);
    var builder := new Builder(EmptyVersion());
    var c := Counters(None, None, None, None);
    for i := 0 to |records|
      invariant builder.Valid() && fresh(builder) && builder.base == EmptyVersion()
      invariant forall k :: 0 <= k < i ==> IsGood(records[k], name)
      invariant builder.edits == EditsOf(records[..i]) && c == CountersOf(EditsOf(records[..i]))
    {
      var edit := new VersionEdit();
      var ok := edit.DecodeFrom(records[i]);
      if !ok {
        GoodRecordsEnd(records, name, i);
        return BadRecord;
      }
      var e := edit.Value();
      assert Decoded(records[i]) == Some(e);
      if !Names(e, name) {
        GoodRecordsEnd(records, name, i);
        return WrongComparator;
      }
      LevelsOfRecord(records[i]);
      assert EditsOf(records[..i + 1]) == EditsOf(records[..i]) + [e];
      CountersSnoc(EditsOf(records[..i]), e);
      builder.Apply(e);
      c := Updated(c, e);
    }
    GoodRecordsEnd(records, name, |records|);
    assert records[..|records|] == records;
    if c.nextFile.None? || c.log.None? || c.lastSequence.None? {
      return MissingEntry;
    }
    var v := builder.SaveTo();
    r := Recovered(v, c.nextFile.value, c.nextFile.value + 1, c.lastSequence.value, c.log.value,
                   if c.prevLog.Some? then c.prevLog.value else 0);
  }

  lemma LevelsOfRecord(record: Bytes)
    ensures Decoded(record).Some? ==> LevelsOk(Decoded(record).value)
  {
    DecodedLevelsOk(record, EmptyEdit());
  }

  /** The records of a manifest. */
  ghost predicate Holds(records: seq<Bytes>, edits: seq<Edit>) {
    |records| == |edits| && forall i :: 0 <= i < |edits| ==>
        records[i] == EncodeFields(FieldsOf(edits[i])) && EditOk(edits[i])
  }

  /** The records of a manifest decode to the edits that were written. */
  lemma HeldIsRead(records: seq<Bytes>, edits: seq<Edit>, name: Bytes)
    requires Holds(records, edits) && forall i :: 0 <= i < |edits| ==> Names(edits[i], name)
    ensures GoodRecords(records, name) == |records| && ReadEdits(records, name) == edits
  {
    hide EditOk, EncodeFields, FieldsOf, DecodeFields, GoodRecords, Names;
    forall i | 0 <= i < |records| ensures Decoded(records[i]) == Some(edits[i]) {
      EditRoundTrip(edits[i], []);
      assert EmptyEdit().(compactPointers := []) == EmptyEdit();
      assert edits[i].(compactPointers := [] + edits[i].compactPointers) == edits[i];
    }
    GoodRecordsEnd(records, name, |records|);
    assert records[..|records|] == records;
    assert EditsOf(records) == edits;
  }

  // ---------------------------------------------------------------- a manifest and what it stands for

  lemma {:induction false} BehindSnapshot(v: Version, snapshot: Edit, edits: seq<Edit>, level: nat)
    requires |v| == NUM_LEVELS && level < NUM_LEVELS && AddedOnce(Elements(v[level]), edits, level)
    requires AddedAt(snapshot, level) == Elements(v[level]) && AddedOnce({}, [snapshot], level)
    ensures AddedOnce({}, [snapshot] + edits, level)
    ensures GatherAll([snapshot] + edits, level).added == Elements(v[level]) + GatherAll(edits, level).added
  {
    var all := [snapshot] + edits;
    if edits == [] {
      assert all == [snapshot] && all[..0] == [];
    } else {
      var n := |edits| - 1;
      assert all[..|all| - 1] == [snapshot] + edits[..n] && all[|all| - 1] == edits[n];
      BehindSnapshot(v, snapshot, edits[..n], level);
    }
  }

  lemma SnapshotFirst(name: Bytes, pointers: seq<(nat, Bytes)>, v: Version, edits: seq<Edit>)
    requires |v| == NUM_LEVELS && forall level :: 0 <= level < NUM_LEVELS ==>
               SortedFiles(v[level]) && NumbersOnce(v[level])
    requires AllAddedOnce(v, edits)
    ensures AllAddedOnce(EmptyVersion(), [SnapshotEdit(name, pointers, v)] + edits)
  {
    var e := SnapshotEdit(name, pointers, v);
    SnapshotRestores(name, pointers, v);
    forall level | 0 <= level < NUM_LEVELS ensures AddedOnce(Elements(EmptyVersion()[level]), [e] + edits, level) {
      assert Elements(EmptyVersion()[level]) == {};
      assert AddedOnce(Elements(EmptyVersion()[level]), [e], level) && AddedOnce(Elements(v[level]), edits, level);
      FilesAt(v, |v|, level);
      assert AddedAt(e, level) == AddedAt(EmptyEdit().(newFiles := FilesBelow(v, |v|)), level);
      BehindSnapshot(v, e, edits, level);
    }
  }

  lemma InstalledFromEmpty(name: Bytes, pointers: seq<(nat, Bytes)>, versions: seq<Version>, edits: seq<Edit>)
    requires Installed(versions, edits) &&
             Saves(EmptyVersion(), [SnapshotEdit(name, pointers, versions[0])], versions[0])
    ensures Installed([EmptyVersion()] + versions, [SnapshotEdit(name, pointers, versions[0])] + edits)
  {
    var vs, es := [EmptyVersion()] + versions, [SnapshotEdit(name, pointers, versions[0])] + edits;
    forall i | 0 <= i < |es| ensures Saves(vs[i], [es[i]], vs[i + 1]) {
      if i > 0 { assert edits[i - 1] == es[i]; }
    }
  }

  /** LogAndApply fills in the numbers that an edit does not set itself. */
  function Completed(e: Edit, log: nat, prevLog: nat, nextFile: nat, lastSequence: nat): Edit {
    e.(logNumber := if e.logNumber.Some? then e.logNumber else Some(log),
       prevLogNumber := if e.prevLogNumber.Some? then e.prevLogNumber else Some(prevLog),
       nextFileNumber := Some(nextFile), lastSequence := Some(lastSequence))
  }

  /** An edit as LogAndApply writes it. */
  ghost predicate IsCompleted(c: Edit) {
    exists e: Edit, log: nat, prevLog: nat, nextFile: nat, last: nat :: c == Completed(e, log, prevLog, nextFile, last)
  }

  lemma CountersOfCompleted(edits: seq<Edit>)
    requires edits != [] && IsCompleted(edits[|edits| - 1])
    ensures var e := edits[|edits| - 1];
            CountersOf(edits) == Counters(e.logNumber, e.prevLogNumber, e.nextFileNumber, e.lastSequence)
  {
  }

  lemma OnceIsAllApart(base: Version, edits: seq<Edit>)
    requires AllAddedOnce(base, edits)
    ensures AllApart(base, edits)
  {
    forall level | 0 <= level < NUM_LEVELS ensures Apart(Elements(base[level]), GatherAll(edits, level).added) {
      assert AddedOnce(Elements(base[level]), edits, level);
      OnceIsApart(Elements(base[level]), edits, level);
    }
  }

  /** Recovery from a manifest that starts with a snapshot of one version and goes on with the edits that
      LogAndApply wrote since succeeds, with the current version and the numbers of the last edit. */
  method RecoverCurrent(records: seq<Bytes>, name: Bytes, ghost pointers: seq<(nat, Bytes)>,
                        ghost versions: seq<Version>,
                        ghost edits: seq<Edit>)
    returns (r: Outcome)
    requires Installed(versions, edits) && AllAddedOnce(versions[0], edits)
    requires forall level :: 0 <= level < NUM_LEVELS ==>
               SortedFiles(versions[0][level]) && NumbersOnce(versions[0][level])
    requires Holds(records, [SnapshotEdit(name, pointers, versions[0])] + edits)
    requires edits != [] && IsCompleted(edits[|edits| - 1])
    requires forall i :: 0 <= i < |edits| ==> IsCompleted(edits[i]) && Names(edits[i], name)
    ensures var e := edits[|edits| - 1];
            r == Recovered(versions[|edits|], e.nextFileNumber.value, e.nextFileNumber.value + 1, e.lastSequence.value,
                           e.logNumber.value, e.prevLogNumber.value)
  {
    hide SnapshotEdit, AddedOnce, Apart, SortedFiles, NumbersOnce, Saves, Holds;
    ghost var all := [SnapshotEdit(name, pointers, versions[0])] + edits;
    SnapshotFirst(name, pointers, versions[0], edits);
    SnapshotRestores(name, pointers, versions[0]);
    InstalledFromEmpty(name, pointers, versions, edits);
    SnapshotNames(name, pointers, versions[0]);
    HeldIsRead(records, all, name);
    OnceIsAllApart(EmptyVersion(), all);
    CountersOfCompleted(all);
    r := Recover(records, name);
    EmptyIsSorted();
    ReplayIsStepwise([EmptyVersion()] + versions, all, r.version);
  }

  lemma EmptyIsSorted()
    ensures forall level :: 0 <= level < NUM_LEVELS ==> SortedFiles(EmptyVersion()[level])
  {
  }

  lemma SnapshotNames(name: Bytes, pointers: seq<(nat, Bytes)>, v: Version)
    ensures Names(SnapshotEdit(name, pointers, v), name)
  {
  }
}
