/** Two places where the code's own checks are too weak, each shown by steps from a database that
    satisfies the invariant. */
module Counterexamples {
  import opened DbFormat
  import opened Wrappers
  import opened Versions
  import opened CompactionInputs
  import opened Tree
  import opened CompactionInstall
  import opened Database
  import opened Snapshots
  import Lookup
  import Sequences
  import Loop = CompactionLoop

  function Put(user: UserKey, sequence: SequenceNumber): Entry {
    Entry(InternalKey(user, sequence, ValueType.Value), "v")
  }

  function Marker(user: UserKey, sequence: SequenceNumber): Entry {
    Entry(InternalKey(user, sequence, Deletion), "")
  }

  function UnitSize(table: seq<Entry>): nat { 1 }

  // ---------------------------------------------------------------- databases with two levels

  /** A version with files at levels one and two only. */
  function TwoLevels(one: seq<File>, two: seq<File>): Version {
    Version([[], one, two, [], [], [], []])
  }

  lemma TwoLevelFiles(one: seq<File>, two: seq<File>)
    ensures |TwoLevels(one, two).files| == NUM_LEVELS
    ensures forall l :: 0 <= l < NUM_LEVELS ==>
              TwoLevels(one, two).files[l] == if l == 1 then one else if l == 2 then two else []
  {
  }

  lemma TableOk(number: nat, entries: seq<Entry>)
    requires 1 <= |entries| <= 2
    requires |entries| == 2 ==> Precedes(entries[0].key, entries[1].key)
    ensures FileOk(MakeFile(number, 1, entries))
  {
  }

  ghost predicate LevelOk(files: seq<File>) {
    && FilesOk(files) && Ordered(files) && SortedDisjoint(files)
    && forall f, g :: f in files && g in files && f.number == g.number ==> f == g
  }

  lemma NoFileOk()
    ensures LevelOk([])
  {
  }

  lemma OneFileOk(f: File)
    requires FileOk(f)
    ensures LevelOk([f])
  {
  }

  lemma TwoFilesOk(f: File, g: File)
    requires FileOk(f) && FileOk(g) && Precedes(f.largest, g.smallest) && f.number != g.number
    ensures LevelOk([f, g])
  {
    FileBoundsOrdered(f);
    FileBoundsOrdered(g);
  }

  ghost predicate LevelAbove(one: seq<File>, two: seq<File>) {
    forall f, g :: f in one && g in two ==> f.number != g.number && NewerThan(f, g)
  }

  lemma TwoLevelsOk(one: seq<File>, two: seq<File>)
    requires LevelOk(one) && LevelOk(two) && LevelAbove(one, two)
    ensures TreeOk(TwoLevels(one, two))
  {
    hide TwoLevels, FileOk, NewerThan;
    var v := TwoLevels(one, two);
    TwoLevelFiles(one, two);
    NoFileOk();
    forall l | 0 <= l < NUM_LEVELS ensures LevelOk(v.files[l]) {}
  }

  lemma TwoLevelEntries(one: seq<File>, two: seq<File>)
    ensures Entries(TwoLevels(one, two)) == FileEntries(one) + FileEntries(two)
  {
    hide TwoLevels;
    TwoLevelFiles(one, two);
    var v := TwoLevels(one, two);
    forall e ensures e in Entries(v) <==> e in FileEntries(one) + FileEntries(two) {
      assert e in FileEntries(v.files[1]) <==> e in FileEntries(one);
      assert e in FileEntries(v.files[2]) <==> e in FileEntries(two);
    }
  }

  /** A database over two levels: sorted memtables newer than the levels, and fitting counters. */
  lemma TwoLevelDatabaseOk(db: DB, one: seq<File>, two: seq<File>)
    requires db.version == TwoLevels(one, two) && db.imm == None && db.snapshots == [] && db.running == None
    requires LevelOk(one) && LevelOk(two) && LevelAbove(one, two)
    requires Sorted(db.mem) && NewerData(db.mem, []) && forall e :: e in db.mem ==> e.key.sequence <= db.lastSequence
    requires forall x, y :: x in db.mem && y in FileEntries(one) + FileEntries(two) && x.key.user == y.key.user ==>
               x.key.sequence > y.key.sequence
    requires forall e :: e in FileEntries(one) + FileEntries(two) ==> e.key.sequence <= db.lastSequence
    requires forall f :: f in one + two ==> f.number < db.nextFile
    ensures DBOk(db)
    ensures All(db) == Elements(db.mem) + FileEntries(one) + FileEntries(two)
  {
    hide TwoLevels, TreeOk, LevelOk, LevelAbove, Entries, FileEntries;
    TwoLevelsOk(one, two);
    TwoLevelEntries(one, two);
    TwoLevelFiles(one, two);
  }

  lemma TwoLevelsCompacted(one: seq<File>, two: seq<File>, in0: set<File>, in1: set<File>, outs: set<File>,
                           afterOne: seq<File>, afterTwo: seq<File>)
    requires IsEdit(one, Numbers(in0), {}, afterOne) && IsEdit(two, Numbers(in1), outs, afterTwo)
    ensures IsCompacted(TwoLevels(one, two), 1, in0, in1, outs, TwoLevels(afterOne, afterTwo))
  {
    hide IsEdit, TwoLevels, Numbers;
    TwoLevelFiles(one, two);
    TwoLevelFiles(afterOne, afterTwo);
  }

  // ---------------------------------------------------------------- a deleted value comes back

  function Top(): File { MakeFile(3, 1, [Put(0.0, 9)]) }

  function Left(): File { MakeFile(2, 1, [Put(0.0, 4), Marker(1.0, 5)]) }

  function Right(): File { MakeFile(1, 1, [Put(1.0, 3)]) }

  function Output(): File { MakeFile(4, 1, [Put(0.0, 9)]) }

  /** User key 1.0 is split over two level-two files: one ends at its deletion, the next starts with
      the deleted value. */
  function SplitKeyDB(): DB {
    DB([], None, TwoLevels([Top()], [Left(), Right()]), 9, 4, [], None)
  }

  function SplitKeyStarted(): DB {
    SplitKeyDB().(running := Some(Running(1, [Top()], [Left()], 9, SplitKeyDB().version)))
  }

  function SplitKeyInstalled(): DB {
    SplitKeyStarted().(version := TwoLevels([], [Output(), Right()]), nextFile := 5, running := None)
  }

  /** What the compaction of the split key reads, and what it writes. */
  function SplitKeyMerged(): seq<Entry> { [Put(0.0, 9), Put(0.0, 4), Marker(1.0, 5)] }

  function SplitKeyOutputs(): seq<seq<Entry>> { [[Put(0.0, 9)]] }

  lemma RangeOfOne(f: File)
    ensures IsUserRange([f], Range(Some(f.smallest.user), Some(f.largest.user)))
  {
    assert f in [f];
    assert IsSmallestKey([f], f.smallest) && IsLargestKey([f], f.largest);
  }

  lemma FirstOnlyInRange(f: File, g: File, r: Range)
    requires Overlaps(f, r) && !Overlaps(g, r)
    ensures InRange([f, g], r) == [f]
  {
    assert [f, g][..1] == [f];
    assert [f][..0] == [];
    assert InRange([f], r) == [f];
  }

  /** Level+1 inputs are chosen by user-key overlap with the level inputs only. */
  lemma OverlapAloneDecides(top: File, left: File, right: File)
    requires FileOk(top)
    requires var r := Range(Some(top.smallest.user), Some(top.largest.user)); Overlaps(left, r) && !Overlaps(right, r)
    ensures InputsOk([top], [left, right], 1, [top], [left])
  {
    FileBoundsOrdered(top);
    RangeOfOne(top);
    FirstOnlyInRange(left, right, Range(Some(top.smallest.user), Some(top.largest.user)));
    assert [top] == [top][0..1];
    assert IsClosedRun([top], [top]);
  }

  /** The missing AddBoundaryInputs call for level+1: SetupOtherInputs may take Left and leave Right
      behind, although Right starts inside the user key at which Left ends. */
  lemma SplitKeyFiles()
    ensures LevelOk([Top()]) && LevelOk([Left(), Right()]) && LevelAbove([Top()], [Left(), Right()])
    ensures InputsOk([Top()], [Left(), Right()], 1, [Top()], [Left()])
    ensures IsBoundary(Right(), Left().largest)
  {
    hide InputsOk, LevelOk;
    TableOk(3, Top().entries);
    TableOk(2, Left().entries);
    TableOk(1, Right().entries);
    OneFileOk(Top());
    TwoFilesOk(Left(), Right());
    OverlapAloneDecides(Top(), Left(), Right());
  }

  lemma SplitKeyEntries()
    ensures FileEntries([Top()]) + FileEntries([Left(), Right()]) ==
            {Put(0.0, 9), Put(0.0, 4), Marker(1.0, 5), Put(1.0, 3)}
    ensures FileEntries([]) + FileEntries([Output(), Right()]) == {Put(0.0, 9), Put(1.0, 3)}
  {
    assert Top() in [Top()] && Left() in [Left(), Right()] && Right() in [Left(), Right()];
    assert Output() in [Output(), Right()] && Right() in [Output(), Right()];
    assert Put(0.0, 9) in Top().entries && Put(0.0, 9) in Output().entries && Put(1.0, 3) in Right().entries;
    assert Left().entries[0] in Left().entries && Left().entries[1] in Left().entries;
  }

  lemma SplitKeyIsDatabase()
    ensures DBOk(SplitKeyDB())
    ensures All(SplitKeyDB()) == {Put(0.0, 9), Put(0.0, 4), Marker(1.0, 5), Put(1.0, 3)}
    ensures DBOk(SplitKeyInstalled())
    ensures All(SplitKeyInstalled()) == {Put(0.0, 9), Put(1.0, 3)}
  {
    hide InputsOk, LevelOk, LevelAbove, DBOk, All, TwoLevels, FileEntries;
    SplitKeyFiles();
    SplitKeyEntries();
    TwoLevelDatabaseOk(SplitKeyDB(), [Top()], [Left(), Right()]);
    SplitKeyAfterOk();
    TwoLevelDatabaseOk(SplitKeyInstalled(), [], [Output(), Right()]);
  }

  lemma SplitKeyAfterOk()
    ensures LevelOk([]) && LevelOk([Output(), Right()]) && LevelAbove([], [Output(), Right()])
  {
    hide LevelOk;
    NoFileOk();
    TableOk(4, Output().entries);
    TableOk(1, Right().entries);
    TwoFilesOk(Output(), Right());
  }

  lemma SplitKeyStarts()
    ensures StartCompaction(SplitKeyDB(), 1, [Top()], [Left()], SplitKeyStarted())
  {
    hide InputsOk, LevelOk, LevelAbove, TwoLevels;
    SplitKeyFiles();
    TwoLevelFiles([Top()], [Left(), Right()]);
  }

  lemma SplitKeyMerges()
    ensures IsMerged({Top(), Left()}, SplitKeyMerged())
  {
    forall e ensures e in SplitKeyMerged() <==> e in Top().entries || e in Left().entries {
      assert e in SplitKeyMerged() <==> e == Put(0.0, 9) || e == Put(0.0, 4) || e == Marker(1.0, 5);
    }
    assert Top() in {Top(), Left()} && Left() in {Top(), Left()};
  }

  lemma SplitKeyKeeps(files: seq<seq<File>>)
    requires Loop.IsBaseLevel(files, 1, 1.0)
    ensures Loop.Kept(SplitKeyMerged(), 3, 9, files, 1) == [Put(0.0, 9)]
  {
    hide Loop.Kept;
    Loop.KeptNext(SplitKeyMerged(), 0, 9, files, 1);
    Loop.KeptNext(SplitKeyMerged(), 1, 9, files, 1);
    Loop.KeptNext(SplitKeyMerged(), 2, 9, files, 1);
    Loop.KeptNone(SplitKeyMerged(), 9, files, 1);
  }

  lemma SplitKeyEdits()
    ensures IsEdit([Top()], Numbers({Top()}), {}, [])
    ensures IsEdit([Left(), Right()], Numbers({Left()}), {Output()}, [Output(), Right()])
  {
    assert Top().number in Numbers({Top()}) && Left().number in Numbers({Left()}) &&
           Right().number !in Numbers({Left()});
  }

  lemma OneOutput()
    ensures AsSet(OutputFiles(SplitKeyOutputs(), 4, UnitSize)) == {Output()}
    ensures Sequences.Flatten(SplitKeyOutputs()) == [Put(0.0, 9)]
  {
    assert OutputFiles(SplitKeyOutputs(), 4, UnitSize)[0] == OutputFile(SplitKeyOutputs(), 4, UnitSize, 0);
    assert OutputFiles(SplitKeyOutputs(), 4, UnitSize) == [Output()];
    assert SplitKeyOutputs()[..0] == [];
  }

  lemma SplitKeyInstalls()
    ensures Install(SplitKeyStarted(), SplitKeyMerged(), SplitKeyOutputs(), UnitSize, SplitKeyInstalled())
  {
    hide IsMerged, Loop.Kept, IsCompacted, TwoLevels, OutputFiles, IsEdit, Numbers, Sequences.Flatten;
    TwoLevelFiles([Top()], [Left(), Right()]);
    assert AsSet([Top()]) == {Top()} && AsSet([Left()]) == {Left()};
    assert {Top()} + {Left()} == {Top(), Left()};
    SplitKeyMerges();
    SplitKeyKeeps(SplitKeyDB().version.files);
    OneOutput();
    SplitKeyEdits();
    TwoLevelsCompacted([Top()], [Left(), Right()], {Top()}, {Left()}, {Output()}, [], [Output(), Right()]);
  }

  /** A deleted value comes back: two steps of the code from a database that satisfies the invariant
      lead to another one that satisfies it, and the read that said "deleted" answers with the value. */
  lemma DeletedValueComesBack()
    ensures DBOk(SplitKeyDB())
    ensures StartCompaction(SplitKeyDB(), 1, [Top()], [Left()], SplitKeyStarted())
    ensures Install(SplitKeyStarted(), SplitKeyMerged(), SplitKeyOutputs(), UnitSize, SplitKeyInstalled())
    ensures DBOk(SplitKeyInstalled())
    ensures Read(All(SplitKeyDB()), 1.0, 9) == None
    ensures Read(All(SplitKeyInstalled()), 1.0, 9) == Some("v")
  {
    hide DBOk, All, StartCompaction, Install, SplitKeyDB, SplitKeyStarted, SplitKeyInstalled;
    SplitKeyIsDatabase();
    SplitKeyStarts();
    SplitKeyInstalls();
    var before, after := All(SplitKeyDB()), All(SplitKeyInstalled());
    assert IsNewest(before, 1.0, 9, Marker(1.0, 5)) && Coherent(before);
    NewestIs(before, 1.0, 9, Marker(1.0, 5));
    assert IsNewest(after, 1.0, 9, Put(1.0, 3)) && Coherent(after);
    NewestIs(after, 1.0, 9, Put(1.0, 3));
  }

  // ---------------------------------------------------------------- a flush lands inside an output

  function First(): File { MakeFile(1, 1, [Put(0.0, 1)]) }

  function Last(): File { MakeFile(2, 1, [Put(2.0, 2)]) }

  function Middle(): File { MakeFile(3, 1, [Put(1.0, 3)]) }

  function Spanning(): File { MakeFile(4, 1, [Put(0.0, 1), Put(2.0, 2)]) }

  /** Two level-one files with room between them, and a write that falls there still in memory. */
  function GapDB(): DB {
    DB([Put(1.0, 3)], None, TwoLevels([First(), Last()], []), 3, 3, [], None)
  }

  function GapStarted(): DB {
    GapDB().(running := Some(Running(1, [First(), Last()], [], 3, GapDB().version)))
  }

  function GapSwitched(): DB {
    GapStarted().(imm := Some([Put(1.0, 3)]), mem := [])
  }

  function GapFlushed(): DB {
    GapSwitched().(imm := None, version := TwoLevels([First(), Last()], [Middle()]), nextFile := 4)
  }

  function GapInstalled(): DB {
    GapFlushed().(version := TwoLevels([], [Spanning(), Middle()]), nextFile := 5, running := None)
  }

  function GapMerged(): seq<Entry> { [Put(0.0, 1), Put(2.0, 2)] }

  lemma GapTables()
    ensures FileOk(First()) && FileOk(Last()) && FileOk(Middle()) && FileOk(Spanning())
  {
    TableOk(1, First().entries);
    TableOk(2, Last().entries);
    TableOk(3, Middle().entries);
    TableOk(4, Spanning().entries);
  }

  lemma TwoFilesAreInputs(f: File, g: File)
    requires FileOk(f) && FileOk(g) && Precedes(f.largest, g.smallest)
    ensures InputsOk([f, g], [], 1, [f, g], [])
  {
    FileBoundsOrdered(f);
    FileBoundsOrdered(g);
    var files := [f, g];
    assert f in files && g in files;
    assert IsSmallestKey(files, f.smallest) && IsLargestKey(files, g.largest);
    assert IsUserRange(files, Range(Some(f.smallest.user), Some(g.largest.user)));
    assert files == files[0..2];
    assert IsClosedRun(files, files);
  }

  lemma GapIsDatabase()
    ensures DBOk(GapDB())
  {
    hide LevelOk, TwoLevels, DBOk;
    GapTables();
    TwoFilesOk(First(), Last());
    NoFileOk();
    assert LevelAbove([First(), Last()], []);
    TwoLevelDatabaseOk(GapDB(), [First(), Last()], []);
  }

  lemma GapStarts()
    ensures StartCompaction(GapDB(), 1, [First(), Last()], [], GapStarted())
  {
    hide InputsOk, TwoLevels;
    GapTables();
    TwoLevelFiles([First(), Last()], []);
    TwoFilesAreInputs(First(), Last());
  }

  lemma GapFlushes()
    ensures Flush(GapSwitched(), 2, 1, GapFlushed())
  {
    hide TwoLevels;
    GapTables();
    TwoLevelFiles([First(), Last()], []);
    TwoLevelFiles([First(), Last()], [Middle()]);
    assert MakeFile(3, 1, [Put(1.0, 3)]) == Middle();
  }

  lemma GapMerges()
    ensures IsMerged({First(), Last()}, GapMerged())
  {
    forall e ensures e in GapMerged() <==> e in First().entries || e in Last().entries {
      assert e in GapMerged() <==> e == Put(0.0, 1) || e == Put(2.0, 2);
    }
    assert First() in {First(), Last()} && Last() in {First(), Last()};
  }

  lemma GapKeeps(files: seq<seq<File>>)
    ensures Loop.Kept(GapMerged(), 2, 3, files, 1) == GapMerged()
  {
    hide Loop.Kept;
    Loop.KeptNext(GapMerged(), 0, 3, files, 1);
    Loop.KeptNext(GapMerged(), 1, 3, files, 1);
    Loop.KeptNone(GapMerged(), 3, files, 1);
  }

  lemma GapEdits()
    ensures IsEdit([First(), Last()], Numbers({First(), Last()}), {}, [])
    ensures IsEdit([Middle()], Numbers({}), {Spanning()}, [Spanning(), Middle()])
  {
    assert First() in {First(), Last()} && Last() in {First(), Last()};
    assert First().number in Numbers({First(), Last()}) && Last().number in Numbers({First(), Last()});
    assert Numbers({}) == {};
  }

  lemma SpanningOutput()
    ensures AsSet(OutputFiles([GapMerged()], 4, UnitSize)) == {Spanning()}
    ensures Sequences.Flatten([GapMerged()]) == GapMerged()
  {
    assert OutputFiles([GapMerged()], 4, UnitSize)[0] == OutputFile([GapMerged()], 4, UnitSize, 0);
    assert OutputFiles([GapMerged()], 4, UnitSize) == [Spanning()];
    assert [GapMerged()][..0] == [];
  }

  lemma GapInstalls()
    ensures Install(GapFlushed(), GapMerged(), [GapMerged()], UnitSize, GapInstalled())
  {
    hide IsMerged, Loop.Kept, IsCompacted, TwoLevels, OutputFiles, IsEdit, Numbers, Sequences.Flatten;
    assert AsSet([First(), Last()]) == {First(), Last()} && AsSet([]) == {};
    assert {First(), Last()} + {} == {First(), Last()};
    GapMerges();
    GapKeeps(GapDB().version.files);
    SpanningOutput();
    GapEdits();
    TwoLevelsCompacted([First(), Last()], [Middle()], {First(), Last()}, {}, {Spanning()}, [], [Spanning(), Middle()]);
  }

  /** A flush lands inside an output: four steps of the code from a database that satisfies the
      invariant lead to one whose level two overlaps itself.  The written value is still stored, but
      the file a read picks at level two, the first one that ends at or behind the key, lacks it. */
  lemma FlushLandsInsideOutput()
    ensures DBOk(GapDB())
    ensures StartCompaction(GapDB(), 1, [First(), Last()], [], GapStarted())
    ensures Switch(GapStarted(), GapSwitched())
    ensures Flush(GapSwitched(), 2, 1, GapFlushed())
    ensures Install(GapFlushed(), GapMerged(), [GapMerged()], UnitSize, GapInstalled())
    ensures !TreeOk(GapInstalled().version)
    ensures Put(1.0, 3) in All(GapInstalled())
    ensures GapInstalled().version.files[2] == [Spanning(), Middle()]
    ensures !Less(Spanning().largest, SeekKey(1.0, 3)) && Lookup.Probe(Spanning().entries, SeekKey(1.0, 3)) == None
  {
    hide DBOk, StartCompaction, Flush, Install, TwoLevels;
    GapIsDatabase();
    GapStarts();
    GapFlushes();
    GapInstalls();
    TwoLevelFiles([], [Spanning(), Middle()]);
    var v := GapInstalled().version;
    assert !Precedes(v.files[2][0].largest, v.files[2][1].smallest);
    assert Middle() in v.files[2] && Put(1.0, 3) in Middle().entries;
    InEntries(v, 2, Middle(), Put(1.0, 3));
    Lookup.ProbeFindsNewest(Spanning().entries, 1.0, 3);
  }

  /** The guard of Snapshots.StepKeeps rules out exactly the step that goes wrong in each case. */
  lemma GuardRulesThemOut()
    ensures !Guard(SplitKeyDB(), AStart(1, [Top()], [Left()]))
    ensures !Guard(GapSwitched(), AFlush(2, 1))
    ensures Guard(GapDB(), AStart(1, [First(), Last()], []))
  {
    hide TwoLevels;
    TwoLevelFiles([Top()], [Left(), Right()]);
    TwoLevelFiles([First(), Last()], []);
    assert Left() in [Left()] && IsLargestKey([Left()], Left().largest);
    assert Right() in [Left(), Right()] && IsBoundary(Right(), Left().largest);
    assert AsSet([First(), Last()]) == {First(), Last()} && First() in {First(), Last()} && Last() in {First(), Last()};
    assert MakeFile(3, 1, [Put(1.0, 3)]) == Middle() && !Beside(Middle(), {First(), Last()} + {});
  }
}
