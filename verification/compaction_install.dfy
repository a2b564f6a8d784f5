/** From the inputs SetupOtherInputs chose and the tables the compaction loop wrote to the
    conditions under which installing them is safe. */
module CompactionInstall {
  import opened DbFormat
  import opened Versions
  import opened CompactionInputs
  import opened Tree
  import Loop = CompactionLoop
  import Sequences

  // ---------------------------------------------------------------- the inputs

  lemma RunRestIsNewer(files: seq<File>, lo: int, hi: int, k: int, j: int)
    requires FilesOk(files) && SortedDisjoint(files) && 0 <= lo < hi <= |files|
    requires NoBoundary(files, files[hi - 1].largest)
    requires 0 <= k < |files| && !(lo <= k < hi) && lo <= j < hi
    ensures NewerThan(files[k], files[j])
  {
    var g, f, last := files[k], files[j], files[hi - 1];
    assert g in files && f in files && last in files;
    FileBoundsOrdered(last);
    if k >= hi {
      assert Precedes(last.largest, g.smallest) && !IsBoundary(g, last.largest);
      if j < hi - 1 { assert Precedes(f.largest, last.smallest); }
      assert f.largest.user < g.smallest.user;
    }
    forall x, y | x in g.entries && y in f.entries && x.key.user == y.key.user
      ensures x.key.sequence > y.key.sequence
    {
      FileBounds(g, x);
      FileBounds(f, y);
      assert Precedes(g.largest, f.smallest);
    }
  }

  lemma OverlapRestIsNewer(files: seq<File>, r: Range, inputs: seq<File>, g: File, f: File)
    requires FilesOk(files) && inputs == InRange(files, r) && AllWithin(inputs, r)
    requires g in files && g !in inputs && f in inputs
    ensures NewerThan(g, f)
  {
    InRangeHas(files, r, g);
    InRangeHas(files, r, f);
    forall x, y | x in g.entries && y in f.entries ensures x.key.user != y.key.user {
      FileBounds(g, x);
      FileBounds(f, y);
    }
  }

  lemma ClosedRunRestIsNewer(files: seq<File>, in0: seq<File>, g: File, f: File)
    requires FilesOk(files) && SortedDisjoint(files) && IsClosedRun(files, in0)
    requires g in files && g !in in0 && f in in0
    ensures NewerThan(g, f)
  {
    var lo, hi :| 0 <= lo < hi <= |files| && in0 == files[lo..hi] && NoBoundary(files, files[hi - 1].largest);
    var k :| 0 <= k < |files| && files[k] == g;
    Sequences.NotInSlice(files, lo, hi, k);
    var j :| lo <= j < hi && files[j] == f;
    RunRestIsNewer(files, lo, hi, k, j);
  }

  /** Closed inputs leave only newer data of their user keys behind at their level. */
  lemma ClosedRestIsNewer(files: seq<File>, level: nat, in0: seq<File>, g: File, f: File)
    requires FilesOk(files) && (level > 0 ==> SortedDisjoint(files)) && Closed(files, level, in0)
    requires g in files && g !in in0 && f in in0
    ensures NewerThan(g, f)
  {
    if level == 0 {
      var r: Range :| in0 == InRange(files, r) && AllWithin(in0, r);
      OverlapRestIsNewer(files, r, in0, g, f);
    } else {
      ClosedRunRestIsNewer(files, in0, g, f);
    }
  }

  lemma InputsAreSafe(v: Version, level: nat, in0: seq<File>, in1: seq<File>)
    requires TreeOk(v) && level + 1 < NUM_LEVELS
    requires InputsOk(v.files[level], v.files[level + 1], level, in0, in1)
    ensures IsInputOf(v, level, AsSet(in0), AsSet(in1)) && RestIsNewer(v, level, AsSet(in0))
  {
    var r: Range :| IsUserRange(in0, r) && in1 == InRange(v.files[level + 1], r);
    forall f | f in in0 ensures f in v.files[level] {
      ClosedIsSelection(v.files[level], level, in0, f);
    }
    forall f | f in in1 ensures f in v.files[level + 1] {
      InRangeHas(v.files[level + 1], r, f);
    }
    forall g, f | g in v.files[level] && g !in in0 && f in in0 ensures NewerThan(g, f) {
      ClosedRestIsNewer(v.files[level], level, in0, g, f);
    }
  }

  /** Every one of the files lies on the same side of `g`. */
  ghost predicate Beside(g: File, inputs: set<File>) {
    || (forall f :: f in inputs ==> Precedes(f.largest, g.smallest))
    || (forall f :: f in inputs ==> Precedes(g.largest, f.smallest))
  }

  /** No file of level+1 that is not an input lies between the inputs. */
  ghost predicate RestBeside(v: Version, level: nat, in0: set<File>, in1: set<File>) {
    level + 1 < |v.files| && forall g :: g in v.files[level + 1] && g !in in1 ==> Beside(g, in0 + in1)
  }

  /** A level+1 file outside the range of the level inputs has each input on the side of the range. */
  lemma RestBesideInput(next: seq<File>, in0: seq<File>, r: Range, g: File, f: File)
    requires FilesOk(next) && SortedDisjoint(next) && FilesOk(in0) && IsUserRange(in0, r)
    requires g in next && g !in InRange(next, r)
    requires f in in0 || f in InRange(next, r)
    ensures r.end.value < g.smallest.user ==> Precedes(f.largest, g.smallest)
    ensures g.largest.user < r.begin.value ==> Precedes(g.largest, f.smallest)
    ensures r.end.value < g.smallest.user || g.largest.user < r.begin.value
  {
    InRangeHas(next, r, g);
    InRangeHas(next, r, f);
    if f in InRange(next, r) {
      SortedIsPairwise(next);
      assert Disjoint(f, g);
      FileBoundsOrdered(g);
      FileBoundsOrdered(f);
    } else {
      RangeHoldsItsFiles2(in0, r, f);
    }
  }

  lemma RangeHoldsItsFiles2(files: seq<File>, r: Range, f: File)
    requires FileOk(f) && IsUserRange(files, r) && f in files
    ensures Within(f, r)
  {
    FileBoundsOrdered(f);
    RangeHoldsItsFiles(files, r, f);
  }

  lemma RestFileBeside(next: seq<File>, in0: seq<File>, r: Range, g: File)
    requires FilesOk(next) && SortedDisjoint(next) && FilesOk(in0) && IsUserRange(in0, r)
    requires g in next && g !in InRange(next, r)
    ensures Beside(g, AsSet(in0) + AsSet(InRange(next, r)))
  {
    assert r.begin.Some? && r.end.Some?;
    hide FilesOk, SortedDisjoint, IsUserRange, InRange, Precedes;
    InRangeHas(next, r, g);
    forall f | f in AsSet(in0) + AsSet(InRange(next, r))
      ensures r.end.value < g.smallest.user ==> Precedes(f.largest, g.smallest)
      ensures g.largest.user < r.begin.value ==> Precedes(g.largest, f.smallest)
    {
      RestBesideInput(next, in0, r, g, f);
    }
  }

  /** The inputs SetupOtherInputs chooses leave no level+1 file between them. */
  lemma ChosenInputsLeaveRestBeside(v: Version, level: nat, in0: seq<File>, in1: seq<File>)
    requires TreeOk(v) && level + 1 < NUM_LEVELS
    requires InputsOk(v.files[level], v.files[level + 1], level, in0, in1)
    ensures RestBeside(v, level, AsSet(in0), AsSet(in1))
  {
    hide FileOk, IsUserRange, Closed;
    var next := v.files[level + 1];
    var r: Range :| IsUserRange(in0, r) && in1 == InRange(next, r);
    forall f | f in in0 ensures FileOk(f) {
      ClosedIsSelection(v.files[level], level, in0, f);
    }
    assert FilesOk(in0) && FilesOk(next) && SortedDisjoint(next);
    hide TreeOk, Beside, FilesOk, SortedDisjoint;
    forall g | g in next && g !in in1 ensures Beside(g, AsSet(in0) + AsSet(in1)) {
      RestFileBeside(next, in0, r, g);
    }
  }

  /** An entry of an input lies on one side of a file that no input overlaps. */
  lemma EntryBeside(g: File, f: File, e: Entry)
    requires FileOk(f) && e in f.entries && Disjoint(g, f)
    ensures Precedes(e.key, g.smallest) || Precedes(g.largest, e.key)
  {
    FileBounds(f, e);
  }

  /** A table made of input entries does not span a file that has all inputs on one side. */
  lemma OutputBeside(g: File, inputs: set<File>, o: File)
    requires (forall f :: f in inputs ==> FileOk(f)) && FileOk(o) && MadeOf(o, inputs) && Beside(g, inputs)
    ensures Disjoint(g, o)
  {
    var first, last := o.entries[0], o.entries[|o.entries| - 1];
    assert first in o.entries && last in o.entries;
    var f :| f in inputs && first in f.entries;
    var h :| h in inputs && last in h.entries;
    FileBounds(f, first);
    FileBounds(h, last);
  }

  /** As long as no level+1 file lies between the inputs, no output spans a file that stays. */
  lemma NothingBetweenNoStraddle(v: Version, level: nat, in0: set<File>, in1: set<File>, outs: set<File>)
    requires TreeOk(v) && IsInputOf(v, level, in0, in1) && RestBeside(v, level, in0, in1)
    requires forall o :: o in outs ==> FileOk(o) && MadeOf(o, in0 + in1)
    ensures NoStraddle(v, level, in1, outs)
  {
    forall g, o | g in v.files[level + 1] && g !in in1 && o in outs ensures Disjoint(g, o) {
      OutputBeside(g, in0 + in1, o);
    }
  }

  // ---------------------------------------------------------------- the outputs

  function MakeFile(number: nat, size: nat, entries: seq<Entry>): File
    requires entries != []
  {
    File(number, size, entries[0].key, entries[|entries| - 1].key, entries)
  }

  /** The tables of a compaction under consecutive file numbers. */
  function OutputFiles(outputs: seq<seq<Entry>>, first: nat, size: seq<Entry> -> nat): (files: seq<File>)
    requires forall o :: o in outputs ==> o != []
    ensures |files| == |outputs|
  {
    seq(|outputs|, k requires 0 <= k < |outputs| => OutputFile(outputs, first, size, k))
  }

  function OutputFile(outputs: seq<seq<Entry>>, first: nat, size: seq<Entry> -> nat, k: nat): File
    requires k < |outputs| && forall o :: o in outputs ==> o != []
  {
    assert outputs[k] in outputs;
    MakeFile(first + k, size(outputs[k]), outputs[k])
  }

  lemma SortedParts(a: seq<Entry>, b: seq<Entry>)
    requires Sorted(a + b)
    ensures Sorted(a) && Sorted(b)
    ensures forall x, y :: x in a && y in b ==> Precedes(x.key, y.key)
  {
    forall i, j | 0 <= i < j < |a| ensures Precedes(a[i].key, a[j].key) {
      assert (a + b)[i] == a[i] && (a + b)[j] == a[j];
    }
    forall i, j | 0 <= i < j < |b| ensures Precedes(b[i].key, b[j].key) {
      assert (a + b)[|a| + i] == b[i] && (a + b)[|a| + j] == b[j];
    }
    forall x, y | x in a && y in b ensures Precedes(x.key, y.key) {
      var i :| 0 <= i < |a| && a[i] == x;
      var j :| 0 <= j < |b| && b[j] == y;
      assert (a + b)[i] == x && (a + b)[|a| + j] == y;
    }
  }

  /** Well-formed, disjoint, differently numbered files. */
  ghost predicate IsCut(files: seq<File>, first: nat) {
    && (forall f :: f in files ==> FileOk(f) && first <= f.number < first + |files|)
    && (forall f, g :: f in files && g in files && f != g ==> Disjoint(f, g) && f.number != g.number)
  }

  lemma FileEntriesSnoc(files: seq<File>, last: File)
    ensures FileEntries(files + [last]) == FileEntries(files) + Elements(last.entries)
  {
    forall e | e in Elements(last.entries) ensures e in FileEntries(files + [last]) {
      assert last in files + [last];
    }
  }

  lemma CutSnoc(files: seq<File>, first: nat, size: nat, more: seq<Entry>)
    requires IsCut(files, first) && more != [] && Sorted(more)
    requires forall x, y :: x in FileEntries(files) && y in more ==> Precedes(x.key, y.key)
    ensures IsCut(files + [MakeFile(first + |files|, size, more)], first)
  {
    var last := MakeFile(first + |files|, size, more);
    forall f | f in files ensures Disjoint(f, last) {
      assert f.entries[|f.entries| - 1] in f.entries;
      assert f.entries[|f.entries| - 1] in FileEntries(files);
    }
  }

  lemma ElementsConcat(a: seq<Entry>, b: seq<Entry>)
    ensures Elements(a + b) == Elements(a) + Elements(b)
  {
  }

  lemma CutOneMore(files: seq<File>, run: seq<Entry>, first: nat, size: nat, more: seq<Entry>)
    requires IsCut(files, first) && FileEntries(files) == Elements(run)
    requires more != [] && Sorted(run + more)
    ensures IsCut(files + [MakeFile(first + |files|, size, more)], first)
    ensures FileEntries(files + [MakeFile(first + |files|, size, more)]) == Elements(run + more)
  {
    SortedParts(run, more);
    CutSnoc(files, first, size, more);
    FileEntriesSnoc(files, MakeFile(first + |files|, size, more));
    ElementsConcat(run, more);
  }

  lemma NoTablesNoEntries(first: nat)
    ensures IsCut([], first) && FileEntries([]) == Elements([])
  {
    assert FileEntries([]) == {} == Elements([]);
  }

  lemma OutputFilesSnoc(outputs: seq<seq<Entry>>, first: nat, size: seq<Entry> -> nat, before: seq<seq<Entry>>,
                        last: seq<Entry>)
    requires forall o :: o in outputs ==> o != []
    requires outputs == before + [last]
    ensures forall o :: o in before ==> o != []
    ensures last != []
    ensures OutputFiles(outputs, first, size) ==
            OutputFiles(before, first, size) + [MakeFile(first + |before|, size(last), last)]
  {
    assert forall o :: o in before ==> o in outputs;
    assert outputs[|before|] in outputs;
    var files, some := OutputFiles(outputs, first, size), OutputFiles(before, first, size);
    forall k | 0 <= k < |before| ensures files[k] == some[k] {
      assert outputs[k] == before[k];
    }
    assert files == some + [files[|before|]];
  }

  /** Cutting a sorted run into tables: the files are well formed and hold exactly the run. */
  lemma {:induction false} OutputFilesOk(outputs: seq<seq<Entry>>, first: nat, size: seq<Entry> -> nat)
    requires forall o :: o in outputs ==> o != []
    requires Sorted(Sequences.Flatten(outputs))
    ensures IsCut(OutputFiles(outputs, first, size), first)
    ensures FileEntries(OutputFiles(outputs, first, size)) == Elements(Sequences.Flatten(outputs))
  {
    hide Sorted, IsCut, FileEntries, Elements;
    if outputs == [] {
      NoTablesNoEntries(first);
    } else {
      var n := |outputs| - 1;
      var before, last := outputs[..n], outputs[n];
      OutputFilesSnoc(outputs, first, size, before, last);
      var run := Sequences.Flatten(before);
      assert Sequences.Flatten(outputs) == run + last;
      hide Sequences.Flatten, OutputFiles, MakeFile;
      SortedParts(run, last);
      OutputFilesOk(before, first, size);
      CutOneMore(OutputFiles(before, first, size), run, first, size(last), last);
    }
  }

  /** Dropping entries keeps the order. */
  lemma {:induction false} KeptSorted(input: seq<Entry>, n: nat, smallestSnapshot: SequenceNumber,
                                      files: seq<seq<File>>, level: nat)
    requires Sorted(input) && n <= |input|
    ensures var kept := Loop.Kept(input, n, smallestSnapshot, files, level);
            Sorted(kept) && (forall e :: e in kept ==> e in input[..n])
  {
    if n > 0 {
      KeptSorted(input, n - 1, smallestSnapshot, files, level);
      var before := Loop.Kept(input, n - 1, smallestSnapshot, files, level);
      forall e | e in before ensures Precedes(e.key, input[n - 1].key) {
        var i :| 0 <= i < n - 1 && input[i] == e;
      }
    }
  }

  /** The files a finished compaction installs are acceptable outputs. */
  lemma LoopOutputsOk(v: Version, level: nat, in0: set<File>, in1: set<File>, input: seq<Entry>,
                      outputs: seq<seq<Entry>>,
                      first: nat, size: seq<Entry> -> nat)
    requires |v.files| == NUM_LEVELS && (forall o :: o in outputs ==> o != [])
    requires Sorted(Sequences.Flatten(outputs)) && forall e :: e in Sequences.Flatten(outputs) ==> e in input
    requires forall e :: e in input ==> exists f :: f in in0 + in1 && e in f.entries
    requires forall l, g :: 0 <= l < NUM_LEVELS && g in v.files[l] ==> g.number < first
    ensures OutputsOk(v, level, in0, in1, AsSet(OutputFiles(outputs, first, size)))
  {
    OutputFilesOk(outputs, first, size);
    var files := OutputFiles(outputs, first, size);
    forall o, e | o in files && e in o.entries ensures exists f :: f in in0 + in1 && e in f.entries {
      assert e in FileEntries(files);
    }
  }
}
