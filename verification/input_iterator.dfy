/** The input of a compaction: level-zero tables one by one, every other level as one run of tables,
    merged (VersionSet::MakeInputIterator, Version::LevelFileNumIterator). */
module InputIterator {
  import opened DbFormat
  import opened Versions
  import opened CompactionInputs
  import opened Database
  import opened Cursors
  import opened Merging
  import Loop = CompactionLoop
  import CutRule
  import Sequences
  import TwoLevel

  // ---------------------------------------------------------------- one level as one run

  /** LevelFileNumIterator over the files of a level: each is found by its largest key. */
  function LevelIndex(files: seq<File>): TwoLevel.Table {
    TwoLevel.Table(seq(|files|, i requires 0 <= i < |files| => TwoLevel.IndexEntry(files[i].largest, i)), Tables(files))
  }

  function Tables(files: seq<File>): seq<seq<Entry>> {
    seq(|files|, i requires 0 <= i < |files| => files[i].entries)
  }

  lemma SortedAscends(entries: seq<Entry>)
    requires Sorted(entries)
    ensures Ascending(entries)
  {
    forall i, j | 0 <= i < j < |entries| ensures Less(entries[i].key, entries[j].key) {
      assert Precedes(entries[i].key, entries[j].key);
    }
  }

  /** The files of a sorted level are a well-formed two-level table. */
  lemma LevelIndexOk(files: seq<File>)
    requires FilesOk(files) && SortedDisjoint(files)
    ensures TwoLevel.TableOk(LevelIndex(files))
  {
    var t := LevelIndex(files);
    forall i | 0 <= i < |files| ensures TwoLevel.BlockBelow(t, i) {
      assert files[i] in files;
      SortedAscends(files[i].entries);
      forall e | e in files[i].entries ensures !Less(files[i].largest, e.key) {
        FileBounds(files[i], e);
      }
    }
    forall i, j | 0 <= i < j < |files| ensures TwoLevel.BlockAbove(t, i, j) {
      NextFileAbove(files, i, j);
    }
  }

  lemma NextFileAbove(files: seq<File>, i: int, j: int)
    requires FilesOk(files) && SortedDisjoint(files) && 0 <= i < j < |files|
    ensures Less(files[i].largest, files[j].largest)
    ensures forall e :: e in files[j].entries ==> Less(files[i].largest, e.key)
  {
    FileBoundsOrdered(files[j]);
    CompareIsTotalOrder(files[i].largest, files[j].smallest, files[j].largest);
    forall e | e in files[j].entries ensures Less(files[i].largest, e.key) {
      FileBounds(files[j], e);
      CompareIsTotalOrder(files[i].largest, files[j].smallest, e.key);
    }
  }

  lemma {:induction false} LevelIndexHas(files: seq<File>, n: nat, e: Entry)
    requires n <= |files|
    ensures e in TwoLevel.Flat(LevelIndex(files), n) <==> exists i :: 0 <= i < n && e in files[i].entries
  {
    if n > 0 {
      LevelIndexHas(files, n - 1, e);
      assert TwoLevel.Block(LevelIndex(files), n - 1) == files[n - 1].entries;
    }
  }

  // ---------------------------------------------------------------- the children

  /** The children MakeInputIterator merges. */
  function Children(level: nat, in0: seq<File>, in1: seq<File>): seq<seq<Entry>> {
    (if level == 0 then Tables(in0) else LevelChild(in0)) + LevelChild(in1)
  }

  function LevelChild(files: seq<File>): seq<seq<Entry>> {
    if files == [] then [] else [TwoLevel.All(LevelIndex(files))]
  }

  lemma ChildrenHas(level: nat, in0: seq<File>, in1: seq<File>, e: Entry)
    ensures e in MergeAll(Children(level, in0, in1)) <==> exists f :: f in AsSet(in0) + AsSet(in1) && e in f.entries
  {
    var children := Children(level, in0, in1);
    MergeAllHas(children, e);
    LevelChildHas(in1, e);
    if level == 0 { TablesHas(in0, e); } else { LevelChildHas(in0, e); }
    var first := if level == 0 then Tables(in0) else LevelChild(in0);
    InBoth(first, LevelChild(in1), e);
  }

  ghost predicate HasEntry(parts: seq<seq<Entry>>, e: Entry) {
    exists c :: 0 <= c < |parts| && e in parts[c]
  }

  lemma InBoth(a: seq<seq<Entry>>, b: seq<seq<Entry>>, e: Entry)
    ensures HasEntry(a + b, e) <==> HasEntry(a, e) || HasEntry(b, e)
  {
    if c :| 0 <= c < |a| && e in a[c] { assert (a + b)[c] == a[c]; }
    if c :| 0 <= c < |b| && e in b[c] { assert (a + b)[|a| + c] == b[c]; }
  }

  lemma TablesHas(files: seq<File>, e: Entry)
    ensures HasEntry(Tables(files), e) <==> exists f :: f in files && e in f.entries
  {
    if i :| 0 <= i < |files| && e in Tables(files)[i] { assert files[i] in files && e in files[i].entries; }
    if f :| f in files && e in f.entries {
      var i :| 0 <= i < |files| && files[i] == f;
      assert e in Tables(files)[i];
    }
  }

  lemma LevelChildHas(files: seq<File>, e: Entry)
    ensures HasEntry(LevelChild(files), e) <==> exists f :: f in files && e in f.entries
  {
    LevelIndexHas(files, |files|, e);
    if f :| f in files && e in f.entries {
      var i :| 0 <= i < |files| && files[i] == f;
      assert LevelChild(files)[0] == TwoLevel.All(LevelIndex(files));
    }
  }

  // ---------------------------------------------------------------- the children are apart

  /** The input files lie at level and level+1 of a version, each list sorted as its level is. */
  ghost predicate AreInputs(v: Version, level: nat, in0: seq<File>, in1: seq<File>) {
    && level + 1 < NUM_LEVELS == |v.files|
    && (forall f :: f in in0 ==> f in v.files[level])
    && (forall f :: f in in1 ==> f in v.files[level + 1])
    && Ordered(in0)
    && (level > 0 ==> SortedDisjoint(in0))
    && SortedDisjoint(in1)
  }

  lemma SubrunKeepsOrder(files: seq<File>, lo: int, hi: int)
    requires Ordered(files) && 0 <= lo <= hi <= |files|
    ensures Ordered(files[lo..hi])
    ensures SortedDisjoint(files) ==> SortedDisjoint(files[lo..hi])
  {
    var run := files[lo..hi];
    forall i, j | 0 <= i < j < |run| ensures BySmallest(run[i], run[j]) {
      assert run[i] == files[lo + i] && run[j] == files[lo + j];
    }
    if SortedDisjoint(files) {
      forall i, j | 0 <= i < j < |run| ensures Precedes(run[i].largest, run[j].smallest) {
        assert run[i] == files[lo + i] && run[j] == files[lo + j];
      }
    }
  }

  lemma {:induction false} InRangeOrdered(files: seq<File>, r: Range)
    requires Ordered(files)
    ensures Ordered(InRange(files, r))
  {
    if files != [] {
      var n := |files| - 1;
      SubrunKeepsOrder(files, 0, n);
      InRangeOrdered(files[..n], r);
      forall f | f in InRange(files[..n], r) ensures BySmallest(f, files[n]) {
        InRangeHas(files[..n], r, f);
        var i :| 0 <= i < n && files[i] == f;
      }
    }
  }

  lemma ClosedIsOrdered(files: seq<File>, level: nat, in0: seq<File>)
    requires Ordered(files) && (level > 0 ==> SortedDisjoint(files)) && Closed(files, level, in0)
    ensures Ordered(in0) && (level > 0 ==> SortedDisjoint(in0))
  {
    if level == 0 {
      var r: Range :| in0 == InRange(files, r) && AllWithin(in0, r);
      InRangeOrdered(files, r);
    } else {
      var lo, hi :| 0 <= lo < hi <= |files| && in0 == files[lo..hi] && NoBoundary(files, files[hi - 1].largest);
      SubrunKeepsOrder(files, lo, hi);
    }
  }

  lemma OverlapIsOrdered(next: seq<File>, r: Range)
    requires FilesOk(next) && Ordered(next) && SortedDisjoint(next)
    ensures SortedDisjoint(InRange(next, r))
  {
    FilesHaveRanges(next);
    var lo, hi := InRangeIsRun(next, r, |next|);
    assert next[..|next|] == next;
    SubrunKeepsOrder(next, lo, hi);
  }

  lemma ChosenAreInputs(v: Version, level: nat, in0: seq<File>, in1: seq<File>)
    requires TreeOk(v) && level + 1 < NUM_LEVELS
    requires InputsOk(v.files[level], v.files[level + 1], level, in0, in1)
    ensures AreInputs(v, level, in0, in1)
  {
    hide Closed, IsUserRange, LevelsAge, NumbersDistinct, NewestFileFirst, FileOk, InRange;
    var r: Range :| IsUserRange(in0, r) && in1 == InRange(v.files[level + 1], r);
    ClosedIsOrdered(v.files[level], level, in0);
    OverlapIsOrdered(v.files[level + 1], r);
    forall f | f in in0 ensures f in v.files[level] {
      ClosedIsSelection(v.files[level], level, in0, f);
    }
    forall f | f in in1 ensures f in v.files[level + 1] {
      InRangeHas(v.files[level + 1], r, f);
    }
  }

  /** Where an entry of a child comes from: level-zero children are single tables. */
  lemma ChildSource(level: nat, in0: seq<File>, in1: seq<File>, c: int, e: Entry) returns (which: int, i: int)
    requires 0 <= c < |Children(level, in0, in1)| && e in Children(level, in0, in1)[c]
    ensures which == 0 || which == 1
    ensures var files := if which == 0 then in0 else in1; 0 <= i < |files| && e in files[i].entries
    ensures level == 0 && which == 0 ==> i == c
    ensures which == 1 ==> c == |Children(level, in0, in1)| - 1 && in1 != []
    ensures which == 0 && level > 0 ==> c == 0 && in0 != []
    ensures which == 0 ==> c < |Children(level, in0, [])|
  {
    var n := |Children(level, in0, [])|;
    if c < n {
      which := 0;
      if level == 0 {
        i := c;
      } else {
        LevelIndexHas(in0, |in0|, e);
        i :| 0 <= i < |in0| && e in in0[i].entries;
      }
    } else {
      which := 1;
      LevelIndexHas(in1, |in1|, e);
      i :| 0 <= i < |in1| && e in in1[i].entries;
    }
  }

  /** Different children hold different keys. */
  lemma ChildrenApart(v: Version, level: nat, in0: seq<File>, in1: seq<File>, c: int, d: int)
    requires TreeOk(v) && AreInputs(v, level, in0, in1) && c != d
    ensures KeysApart(Children(level, in0, in1), c, d)
  {
    var children := Children(level, in0, in1);
    forall i, j | In(children, c, i) && In(children, d, j) ensures children[c][i].key != children[d][j].key {
      var a, b := children[c][i], children[d][j];
      if a.key == b.key {
        var wa, ia := ChildSource(level, in0, in1, c, a);
        var wb, ib := ChildSource(level, in0, in1, d, b);
        SourcesDiffer(v, level, in0, in1, wa, ia, a, wb, ib, b);
      }
    }
  }

  lemma ListedOnce(files: seq<File>, i: int, j: int)
    requires Ordered(files) && 0 <= i < |files| && 0 <= j < |files| && files[i] == files[j]
    ensures i == j
  {
  }

  /** Entries with one key come from the same place. */
  lemma SourcesDiffer(v: Version, level: nat, in0: seq<File>, in1: seq<File>, wa: int, ia: int, a: Entry, wb: int,
                      ib: int, b: Entry)
    requires TreeOk(v) && AreInputs(v, level, in0, in1) && a.key == b.key
    requires wa in {0, 1} && 0 <= ia < |if wa == 0 then in0 else in1| && a in (if wa == 0 then in0 else in1)[ia].entries
    requires wb in {0, 1} && 0 <= ib < |if wb == 0 then in0 else in1| && b in (if wb == 0 then in0 else in1)[ib].entries
    ensures wa == wb
    ensures wa == 0 ==> ia == ib
  {
    hide LevelsAge, NewestFileFirst, FileOk, FilesOk, Ordered, SortedDisjoint;
    var f, g := (if wa == 0 then in0 else in1)[ia], (if wb == 0 then in0 else in1)[ib];
    assert f in (if wa == 0 then in0 else in1) && g in if wb == 0 then in0 else in1;
    assert f in v.files[level + wa] && g in v.files[level + wb];
    SameFile(v, level + wa, f, a, level + wb, g, b);
    if wa == 0 && wb == 0 {
      ListedOnce(in0, ia, ib);
    }
  }

  lemma ChildrenAreOk(v: Version, level: nat, in0: seq<File>, in1: seq<File>)
    requires TreeOk(v) && AreInputs(v, level, in0, in1)
    ensures ChildrenOk(Children(level, in0, in1))
  {
    var children := Children(level, in0, in1);
    forall c ensures ChildSorted(children, c) {
      if 0 <= c < |children| { ChildAscends(v, level, in0, in1, c); }
    }
    forall c, d | c != d ensures KeysApart(children, c, d) {
      ChildrenApart(v, level, in0, in1, c, d);
    }
  }

  lemma ChildAscends(v: Version, level: nat, in0: seq<File>, in1: seq<File>, c: int)
    requires TreeOk(v) && AreInputs(v, level, in0, in1) && 0 <= c < |Children(level, in0, in1)|
    ensures Ascending(Children(level, in0, in1)[c])
  {
    hide LevelsAge, NewestFileFirst, NumbersDistinct;
    if level == 0 && c < |in0| {
      assert in0[c] in v.files[0];
      SortedAscends(in0[c].entries);
    } else if c == 0 && in0 != [] {
      RunAscends(v.files[level], in0);
    } else {
      RunAscends(v.files[level + 1], in1);
    }
  }

  lemma RunAscends(level: seq<File>, files: seq<File>)
    requires FilesOk(level) && SortedDisjoint(files) && forall f :: f in files ==> f in level
    ensures Ascending(TwoLevel.All(LevelIndex(files)))
  {
    LevelIndexOk(files);
    TwoLevel.FlatAscends(LevelIndex(files), |files|);
  }

  /** The merged children are the merged input of the compaction. */
  lemma ChildrenMerge(v: Version, level: nat, in0: seq<File>, in1: seq<File>)
    requires TreeOk(v) && level + 1 < NUM_LEVELS
    requires InputsOk(v.files[level], v.files[level + 1], level, in0, in1)
    ensures ChildrenOk(Children(level, in0, in1))
    ensures IsMerged(AsSet(in0) + AsSet(in1), MergeAll(Children(level, in0, in1)))
  {
    hide TreeOk, InputsOk, ChildrenOk, Children, MergeAll, AreInputs;
    ChosenAreInputs(v, level, in0, in1);
    ChildrenAreOk(v, level, in0, in1);
    var merged := MergeAll(Children(level, in0, in1));
    MergeAllAscends(Children(level, in0, in1));
    forall e ensures e in merged <==> exists f :: f in AsSet(in0) + AsSet(in1) && e in f.entries {
      ChildrenHas(level, in0, in1, e);
    }
    MergedSequencesDiffer(v, level, in0, in1, merged);
  }

  lemma MergedSequencesDiffer(v: Version, level: nat, in0: seq<File>, in1: seq<File>, merged: seq<Entry>)
    requires TreeOk(v) && AreInputs(v, level, in0, in1) && Ascending(merged)
    requires forall e :: e in merged ==> exists f :: f in AsSet(in0) + AsSet(in1) && e in f.entries
    ensures Sorted(merged)
  {
    hide TreeOk;
    TreeCoherent(v);
    forall e | e in merged ensures e in Entries(v) {
      var f :| f in AsSet(in0) + AsSet(in1) && e in f.entries;
      InEntries(v, if f in in0 then level else level + 1, f, e);
    }
    forall i, j | 0 <= i < j < |merged| ensures Precedes(merged[i].key, merged[j].key) {
      assert merged[i] in Entries(v) && merged[j] in Entries(v) && Less(merged[i].key, merged[j].key);
    }
  }

  // ---------------------------------------------------------------- reading the input

  /** MakeInputIterator. */
  method MakeInputIterator(ghost v: Version, level: nat, in0: seq<File>, in1: seq<File>) returns (it: MergingIterator)
    requires TreeOk(v) && level + 1 < NUM_LEVELS
    requires InputsOk(v.files[level], v.files[level + 1], level, in0, in1)
    ensures fresh(it) && it.Valid() && it.children == Children(level, in0, in1)
    ensures IsMerged(AsSet(in0) + AsSet(in1), MergeAll(it.children))
  {
    hide InputsOk, TreeOk, ChildrenOk, MergeAll, IsMerged, MergingIterator.Valid;
    var list: seq<seq<Entry>> := [];
    for which := 0 to 2
      invariant list ==
                if which == 0 then []
                else if which == 1 then Children(level, in0, [])
                else Children(level, in0, in1)
    {
      var files := if which == 0 then in0 else in1;
      if files != [] {
        if level + which == 0 {
          for i := 0 to |files|
            invariant list == Tables(files[..i])
          {
            list := list + [files[i].entries];
          }
          assert files[..|files|] == files;
        } else {
          list := list + [TwoLevel.All(LevelIndex(files))];
        }
      }
    }
    ChildrenMerge(v, level, in0, in1);
    it := new MergingIterator(list);
  }

  /** Moving a cursor from the first to the last place reads the whole merge. */
  method ReadAll(it: MergingIterator) returns (input: seq<Entry>)
    requires it.Valid()
    modifies it
    ensures it.Valid() && input == MergeAll(it.children)
  {
    hide ChildrenOk, MergeAll, MergingIterator.Valid;
    ghost var all := MergeAll(it.children);
    input := [];
    it.SeekToFirst();
    while it.current.Some?
      invariant it.Valid() && all == MergeAll(it.children)
      invariant input == if it.Shown().Some? then all[..it.Shown().value] else all
      decreases |all| - |input|, it.current.Some?
    {
      var e := it.Current();
      input := input + [e];
      it.Next();
    }
  }

  /** DoCompactionWork from the chosen inputs to the tables: exactly what the Install step installs. */
  method CompactInputs(ghost v: Version, c: Loop.Compaction, in0: seq<File>, in1: seq<File>,
                       smallestSnapshot: SequenceNumber,
                       full: seq<Entry> -> bool)
    returns (ghost merged: seq<Entry>, outputs: seq<seq<Entry>>)
    requires TreeOk(v) && c.level + 1 < NUM_LEVELS && c.inputVersion == v.files
    requires InputsOk(v.files[c.level], v.files[c.level + 1], c.level, in0, in1)
    requires c.Valid() && c.Fresh() && smallestSnapshot < MAX_SEQUENCE
    modifies c
    ensures IsMerged(AsSet(in0) + AsSet(in1), merged) && (forall o :: o in outputs ==> o != [])
    ensures Sequences.Flatten(outputs) == Loop.Kept(merged, |merged|, smallestSnapshot, v.files, c.level)
    ensures CutRule.AreCut(c.CutsBy(full), merged, outputs)
  {
    hide InputsOk, TreeOk, ChildrenOk, MergeAll, MergingIterator.Valid, Loop.Compaction.Valid, Loop.Kept,
      Sequences.Flatten, CutRule.AreCut;
    var it := MakeInputIterator(v, c.level, in0, in1);
    var input := ReadAll(it);
    merged := input;
    outputs := Loop.DoCompactionWork(c, input, smallestSnapshot, full);
  }
}
