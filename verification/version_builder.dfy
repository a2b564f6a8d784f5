/** VersionSet::Builder and the replay of a manifest (db/version_set.cc). */
module VersionBuilder {
  import opened Coding
  import opened Manifest
  import opened VersionEdits
  import opened Wrappers

  // ---------------------------------------------------------------- an ordered set of files

  /** Insertion into a set ordered by FileLess. */
  function InsertFile(files: Level, f: FileMetaData): Level {
    if files == [] || FileLess(files[|files| - 1], f) then files + [f]
    else if FileLess(f, files[|files| - 1]) then InsertFile(files[..|files| - 1], f) + [files[|files| - 1]]
    else files
  }

  ghost predicate AllBefore(files: Level, f: FileMetaData) {
    forall g :: g in files ==> FileLess(g, f)
  }

  lemma SortedSnoc(files: Level, f: FileMetaData)
    requires SortedFiles(files) && AllBefore(files, f)
    ensures SortedFiles(files + [f])
  {
    forall i, j ensures InOrder(files + [f], i, j) {
      assert InOrder(files, i, j);
      if 0 <= i < |files| { assert files[i] in files; }
    }
  }

  lemma BeforeLast(files: Level, f: FileMetaData)
    requires SortedFiles(files) && files != [] && FileLess(files[|files| - 1], f)
    ensures AllBefore(files, f)
  {
    forall g | g in files ensures FileLess(g, f) {
      LastIsGreatest(files, g);
      if g != files[|files| - 1] { FileTransitive(g, files[|files| - 1], f); }
    }
  }

  /** Files that the order tells apart. */
  predicate Differ(f: FileMetaData, g: FileMetaData) {
    FileLess(f, g) || FileLess(g, f)
  }

  lemma ElementsAppend(files: Level, f: FileMetaData)
    ensures Elements(files + [f]) == Elements(files) + {f}
  {
  }

  /** A file of the same rank as one in the set does not get in. */
  lemma {:induction false} InsertKeepsSorted(files: Level, f: FileMetaData)
    requires SortedFiles(files)
    ensures SortedFiles(InsertFile(files, f)) &&
            Elements(files) <= Elements(InsertFile(files, f)) <= Elements(files) + {f}
    ensures (forall g :: g in Elements(files) ==> g == f || Differ(g, f)) ==>
              Elements(InsertFile(files, f)) == Elements(files) + {f}
  {
    hide FileLess, Elements;
    if files != [] {
      var n := |files| - 1;
      var front, last := files[..n], files[n];
      assert files == front + [last];
      ElementsAppend(front, last);
      if FileLess(last, f) {
        BeforeLast(files, f);
        SortedSnoc(files, f);
        ElementsAppend(files, f);
      } else if FileLess(f, last) {
        SortedPrefix(files, n);
        InsertKeepsSorted(front, f);
        InsertedBeforeLast(files, front, last, f);
        SortedSnoc(InsertFile(front, f), last);
        ElementsAppend(InsertFile(front, f), last);
      }
    } else {
      assert [] + [f] == [f];
      ElementsAppend([], f);
    }
  }

  lemma InsertedBeforeLast(files: Level, front: Level, last: FileMetaData, f: FileMetaData)
    requires SortedFiles(files) && files == front + [last] && FileLess(f, last)
    requires Elements(InsertFile(front, f)) <= Elements(front) + {f}
    ensures AllBefore(InsertFile(front, f), last)
  {
    hide FileLess, InsertFile;
    FrontBeforeLast(files, front, last);
    forall g | g in InsertFile(front, f) ensures FileLess(g, last) {
      assert g in Elements(InsertFile(front, f));
    }
  }

  lemma FrontBeforeLast(files: Level, front: Level, last: FileMetaData)
    requires SortedFiles(files) && files == front + [last]
    ensures AllBefore(front, last)
  {
    forall g | g in front ensures FileLess(g, last) {
      var i :| 0 <= i < |front| && front[i] == g;
      assert InOrder(files, i, |front|);
    }
  }

  // ---------------------------------------------------------------- prefixes of an edit

  ghost function FirstDeleted(e: Edit, i: nat): Edit
    requires i <= |e.deletedFiles|
  {
    e.(deletedFiles := e.deletedFiles[..i])
  }

  ghost function FirstAdded(e: Edit, i: nat): Edit
    requires i <= |e.newFiles|
  {
    e.(newFiles := e.newFiles[..i])
  }

  lemma DeletedSnoc(e: Edit, i: nat, level: nat)
    requires i < |e.deletedFiles|
    ensures DeletedAt(FirstDeleted(e, i + 1), level) ==
            DeletedAt(FirstDeleted(e, i), level) + if e.deletedFiles[i].0 == level then {e.deletedFiles[i].1} else {}
  {
    var a, b := FirstDeleted(e, i), FirstDeleted(e, i + 1);
    forall n ensures n in DeletedAt(b, level) <==> n in DeletedAt(a, level) || (e.deletedFiles[i] == (level, n)) {
      if n in DeletedAt(a, level) {
        var k :| 0 <= k < |a.deletedFiles| && a.deletedFiles[k].0 == level && a.deletedFiles[k].1 == n;
        assert b.deletedFiles[k].1 == n;
      }
      if e.deletedFiles[i] == (level, n) { assert b.deletedFiles[i].1 == n; }
      if n in DeletedAt(b, level) {
        var k :| 0 <= k < |b.deletedFiles| && b.deletedFiles[k].0 == level && b.deletedFiles[k].1 == n;
        if k < i { assert a.deletedFiles[k].1 == n; }
      }
    }
  }

  lemma AddedSnoc(e: Edit, i: nat, level: nat)
    requires i < |e.newFiles|
    ensures AddedAt(FirstAdded(e, i + 1), level) ==
            AddedAt(FirstAdded(e, i), level) + if e.newFiles[i].0 == level then {e.newFiles[i].1} else {}
  {
    var a, b := FirstAdded(e, i), FirstAdded(e, i + 1);
    forall f ensures f in AddedAt(b, level) <==> f in AddedAt(a, level) || e.newFiles[i] == (level, f) {
      if f in AddedAt(a, level) {
        var k :| 0 <= k < |a.newFiles| && a.newFiles[k].0 == level && a.newFiles[k].1 == f;
        assert b.newFiles[k].1 == f;
      }
      if e.newFiles[i] == (level, f) { assert b.newFiles[i].1 == f; }
      if f in AddedAt(b, level) {
        var k :| 0 <= k < |b.newFiles| && b.newFiles[k].0 == level && b.newFiles[k].1 == f;
        if k < i { assert a.newFiles[k].1 == f; }
      }
    }
  }

  lemma WholeEdit(e: Edit)
    ensures FirstDeleted(e, |e.deletedFiles|) == e && FirstAdded(e, |e.newFiles|) == e
  {
    assert e.deletedFiles[..|e.deletedFiles|] == e.deletedFiles && e.newFiles[..|e.newFiles|] == e.newFiles;
  }

  predicate LevelsOk(e: Edit) {
    && (forall i :: 0 <= i < |e.deletedFiles| ==> e.deletedFiles[i].0 < NUM_LEVELS)
    && (forall i :: 0 <= i < |e.newFiles| ==> e.newFiles[i].0 < NUM_LEVELS)
    && (forall i :: 0 <= i < |e.compactPointers| ==> e.compactPointers[i].0 < NUM_LEVELS)
  }

  // ---------------------------------------------------------------- merging

  lemma ElementsSnoc(files: Level, b: nat)
    requires b < |files|
    ensures Elements(files[..b + 1]) == Elements(files[..b]) + {files[b]}
  {
    assert files[..b + 1] == files[..b] + [files[b]];
  }

  lemma KeptUnion(a: set<FileMetaData>, b: set<FileMetaData>, deleted: set<nat>)
    ensures Kept(a + b, deleted) == Kept(a, deleted) + Kept(b, deleted)
  {
  }

  /** What is merged so far comes before what is next. */
  ghost predicate Front(files: Level, b: nat, more: Level, j: nat) {
    && b <= |files| && j <= |more|
    && (j > 0 && b < |files| ==> FileLess(more[j - 1], files[b]))
    && (b > 0 && j < |more| ==> FileLess(files[b - 1], more[j]))
  }

  ghost predicate Merged(out: Level, files: Level, b: nat, more: Level, j: nat, deleted: set<nat>) {
    && Front(files, b, more, j) && SortedFiles(out)
    && Elements(out) == Kept(Elements(files[..b]) + Elements(more[..j]), deleted)
  }

  lemma PartBefore(files: Level, b: nat, f: FileMetaData)
    requires SortedFiles(files) && b <= |files| && (b > 0 ==> FileLess(files[b - 1], f))
    ensures AllBefore(files[..b], f)
  {
    if b > 0 {
      SortedPrefix(files, b);
      BeforeLast(files[..b], f);
    }
  }

  lemma MergedBefore(out: Level, files: Level, b: nat, more: Level, j: nat, deleted: set<nat>, f: FileMetaData)
    requires Merged(out, files, b, more, j, deleted) && SortedFiles(files) && SortedFiles(more)
    requires (b > 0 ==> FileLess(files[b - 1], f)) && (j > 0 ==> FileLess(more[j - 1], f))
    ensures AllBefore(out, f)
  {
    PartBefore(files, b, f);
    PartBefore(more, j, f);
    forall g | g in out ensures FileLess(g, f) {
      assert g in Elements(out);
    }
  }

  lemma FrontOfFiles(files: Level, b: nat, more: Level, j: nat)
    requires SortedFiles(files) && Front(files, b, more, j) && b < |files| &&
             (j < |more| ==> FileLess(files[b], more[j]))
    ensures Front(files, b + 1, more, j)
  {
    assert InOrder(files, b, b + 1);
    if j > 0 && b + 1 < |files| { FileTransitive(more[j - 1], files[b], files[b + 1]); }
  }

  lemma FrontOfMore(files: Level, b: nat, more: Level, j: nat)
    requires SortedFiles(more) && Front(files, b, more, j) && j < |more| &&
             (b < |files| ==> FileLess(more[j], files[b]))
    ensures Front(files, b, more, j + 1)
  {
    assert InOrder(more, j, j + 1);
    if b > 0 && j + 1 < |more| { FileTransitive(files[b - 1], more[j], more[j + 1]); }
  }

  // ---------------------------------------------------------------- the builder

  /** The ordered set after these insertions. */
  function Inserted(files: Level, newFiles: seq<(nat, FileMetaData)>, level: nat): Level {
    if newFiles == [] then files
    else
      var n := |newFiles| - 1;
      var before := Inserted(files, newFiles[..n], level);
      if newFiles[n].0 == level then InsertFile(before, newFiles[n].1) else before
  }

  /** The files added to a level by all edits, as the builder keeps them. */
  function Listed(edits: seq<Edit>, level: nat): Level {
    if edits == [] then [] else Inserted(Listed(edits[..|edits| - 1], level), edits[|edits| - 1].newFiles, level)
  }

  /** No two files of the level have the same rank: neither an old and an added one, nor two added ones. */
  ghost predicate Apart(base: set<FileMetaData>, added: set<FileMetaData>) {
    && (forall f, g :: f in base && g in added ==> Differ(f, g))
    && forall f, g :: f in added && g in added ==> f == g || Differ(f, g)
  }

  lemma {:induction false} InsertedHolds(files: Level, e: Edit, n: nat, level: nat)
    requires SortedFiles(files) && n <= |e.newFiles|
    ensures var out, added :=
      Inserted(files, e.newFiles[..n], level), Elements(files) + AddedAt(FirstAdded(e, n), level);
            && SortedFiles(out) && Elements(out) <= added
            && (Apart({}, added) ==> Elements(out) == added)
    decreases n
  {
    hide InsertFile, FileLess;
    assert e.newFiles[..n] == FirstAdded(e, n).newFiles;
    if n == 0 {
      assert AddedAt(FirstAdded(e, 0), level) == {};
    } else {
      var f := e.newFiles[n - 1];
      assert e.newFiles[..n][..n - 1] == e.newFiles[..n - 1];
      InsertedHolds(files, e, n - 1, level);
      AddedSnoc(e, n - 1, level);
      InsertKeepsSorted(Inserted(files, e.newFiles[..n - 1], level), f.1);
    }
  }

  lemma {:induction false} ListedHolds(edits: seq<Edit>, level: nat)
    ensures SortedFiles(Listed(edits, level)) && Elements(Listed(edits, level)) <= GatherAll(edits, level).added
    ensures Apart({}, GatherAll(edits, level).added) ==> Elements(Listed(edits, level)) == GatherAll(edits, level).added
  {
    hide FileLess;
    if edits != [] {
      var n := |edits| - 1;
      ListedHolds(edits[..n], level);
      InsertedHolds(Listed(edits[..n], level), edits[n], |edits[n].newFiles|, level);
      WholeEdit(edits[n]);
    }
  }

  /** When every number is added at most once. */
  lemma {:induction false} OnceIsApart(base: set<FileMetaData>, edits: seq<Edit>, level: nat)
    requires AddedOnce(base, edits, level)
    ensures Apart(base, GatherAll(edits, level).added)
  {
    hide FileLess;
    if edits != [] {
      var n := |edits| - 1;
      var e, known := edits[n], GatherAll(edits[..n], level).added;
      OnceIsApart(base, edits[..n], level);
      forall f, g | f in base + known && g in AddedAt(e, level) ensures Differ(f, g) {
        assert f.number in Numbers(base + known) && g.number in Numbers(AddedAt(e, level));
        FileTotal(f, g);
      }
      forall f, g | f in AddedAt(e, level) && g in AddedAt(e, level) ensures f == g || Differ(f, g) {
        FileTotal(f, g);
      }
    }
  }

  /** The state of a level when the first i files of the edit are added. */
  ghost function Partly(g: Gathered, e: Edit, i: nat, level: nat): Gathered
    requires i <= |e.newFiles|
  {
    Gather(g, FirstAdded(e, i), level)
  }

  lemma PartlySnoc(g: Gathered, e: Edit, i: nat, level: nat)
    requires i < |e.newFiles|
    ensures Partly(g, e, i + 1, level) ==
            if e.newFiles[i].0 != level then Partly(g, e, i, level)
            else Gathered(Partly(g, e, i, level).deleted - {e.newFiles[i].1.number},
                          Partly(g, e, i, level).added + {e.newFiles[i].1})
  {
    AddedSnoc(e, i, level);
    var a, b := AddedAt(FirstAdded(e, i), level), AddedAt(FirstAdded(e, i + 1), level);
    assert Numbers(b) == Numbers(a) + if e.newFiles[i].0 == level then {e.newFiles[i].1.number} else {} by {
      var f := e.newFiles[i].1;
      forall n ensures n in Numbers(b) <==> n in Numbers(a) || (e.newFiles[i].0 == level && n == f.number) {
        if n in Numbers(a) {
          var x :| x in a && x.number == n;
          assert x in b;
        }
        if e.newFiles[i].0 == level { assert f in b; }
      }
    }
    assert DeletedAt(FirstAdded(e, i), level) == DeletedAt(FirstAdded(e, i + 1), level);
  }

  class Builder {
    const base: seq<Level>
    var deleted: seq<set<nat>>
    var added: seq<Level>
    ghost var edits: seq<Edit>

    ghost predicate LevelValid(level: int)
      reads this
    {
      0 <= level < NUM_LEVELS && |base| == |deleted| == |added| == NUM_LEVELS ==>
        SortedFiles(base[level]) && deleted[level] == GatherAll(edits, level).deleted &&
          added[level] == Listed(edits, level)
    }

    ghost predicate Valid()
      reads this
    {
      |base| == |deleted| == |added| == NUM_LEVELS && forall level :: LevelValid(level)
    }

    constructor (base: seq<Level>)
      requires |base| == NUM_LEVELS && forall level :: 0 <= level < NUM_LEVELS ==> SortedFiles(base[level])
      ensures Valid() && this.base == base && edits == []
    {
      this.base, deleted, added, edits := base, seq(NUM_LEVELS, _ => {}), seq(NUM_LEVELS, _ => []), [];
    }

    method Apply(e: Edit)
      requires Valid() && LevelsOk(e)
      modifies this
      ensures Valid() && edits == old(edits) + [e]
    {
      ghost var was := edits;
      forall level | 0 <= level < NUM_LEVELS
        ensures SortedFiles(base[level]) && deleted[level] == GatherAll(was, level).deleted &&
                added[level] == Listed(was, level)
      {
        assert LevelValid(level);
      }
      DeleteFiles(e);
      AddFiles(e);
      edits := was + [e];
      WholeEdit(e);
      forall level ensures LevelValid(level) {
        if 0 <= level < NUM_LEVELS {
          assert (was + [e])[..|was|] == was;
        }
      }
    }

    method DeleteFiles(e: Edit)
      requires Valid() && LevelsOk(e)
      modifies this`deleted
      ensures |deleted| == NUM_LEVELS
      ensures forall level :: 0 <= level < NUM_LEVELS ==> deleted[level] == old(deleted)[level] + DeletedAt(e, level)
    {
      for i := 0 to |e.deletedFiles|
        invariant |deleted| == NUM_LEVELS
        invariant forall l :: 0 <= l < NUM_LEVELS ==> deleted[l] == old(deleted)[l] + DeletedAt(FirstDeleted(e, i), l)
      {
        var level, number := e.deletedFiles[i].0, e.deletedFiles[i].1;
        forall l: nat
          ensures DeletedAt(FirstDeleted(e, i + 1), l) == DeletedAt(FirstDeleted(e, i), l) + if level ==
                  l then {number} else {}
        {
          DeletedSnoc(e, i, l);
        }
        deleted := deleted[level := deleted[level] + {number}];
      }
      WholeEdit(e);
    }

    method AddFiles(e: Edit)
      requires |base| == |deleted| == |added| == NUM_LEVELS && LevelsOk(e)
      requires forall l :: 0 <= l < NUM_LEVELS ==>
                 deleted[l] == GatherAll(edits, l).deleted + DeletedAt(e, l) && added[l] == Listed(edits, l)
      modifies this`deleted, this`added
      ensures |deleted| == |added| == NUM_LEVELS
      ensures forall l :: 0 <= l < NUM_LEVELS ==>
                deleted[l] == Gather(GatherAll(edits, l), e, l).deleted &&
                  added[l] == Inserted(Listed(edits, l), e.newFiles, l)
    {
      forall l: nat
        ensures Partly(GatherAll(edits, l), e, 0, l).deleted == GatherAll(edits, l).deleted + DeletedAt(e, l)
      {
        assert AddedAt(FirstAdded(e, 0), l) == {} && DeletedAt(FirstAdded(e, 0), l) == DeletedAt(e, l);
      }
      for i := 0 to |e.newFiles|
        invariant |deleted| == |added| == NUM_LEVELS
        invariant forall l :: 0 <= l < NUM_LEVELS ==> deleted[l] == Partly(GatherAll(edits, l), e, i, l).deleted
        invariant forall l :: 0 <= l < NUM_LEVELS ==> added[l] == Inserted(Listed(edits, l), e.newFiles[..i], l)
      {
        AddFile(e, i);
      }
      WholeEdit(e);
      assert e.newFiles[..|e.newFiles|] == e.newFiles;
    }

    method AddFile(e: Edit, i: nat)
      requires |base| == |deleted| == |added| == NUM_LEVELS && LevelsOk(e) && i < |e.newFiles|
      requires forall l :: 0 <= l < NUM_LEVELS ==> deleted[l] == Partly(GatherAll(edits, l), e, i, l).deleted
      requires forall l :: 0 <= l < NUM_LEVELS ==> added[l] == Inserted(Listed(edits, l), e.newFiles[..i], l)
      modifies this`deleted, this`added
      ensures |deleted| == |added| == NUM_LEVELS
      ensures forall l :: 0 <= l < NUM_LEVELS ==> deleted[l] == Partly(GatherAll(edits, l), e, i + 1, l).deleted
      ensures forall l :: 0 <= l < NUM_LEVELS ==> added[l] == Inserted(Listed(edits, l), e.newFiles[..i + 1], l)
    {
      hide InsertFile, Gather;
      var level, f := e.newFiles[i].0, e.newFiles[i].1;
      forall l: nat ensures Partly(GatherAll(edits, l), e, i + 1, l).deleted ==
                            Partly(GatherAll(edits, l), e, i, l).deleted - if level == l then {f.number} else {}
      {
        PartlySnoc(GatherAll(edits, l), e, i, l);
      }
      assert e.newFiles[..i + 1][..i] == e.newFiles[..i];
      deleted := deleted[level := deleted[level] - {f.number}];
      added := added[level := InsertFile(added[level], f)];
    }

    /** The first file from `from` on that comes after f. */
    method UpperBound(files: Level, from: nat, f: FileMetaData) returns (p: nat)
      requires from <= |files|
      ensures from <= p <= |files| && forall k :: from <= k < p ==> !FileLess(f, files[k])
      ensures p < |files| ==> FileLess(f, files[p])
    {
      p := from;
      while p < |files| && !FileLess(f, files[p])
        invariant from <= p <= |files| && forall k :: from <= k < p ==> !FileLess(f, files[k])
      {
        p := p + 1;
      }
    }

    method MaybeAddFile(out: Level, level: nat, f: FileMetaData) returns (r: Level)
      requires level < |deleted| && SortedFiles(out) && AllBefore(out, f)
      ensures SortedFiles(r) && Elements(r) == Elements(out) + Kept({f}, deleted[level])
    {
      if f.number in deleted[level] {
        return out;
      }
      SortedSnoc(out, f);
      r := out + [f];
      assert Elements(r) == Elements(out) + {f};
    }

    /** The old files up to place `to`. */
    method AddFilesUntil(level: nat, out: Level, files: Level, b: nat, to: nat, ghost more: Level, ghost j: nat)
      returns (r: Level)
      requires level < |deleted| && SortedFiles(files) && SortedFiles(more) && b <= to <= |files|
      requires Merged(out, files, b, more, j, deleted[level])
      requires forall k :: b <= k < to && j < |more| ==> FileLess(files[k], more[j])
      ensures Merged(r, files, to, more, j, deleted[level])
    {
      r := out;
      for i := b to to
        invariant Merged(r, files, i, more, j, deleted[level])
      {
        r := AddNextFile(level, r, files, i, more, j);
      }
    }

    method AddNextFile(level: nat, out: Level, files: Level, b: nat, ghost more: Level, ghost j: nat) returns (r: Level)
      requires level < |deleted| && SortedFiles(files) && SortedFiles(more) && b < |files|
      requires Merged(out, files, b, more, j, deleted[level]) && (j < |more| ==> FileLess(files[b], more[j]))
      ensures Merged(r, files, b + 1, more, j, deleted[level])
    {
      if b > 0 { assert InOrder(files, b - 1, b); }
      MergedBefore(out, files, b, more, j, deleted[level], files[b]);
      r := MaybeAddFile(out, level, files[b]);
      ElementsSnoc(files, b);
      KeptUnion(Elements(files[..b]) + Elements(more[..j]), {files[b]}, deleted[level]);
      assert Elements(files[..b + 1]) + Elements(more[..j]) == Elements(files[..b]) + Elements(more[..j]) + {files[b]};
      FrontOfFiles(files, b, more, j);
    }

    /** The part of SaveTo for one level: a merge of the old files and the added ones. */
    method SaveLevel(level: nat) returns (out: Level)
      requires Valid() && level < NUM_LEVELS && Apart(Elements(base[level]), GatherAll(edits, level).added)
      ensures SortedFiles(out) && Elements(out) == Saved(Elements(base[level]), GatherAll(edits, level))
    {
      assert LevelValid(level);
      var files, more := base[level], added[level];
      ListedHolds(edits, level);
      out := [];
      var b := 0;
      for j := 0 to |more|
        invariant Merged(out, files, b, more, j, deleted[level])
      {
        var bpos := UpperBound(files, b, more[j]);
        forall k | b <= k < bpos ensures FileLess(files[k], more[j]) {
          assert files[k] in Elements(files) && more[j] in Elements(more) && Differ(files[k], more[j]);
        }
        out := AddFilesUntil(level, out, files, b, bpos, more, j);
        b := bpos;
        out := AddAdded(level, out, files, b, more, j);
      }
      out := AddFilesUntil(level, out, files, b, |files|, more, |more|);
      assert files[..|files|] == files && more[..|more|] == more;
    }

    method AddAdded(level: nat, out: Level, ghost files: Level, ghost b: nat, more: Level, j: nat) returns (r: Level)
      requires level < |deleted| && SortedFiles(files) && SortedFiles(more) && j < |more|
      requires Merged(out, files, b, more, j, deleted[level]) && (b < |files| ==> FileLess(more[j], files[b]))
      ensures Merged(r, files, b, more, j + 1, deleted[level])
    {
      if j > 0 { assert InOrder(more, j - 1, j); }
      MergedBefore(out, files, b, more, j, deleted[level], more[j]);
      r := MaybeAddFile(out, level, more[j]);
      ElementsSnoc(more, j);
      KeptUnion(Elements(files[..b]) + Elements(more[..j]), {more[j]}, deleted[level]);
      assert Elements(files[..b]) + Elements(more[..j + 1]) == Elements(files[..b]) + Elements(more[..j]) + {more[j]};
      FrontOfMore(files, b, more, j);
    }

    method SaveTo() returns (v: seq<Level>)
      requires Valid() && forall level :: 0 <= level < NUM_LEVELS ==>
                 Apart(Elements(base[level]), GatherAll(edits, level).added)
      ensures Saves(base, edits, v)
    {
      v := [];
      for level := 0 to NUM_LEVELS
        invariant |v| == level
        invariant forall l :: 0 <= l < level ==> SavesLevel(base, edits, v, l)
      {
        var out := SaveLevel(level);
        forall l | 0 <= l < level ensures SavesLevel(base, edits, v + [out], l) {
          assert SavesLevel(base, edits, v, l);
        }
        v := v + [out];
      }
    }
  }

  ghost predicate SavesLevel(base: seq<Level>, edits: seq<Edit>, v: seq<Level>, level: nat) {
    level < |base| && level < |v| ==>
      SortedFiles(v[level]) && Elements(v[level]) == Saved(Elements(base[level]), GatherAll(edits, level))
  }

  /** Version v is what a builder on `base` saves after these edits. */
  ghost predicate Saves(base: seq<Level>, edits: seq<Edit>, v: seq<Level>) {
    |base| == |v| == NUM_LEVELS && forall level :: 0 <= level < NUM_LEVELS ==> SavesLevel(base, edits, v, level)
  }
}
