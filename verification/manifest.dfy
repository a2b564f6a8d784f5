/** Installing edits: the builder of versions, and replaying a manifest (db/version_set.cc). */
module Manifest {
  import opened Coding
  import opened Comparators
  import opened VersionEdits
  import opened Wrappers

  type Level = seq<FileMetaData>

  /** BySmallestKey: by smallest key, then by file number. */
  predicate FileLess(f: FileMetaData, g: FileMetaData) {
    KeyLess(f.smallest, g.smallest) || (!KeyLess(g.smallest, f.smallest) && f.number < g.number)
  }

  lemma KeyCompares(a: Bytes, b: Bytes)
    ensures !(KeyLess(a, b) && KeyLess(b, a))
    ensures !KeyLess(a, b) && !KeyLess(b, a) <==> UserKey(a) == UserKey(b) && Tag(a) == Tag(b)
  {
    BytesTrichotomy(UserKey(a), UserKey(b));
  }

  lemma FileTransitive(f: FileMetaData, g: FileMetaData, h: FileMetaData)
    requires FileLess(f, g) && FileLess(g, h)
    ensures FileLess(f, h)
  {
    hide BytesLess, Unfixed;
    KeyCompares(f.smallest, g.smallest);
    KeyCompares(g.smallest, h.smallest);
    KeyCompares(f.smallest, h.smallest);
    if KeyLess(f.smallest, g.smallest) && KeyLess(g.smallest, h.smallest) {
      KeyTransitive(f.smallest, g.smallest, h.smallest);
    }
  }

  /** Files of one number aside, the order is total. */
  lemma FileTotal(f: FileMetaData, g: FileMetaData)
    ensures !(FileLess(f, g) && FileLess(g, f))
    ensures f.number != g.number ==> FileLess(f, g) || FileLess(g, f)
  {
    KeyCompares(f.smallest, g.smallest);
  }

  ghost predicate InOrder(files: Level, i: int, j: int) {
    0 <= i < j < |files| ==> FileLess(files[i], files[j])
  }

  ghost predicate SortedFiles(files: Level) {
    forall i, j :: InOrder(files, i, j)
  }

  ghost function Elements(files: Level): set<FileMetaData> {
    set f | f in files
  }

  // ---------------------------------------------------------------- there is one sorted order

  lemma SortedPrefix(files: Level, n: nat)
    requires SortedFiles(files) && n <= |files|
    ensures SortedFiles(files[..n])
  {
    forall i, j ensures InOrder(files[..n], i, j) {
      assert InOrder(files, i, j);
    }
  }

  lemma LastIsGreatest(files: Level, f: FileMetaData)
    requires SortedFiles(files) && f in files
    ensures f == files[|files| - 1] || FileLess(f, files[|files| - 1])
  {
    var i :| 0 <= i < |files| && files[i] == f;
    assert InOrder(files, i, |files| - 1);
  }

  lemma ElementsSplit(files: Level)
    requires SortedFiles(files) && files != []
    ensures Elements(files[..|files| - 1]) == Elements(files) - {files[|files| - 1]}
  {
    var n := |files| - 1;
    forall f ensures f in files[..n] <==> f in files && f != files[n] {
      if f in files[..n] {
        var i :| 0 <= i < n && files[..n][i] == f;
        assert InOrder(files, i, n);
        FileTotal(files[i], files[n]);
      }
      if f in files && f != files[n] {
        var i :| 0 <= i < |files| && files[i] == f;
        assert files[..n][i] == f;
      }
    }
  }

  lemma NoElements(files: Level)
    ensures Elements(files) == {} ==> files == []
  {
    if files != [] { assert files[0] in Elements(files); }
  }

  /** Sorted files are determined by which files they are. */
  lemma {:induction false} SortedIsUnique(a: Level, b: Level)
    requires SortedFiles(a) && SortedFiles(b) && Elements(a) == Elements(b)
    ensures a == b
  {
    if a == [] {
      NoElements(b);
    } else {
      var x := a[|a| - 1];
      assert x in Elements(b);
      var last := b[|b| - 1];
      assert last in Elements(a);
      LastIsGreatest(a, last);
      LastIsGreatest(b, x);
      FileTotal(x, last);
      ElementsSplit(a);
      ElementsSplit(b);
      SortedPrefix(a, |a| - 1);
      SortedPrefix(b, |b| - 1);
      SortedIsUnique(a[..|a| - 1], b[..|b| - 1]);
      assert a == a[..|a| - 1] + [x] && b == b[..|b| - 1] + [last];
    }
  }

  // ---------------------------------------------------------------- edits, level by level

  ghost function DeletedAt(e: Edit, level: nat): set<nat> {
    set i | 0 <= i < |e.deletedFiles| && e.deletedFiles[i].0 == level :: e.deletedFiles[i].1
  }

  ghost function AddedAt(e: Edit, level: nat): set<FileMetaData> {
    set i | 0 <= i < |e.newFiles| && e.newFiles[i].0 == level :: e.newFiles[i].1
  }

  ghost function Numbers(files: set<FileMetaData>): set<nat> {
    set f | f in files :: f.number
  }

  ghost function Kept(files: set<FileMetaData>, deleted: set<nat>): set<FileMetaData> {
    set f | f in files && f.number !in deleted
  }

  /** What one edit makes of the files of a level. */
  ghost function Step(files: set<FileMetaData>, e: Edit, level: nat): set<FileMetaData> {
    Kept(files, DeletedAt(e, level)) + AddedAt(e, level)
  }

  /** One edit after the other. */
  ghost function Steps(files: set<FileMetaData>, edits: seq<Edit>, level: nat): set<FileMetaData> {
    if edits == [] then files else Step(Steps(files, edits[..|edits| - 1], level), edits[|edits| - 1], level)
  }

  /** What a builder that was given all edits has gathered for a level. */
  datatype Gathered = Gathered(deleted: set<nat>, added: set<FileMetaData>)

  ghost function Gather(g: Gathered, e: Edit, level: nat): Gathered {
    Gathered((g.deleted + DeletedAt(e, level)) - Numbers(AddedAt(e, level)), g.added + AddedAt(e, level))
  }

  ghost function GatherAll(edits: seq<Edit>, level: nat): Gathered {
    if edits == [] then Gathered({}, {}) else Gather(GatherAll(edits[..|edits| - 1], level), edits[|edits| - 1], level)
  }

  ghost function Saved(base: set<FileMetaData>, g: Gathered): set<FileMetaData> {
    Kept(base + g.added, g.deleted)
  }

  /** The edit adds no file number twice to this level. */
  ghost predicate Once(e: Edit, level: nat) {
    forall i, j :: 0 <= i < j < |e.newFiles| && e.newFiles[i].0 == level == e.newFiles[j].0 ==>
        e.newFiles[i].1.number != e.newFiles[j].1.number
  }

  /** Every file number is added to the level at most once, and not one that the level had at the start. */
  ghost predicate AddedOnce(base: set<FileMetaData>, edits: seq<Edit>, level: nat) {
    edits != [] ==>
      && AddedOnce(base, edits[..|edits| - 1], level)
      && Once(edits[|edits| - 1], level)
      && Numbers(AddedAt(edits[|edits| - 1], level)) !! Numbers(base + GatherAll(edits[..|edits| - 1], level).added)
  }

  /** Saving once equals installing every edit on its own. */
  lemma {:induction false} SavingOnceIsStepwise(base: set<FileMetaData>, edits: seq<Edit>, level: nat)
    requires AddedOnce(base, edits, level)
    ensures Saved(base, GatherAll(edits, level)) == Steps(base, edits, level)
  {
    if edits != [] {
      var n := |edits| - 1;
      var e, g := edits[n], GatherAll(edits[..n], level);
      SavingOnceIsStepwise(base, edits[..n], level);
      OneMore(base, g, e, level);
    }
  }

  /** A file that the builder knows and whose number is added again: it must be the very file that is added,
      or one that was never deleted. */
  ghost predicate Harmless(base: set<FileMetaData>, g: Gathered, e: Edit, level: nat, f: FileMetaData) {
    f in base + g.added && f.number in Numbers(AddedAt(e, level)) ==>
      f in AddedAt(e, level) || (f.number !in g.deleted && f.number !in DeletedAt(e, level))
  }

  /** One more edit does the same to the builder as to the files exactly when no number of a deleted file
      comes back. */
  lemma OneMoreExactly(base: set<FileMetaData>, g: Gathered, e: Edit, level: nat)
    ensures Saved(base, Gather(g, e, level)) == Step(Saved(base, g), e, level) <==>
            forall f :: Harmless(base, g, e, level, f)
  {
    var now, step := Saved(base, Gather(g, e, level)), Step(Saved(base, g), e, level);
    forall f ensures Harmless(base, g, e, level, f) <==> (f in now <==> f in step) {
      if f in AddedAt(e, level) { assert f.number in Numbers(AddedAt(e, level)); }
    }
    if now == step {
      forall f ensures Harmless(base, g, e, level, f) {
        assert f in now <==> f in step;
      }
    }
    if forall f :: Harmless(base, g, e, level, f) {
      forall f ensures f in now <==> f in step {
        assert Harmless(base, g, e, level, f);
      }
    }
  }

  lemma OneMore(base: set<FileMetaData>, g: Gathered, e: Edit, level: nat)
    requires Numbers(AddedAt(e, level)) !! Numbers(base + g.added)
    ensures Saved(base, Gather(g, e, level)) == Step(Saved(base, g), e, level)
  {
    OneMoreExactly(base, g, e, level);
    forall f ensures Harmless(base, g, e, level, f) {
      if f in base + g.added { assert f.number in Numbers(base + g.added); }
    }
  }

  /** A number that comes back to a level: the builder keeps the old file beside the new one, the stepwise
      result has only the new one. */
  lemma AddedTwiceDiffers(f: FileMetaData, g: FileMetaData)
    requires f.number == g.number && f != g
    ensures var e := EmptyEdit().(deletedFiles := [(1, f.number)], newFiles := [(1, g)]);
            && Saved({f}, GatherAll([e], 1)) == {f, g}
            && Steps({f}, [e], 1) == {g}
  {
    var e := EmptyEdit().(deletedFiles := [(1, f.number)], newFiles := [(1, g)]);
    assert e.deletedFiles[0].1 in DeletedAt(e, 1) && e.newFiles[0].1 in AddedAt(e, 1);
    assert DeletedAt(e, 1) == {f.number} && AddedAt(e, 1) == {g};
    assert [e][..0] == [];
    assert Numbers({g}) == {g.number};
    assert GatherAll([e], 1) == Gathered({}, {g});
  }
}
