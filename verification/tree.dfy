/** How flushes, trivial moves and compactions rebuild the file tree, and why the tree invariant
    survives (Version::PickLevelForMemTableOutput, DBImpl::WriteLevel0Table, BackgroundCompaction,
    InstallCompactionResults). */
module Tree {
  import opened DbFormat
  import opened Wrappers
  import opened Versions
  import opened CompactionInputs

  // ---------------------------------------------------------------- editing one level

  /** What Builder::SaveTo leaves in a level after deleting the numbers `gone` and adding `added`. */
  ghost predicate IsEdit(files: seq<File>, gone: set<nat>, added: set<File>, after: seq<File>) {
    && Ordered(after)
    && forall f :: f in after <==> f in added || (f in files && f.number !in gone)
  }

  predicate Disjoint(f: File, g: File) {
    Precedes(f.largest, g.smallest) || Precedes(g.largest, f.smallest)
  }

  ghost predicate PairwiseDisjoint(files: seq<File>) {
    forall f, g :: f in files && g in files && f != g ==> Disjoint(f, g)
  }

  lemma SortedIsPairwise(files: seq<File>)
    requires SortedDisjoint(files)
    ensures PairwiseDisjoint(files)
  {
  }

  lemma PairwiseIsSorted(files: seq<File>)
    requires FilesOk(files) && Ordered(files) && PairwiseDisjoint(files)
    ensures SortedDisjoint(files)
  {
    forall i, j | 0 <= i < j < |files| ensures Precedes(files[i].largest, files[j].smallest) {
      assert files[i] in files && files[j] in files;
      FileBoundsOrdered(files[i]);
      FileBoundsOrdered(files[j]);
      assert BySmallest(files[i], files[j]);
      assert files[i] != files[j];
    }
  }

  // ---------------------------------------------------------------- flushing a memtable

  /** A flushed file may go to a level above zero only when no file of that level or above it overlaps. */
  ghost predicate CanFlushTo(v: Version, level: nat, r: Range) {
    && level < |v.files|
    && (level > 0 ==> forall l, f :: 0 <= l <= level && f in v.files[l] ==> !Overlaps(f, r))
  }

  /** The range overlaps some file of the level. */
  ghost predicate OverlapsLevel(v: Version, level: nat, r: Range)
    requires level < |v.files|
  {
    exists f :: f in v.files[level] && Overlaps(f, r)
  }

  /** A flush may go on to the level from the one above: nothing overlaps there, and not too many bytes
      do one level further down. */
  ghost predicate MayEnter(v: Version, level: nat, r: Range, limit: nat)
    requires level < |v.files|
  {
    && !OverlapsLevel(v, level, r)
    && (level + 1 < |v.files| ==> TotalFileSize(InRange(v.files[level + 1], r)) <= limit)
  }

  /** The level that a flush reaches from level zero, as deep as kMaxMemCompactLevel at most. */
  ghost predicate IsDeepest(v: Version, level: nat, r: Range, limit: nat)
    requires |v.files| == NUM_LEVELS
  {
    && level <= 2
    && (forall l :: 1 <= l <= level ==> MayEnter(v, l, r, limit))
    && if OverlapsLevel(v, 0, r) then level == 0 else level == 2 || !MayEnter(v, level + 1, r, limit)
  }

  /** There is one such level, no other level that can be reached is deeper, and nothing overlaps on the way. */
  lemma DeepestIsUnique(v: Version, level: nat, r: Range, limit: nat, other: nat)
    requires TreeOk(v) && IsDeepest(v, level, r, limit)
    ensures CanFlushTo(v, level, r)
    ensures IsDeepest(v, other, r, limit) ==> other == level
    ensures other <= 2 && !OverlapsLevel(v, 0, r) && (forall l :: 1 <= l <= other ==> MayEnter(v, l, r, limit)) ==>
              other <= level
  {
    forall l, f | level > 0 && 0 <= l <= level && f in v.files[l] ensures !Overlaps(f, r) {
      assert l > 0 ==> MayEnter(v, l, r, limit);
    }
    assert other > level ==> level + 1 <= other;
    assert other < level ==> MayEnter(v, other + 1, r, limit);
  }

  /** PickLevelForMemTableOutput: a flush goes as deep as it may, and there it is safe. */
  method PickLevelForMemTableOutput(v: Version, smallest: UserKey, largest: UserKey, maxFileSize: nat)
    returns (level: nat)
    requires TreeOk(v)
    ensures IsDeepest(v, level, Range(Some(smallest), Some(largest)), 10 * maxFileSize)
    ensures CanFlushTo(v, level, Range(Some(smallest), Some(largest)))
  {
    hide Overlaps, SortedDisjoint, NumbersDistinct, NewestFileFirst, LevelsAge, FilesOk, Ordered;
    var r := Range(Some(smallest), Some(largest));
    level := 0;
    var overlap := OverlapInLevel(v, 0, r);
    if overlap {
      DeepestIsUnique(v, 0, r, 10 * maxFileSize, 0);
      return;
    }
    while level < 2
      invariant level <= 2
      invariant forall l :: 1 <= l <= level ==> MayEnter(v, l, r, 10 * maxFileSize)
      invariant level < 2 || IsDeepest(v, level, r, 10 * maxFileSize)
    {
      overlap := OverlapInLevel(v, level + 1, r);
      if overlap { break; }
      if level + 2 < NUM_LEVELS {
        FilesHaveRanges(v.files[level + 2]);
        var overlaps, used := GetOverlappingInputs(v.files[level + 2], level + 2, r);
        if TotalFileSize(overlaps) > 10 * maxFileSize { break; }
      }
      level := level + 1;
    }
    DeepestIsUnique(v, level, r, 10 * maxFileSize, level);
  }

  method OverlapInLevel(v: Version, level: nat, r: Range) returns (b: bool)
    requires TreeOk(v) && level < NUM_LEVELS
    ensures b <==> OverlapsLevel(v, level, r)
  {
    FilesHaveRanges(v.files[level]);
    b := SomeFileOverlapsRange(level > 0, v.files[level], r);
    if b {
      ghost var i :| 0 <= i < |v.files[level]| && Overlaps(v.files[level][i], r);
      assert v.files[level][i] in v.files[level];
    }
  }

  predicate SharesUser(f: File, g: File) {
    exists x, y :: x in f.entries && y in g.entries && x.key.user == y.key.user
  }

  lemma NoOverlapNoSharing(f: File, g: File)
    requires FileOk(f) && FileOk(g) && !Overlaps(f, Range(Some(g.smallest.user), Some(g.largest.user)))
    ensures !SharesUser(f, g) && Disjoint(f, g)
  {
    forall x, y | x in f.entries && y in g.entries ensures x.key.user != y.key.user {
      FileBounds(f, x);
      FileBounds(g, y);
    }
  }

  /** The version after `file` joined `level`. */
  ghost predicate IsFlushed(v: Version, level: nat, file: File, after: Version) {
    && |after.files| == |v.files|
    && level < |v.files|
    && IsEdit(v.files[level], {}, {file}, after.files[level])
    && forall l :: 0 <= l < |v.files| && l != level ==> after.files[l] == v.files[l]
  }

  lemma FlushedFiles(v: Version, level: nat, file: File, after: Version, l: nat, f: File)
    requires IsFlushed(v, level, file, after) && l < |v.files|
    ensures f in after.files[l] <==> f in v.files[l] || (l == level && f == file)
  {
  }

  /** A file under a fresh number whose data is newer than the whole version. */
  ghost predicate IsNewestFile(v: Version, file: File) {
    FileOk(file) && forall l, g :: 0 <= l < |v.files| && g in v.files[l] ==>
        g.number < file.number && NewerThan(file, g)
  }

  ghost predicate FlushOk(v: Version, level: nat, file: File) {
    && IsNewestFile(v, file)
    && CanFlushTo(v, level, Range(Some(file.smallest.user), Some(file.largest.user)))
  }

  lemma FlushedLevel(v: Version, level: nat, file: File, after: Version, l: nat)
    requires TreeOk(v) && FlushOk(v, level, file) && IsFlushed(v, level, file, after) && l < NUM_LEVELS
    ensures FilesOk(after.files[l]) && Ordered(after.files[l])
    ensures l > 0 ==> SortedDisjoint(after.files[l])
    ensures l == 0 ==> NewestFileFirst(after.files[0])
  {
    forall f ensures f in after.files[l] <==> f in v.files[l] || (l == level && f == file) {
      FlushedFiles(v, level, file, after, l, f);
    }
    if l > 0 {
      SortedIsPairwise(v.files[l]);
      forall f | f in v.files[l] && l == level ensures Disjoint(f, file) {
        NoOverlapNoSharing(f, file);
      }
      PairwiseIsSorted(after.files[l]);
    }
  }

  lemma FlushedLevelsAge(v: Version, level: nat, file: File, after: Version)
    requires TreeOk(v) && FlushOk(v, level, file) && IsFlushed(v, level, file, after)
    ensures LevelsAge(after.files)
  {
    forall a, b, f, g | 0 <= a < b < NUM_LEVELS && f in after.files[a] && g in after.files[b]
      ensures NewerThan(f, g)
    {
      FlushedFiles(v, level, file, after, a, f);
      FlushedFiles(v, level, file, after, b, g);
      if g == file && b == level {
        NoOverlapNoSharing(f, file);
      }
    }
  }

  lemma FlushedNumbers(v: Version, level: nat, file: File, after: Version)
    requires TreeOk(v) && IsNewestFile(v, file) && IsFlushed(v, level, file, after)
    ensures NumbersDistinct(after.files)
  {
    forall a, b, f, g | 0 <= a < NUM_LEVELS && 0 <= b < NUM_LEVELS && f in after.files[a] && g in after.files[b] &&
                        f.number == g.number
      ensures a == b && f == g
    {
      FlushedFiles(v, level, file, after, a, f);
      FlushedFiles(v, level, file, after, b, g);
    }
  }

  /** Flushing a memtable newer than the whole version, under a fresh file number, keeps the tree invariant. */
  lemma FlushKeepsTree(v: Version, level: nat, file: File, after: Version)
    requires TreeOk(v) && FlushOk(v, level, file) && IsFlushed(v, level, file, after)
    ensures TreeOk(after)
  {
    FlushedLevelsAge(v, level, file, after);
    FlushedNumbers(v, level, file, after);
    forall l | 0 <= l < NUM_LEVELS
      ensures FilesOk(after.files[l]) && Ordered(after.files[l])
      ensures l > 0 ==> SortedDisjoint(after.files[l])
      ensures l == 0 ==> NewestFileFirst(after.files[0])
    {
      FlushedLevel(v, level, file, after, l);
    }
  }

  // ---------------------------------------------------------------- installing a compaction

  ghost function Numbers(files: set<File>): set<nat> {
    set f | f in files :: f.number
  }

  /** The version after `in0` at `level` and `in1` below it were replaced by `outs` at level+1. */
  ghost predicate IsCompacted(v: Version, level: nat, in0: set<File>, in1: set<File>, outs: set<File>, after: Version) {
    && |after.files| == |v.files|
    && level + 1 < |v.files|
    && IsEdit(v.files[level], Numbers(in0), {}, after.files[level])
    && IsEdit(v.files[level + 1], Numbers(in1), outs, after.files[level + 1])
    && forall l :: 0 <= l < |v.files| && l != level && l != level + 1 ==> after.files[l] == v.files[l]
  }

  ghost predicate IsInputOf(v: Version, level: nat, in0: set<File>, in1: set<File>) {
    && |v.files| == NUM_LEVELS && level + 1 < NUM_LEVELS
    && (forall f :: f in in0 ==> f in v.files[level])
    && (forall f :: f in in1 ==> f in v.files[level + 1])
  }

  ghost predicate InputFile(level: nat, in0: set<File>, in1: set<File>, l: int, f: File) {
    (l == level && f in in0) || (l == level + 1 && f in in1)
  }

  /** Nothing that stays at the level is older than an input of a shared user key. */
  ghost predicate RestIsNewer(v: Version, level: nat, in0: set<File>) {
    level < |v.files| && forall g, f :: g in v.files[level] && g !in in0 && f in in0 ==> NewerThan(g, f)
  }

  ghost predicate MadeOf(o: File, inputs: set<File>) {
    forall e :: e in o.entries ==> exists f :: f in inputs && e in f.entries
  }

  /** Outputs: well-formed, made of input entries, disjoint from each other, under unused numbers. */
  ghost predicate OutputsOk(v: Version, level: nat, in0: set<File>, in1: set<File>, outs: set<File>) {
    && (forall o :: o in outs ==> FileOk(o))
    && (forall o :: o in outs ==> MadeOf(o, in0 + in1))
    && (forall o, p :: o in outs && p in outs && o != p ==> Disjoint(o, p) && o.number != p.number)
    && (forall o, l, g :: o in outs && 0 <= l < |v.files| && g in v.files[l] && g.number == o.number ==>
          InputFile(level, in0, in1, l, g))
  }

  /** No output spans a file that stays at level+1. */
  ghost predicate NoStraddle(v: Version, level: nat, in1: set<File>, outs: set<File>) {
    level + 1 < |v.files| && forall g, o :: g in v.files[level + 1] && g !in in1 && o in outs ==> Disjoint(g, o)
  }

  lemma CompactedFiles(v: Version, level: nat, in0: set<File>, in1: set<File>, outs: set<File>, after: Version,
                       l: nat, f: File)
    requires NumbersDistinct(v.files) && IsInputOf(v, level, in0, in1)
    requires IsCompacted(v, level, in0, in1, outs, after) && l < NUM_LEVELS
    ensures f in after.files[l] <==>
              (f in v.files[l] && !InputFile(level, in0, in1, l, f)) || (l == level + 1 && f in outs)
  {
    if l == level && f in v.files[l] {
      assert f.number in Numbers(in0) <==> f in in0;
    } else if l == level + 1 && f in v.files[l] {
      assert f.number in Numbers(in1) <==> f in in1;
    }
  }

  lemma OutputIsOlder(v: Version, level: nat, in0: set<File>, in1: set<File>, outs: set<File>, o: File, a: int, f: File)
    requires TreeOk(v) && IsInputOf(v, level, in0, in1) && RestIsNewer(v, level, in0)
    requires OutputsOk(v, level, in0, in1, outs) && o in outs
    requires 0 <= a <= level && f in v.files[a] && !InputFile(level, in0, in1, a, f)
    ensures NewerThan(f, o)
  {
    forall x, y | x in f.entries && y in o.entries && x.key.user == y.key.user
      ensures x.key.sequence > y.key.sequence
    {
      var g :| g in in0 + in1 && y in g.entries;
      assert NewerThan(f, g);
    }
  }

  lemma OutputIsNewer(v: Version, level: nat, in0: set<File>, in1: set<File>, outs: set<File>, o: File, b: int, g: File)
    requires TreeOk(v) && IsInputOf(v, level, in0, in1)
    requires OutputsOk(v, level, in0, in1, outs) && o in outs
    requires level + 1 < b < NUM_LEVELS && g in v.files[b]
    ensures NewerThan(o, g)
  {
    forall x, y | x in o.entries && y in g.entries && x.key.user == y.key.user
      ensures x.key.sequence > y.key.sequence
    {
      var f :| f in in0 + in1 && x in f.entries;
      assert NewerThan(f, g);
    }
  }

  lemma CompactedLevelsAge(v: Version, level: nat, in0: set<File>, in1: set<File>, outs: set<File>, after: Version)
    requires TreeOk(v) && IsInputOf(v, level, in0, in1) && RestIsNewer(v, level, in0)
    requires OutputsOk(v, level, in0, in1, outs)
    requires IsCompacted(v, level, in0, in1, outs, after)
    ensures LevelsAge(after.files)
  {
    forall a, b, f, g | 0 <= a < b < NUM_LEVELS && f in after.files[a] && g in after.files[b]
      ensures NewerThan(f, g)
    {
      CompactedFiles(v, level, in0, in1, outs, after, a, f);
      CompactedFiles(v, level, in0, in1, outs, after, b, g);
      if b == level + 1 && g in outs {
        OutputIsOlder(v, level, in0, in1, outs, g, a, f);
      } else if a == level + 1 && f in outs {
        OutputIsNewer(v, level, in0, in1, outs, f, b, g);
      }
    }
  }

  lemma CompactedLevels(v: Version, level: nat, in0: set<File>, in1: set<File>, outs: set<File>, after: Version, l: nat)
    requires TreeOk(v) && IsInputOf(v, level, in0, in1) && OutputsOk(v, level, in0, in1, outs)
    requires NoStraddle(v, level, in1, outs)
    requires IsCompacted(v, level, in0, in1, outs, after) && l < NUM_LEVELS
    ensures FilesOk(after.files[l]) && Ordered(after.files[l])
    ensures l > 0 ==> SortedDisjoint(after.files[l])
    ensures l == 0 ==> NewestFileFirst(after.files[0])
  {
    hide LevelsAge, NumbersDistinct, FileOk, MadeOf, SortedDisjoint, NewerThan, Precedes;
    assert Ordered(after.files[l]) && |after.files| == NUM_LEVELS;
    forall f ensures f in after.files[l] <==>
      (f in v.files[l] && !InputFile(level, in0, in1, l, f)) || (l == level + 1 && f in outs)
    {
      CompactedFiles(v, level, in0, in1, outs, after, l, f);
    }
    if l > 0 {
      SortedIsPairwise(v.files[l]);
      PairwiseIsSorted(after.files[l]);
    }
  }

  lemma CompactedNumbers(v: Version, level: nat, in0: set<File>, in1: set<File>, outs: set<File>, after: Version)
    requires TreeOk(v) && IsInputOf(v, level, in0, in1) && OutputsOk(v, level, in0, in1, outs)
    requires IsCompacted(v, level, in0, in1, outs, after)
    ensures NumbersDistinct(after.files)
  {
    forall a, b, f, g | 0 <= a < NUM_LEVELS && 0 <= b < NUM_LEVELS && f in after.files[a] && g in after.files[b] &&
                        f.number == g.number
      ensures a == b && f == g
    {
      CompactedFiles(v, level, in0, in1, outs, after, a, f);
      CompactedFiles(v, level, in0, in1, outs, after, b, g);
    }
  }

  lemma InstalledTreeOk(v: Version, level: nat, in0: set<File>, in1: set<File>, outs: set<File>, after: Version)
    requires TreeOk(v) && IsInputOf(v, level, in0, in1) && RestIsNewer(v, level, in0)
    requires OutputsOk(v, level, in0, in1, outs) && NoStraddle(v, level, in1, outs)
    requires IsCompacted(v, level, in0, in1, outs, after)
    ensures TreeOk(after)
  {
    CompactedLevelsAge(v, level, in0, in1, outs, after);
    CompactedNumbers(v, level, in0, in1, outs, after);
    forall l | 0 <= l < NUM_LEVELS
      ensures FilesOk(after.files[l]) && Ordered(after.files[l])
      ensures l > 0 ==> SortedDisjoint(after.files[l])
      ensures l == 0 ==> NewestFileFirst(after.files[0])
    {
      CompactedLevels(v, level, in0, in1, outs, after, l);
    }
  }

  lemma StraddleBreaksTree(v: Version, level: nat, in0: set<File>, in1: set<File>, outs: set<File>, after: Version)
    requires TreeOk(v) && IsInputOf(v, level, in0, in1) && OutputsOk(v, level, in0, in1, outs)
    requires IsCompacted(v, level, in0, in1, outs, after)
    requires PairwiseDisjoint(after.files[level + 1])
    ensures NoStraddle(v, level, in1, outs)
  {
    forall g, o | g in v.files[level + 1] && g !in in1 && o in outs ensures Disjoint(g, o) {
      CompactedFiles(v, level, in0, in1, outs, after, level + 1, g);
      CompactedFiles(v, level, in0, in1, outs, after, level + 1, o);
      assert g != o;
    }
  }

  /** Installing a compaction keeps the tree invariant exactly when no output spans a file that stays
      at level+1. */
  lemma InstallKeepsTree(v: Version, level: nat, in0: set<File>, in1: set<File>, outs: set<File>, after: Version)
    requires TreeOk(v) && IsInputOf(v, level, in0, in1) && RestIsNewer(v, level, in0)
    requires OutputsOk(v, level, in0, in1, outs)
    requires IsCompacted(v, level, in0, in1, outs, after)
    ensures TreeOk(after) <==> NoStraddle(v, level, in1, outs)
  {
    if NoStraddle(v, level, in1, outs) {
      InstalledTreeOk(v, level, in0, in1, outs, after);
    }
    if TreeOk(after) {
      SortedIsPairwise(after.files[level + 1]);
      StraddleBreaksTree(v, level, in0, in1, outs, after);
    }
  }
}
