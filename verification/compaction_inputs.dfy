/** Which files a compaction takes (db/version_set.cc: SomeFileOverlapsRange, GetOverlappingInputs,
    AddBoundaryInputs, SetupOtherInputs, PickCompaction, CompactRange). */
module CompactionInputs {
  import opened DbFormat
  import opened Wrappers
  import opened Versions
  import Lookup
  import Sequences

  // ---------------------------------------------------------------- user-key ranges

  /** None stands for a missing bound: before all keys, or after all keys. */
  datatype Range = Range(begin: Option<UserKey>, end: Option<UserKey>)

  /** AfterFile: the range starts after the file ends. */
  predicate AfterFile(begin: Option<UserKey>, f: File) {
    begin.Some? && begin.value > f.largest.user
  }

  /** BeforeFile: the range ends before the file starts. */
  predicate BeforeFile(end: Option<UserKey>, f: File) {
    end.Some? && end.value < f.smallest.user
  }

  predicate Overlaps(f: File, r: Range) {
    !AfterFile(r.begin, f) && !BeforeFile(r.end, f)
  }

  predicate FilesOverlap(f: File, g: File) {
    f.smallest.user <= g.largest.user && g.smallest.user <= f.largest.user
  }

  /** The files of a level that overlap a range, in level order. */
  function InRange(files: seq<File>, r: Range): seq<File> {
    if files == [] then []
    else
      var n := |files| - 1;
      InRange(files[..n], r) + if Overlaps(files[n], r) then [files[n]] else []
  }

  lemma {:induction false} InRangeHas(files: seq<File>, r: Range, f: File)
    ensures f in InRange(files, r) <==> f in files && Overlaps(f, r)
  {
    if files != [] {
      InRangeHas(files[..|files| - 1], r, f);
      Sequences.Snoc(files);
    }
  }

  /** SomeFileOverlapsRange: binary search on sorted levels, a scan otherwise. */
  method SomeFileOverlapsRange(disjointSorted: bool, files: seq<File>, r: Range) returns (b: bool)
    requires RangesOk(files) && (disjointSorted ==> SortedDisjoint(files))
    ensures b <==> exists i :: 0 <= i < |files| && Overlaps(files[i], r)
  {
    if !disjointSorted {
      for i := 0 to |files|
        invariant forall k :: 0 <= k < i ==> !Overlaps(files[k], r)
      {
        if !(AfterFile(r.begin, files[i]) || BeforeFile(r.end, files[i])) { return true; }
      }
      return false;
    }
    var index := 0;
    if r.begin.Some? {
      index := Lookup.FindFile(files, SeekKey(r.begin.value, MAX_SEQUENCE));
      assert forall k :: 0 <= k < index ==> AfterFile(r.begin, files[k]);
    }
    if index >= |files| { return false; }
    if BeforeFile(r.end, files[index]) {
      forall k | index < k < |files| ensures BeforeFile(r.end, files[k]) {
        assert Precedes(files[index].largest, files[k].smallest);
      }
      return false;
    }
    assert Overlaps(files[index], r);
    return true;
  }

  // ---------------------------------------------------------------- GetOverlappingInputs

  /** How many files start below the range: shrinks at every restart to the left. */
  function StartsBelow(files: seq<File>, begin: Option<UserKey>): (n: nat)
    ensures n <= |files|
  {
    if files == [] then 0
    else (if begin.Some? && files[0].smallest.user < begin.value then 1 else 0) + StartsBelow(files[1..], begin)
  }

  function EndsAbove(files: seq<File>, end: Option<UserKey>): (n: nat)
    ensures n <= |files|
  {
    if files == [] then 0
    else (if end.Some? && files[0].largest.user > end.value then 1 else 0) + EndsAbove(files[1..], end)
  }

  lemma StartsBelowShrinks(files: seq<File>, a: UserKey, b: UserKey)
    requires a <= b
    ensures StartsBelow(files, Some(a)) <= StartsBelow(files, Some(b))
    ensures (exists f :: f in files && a <= f.smallest.user < b) ==>
              StartsBelow(files, Some(a)) < StartsBelow(files, Some(b))
  {
    if files != [] { StartsBelowShrinks(files[1..], a, b); }
  }

  lemma EndsAboveShrinks(files: seq<File>, a: UserKey, b: UserKey)
    requires a <= b
    ensures EndsAbove(files, Some(b)) <= EndsAbove(files, Some(a))
    ensures (exists f :: f in files && a < f.largest.user <= b) ==>
              EndsAbove(files, Some(b)) < EndsAbove(files, Some(a))
  {
    if files != [] { EndsAboveShrinks(files[1..], a, b); }
  }

  predicate Within(f: File, r: Range) {
    && (r.begin.Some? ==> r.begin.value <= f.smallest.user)
    && (r.end.Some? ==> f.largest.user <= r.end.value)
  }

  /** `t` holds every file overlapping the range, and every file overlapping a file of `t`. */
  ghost predicate OverlapClosed(files: seq<File>, r: Range, t: set<File>) {
    && (forall f :: f in files && Overlaps(f, r) ==> f in t)
    && (forall f, g :: f in files && g in files && f in t && FilesOverlap(f, g) ==> g in t)
  }

  /** Every closed set holds all files that overlap the (possibly grown) range `r`. */
  ghost predicate Needed(files: seq<File>, asked: Range, r: Range) {
    forall t :: OverlapClosed(files, asked, t) ==> forall f :: f in files && Overlaps(f, r) ==> f in t
  }

  lemma GrowingStaysNeeded(files: seq<File>, asked: Range, r: Range, f: File, grown: Range)
    requires RangesOk(files) && Needed(files, asked, r)
    requires f in files && Overlaps(f, r)
    requires (r.begin.Some? && grown == r.(begin := Some(f.smallest.user))) ||
             (r.end.Some? && grown == r.(end := Some(f.largest.user)))
    ensures Needed(files, asked, grown)
  {
    forall t, g | OverlapClosed(files, asked, t) && g in files && Overlaps(g, grown) ensures g in t {
      assert f in t;
      assert Overlaps(g, r) || FilesOverlap(f, g);
    }
  }

  ghost predicate AllWithin(inputs: seq<File>, r: Range) {
    forall f :: f in inputs ==> Within(f, r)
  }

  /** `r` covers `asked`, and is unbounded on the same sides. */
  ghost predicate Covers(r: Range, asked: Range) {
    && (if asked.begin.Some? then r.begin.Some? && r.begin.value <= asked.begin.value else r.begin.None?)
    && (if asked.end.Some? then r.end.Some? && asked.end.value <= r.end.value else r.end.None?)
  }

  ghost function AsSet(files: seq<File>): set<File> {
    set f | f in files
  }

  /** The least set of files closed under user-key overlap that holds all files overlapping `asked`. */
  ghost predicate LeastClosed(files: seq<File>, asked: Range, inputs: seq<File>) {
    && OverlapClosed(files, asked, AsSet(inputs))
    && forall t :: OverlapClosed(files, asked, t) ==> AsSet(inputs) <= t
  }

  /** What GetOverlappingInputs selects: the overlapping files, at level zero closed under overlap. */
  ghost predicate Selects(files: seq<File>, level: nat, asked: Range, inputs: seq<File>) {
    exists r: Range ::
      inputs == InRange(files, r) &&
      if level > 0 then r == asked else AllWithin(inputs, r) && LeastClosed(files, asked, inputs)
  }

  lemma {:induction false} SameFilesInRange(files: seq<File>, r: Range, s: Range)
    requires forall f :: f in files ==> (Overlaps(f, r) <==> Overlaps(f, s))
    ensures InRange(files, r) == InRange(files, s)
  {
    if files != [] {
      assert files[|files| - 1] in files;
      SameFilesInRange(files[..|files| - 1], r, s);
    }
  }

  /** There is one such selection. */
  lemma SelectionIsUnique(files: seq<File>, level: nat, asked: Range, a: seq<File>, b: seq<File>)
    requires Selects(files, level, asked, a) && Selects(files, level, asked, b)
    ensures a == b
  {
    if level == 0 {
      var r: Range :| a == InRange(files, r);
      var s: Range :| b == InRange(files, s);
      assert AsSet(a) == AsSet(b);
      forall f | f in files ensures Overlaps(f, r) <==> Overlaps(f, s) {
        InRangeHas(files, r, f);
        InRangeHas(files, s, f);
        assert f in AsSet(a) <==> f in AsSet(b);
      }
      SameFilesInRange(files, r, s);
    }
  }

  lemma RestartFinds(files: seq<File>, asked: Range, r: Range)
    requires Covers(r, asked) && AllWithin(InRange(files, r), r) && Needed(files, asked, r)
    ensures LeastClosed(files, asked, InRange(files, r))
  {
    var inputs := InRange(files, r);
    forall f ensures f in inputs <==> f in files && Overlaps(f, r) {
      InRangeHas(files, r, f);
    }
    forall f, g | f in files && g in files && f in AsSet(inputs) && FilesOverlap(f, g) ensures g in AsSet(inputs) {
      assert Within(f, r);
      assert Overlaps(g, r);
    }
    forall f | f in files && Overlaps(f, asked) ensures f in AsSet(inputs) {
      assert Overlaps(f, r);
    }
  }

  /** GetOverlappingInputs, with the level-zero restart whenever an input widens the range.
      `range` is the range finally used: the one asked for, except at level zero. */
  method GetOverlappingInputs(files: seq<File>, level: nat, asked: Range) returns (inputs: seq<File>, range: Range)
    requires RangesOk(files)
    ensures inputs == InRange(files, range) && Covers(range, asked)
    ensures level > 0 ==> range == asked
    ensures level == 0 ==> AllWithin(inputs, range) && LeastClosed(files, asked, inputs)
    ensures Selects(files, level, asked, inputs)
  {
    range := asked;
    inputs := [];
    var i := 0;
    while i < |files|
      invariant 0 <= i <= |files|
      invariant inputs == InRange(files[..i], range)
      invariant Covers(range, asked)
      invariant level > 0 ==> range == asked
      invariant level == 0 ==> AllWithin(inputs, range)
      invariant Needed(files, asked, range)
      decreases StartsBelow(files, range.begin) + EndsAbove(files, range.end), |files| - i
    {
      var f := files[i];
      assert files[..i + 1][..i] == files[..i];
      i := i + 1;
      if range.begin.Some? && f.largest.user < range.begin.value {
        // completely before the range: skip it
      } else if range.end.Some? && f.smallest.user > range.end.value {
        // completely after the range: skip it
      } else {
        inputs := inputs + [f];
        if level == 0 {
          if range.begin.Some? && f.smallest.user < range.begin.value {
            GrowingStaysNeeded(files, asked, range, f, range.(begin := Some(f.smallest.user)));
            StartsBelowShrinks(files, f.smallest.user, range.begin.value);
            range := range.(begin := Some(f.smallest.user));
            inputs := [];
            i := 0;
          } else if range.end.Some? && f.largest.user > range.end.value {
            GrowingStaysNeeded(files, asked, range, f, range.(end := Some(f.largest.user)));
            EndsAboveShrinks(files, range.end.value, f.largest.user);
            range := range.(end := Some(f.largest.user));
            inputs := [];
            i := 0;
          }
        }
      }
    }
    assert files[..i] == files;
    if level == 0 { RestartFinds(files, asked, range); }
  }

  // ---------------------------------------------------------------- boundary files

  ghost predicate IsLargestKey(files: seq<File>, k: InternalKey) {
    && (exists f :: f in files && f.largest == k)
    && (forall f :: f in files ==> !Less(k, f.largest))
  }

  ghost predicate IsSmallestKey(files: seq<File>, k: InternalKey) {
    && (exists f :: f in files && f.smallest == k)
    && (forall f :: f in files ==> !Less(f.smallest, k))
  }

  method FindLargestKey(files: seq<File>) returns (key: InternalKey)
    requires files != []
    ensures IsLargestKey(files, key)
  {
    key := files[0].largest;
    for i := 1 to |files|
      invariant IsLargestKey(files[..i], key)
    {
      assert files[..i + 1] == files[..i] + [files[i]];
      if Less(key, files[i].largest) { key := files[i].largest; }
      assert files[i] in files[..i + 1];
    }
    assert files[..|files|] == files;
  }

  /** GetRange. */
  method GetRange(files: seq<File>) returns (smallest: InternalKey, largest: InternalKey)
    requires files != []
    ensures IsSmallestKey(files, smallest) && IsLargestKey(files, largest)
  {
    smallest := files[0].smallest;
    largest := files[0].largest;
    for i := 1 to |files|
      invariant IsSmallestKey(files[..i], smallest) && IsLargestKey(files[..i], largest)
    {
      assert files[..i + 1] == files[..i] + [files[i]];
      assert files[i] in files[..i + 1];
      if Less(files[i].smallest, smallest) { smallest := files[i].smallest; }
      if Less(largest, files[i].largest) { largest := files[i].largest; }
    }
    assert files[..|files|] == files;
  }

  /** `f` starts inside the user key at which `key` ends. */
  predicate IsBoundary(f: File, key: InternalKey) {
    Less(key, f.smallest) && f.smallest.user == key.user
  }

  ghost predicate NoBoundary(files: seq<File>, key: InternalKey) {
    forall f :: f in files ==> !IsBoundary(f, key)
  }

  ghost predicate IsSmallestBoundary(files: seq<File>, key: InternalKey, f: File) {
    f in files && IsBoundary(f, key) &&
    forall g :: g in files && IsBoundary(g, key) ==> !Less(g.smallest, f.smallest)
  }

  method FindSmallestBoundaryFile(files: seq<File>, key: InternalKey) returns (r: Option<File>)
    ensures match r case None => NoBoundary(files, key) case Some(f) => IsSmallestBoundary(files, key, f)
  {
    r := None;
    for i := 0 to |files|
      invariant match r case None => NoBoundary(files[..i], key) case Some(f) => IsSmallestBoundary(files[..i], key, f)
    {
      assert files[..i + 1] == files[..i] + [files[i]];
      if IsBoundary(files[i], key) {
        if r.None? || Less(files[i].smallest, r.value.smallest) { r := Some(files[i]); }
      }
    }
    assert files[..|files|] == files;
  }

  /** The key at which the inputs end once `added` has been appended. */
  function End(key: InternalKey, added: seq<File>): InternalKey {
    if added == [] then key else added[|added| - 1].largest
  }

  /** The files AddBoundaryInputs appends: each the smallest boundary of the one before. */
  ghost predicate BoundaryChain(files: seq<File>, key: InternalKey, added: seq<File>) {
    added == [] ||
    var n := |added| - 1;
    BoundaryChain(files, key, added[..n]) && IsSmallestBoundary(files, End(key, added[..n]), added[n])
  }

  function StartsAfter(files: seq<File>, key: InternalKey): nat {
    if files == [] then 0 else (if Less(key, files[0].smallest) then 1 else 0) + StartsAfter(files[1..], key)
  }

  lemma StartsAfterShrinks(files: seq<File>, a: InternalKey, b: InternalKey)
    requires !Less(b, a)
    ensures StartsAfter(files, b) <= StartsAfter(files, a)
    ensures (exists f :: f in files && Less(a, f.smallest) && !Less(b, f.smallest)) ==>
              StartsAfter(files, b) < StartsAfter(files, a)
  {
    if files != [] { StartsAfterShrinks(files[1..], a, b); }
  }

  lemma ChainSnoc(files: seq<File>, key: InternalKey, added: seq<File>, f: File)
    requires RangesOk(files) && BoundaryChain(files, key, added)
    requires IsSmallestBoundary(files, End(key, added), f)
    ensures BoundaryChain(files, key, added + [f])
    ensures StartsAfter(files, f.largest) < StartsAfter(files, End(key, added))
  {
    assert (added + [f])[..|added|] == added;
    StartsAfterShrinks(files, End(key, added), f.largest);
  }

  /** AddBoundaryInputs: afterwards no file of the level starts inside the user key at which the
      inputs end.  `key` is where the inputs ended at first. */
  method AddBoundaryInputs(levelFiles: seq<File>, inputs: seq<File>) returns (added: seq<File>, ghost key: InternalKey)
    requires RangesOk(levelFiles)
    ensures inputs == [] ==> added == []
    ensures inputs != [] ==> IsLargestKey(inputs, key) && BoundaryChain(levelFiles, key, added)
    ensures inputs != [] ==> NoBoundary(levelFiles, End(key, added))
  {
    added := [];
    if inputs == [] {
      key := InternalKey(0.0, 0, ValueType.Deletion);
      return;
    }
    var largest := FindLargestKey(inputs);
    key := largest;
    var found := FindSmallestBoundaryFile(levelFiles, largest);
    while found.Some?
      invariant BoundaryChain(levelFiles, key, added)
      invariant match found
                case Some(f) => IsSmallestBoundary(levelFiles, End(key, added), f)
                case None => NoBoundary(levelFiles, End(key, added))
      decreases found.Some?, StartsAfter(levelFiles, End(key, added))
    {
      ChainSnoc(levelFiles, key, added, found.value);
      added := added + [found.value];
      largest := found.value.largest;
      found := FindSmallestBoundaryFile(levelFiles, largest);
    }
  }

  /** On a sorted level a run of files stays a run: boundary files are its immediate successors. */
  lemma {:induction false} ChainIsRun(files: seq<File>, hi: int, added: seq<File>)
    requires RangesOk(files) && SortedDisjoint(files) && 0 < hi <= |files|
    requires BoundaryChain(files, files[hi - 1].largest, added)
    ensures hi + |added| <= |files| && added == files[hi..hi + |added|]
    ensures End(files[hi - 1].largest, added) == files[hi + |added| - 1].largest
  {
    if added != [] {
      var n := |added| - 1;
      ChainIsRun(files, hi, added[..n]);
      NextInRun(files, hi + n - 1, added[n]);
      Sequences.SliceGrows(added, files, hi);
    }
  }

  lemma NextInRun(files: seq<File>, last: int, f: File)
    requires RangesOk(files) && SortedDisjoint(files) && 0 <= last < |files|
    requires IsSmallestBoundary(files, files[last].largest, f)
    ensures last + 1 < |files| && files[last + 1] == f
  {
    var j :| 0 <= j < |files| && files[j] == f;
    RunNext(files, last, j);
  }

  lemma RunNext(files: seq<File>, last: int, j: int)
    requires RangesOk(files) && SortedDisjoint(files) && 0 <= last < |files| && 0 <= j < |files|
    requires IsSmallestBoundary(files, files[last].largest, files[j])
    ensures j == last + 1
  {
    assert j > last;
    if j > last + 1 {
      var next := files[last + 1];
      assert Precedes(files[last].largest, next.smallest) && Precedes(next.largest, files[j].smallest);
      assert next in files && IsBoundary(next, files[last].largest);
      assert false;
    }
  }

  // ---------------------------------------------------------------- the inputs of a compaction

  ghost predicate IsUserRange(files: seq<File>, r: Range) {
    exists s, l :: IsSmallestKey(files, s) && IsLargestKey(files, l) && r == Range(Some(s.user), Some(l.user))
  }

  ghost predicate IsRun(files: seq<File>, inputs: seq<File>) {
    exists lo, hi :: 0 <= lo < hi <= |files| && inputs == files[lo..hi]
  }

  /** A run of a sorted level that no older entry of a shared user key follows. */
  ghost predicate IsClosedRun(files: seq<File>, inputs: seq<File>) {
    exists lo, hi :: 0 <= lo < hi <= |files| && inputs == files[lo..hi] && NoBoundary(files, files[hi - 1].largest)
  }

  /** Level-zero inputs: everything that overlaps a range, all of it inside the range. */
  ghost predicate IsClosedOverlap(files: seq<File>, inputs: seq<File>) {
    exists r: Range :: inputs == InRange(files, r) && AllWithin(inputs, r)
  }

  /** A selection that AddBoundaryInputs can close. */
  ghost predicate Closable(files: seq<File>, level: nat, inputs: seq<File>) {
    if level == 0 then IsClosedOverlap(files, inputs) else IsRun(files, inputs)
  }

  ghost predicate Closed(files: seq<File>, level: nat, inputs: seq<File>) {
    if level == 0 then IsClosedOverlap(files, inputs) else IsClosedRun(files, inputs)
  }

  /** What SetupOtherInputs guarantees about the inputs taken from a level and from the next one. */
  ghost predicate InputsOk(files: seq<File>, next: seq<File>, level: nat, in0: seq<File>, in1: seq<File>) {
    && in0 != []
    && Closed(files, level, in0)
    && exists r: Range :: IsUserRange(in0, r) && in1 == InRange(next, r)
  }

  /** A closed level-zero selection has no boundary file: it would overlap the selection. */
  lemma NoBoundaryAtLevelZero(files: seq<File>, inputs: seq<File>, key: InternalKey)
    requires RangesOk(files) && IsLargestKey(inputs, key) && IsClosedOverlap(files, inputs)
    ensures NoBoundary(files, key)
  {
    var r: Range :| inputs == InRange(files, r) && AllWithin(inputs, r);
    var g :| g in inputs && g.largest == key;
    forall f | f in files ensures !IsBoundary(f, key) {
      InRangeHas(files, r, f);
      InRangeHas(files, r, g);
    }
  }

  lemma RunLargest(files: seq<File>, lo: int, hi: int, key: InternalKey)
    requires RangesOk(files) && SortedDisjoint(files) && 0 <= lo < hi <= |files|
    requires IsLargestKey(files[lo..hi], key)
    ensures key == files[hi - 1].largest
  {
    Lookup.LargestAscends(files);
    assert files[hi - 1] in files[lo..hi];
    var f :| f in files[lo..hi] && f.largest == key;
    var i :| lo <= i < hi && files[i] == f;
    CompareIsTotalOrder(key, files[hi - 1].largest, key);
  }

  lemma ChainStart(files: seq<File>, key: InternalKey, added: seq<File>)
    requires BoundaryChain(files, key, added) && NoBoundary(files, key)
    ensures added == []
  {
    if added != [] {
      ChainStart(files, key, added[..|added| - 1]);
    }
  }

  /** AddBoundaryInputs closes a run of a sorted level. */
  lemma BoundaryClosesRun(files: seq<File>, inputs: seq<File>, key: InternalKey, added: seq<File>)
    requires RangesOk(files) && SortedDisjoint(files) && IsLargestKey(inputs, key)
    requires BoundaryChain(files, key, added) && NoBoundary(files, End(key, added))
    requires IsRun(files, inputs)
    ensures IsClosedRun(files, inputs + added)
  {
    var lo, hi :| 0 <= lo < hi <= |files| && inputs == files[lo..hi];
    RunLargest(files, lo, hi, key);
    ChainIsRun(files, hi, added);
    ClosedRunExtends(files, lo, hi, inputs, added);
  }

  lemma ClosedRunExtends(files: seq<File>, lo: int, hi: int, inputs: seq<File>, added: seq<File>)
    requires 0 <= lo < hi && hi + |added| <= |files|
    requires inputs == files[lo..hi] && added == files[hi..hi + |added|]
    requires NoBoundary(files, files[hi + |added| - 1].largest)
    ensures IsClosedRun(files, inputs + added)
  {
    Sequences.SliceExtend(files, inputs, added, lo, hi);
  }

  /** AddBoundaryInputs brings a closable selection to the closed form. */
  lemma BoundaryClosesInputs(files: seq<File>, level: nat, inputs: seq<File>, key: InternalKey, added: seq<File>)
    requires RangesOk(files) && IsLargestKey(inputs, key)
    requires BoundaryChain(files, key, added) && NoBoundary(files, End(key, added))
    requires Closable(files, level, inputs) && (level > 0 ==> SortedDisjoint(files))
    ensures Closed(files, level, inputs + added)
  {
    if level == 0 {
      NoBoundaryAtLevelZero(files, inputs, key);
      ChainStart(files, key, added);
      assert inputs + added == inputs;
    } else {
      BoundaryClosesRun(files, inputs, key, added);
    }
  }

  /** Closed selections consist of level files. */
  lemma ClosedIsSelection(files: seq<File>, level: nat, inputs: seq<File>, f: File)
    requires Closed(files, level, inputs) && f in inputs
    ensures f in files
  {
    if level == 0 {
      var r: Range :| inputs == InRange(files, r) && AllWithin(inputs, r);
      InRangeHas(files, r, f);
    }
  }

  /** Between two overlapping files of a sorted level every file overlaps. */
  lemma MiddleOverlaps(files: seq<File>, r: Range, i: int, j: int, k: int)
    requires RangesOk(files) && SortedDisjoint(files) && 0 <= i <= j <= k < |files|
    requires Overlaps(files[i], r) && Overlaps(files[k], r)
    ensures Overlaps(files[j], r)
  {
    Lookup.LargestAscends(files);
    assert j < k ==> Precedes(files[j].largest, files[k].smallest);
  }

  /** On a sorted level the files overlapping a range form a run. */
  lemma {:induction false} InRangeIsRun(files: seq<File>, r: Range, n: nat) returns (lo: int, hi: int)
    requires RangesOk(files) && SortedDisjoint(files) && n <= |files|
    ensures 0 <= lo <= hi <= n && InRange(files[..n], r) == files[lo..hi]
    ensures lo < hi ==> Overlaps(files[lo], r)
    ensures lo < hi < n ==> !Overlaps(files[hi], r)
  {
    hide Overlaps, SortedDisjoint, RangesOk;
    if n == 0 {
      lo, hi := 0, 0;
    } else {
      lo, hi := InRangeIsRun(files, r, n - 1);
      Sequences.SliceOfTake(files, 0, n - 1, n);
      if Overlaps(files[n - 1], r) {
        if lo == hi {
          lo, hi := n - 1, n;
        } else {
          if hi < n - 1 {
            MiddleOverlaps(files, r, lo, hi, n - 1);
            assert false;
          }
          Sequences.SliceSnoc(files, lo, hi);
          hi := n;
        }
      }
    }
  }

  /** A wider range that selects as many files selects the same files. */
  lemma {:induction false} SameCountSameFiles(files: seq<File>, r: Range, wide: Range)
    requires forall f :: f in files && Overlaps(f, r) ==> Overlaps(f, wide)
    ensures |InRange(files, r)| <= |InRange(files, wide)|
    ensures |InRange(files, r)| == |InRange(files, wide)| ==> InRange(files, r) == InRange(files, wide)
  {
    if files != [] {
      var n := |files| - 1;
      assert files[n] in files;
      SameCountSameFiles(files[..n], r, wide);
    }
  }

  function TotalFileSize(files: seq<File>): nat {
    if files == [] then 0 else files[0].size + TotalFileSize(files[1..])
  }

  /** The files a user range covers all overlap it. */
  lemma RangeHoldsItsFiles(files: seq<File>, r: Range, f: File)
    requires !Less(f.largest, f.smallest) && IsUserRange(files, r) && f in files
    ensures Overlaps(f, r) && Within(f, r)
  {
  }

  lemma InRangeClosable(files: seq<File>, level: nat, r: Range, inputs: seq<File>)
    requires RangesOk(files) && (level > 0 ==> SortedDisjoint(files))
    requires inputs == InRange(files, r) && inputs != []
    requires level == 0 ==> AllWithin(inputs, r)
    ensures Closable(files, level, inputs)
  {
    if level > 0 {
      var lo, hi := InRangeIsRun(files, r, |files|);
      assert files[..|files|] == files;
    }
  }

  /** The selection with the boundary files of AddBoundaryInputs behind it, until none is left. */
  ghost predicate IsClosing(files: seq<File>, inputs: seq<File>, closed: seq<File>) {
    exists key, added :: IsLargestKey(inputs, key) && BoundaryChain(files, key, added)
                         && NoBoundary(files, End(key, added)) && closed == inputs + added
  }

  lemma LargestIsUnique(files: seq<File>, a: InternalKey, b: InternalKey)
    requires IsLargestKey(files, a) && IsLargestKey(files, b)
    ensures a == b
  {
    CompareIsTotalOrder(a, b, a);
  }

  lemma UserRangeIsUnique(files: seq<File>, r: Range, s: Range)
    requires IsUserRange(files, r) && IsUserRange(files, s)
    ensures r == s
  {
  }

  /** On a sorted level chains that are closed have one length, and files of a run. */
  lemma ClosedChainsAgree(files: seq<File>, lo: int, hi: int, inputs: seq<File>, key: InternalKey, a: seq<File>,
                          b: seq<File>)
    requires RangesOk(files) && SortedDisjoint(files) && 0 <= lo < hi <= |files| && inputs == files[lo..hi]
    requires IsLargestKey(inputs, key)
    requires BoundaryChain(files, key, a) && NoBoundary(files, End(key, a)) && BoundaryChain(files, key, b)
    ensures |b| <= |a|
  {
    hide RangesOk, SortedDisjoint, IsLargestKey, BoundaryChain;
    RunLargest(files, lo, hi, key);
    ChainIsRun(files, hi, a);
    ChainIsRun(files, hi, b);
    if |b| > |a| {
      assert b[..|a|] == files[hi..hi + |a|];
      ChainPrefix(files, key, b, |a|);
    }
  }

  /** Every file of a chain is the smallest boundary behind the files before it. */
  lemma {:induction false} ChainPrefix(files: seq<File>, key: InternalKey, added: seq<File>, n: nat)
    requires BoundaryChain(files, key, added) && n < |added|
    ensures BoundaryChain(files, key, added[..n]) && IsSmallestBoundary(files, End(key, added[..n]), added[n])
  {
    var last := |added| - 1;
    if n < last {
      ChainPrefix(files, key, added[..last], n);
      assert added[..last][..n] == added[..n];
    }
  }

  /** There is one way to close a selection. */
  lemma ClosingIsUnique(files: seq<File>, level: nat, inputs: seq<File>, a: seq<File>, b: seq<File>)
    requires RangesOk(files) && (level > 0 ==> SortedDisjoint(files)) && Closable(files, level, inputs)
    requires IsClosing(files, inputs, a) && IsClosing(files, inputs, b)
    ensures a == b
  {
    hide RangesOk, SortedDisjoint, BoundaryChain, NoBoundary, IsLargestKey;
    var key, moreA :| IsLargestKey(inputs, key) && BoundaryChain(files, key, moreA)
                      && NoBoundary(files, End(key, moreA)) && a == inputs + moreA;
    var keyB, moreB :| IsLargestKey(inputs, keyB) && BoundaryChain(files, keyB, moreB)
                       && NoBoundary(files, End(keyB, moreB)) && b == inputs + moreB;
    LargestIsUnique(inputs, key, keyB);
    if level == 0 {
      NoBoundaryAtLevelZero(files, inputs, key);
      ChainStart(files, key, moreA);
      ChainStart(files, key, moreB);
    } else {
      var lo, hi :| 0 <= lo < hi <= |files| && inputs == files[lo..hi];
      ClosedChainsAgree(files, lo, hi, inputs, key, moreA, moreB);
      ClosedChainsAgree(files, lo, hi, inputs, key, moreB, moreA);
      RunLargest(files, lo, hi, key);
      ChainIsRun(files, hi, moreA);
      ChainIsRun(files, hi, moreB);
    }
  }

  /** Close the files found: the common first half of both rounds of SetupOtherInputs. */
  method CloseInputs(files: seq<File>, level: nat, inputs: seq<File>)
    returns (closed: seq<File>, r: Range, largest: InternalKey)
    requires RangesOk(files) && (level > 0 ==> SortedDisjoint(files))
    requires inputs != [] && Closable(files, level, inputs)
    ensures inputs <= closed && Closed(files, level, closed) && IsClosing(files, inputs, closed)
    ensures IsUserRange(closed, r) && IsLargestKey(closed, largest)
  {
    var added, key := AddBoundaryInputs(files, inputs);
    BoundaryClosesInputs(files, level, inputs, key, added);
    closed := inputs + added;
    var smallest;
    smallest, largest := GetRange(closed);
    r := Range(Some(smallest.user), Some(largest.user));
  }

  /** The level files that overlap the whole range of the compaction, closed again. */
  ghost predicate IsExpanded(files: seq<File>, level: nat, inputs: seq<File>, expanded: seq<File>) {
    exists all, found :: IsUserRange(inputs, all) && Selects(files, level, all, found)
                         && IsClosing(files, found, expanded)
  }

  /** The compaction may take the expanded files: they are more, everything stays below the size limit of
      an expanded compaction, and they overlap no more files of the next level. */
  ghost predicate Grows(next: seq<File>, in0: seq<File>, in1: seq<File>, expanded: seq<File>, maxFileSize: nat) {
    && |expanded| > |in0|
    && TotalFileSize(in1) + TotalFileSize(expanded) < 25 * maxFileSize
    && exists wide :: IsUserRange(expanded, wide) && |InRange(next, wide)| == |in1|
  }

  /** The level inputs after the growth step. */
  ghost predicate IsGrown(files: seq<File>, next: seq<File>, level: nat, in0: seq<File>, in1: seq<File>,
                          maxFileSize: nat, grown: seq<File>)
  {
    if in1 == [] then grown == in0
    else exists expanded :: IsExpanded(files, level, in0 + in1, expanded)
                            && grown == if Grows(next, in0, in1, expanded, maxFileSize) then expanded else in0
  }

  /** The growth step of SetupOtherInputs: level files are added exactly when the level+1 inputs stay the
      same and the compaction stays small enough. */
  method GrowInputs(files: seq<File>, next: seq<File>, level: nat, in0: seq<File>, in1: seq<File>, ghost r: Range,
                    end: InternalKey, maxFileSize: nat)
    returns (grown: seq<File>, largest: InternalKey)
    requires RangesOk(files) && (level > 0 ==> SortedDisjoint(files)) && RangesOk(next)
    requires in0 != [] && in1 != [] && Closed(files, level, in0)
    requires IsUserRange(in0, r) && in1 == InRange(next, r) && IsLargestKey(in0, end)
    ensures IsGrown(files, next, level, in0, in1, maxFileSize, grown)
    ensures forall f :: f in in0 ==> f in grown
    ensures InputsOk(files, next, level, grown, in1) && IsLargestKey(grown, largest)
  {
    hide RangesOk, SortedDisjoint, Closed, IsExpanded, Grows, IsUserRange, IsLargestKey, TotalFileSize, InRange,
      Selects;
    var expanded0, wide, limit := ExpandedInputs(files, level, in0, in1);
    GrowthIsExact(next, in0, in1, expanded0, wide, maxFileSize);
    grown, largest := in0, end;
    if |expanded0| > |in0| && TotalFileSize(in1) + TotalFileSize(expanded0) < 25 * maxFileSize {
      var expanded1, _ := GetOverlappingInputs(next, level + 1, wide);
      if |expanded1| == |in1| {
        UserRangeGrows(in0, r, expanded0, wide);
        SameCountSameFiles(next, r, wide);
        grown, largest := expanded0, limit;
      }
    }
  }

  /** All level files overlapping the whole range of the compaction, closed again. */
  method ExpandedInputs(files: seq<File>, level: nat, in0: seq<File>, in1: seq<File>)
    returns (expanded0: seq<File>, wide: Range, limit: InternalKey)
    requires RangesOk(files) && (level > 0 ==> SortedDisjoint(files))
    requires in0 != [] && Closed(files, level, in0)
    ensures forall f :: f in in0 ==> f in expanded0
    ensures expanded0 != [] && Closed(files, level, expanded0)
    ensures IsUserRange(expanded0, wide) && IsLargestKey(expanded0, limit)
    ensures IsExpanded(files, level, in0 + in1, expanded0)
  {
    hide RangesOk, SortedDisjoint, Closed, Closable, Selects, LeastClosed, IsClosing, IsLargestKey, IsSmallestKey,
      Covers, AllWithin;
    var allStart, allLimit := GetRange(in0 + in1);
    var all := Range(Some(allStart.user), Some(allLimit.user));
    var found, used := GetOverlappingInputs(files, level, all);
    forall f | f in in0 ensures f in found {
      ClosedIsSelection(files, level, in0, f);
      RangeFindsItsFiles(files, in0 + in1, all, used, f);
    }
    assert in0[0] in found;
    InRangeClosable(files, level, used, found);
    expanded0, wide, limit := CloseInputs(files, level, found);
  }

  lemma GrowthIsExact(next: seq<File>, in0: seq<File>, in1: seq<File>, expanded: seq<File>, wide: Range,
                      maxFileSize: nat)
    requires IsUserRange(expanded, wide)
    ensures Grows(next, in0, in1, expanded, maxFileSize)
            <==> |expanded| > |in0| && TotalFileSize(in1) + TotalFileSize(expanded) < 25 * maxFileSize &&
                 |InRange(next, wide)| == |in1|
  {
    hide InRange, TotalFileSize, IsUserRange;
    forall other | IsUserRange(expanded, other) ensures other == wide {
      UserRangeIsUnique(expanded, wide, other);
    }
  }

  lemma RangeFindsItsFiles(files: seq<File>, selection: seq<File>, all: Range, used: Range, f: File)
    requires RangesOk(files) && f in files && f in selection
    requires IsUserRange(selection, all) && Covers(used, all)
    ensures f in InRange(files, used)
  {
    RangeHoldsItsFiles(selection, all, f);
    InRangeHas(files, used, f);
  }

  lemma UserRangeGrows(files: seq<File>, r: Range, more: seq<File>, wide: Range)
    requires IsUserRange(files, r) && IsUserRange(more, wide)
    requires forall f :: f in files ==> f in more
    ensures wide.begin.value <= r.begin.value && r.end.value <= wide.end.value
    ensures forall f :: Overlaps(f, r) ==> Overlaps(f, wide)
  {
  }

  /** The levels of a version, as far as choosing inputs needs them. */
  ghost predicate LevelsOk(levels: seq<seq<File>>) {
    && |levels| == NUM_LEVELS
    && (forall l :: 0 <= l < NUM_LEVELS ==> RangesOk(levels[l]))
    && (forall l :: 1 <= l < NUM_LEVELS ==> SortedDisjoint(levels[l]))
  }

  /** The inputs of a Compaction object, and what is derived from them: the level+2 files that overlap
      the whole compaction, and where the next size compaction of the level resumes. */
  datatype Chosen = Chosen(in0: seq<File>, in1: seq<File>, grandparents: seq<File>, pointer: InternalKey)

  ghost predicate ChosenOk(levels: seq<seq<File>>, level: nat, c: Chosen)
    requires |levels| == NUM_LEVELS && level + 1 < NUM_LEVELS
  {
    && InputsOk(levels[level], levels[level + 1], level, c.in0, c.in1)
    && IsLargestKey(c.in0, c.pointer)
    && AreGrandparents(levels, level, c.in0 + c.in1, c.grandparents)
  }

  /** The level+2 files that overlap the whole compaction. */
  ghost predicate AreGrandparents(levels: seq<seq<File>>, level: nat, inputs: seq<File>, found: seq<File>)
    requires |levels| == NUM_LEVELS
  {
    if level + 2 < NUM_LEVELS then exists all :: IsUserRange(inputs, all) && found == InRange(levels[level + 2], all)
    else found == []
  }

  method FindGrandparents(levels: seq<seq<File>>, level: nat, inputs: seq<File>) returns (grandparents: seq<File>)
    requires LevelsOk(levels) && inputs != []
    ensures AreGrandparents(levels, level, inputs, grandparents)
  {
    grandparents := [];
    if level + 2 < NUM_LEVELS {
      var allStart, allLimit := GetRange(inputs);
      ghost var used;
      grandparents, used :=
        GetOverlappingInputs(levels[level + 2], level + 2, Range(Some(allStart.user), Some(allLimit.user)));
      assert IsUserRange(inputs, used);
    }
  }

  /** The choice that SetupOtherInputs makes for a seed. */
  ghost predicate IsChoice(levels: seq<seq<File>>, level: nat, seed: seq<File>, maxFileSize: nat, c: Chosen)
    requires |levels| == NUM_LEVELS && level + 1 < NUM_LEVELS
  {
    && (exists base, r ::
          && IsClosing(levels[level], seed, base) && IsUserRange(base, r) && c.in1 == InRange(levels[level + 1], r)
          && IsGrown(levels[level], levels[level + 1], level, base, c.in1, maxFileSize, c.in0))
    && IsLargestKey(c.in0, c.pointer)
    && AreGrandparents(levels, level, c.in0 + c.in1, c.grandparents)
  }

  /** A seed leaves one choice. */
  lemma ChoiceIsUnique(levels: seq<seq<File>>, level: nat, seed: seq<File>, maxFileSize: nat, a: Chosen, b: Chosen)
    requires LevelsOk(levels) && level + 1 < NUM_LEVELS && Closable(levels[level], level, seed)
    requires IsChoice(levels, level, seed, maxFileSize, a) && IsChoice(levels, level, seed, maxFileSize, b)
    ensures a == b
  {
    hide IsClosing, IsUserRange, IsLargestKey, InRange, Closable, RangesOk, SortedDisjoint, IsGrown, AreGrandparents;
    var files, next := levels[level], levels[level + 1];
    var base, r :| && IsClosing(files, seed, base) && IsUserRange(base, r) && a.in1 == InRange(next, r)
                   && IsGrown(files, next, level, base, a.in1, maxFileSize, a.in0);
    var other, s :| && IsClosing(files, seed, other) && IsUserRange(other, s) && b.in1 == InRange(next, s)
                    && IsGrown(files, next, level, other, b.in1, maxFileSize, b.in0);
    ClosingIsUnique(files, level, seed, base, other);
    UserRangeIsUnique(base, r, s);
    GrownIsUnique(files, next, level, seed, base, r, a.in1, maxFileSize, a.in0, b.in0);
    LargestIsUnique(a.in0, a.pointer, b.pointer);
    GrandparentsAreUnique(levels, level, a.in0 + a.in1, a.grandparents, b.grandparents);
  }

  lemma GrandparentsAreUnique(levels: seq<seq<File>>, level: nat, inputs: seq<File>, a: seq<File>, b: seq<File>)
    requires LevelsOk(levels)
    requires AreGrandparents(levels, level, inputs, a) && AreGrandparents(levels, level, inputs, b)
    ensures a == b
  {
    hide IsUserRange, InRange;
    if level + 2 < NUM_LEVELS {
      var r :| IsUserRange(inputs, r) && a == InRange(levels[level + 2], r);
      var s :| IsUserRange(inputs, s) && b == InRange(levels[level + 2], s);
      UserRangeIsUnique(inputs, r, s);
    }
  }

  /** The expansion of a compaction is one selection. */
  lemma ExpandedIsUnique(files: seq<File>, level: nat, inputs: seq<File>, a: seq<File>, b: seq<File>)
    requires RangesOk(files) && (level > 0 ==> SortedDisjoint(files))
    requires exists f :: f in files && f in inputs
    requires IsExpanded(files, level, inputs, a) && IsExpanded(files, level, inputs, b)
    ensures a == b
  {
    hide IsClosing, IsUserRange, InRange, Selects, RangesOk, SortedDisjoint, Closable;
    var all, found :| IsUserRange(inputs, all) && Selects(files, level, all, found) && IsClosing(files, found, a);
    var other, second :| IsUserRange(inputs, other) && Selects(files, level, other, second)
                         && IsClosing(files, second, b);
    UserRangeIsUnique(inputs, all, other);
    SelectionIsUnique(files, level, all, found, second);
    var f :| f in files && f in inputs;
    SelectionIsClosable(files, level, inputs, all, found, f);
    ClosingIsUnique(files, level, found, a, b);
  }

  lemma SelectionIsClosable(files: seq<File>, level: nat, inputs: seq<File>, all: Range, found: seq<File>, f: File)
    requires RangesOk(files) && (level > 0 ==> SortedDisjoint(files)) && f in files && f in inputs
    requires IsUserRange(inputs, all) && Selects(files, level, all, found)
    ensures Closable(files, level, found)
  {
    hide LeastClosed, IsUserRange, InRange;
    if level > 0 {
      RangeHoldsItsFiles(inputs, all, f);
      InRangeHas(files, all, f);
      InRangeClosable(files, level, all, found);
    }
  }

  lemma GrownIsUnique(files: seq<File>, next: seq<File>, level: nat, seed: seq<File>, base: seq<File>, r: Range,
                      in1: seq<File>, maxFileSize: nat, a: seq<File>, b: seq<File>)
    requires RangesOk(files) && (level > 0 ==> SortedDisjoint(files)) && Closable(files, level, seed)
    requires IsClosing(files, seed, base) && IsUserRange(base, r)
    requires IsGrown(files, next, level, base, in1, maxFileSize, a)
    requires IsGrown(files, next, level, base, in1, maxFileSize, b)
    ensures a == b
  {
    hide IsExpanded, Grows, Closed, Closable, RangesOk, SortedDisjoint, IsLargestKey, BoundaryChain, NoBoundary;
    if in1 != [] {
      var key, added :| IsLargestKey(seed, key) && BoundaryChain(files, key, added)
                        && NoBoundary(files, End(key, added)) && base == seed + added;
      BoundaryClosesInputs(files, level, seed, key, added);
      RangeIsOfSome(base, r);
      ClosedIsSelection(files, level, base, base[0]);
      assert base[0] in base + in1;
      var x :| IsExpanded(files, level, base + in1, x) &&
        a == if Grows(next, base, in1, x, maxFileSize) then x else base;
      var y :| IsExpanded(files, level, base + in1, y) &&
        b == if Grows(next, base, in1, y, maxFileSize) then y else base;
      ExpandedIsUnique(files, level, base + in1, x, y);
    }
  }

  lemma RangeIsOfSome(files: seq<File>, r: Range)
    requires IsUserRange(files, r)
    ensures files != []
  {
  }

  /** SetupOtherInputs: close the level inputs, take the overlapping level+1 files, grow the level
      inputs when that leaves the level+1 inputs alone, and find the grandparents. */
  method SetupOtherInputs(levels: seq<seq<File>>, level: nat, seed: seq<File>, maxFileSize: nat) returns (c: Chosen)
    requires LevelsOk(levels) && level + 1 < NUM_LEVELS
    requires seed != [] && Closable(levels[level], level, seed)
    ensures ChosenOk(levels, level, c) && IsChoice(levels, level, seed, maxFileSize, c)
    ensures forall f :: f in seed ==> f in c.in0
  {
    hide Closed, Closable, RangesOk, SortedDisjoint, AreGrandparents, InRange, IsUserRange, IsClosing, IsExpanded,
      Grows, Selects;
    var files, next := levels[level], levels[level + 1];
    var base, range, largest := CloseInputs(files, level, seed);
    var in0 := base;
    var in1, used := GetOverlappingInputs(next, level + 1, range);
    if in1 != [] {
      in0, largest := GrowInputs(files, next, level, base, in1, range, largest, maxFileSize);
    }
    assert IsGrown(files, next, level, base, in1, maxFileSize, in0);
    hide InputsOk, IsLargestKey, LevelsOk, IsGrown;
    var grandparents := FindGrandparents(levels, level, in0 + in1);
    c := Chosen(in0, in1, grandparents, largest);
  }

  /** A size compaction resumes at the first file that ends behind the pointer, else at the first of all. */
  ghost predicate ResumesAt(files: seq<File>, pointer: Option<InternalKey>, i: nat)
    requires i < |files|
  {
    match pointer
    case None => i == 0
    case Some(p) =>
      && (forall k :: 0 <= k < i ==> !Less(p, files[k].largest))
      && (Less(p, files[i].largest) || (i == 0 && forall k :: 0 <= k < |files| ==> !Less(p, files[k].largest)))
  }

  method ResumeAt(files: seq<File>, pointer: Option<InternalKey>) returns (i: nat)
    requires files != []
    ensures i < |files| && ResumesAt(files, pointer, i)
  {
    i := 0;
    while i < |files| && pointer.Some? && !Less(pointer.value, files[i].largest)
      invariant 0 <= i <= |files|
      invariant pointer.None? ==> i == 0
      invariant pointer.Some? ==> forall k :: 0 <= k < i ==> !Less(pointer.value, files[k].largest)
    {
      i := i + 1;
    }
    if i == |files| { i := 0; }
  }

  /** Where a compaction of one file starts: at level zero with everything that overlaps, else with it alone. */
  ghost predicate StartsWith(files: seq<File>, level: nat, file: File, seed: seq<File>) {
    if level == 0 then Selects(files, 0, Range(Some(file.smallest.user), Some(file.largest.user)), seed)
    else seed == [file]
  }

  /** Why PickCompaction runs: a level is too big, or a file was sought in vain too often. */
  datatype Trigger = TooBig(level: nat) | TooManySeeks(level: nat, file: File)

  /** The file that a compaction starts with. */
  ghost predicate Triggers(levels: seq<seq<File>>, why: Trigger, pointer: Option<InternalKey>, file: File)
    requires |levels| == NUM_LEVELS && why.level < NUM_LEVELS
  {
    match why
    case TooBig(level) => exists i ::
        0 <= i < |levels[level]| && ResumesAt(levels[level], pointer, i) && levels[level][i] == file
    case TooManySeeks(_, f) => file == f
  }

  /** PickCompaction: a size compaction starts at the level's pointer, a seek compaction at its file. */
  method PickCompaction(levels: seq<seq<File>>, why: Trigger, pointer: Option<InternalKey>, maxFileSize: nat)
    returns (c: Chosen)
    requires LevelsOk(levels) && why.level + 1 < NUM_LEVELS
    requires match why case TooBig(level) => levels[level] != [] case TooManySeeks(level, file) => file in levels[level]
    ensures ChosenOk(levels, why.level, c)
    ensures exists file, seed ::
              && Triggers(levels, why, pointer, file) && StartsWith(levels[why.level], why.level, file, seed)
              && IsChoice(levels, why.level, seed, maxFileSize, c) && file in c.in0
  {
    hide ChosenOk, RangesOk, SortedDisjoint, IsChoice, Selects;
    var level, i, file := why.level, 0, levels[why.level][0];
    match why {
      case TooBig(_) =>
        i := ResumeAt(levels[level], pointer);
        file := levels[level][i];
      case TooManySeeks(_, f) =>
        file := f;
    }
    var picked := [file];
    if level == 0 {
      picked := PickLevelZero(levels[0], file);
    } else {
      ghost var k :| 0 <= k < |levels[level]| && levels[level][k] == file;
      assert picked == levels[level][k..k + 1];
    }
    c := SetupOtherInputs(levels, level, picked, maxFileSize);
    assert StartsWith(levels[level], level, file, picked);
    assert Triggers(levels, why, pointer, file);
  }

  method PickLevelZero(files: seq<File>, file: File) returns (picked: seq<File>)
    requires RangesOk(files) && file in files
    ensures file in picked && IsClosedOverlap(files, picked) && StartsWith(files, 0, file, picked)
  {
    var range := Range(Some(file.smallest.user), Some(file.largest.user));
    var used;
    picked, used := GetOverlappingInputs(files, 0, range);
    InRangeHas(files, used, file);
  }

  /** A manual compaction starts with everything that overlaps at level zero; further down with the
      overlapping files from the first on, up to the one that brings the total to the size limit. */
  ghost predicate StartsInRange(files: seq<File>, level: nat, asked: Range, limit: nat, seed: seq<File>) {
    if level == 0 then Selects(files, 0, asked, seed)
    else
      var found := InRange(files, asked);
      exists n :: 0 < n <= |found| && seed == found[..n]
                  && (n == |found| || TotalFileSize(found[..n]) >= limit)
                  && forall k :: 0 < k < n ==> TotalFileSize(found[..k]) < limit
  }

  lemma {:induction false} TotalSizeSnoc(files: seq<File>, n: nat)
    requires n < |files|
    ensures TotalFileSize(files[..n + 1]) == TotalFileSize(files[..n]) + files[n].size
  {
    if n > 0 {
      TotalSizeSnoc(files[1..], n - 1);
      assert files[..n + 1][1..] == files[1..][..n] && files[..n][1..] == files[1..][..n - 1];
    }
  }

  /** The files of a sorted level a manual compaction starts from. */
  method LimitedFiles(found: seq<File>, limit: nat) returns (n: nat)
    requires found != []
    ensures 0 < n <= |found| && forall k :: 0 < k < n ==> TotalFileSize(found[..k]) < limit
    ensures n == |found| || TotalFileSize(found[..n]) >= limit
  {
    var total, i := 0, 0;
    while i < |found|
      invariant 0 <= i <= |found| && total == TotalFileSize(found[..i])
      invariant forall k :: 0 < k <= i ==> TotalFileSize(found[..k]) < limit
    {
      TotalSizeSnoc(found, i);
      total := total + found[i].size;
      if total >= limit { return i + 1; }
      i := i + 1;
    }
    return |found|;
  }

  /** VersionSet::CompactRange: a manual compaction of a key range. */
  method CompactRange(levels: seq<seq<File>>, level: nat, asked: Range, maxFileSize: nat) returns (c: Option<Chosen>)
    requires LevelsOk(levels) && level + 1 < NUM_LEVELS
    ensures c.None? <==> forall f :: f in levels[level] ==> !Overlaps(f, asked)
    ensures c.Some? ==> ChosenOk(levels, level, c.value)
    ensures c.Some? ==> exists seed :: StartsInRange(levels[level], level, asked, maxFileSize, seed)
                                       && IsChoice(levels, level, seed, maxFileSize, c.value)
  {
    hide ChosenOk, RangesOk, SortedDisjoint, IsChoice, Selects, IsRun;
    var files := levels[level];
    var inputs, used := GetOverlappingInputs(files, level, asked);
    if inputs == [] {
      NothingInRange(files, asked, used);
      return None;
    }
    RangeFindsAsked(files, level, asked, used, inputs);
    InRangeClosable(files, level, used, inputs);
    ghost var found := inputs;
    if level > 0 {
      var n := LimitedFiles(inputs, maxFileSize);
      RunPrefix(files, inputs, n);
      inputs := inputs[..n];
    }
    assert StartsInRange(files, level, asked, maxFileSize, inputs);
    var chosen := SetupOtherInputs(levels, level, inputs, maxFileSize);
    c := Some(chosen);
  }

  /** The files found are the ones asked for, and at level zero include them. */
  lemma RangeFindsAsked(files: seq<File>, level: nat, asked: Range, used: Range, inputs: seq<File>)
    requires inputs == InRange(files, used) && inputs != [] && Covers(used, asked) && (level > 0 ==> used == asked)
    requires level == 0 ==> LeastClosed(files, asked, inputs)
    ensures exists f :: f in files && Overlaps(f, asked)
    ensures forall f :: f in files && Overlaps(f, asked) ==> f in inputs
  {
    forall f | f in files && Overlaps(f, asked) ensures f in inputs {
      InRangeHas(files, used, f);
    }
    InRangeHas(files, used, inputs[0]);
    assert inputs[0] in AsSet(inputs);
    assert (forall f :: f in files ==> !Overlaps(f, asked)) ==> OverlapClosed(files, asked, {});
  }

  lemma NothingInRange(files: seq<File>, asked: Range, used: Range)
    requires InRange(files, used) == [] && Covers(used, asked)
    ensures forall f :: f in files ==> !Overlaps(f, asked)
  {
    forall f | f in files ensures !Overlaps(f, asked) {
      InRangeHas(files, used, f);
    }
  }

  lemma RunPrefix(files: seq<File>, inputs: seq<File>, n: int)
    requires IsRun(files, inputs) && 0 < n <= |inputs|
    ensures IsRun(files, inputs[..n])
  {
    var lo, hi :| 0 <= lo < hi <= |files| && inputs == files[lo..hi];
    assert inputs[..n] == files[lo..lo + n];
  }
}
