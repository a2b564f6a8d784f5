/** Files, versions and the invariant of the file tree (db/version_edit.h, db/version_set.cc). */
module Versions {
  import opened DbFormat

  const NUM_LEVELS := 7

  /** FileMetaData together with the entries of the table it names. */
  datatype File = File(number: nat, size: nat, smallest: InternalKey, largest: InternalKey, entries: seq<Entry>)

  datatype Version = Version(files: seq<seq<File>>)

  ghost predicate FileOk(f: File) {
    && |f.entries| > 0
    && Sorted(f.entries)
    && f.smallest == f.entries[0].key
    && f.largest == f.entries[|f.entries| - 1].key
  }

  ghost predicate FilesOk(files: seq<File>) {
    forall f :: f in files ==> FileOk(f)
  }

  /** All that file selection needs of the metadata. */
  ghost predicate RangesOk(files: seq<File>) {
    forall i :: 0 <= i < |files| ==> !Less(files[i].largest, files[i].smallest)
  }

  /** Levels above zero: ordered, with disjoint internal-key ranges. */
  ghost predicate SortedDisjoint(files: seq<File>) {
    forall i, j :: 0 <= i < j < |files| ==> Precedes(files[i].largest, files[j].smallest)
  }

  /** For every user key they share, `a` holds only newer entries than `b`. */
  ghost predicate NewerData(a: seq<Entry>, b: seq<Entry>) {
    forall x, y :: x in a && y in b && x.key.user == y.key.user ==> x.key.sequence > y.key.sequence
  }

  ghost predicate NewerThan(f: File, g: File) {
    NewerData(f.entries, g.entries)
  }

  /** Level zero: a higher file number means newer data. */
  ghost predicate NewestFileFirst(files: seq<File>) {
    forall f, g :: f in files && g in files && f.number > g.number ==> NewerThan(f, g)
  }

  /** A smaller level holds newer data than a larger one. */
  ghost predicate LevelsAge(files: seq<seq<File>>) {
    forall a, b, f, g :: 0 <= a < b < |files| && f in files[a] && g in files[b] ==> NewerThan(f, g)
  }

  /** A file number names one file, in one level. */
  ghost predicate NumbersDistinct(files: seq<seq<File>>) {
    forall a, b, f, g ::
        0 <= a < |files| && 0 <= b < |files| && f in files[a] && g in files[b] && f.number == g.number ==>
      a == b && f == g
  }

  /** VersionSet::Builder::BySmallestKey, the order of every level's file list. */
  predicate BySmallest(f: File, g: File) {
    Less(f.smallest, g.smallest) || (f.smallest == g.smallest && f.number < g.number)
  }

  ghost predicate Ordered(files: seq<File>) {
    forall i, j :: 0 <= i < j < |files| ==> BySmallest(files[i], files[j])
  }

  /** The tree invariant that makes reads and compactions right. */
  ghost predicate TreeOk(v: Version) {
    && |v.files| == NUM_LEVELS
    && (forall l :: 0 <= l < NUM_LEVELS ==> FilesOk(v.files[l]) && Ordered(v.files[l]))
    && (forall l :: 1 <= l < NUM_LEVELS ==> SortedDisjoint(v.files[l]))
    && NumbersDistinct(v.files)
    && NewestFileFirst(v.files[0])
    && LevelsAge(v.files)
  }

  ghost function FileEntries(files: seq<File>): set<Entry> {
    set f, e | f in files && e in f.entries :: e
  }

  ghost function Entries(v: Version): set<Entry> {
    set l, e | 0 <= l < |v.files| && e in FileEntries(v.files[l]) :: e
  }

  lemma EntryInFile(es: seq<Entry>, a: int, b: int)
    requires Sorted(es) && 0 <= a <= b < |es|
    ensures es[a].key.user <= es[b].key.user
    ensures es[a].key.user == es[b].key.user ==> es[a].key.sequence >= es[b].key.sequence
  {
    if a < b { assert Precedes(es[a].key, es[b].key); }
  }

  /** Every entry of a file lies between its bounds. */
  lemma FileBounds(f: File, e: Entry)
    requires FileOk(f) && e in f.entries
    ensures !Less(e.key, f.smallest) && !Less(f.largest, e.key)
    ensures f.smallest.user <= e.key.user <= f.largest.user
  {
    var i :| 0 <= i < |f.entries| && f.entries[i] == e;
    if i > 0 { assert Precedes(f.entries[0].key, e.key); }
    if i < |f.entries| - 1 { assert Precedes(e.key, f.entries[|f.entries| - 1].key); }
  }

  lemma FileBoundsOrdered(f: File)
    requires FileOk(f)
    ensures !Less(f.largest, f.smallest)
  {
    FileBounds(f, f.entries[0]);
  }

  lemma FilesHaveRanges(files: seq<File>)
    requires FilesOk(files)
    ensures RangesOk(files)
  {
    forall i | 0 <= i < |files| ensures !Less(files[i].largest, files[i].smallest) {
      FileBoundsOrdered(files[i]);
    }
  }

  lemma InEntries(v: Version, l: int, f: File, e: Entry)
    requires 0 <= l < |v.files| && f in v.files[l] && e in f.entries
    ensures e in Entries(v)
  {
    assert e in FileEntries(v.files[l]);
  }

  lemma WhereInEntries(v: Version, e: Entry) returns (l: int, f: File)
    requires e in Entries(v)
    ensures 0 <= l < |v.files| && f in v.files[l] && e in f.entries
  {
    l :| 0 <= l < |v.files| && e in FileEntries(v.files[l]);
    f :| f in v.files[l] && e in f.entries;
  }

  lemma DisjointCoherent(files: seq<File>, f: File, g: File, a: Entry, b: Entry)
    requires FilesOk(files) && SortedDisjoint(files) && f in files && g in files
    requires a in f.entries && b in g.entries
    requires a.key.user == b.key.user && a.key.sequence == b.key.sequence
    ensures f == g
  {
    var i :| 0 <= i < |files| && files[i] == f;
    var j :| 0 <= j < |files| && files[j] == g;
    FileBounds(f, a);
    FileBounds(g, b);
    assert i == j;
  }

  /** Entries with one user key and sequence number lie in one file. */
  lemma SameFile(v: Version, la: int, f: File, a: Entry, lb: int, g: File, b: Entry)
    requires TreeOk(v) && 0 <= la < NUM_LEVELS && 0 <= lb < NUM_LEVELS
    requires f in v.files[la] && a in f.entries && g in v.files[lb] && b in g.entries
    requires a.key.user == b.key.user && a.key.sequence == b.key.sequence
    ensures f == g
  {
    assert !NewerThan(f, g) && !NewerThan(g, f);
    if la == lb && la > 0 { DisjointCoherent(v.files[la], f, g, a, b); }
  }

  /** A well-formed tree never holds two different entries with one user key and sequence number. */
  lemma TreeCoherent(v: Version)
    requires TreeOk(v)
    ensures Coherent(Entries(v))
  {
    forall a, b | a in Entries(v) && b in Entries(v) && a.key.user == b.key.user && a.key.sequence == b.key.sequence
      ensures a == b
    {
      var la, f := WhereInEntries(v, a);
      var lb, g := WhereInEntries(v, b);
      SameFile(v, la, f, a, lb, g, b);
      SortedCoherent(f.entries, a, b);
    }
  }

  lemma SortedCoherent(es: seq<Entry>, a: Entry, b: Entry)
    requires Sorted(es) && a in es && b in es
    requires a.key.user == b.key.user && a.key.sequence == b.key.sequence
    ensures a == b
  {
    var i :| 0 <= i < |es| && es[i] == a;
    var j :| 0 <= j < |es| && es[j] == b;
  }
}
