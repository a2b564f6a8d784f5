/** Point reads: memtables first, then level by level, stopping at the first hit
    (DBImpl::Get, MemTable::Get, Version::Get, FindFile). */
module Lookup {
  import opened DbFormat
  import opened Wrappers
  import opened Versions

  /** Position of the first entry at or after `key`: what every iterator's Seek finds. */
  function LowerBound(entries: seq<Entry>, key: InternalKey): (i: nat)
    ensures i <= |entries|
    ensures forall j :: 0 <= j < i ==> Less(entries[j].key, key)
    ensures i < |entries| ==> !Less(entries[i].key, key)
  {
    if entries == [] || !Less(entries[0].key, key) then 0
    else 1 + LowerBound(entries[1..], key)
  }

  /** Seek to `key` and accept the entry found there when it has the same user key
      (MemTable::Get, and Table::InternalGet with the SaveValue callback). */
  function Probe(entries: seq<Entry>, key: InternalKey): Option<Entry> {
    var i := LowerBound(entries, key);
    if i < |entries| && entries[i].key.user == key.user then Some(entries[i]) else None
  }

  /** One sorted run: a probe at the seek key finds the newest visible entry, or there is none. */
  lemma ProbeFindsNewest(entries: seq<Entry>, user: UserKey, snapshot: SequenceNumber)
    requires Sorted(entries)
    ensures match Probe(entries, SeekKey(user, snapshot))
            case None => forall o :: o in entries ==> !Visible(o, user, snapshot)
            case Some(e) => IsNewest(Elements(entries), user, snapshot, e)
  {
    var key := SeekKey(user, snapshot);
    var i := LowerBound(entries, key);
    forall j | 0 <= j < |entries| && Visible(entries[j], user, snapshot)
      ensures i <= j && entries[i].key.user == user && entries[j].key.sequence <= entries[i].key.sequence
    {
      SeekKeySplits(user, snapshot, entries[j].key);
      assert i < j ==> Precedes(entries[i].key, entries[j].key);
    }
    if i < |entries| && entries[i].key.user == user {
      SeekKeySplits(user, snapshot, entries[i].key);
    }
  }

  /** FindFile: binary search for the earliest file whose largest key is at or after `key`. */
  method FindFile(files: seq<File>, key: InternalKey) returns (index: nat)
    requires RangesOk(files) && SortedDisjoint(files)
    ensures index <= |files|
    ensures forall i :: 0 <= i < index ==> Less(files[i].largest, key)
    ensures forall i :: index <= i < |files| ==> !Less(files[i].largest, key)
  {
    var left, right := 0, |files|;
    while left < right
      invariant 0 <= left <= right <= |files|
      invariant forall i :: 0 <= i < left ==> Less(files[i].largest, key)
      invariant forall i :: right <= i < |files| ==> !Less(files[i].largest, key)
    {
      var mid := (left + right) / 2;
      LargestAscends(files);
      if Less(files[mid].largest, key) {
        left := mid + 1;
      } else {
        right := mid;
      }
    }
    index := right;
  }

  lemma LargestAscends(files: seq<File>)
    requires RangesOk(files) && SortedDisjoint(files)
    ensures forall i, j :: 0 <= i < j < |files| ==> Less(files[i].largest, files[j].largest)
  {
    forall i, j | 0 <= i < j < |files| ensures Less(files[i].largest, files[j].largest) {
      CompareIsTotalOrder(files[i].largest, files[j].smallest, files[j].largest);
    }
  }

  // ---------------------------------------------------------------- level zero: newest file first

  function InsertByNumber(f: File, files: seq<File>): (r: seq<File>)
    ensures |r| == |files| + 1
    ensures forall g :: g in r <==> g == f || g in files
  {
    if files == [] || f.number > files[0].number then [f] + files
    else [files[0]] + InsertByNumber(f, files[1..])
  }

  lemma InsertKeepsOrder(f: File, files: seq<File>)
    requires NewestNumberFirst(files)
    ensures NewestNumberFirst(InsertByNumber(f, files))
  {
    if files != [] && f.number <= files[0].number {
      InsertKeepsOrder(f, files[1..]);
      var rest := InsertByNumber(f, files[1..]);
      forall j | 0 <= j < |rest| ensures files[0].number >= rest[j].number {
        assert rest[j] in rest;
      }
    }
  }

  /** The order std::sort produces with the NewestFirst comparator. */
  function SortNewestFirst(files: seq<File>): (r: seq<File>)
    ensures |r| == |files|
    ensures forall g :: g in r <==> g in files
    ensures NewestNumberFirst(r)
  {
    if files == [] then []
    else
      var rest := SortNewestFirst(files[1..]);
      InsertKeepsOrder(files[0], rest);
      InsertByNumber(files[0], rest)
  }

  predicate NewestNumberFirst(files: seq<File>) {
    forall i, j :: 0 <= i < j < |files| ==> files[i].number >= files[j].number
  }

  predicate CoversUser(f: File, user: UserKey) {
    f.smallest.user <= user <= f.largest.user
  }

  // ---------------------------------------------------------------- Version::Get

  /** Nothing of the levels below `level` is visible. */
  ghost predicate Exhausted(v: Version, level: int, user: UserKey, snapshot: SequenceNumber) {
    forall l, f :: 0 <= l < level && l < |v.files| && f in v.files[l] ==> FileExhausted(f, user, snapshot)
  }

  ghost predicate FileExhausted(f: File, user: UserKey, snapshot: SequenceNumber) {
    forall o :: o in f.entries ==> !Visible(o, user, snapshot)
  }

  /** A visible entry that is the newest of its file is the newest of the whole version once every
      file that may hold newer data is exhausted. */
  lemma HitIsNewest(v: Version, l: int, f: File, user: UserKey, snapshot: SequenceNumber, e: Entry)
    requires TreeOk(v) && 0 <= l < NUM_LEVELS && f in v.files[l]
    requires Exhausted(v, l, user, snapshot)
    requires forall g :: g in v.files[l] && g != f ==> FileExhausted(g, user, snapshot) || NewerThan(f, g)
    requires IsNewest(Elements(f.entries), user, snapshot, e)
    ensures Newest(Entries(v), user, snapshot) == Some(e)
  {
    InEntries(v, l, f, e);
    TreeCoherent(v);
    forall o | o in Entries(v) && Visible(o, user, snapshot) ensures o.key.sequence <= e.key.sequence {
      var m, g := WhereInEntries(v, o);
      assert m < l ==> FileExhausted(g, user, snapshot);
      assert m > l ==> NewerThan(f, g);
    }
    assert IsNewest(Entries(v), user, snapshot, e);
    NewestIs(Entries(v), user, snapshot, e);
  }

  /** The level-zero files whose user-key range holds `user`, in version order. */
  method OverlappingFiles(files: seq<File>, user: UserKey) returns (tmp: seq<File>)
    ensures forall f :: f in tmp <==> f in files && CoversUser(f, user)
  {
    tmp := [];
    for n := 0 to |files|
      invariant forall f :: f in tmp <==> f in files[..n] && CoversUser(f, user)
    {
      if CoversUser(files[n], user) { tmp := tmp + [files[n]]; }
    }
  }

  /** When the search in `order` reaches position n, every other file of level zero is exhausted or older. */
  lemma LevelZeroHit(files: seq<File>, order: seq<File>, n: int, g: File, user: UserKey, snapshot: SequenceNumber)
    requires FilesOk(files) && NewestFileFirst(files)
    requires forall f, h :: f in files && h in files && f.number == h.number ==> f == h
    requires forall f :: f in order <==> f in files && CoversUser(f, user)
    requires NewestNumberFirst(order) && 0 <= n < |order|
    requires forall p :: 0 <= p < n ==> FileExhausted(order[p], user, snapshot)
    requires g in files && g != order[n]
    ensures FileExhausted(g, user, snapshot) || NewerThan(order[n], g)
  {
    assert order[n] in order;
    if CoversUser(g, user) {
      var p :| 0 <= p < |order| && order[p] == g;
      assert p > n ==> order[n].number >= g.number;
    } else {
      OutOfRangeExhausted(g, user, snapshot);
    }
  }

  /** Search level zero: the overlapping files, newest number first.  `f` is the file that answered. */
  method SearchLevelZero(files: seq<File>, user: UserKey, snapshot: SequenceNumber)
    returns (r: Option<Entry>, ghost f: Option<File>)
    requires FilesOk(files) && NewestFileFirst(files)
    requires forall g, h :: g in files && h in files && g.number == h.number ==> g == h
    ensures r.Some? == f.Some?
    ensures r.None? ==> forall g :: g in files ==> FileExhausted(g, user, snapshot)
    ensures r.Some? ==> f.value in files && IsNewest(Elements(f.value.entries), user, snapshot, r.value)
    ensures r.Some? ==> forall g :: g in files && g != f.value ==>
              FileExhausted(g, user, snapshot) || NewerThan(f.value, g)
  {
    var tmp := OverlappingFiles(files, user);
    var order := SortNewestFirst(tmp);
    var n := 0;
    while n < |order|
      invariant 0 <= n <= |order|
      invariant forall k :: 0 <= k < n ==> FileExhausted(order[k], user, snapshot)
    {
      assert order[n] in order;
      ProbeFindsNewest(order[n].entries, user, snapshot);
      r := Probe(order[n].entries, SeekKey(user, snapshot));
      if r.Some? {
        f := Some(order[n]);
        forall g | g in files && g != order[n]
          ensures FileExhausted(g, user, snapshot) || NewerThan(order[n], g)
        {
          LevelZeroHit(files, order, n, g, user, snapshot);
        }
        return;
      }
      n := n + 1;
    }
    forall g | g in files ensures FileExhausted(g, user, snapshot) {
      if CoversUser(g, user) {
        assert g in order;
      } else {
        OutOfRangeExhausted(g, user, snapshot);
      }
    }
    r, f := None, None;
  }

  lemma OutOfRangeExhausted(f: File, user: UserKey, snapshot: SequenceNumber)
    requires FileOk(f) && !CoversUser(f, user)
    ensures FileExhausted(f, user, snapshot)
  {
    forall o | o in f.entries ensures !Visible(o, user, snapshot) { FileBounds(f, o); }
  }

  /** In a sorted, disjoint level only the file found by binary search can hold a visible entry. */
  lemma OnlyFoundFileMatters(files: seq<File>, index: int, user: UserKey, snapshot: SequenceNumber, k: int)
    requires FilesOk(files) && SortedDisjoint(files) && 0 <= index <= |files|
    requires forall i :: 0 <= i < index ==> Less(files[i].largest, SeekKey(user, snapshot))
    requires forall i :: index <= i < |files| ==> !Less(files[i].largest, SeekKey(user, snapshot))
    requires 0 <= k < |files| && k != index
    ensures FileExhausted(files[k], user, snapshot) || (index < k && NewerThan(files[index], files[k]))
    ensures index < k && Probe(files[index].entries, SeekKey(user, snapshot)).None? ==>
              FileExhausted(files[k], user, snapshot)
  {
    var key := SeekKey(user, snapshot);
    forall o | o in files[k].entries && Visible(o, user, snapshot)
      ensures index < k && files[index].largest.user <= o.key.user
      ensures Probe(files[index].entries, key).Some?
    {
      SeekKeySplits(user, snapshot, o.key);
      FileBounds(files[k], o);
      assert files[index] in files && files[k] in files;
      var last := files[index].entries[|files[index].entries| - 1];
      assert last in files[index].entries;
      assert Precedes(files[index].largest, files[k].smallest);
      assert files[index].largest.user == user;
      SeekKeySplits(user, snapshot, last.key);
      ProbeFindsNewest(files[index].entries, user, snapshot);
      assert Visible(last, user, snapshot);
    }
    if index < k {
      forall x, y | x in files[index].entries && y in files[k].entries && x.key.user == y.key.user
        ensures x.key.sequence > y.key.sequence
      {
        FileBounds(files[index], x); FileBounds(files[k], y);
        assert Precedes(files[index].largest, files[k].smallest);
      }
    }
  }

  /** Search one level above zero: one file at most. */
  method GetSortedLevel(v: Version, level: nat, user: UserKey, snapshot: SequenceNumber) returns (r: Option<Entry>)
    requires TreeOk(v) && 1 <= level < NUM_LEVELS
    requires Exhausted(v, level, user, snapshot)
    ensures r.Some? ==> r == Newest(Entries(v), user, snapshot)
    ensures r.None? ==> Exhausted(v, level + 1, user, snapshot)
  {
    var files := v.files[level];
    FilesHaveRanges(files);
    var index := FindFile(files, SeekKey(user, snapshot));
    forall k | 0 <= k < |files| && k != index
      ensures FileExhausted(files[k], user, snapshot) || (index < |files| && NewerThan(files[index], files[k]))
      ensures index == |files| || Probe(files[index].entries, SeekKey(user, snapshot)).None? ==>
                FileExhausted(files[k], user, snapshot)
    {
      OnlyFoundFileMatters(files, index, user, snapshot, k);
    }
    if index >= |files| { return None; }
    var f := files[index];
    assert f in files;
    ProbeFindsNewest(f.entries, user, snapshot);
    if user < f.smallest.user {
      OutOfRangeExhausted(f, user, snapshot);
      return None;
    }
    r := Probe(f.entries, SeekKey(user, snapshot));
    if r.Some? {
      HitIsNewest(v, level, f, user, snapshot, r.value);
    }
  }

  /** Version::Get: level by level, stopping at the first hit, yet always the newest visible entry. */
  method GetFromVersion(v: Version, user: UserKey, snapshot: SequenceNumber) returns (r: Option<Entry>)
    requires TreeOk(v)
    ensures r == Newest(Entries(v), user, snapshot)
  {
    ghost var f;
    r, f := SearchLevelZero(v.files[0], user, snapshot);
    if r.Some? {
      HitIsNewest(v, 0, f.value, user, snapshot, r.value);
      return;
    }
    var level := 1;
    while level < NUM_LEVELS
      invariant 1 <= level <= NUM_LEVELS
      invariant Exhausted(v, level, user, snapshot)
    {
      r := GetSortedLevel(v, level, user, snapshot);
      if r.Some? { return; }
      level := level + 1;
    }
    forall o | o in Entries(v) ensures !Visible(o, user, snapshot) {
      var l, f := WhereInEntries(v, o);
      assert FileExhausted(f, user, snapshot);
    }
    NothingVisible(Entries(v), user, snapshot);
    r := None;
  }

  // ---------------------------------------------------------------- DBImpl::Get

  /** Everything a read can see: the memtable, the immutable memtable if any, and the version. */
  ghost function AllEntries(mem: seq<Entry>, imm: Option<seq<Entry>>, v: Version): set<Entry> {
    Elements(mem) + (if imm.Some? then Elements(imm.value) else {}) + Entries(v)
  }

  ghost predicate NewerThanVersion(run: seq<Entry>, v: Version) {
    forall x, y :: x in run && y in Entries(v) && x.key.user == y.key.user ==> x.key.sequence > y.key.sequence
  }

  /** The read-path invariant: sorted memtables, each newer than everything below it. */
  ghost predicate ReadPathOk(mem: seq<Entry>, imm: Option<seq<Entry>>, v: Version) {
    && TreeOk(v)
    && Sorted(mem)
    && NewerThanVersion(mem, v)
    && (imm.Some? ==> Sorted(imm.value) && NewerData(mem, imm.value) && NewerThanVersion(imm.value, v))
  }

  lemma ReadPathTree(mem: seq<Entry>, imm: Option<seq<Entry>>, v: Version)
    requires ReadPathOk(mem, imm, v)
    ensures TreeOk(v)
  {
  }

  lemma ReadPathCoherent(mem: seq<Entry>, imm: Option<seq<Entry>>, v: Version)
    requires ReadPathOk(mem, imm, v)
    ensures Coherent(AllEntries(mem, imm, v))
  {
    TreeCoherent(v);
    forall a, b | a in AllEntries(mem, imm, v) && b in AllEntries(mem, imm, v) &&
                  a.key.user == b.key.user && a.key.sequence == b.key.sequence
      ensures a == b
    {
      if a in mem && b in mem { SortedCoherent(mem, a, b); }
      if imm.Some? && a in imm.value && b in imm.value { SortedCoherent(imm.value, a, b); }
    }
  }

  /** DBImpl::Get: the early-exit search answers exactly the newest-visible-entry semantics over
      the union of all sources. */
  method Get(mem: seq<Entry>, imm: Option<seq<Entry>>, v: Version, user: UserKey, snapshot: SequenceNumber)
    returns (value: Option<Value>)
    requires ReadPathOk(mem, imm, v)
    ensures value == Read(AllEntries(mem, imm, v), user, snapshot)
  {
    hide TreeOk, Probe, Entries;
    ghost var all := AllEntries(mem, imm, v);
    ReadPathCoherent(mem, imm, v);
    ProbeFindsNewest(mem, user, snapshot);
    var hit := Probe(mem, SeekKey(user, snapshot));
    if hit.None? && imm.Some? {
      ProbeFindsNewest(imm.value, user, snapshot);
      hit := Probe(imm.value, SeekKey(user, snapshot));
    }
    if hit.None? {
      hit := GetFromVersion(v, user, snapshot);
      NewestCases(Entries(v), user, snapshot);
    }
    match hit {
      case Some(e) =>
        assert IsNewest(all, user, snapshot, e);
        NewestIs(all, user, snapshot, e);
        value := if e.key.kind.Value? then Some(e.value) else None;
      case None =>
        NothingVisible(all, user, snapshot);
        value := None;
    }
  }
}
