/** The iterator over a whole database: memtables, level-zero tables and deeper levels, merged
    (DBImpl::NewInternalIterator, Version::AddIterators).  What a user sees through it at a snapshot
    is what point reads find, and over a run the map of its updates. */
module DatabaseIterator {
  import opened DbFormat
  import opened Wrappers
  import opened Versions
  import opened Cursors
  import opened InputIterator
  import opened Merging
  import Database
  import DatabaseMap
  import DbIter
  import Lookup
  import Snapshots

  // ---------------------------------------------------------------- the children

  function MemChildren(mem: seq<Entry>, imm: Option<seq<Entry>>): seq<seq<Entry>> {
    [mem] + if imm.Some? then [imm.value] else []
  }

  /** One child for every non-empty level from 1 to n - 1. */
  function LevelChildren(files: seq<seq<File>>, n: nat): seq<seq<Entry>>
    requires 1 <= n <= |files|
  {
    if n == 1 then [] else LevelChildren(files, n - 1) + LevelChild(files[n - 1])
  }

  /** The children of the memtables, of the first m level-zero files and of the levels below n. */
  function ChildrenUpto(mem: seq<Entry>, imm: Option<seq<Entry>>, files: seq<seq<File>>, m: nat,
                        n: nat): seq<seq<Entry>>
    requires 1 <= n <= |files| && m <= |files[0]|
  {
    MemChildren(mem, imm) + Tables(files[0][..m]) + LevelChildren(files, n)
  }

  ghost predicate InMemory(mem: seq<Entry>, imm: Option<seq<Entry>>, e: Entry) {
    e in mem || (imm.Some? && e in imm.value)
  }

  ghost predicate InFiles(files: seq<File>, e: Entry) {
    exists f :: f in files && e in f.entries
  }

  ghost predicate InLevels(files: seq<seq<File>>, n: nat, e: Entry)
    requires n <= |files|
  {
    exists l :: 1 <= l < n && InFiles(files[l], e)
  }

  lemma {:induction false} LevelChildrenHas(files: seq<seq<File>>, n: nat, e: Entry)
    requires 1 <= n <= |files|
    ensures HasEntry(LevelChildren(files, n), e) <==> InLevels(files, n, e)
  {
    if n > 1 {
      LevelChildrenHas(files, n - 1, e);
      LevelChildHas(files[n - 1], e);
      InBoth(LevelChildren(files, n - 1), LevelChild(files[n - 1]), e);
    }
  }

  lemma MemChildrenHas(mem: seq<Entry>, imm: Option<seq<Entry>>, e: Entry)
    ensures HasEntry(MemChildren(mem, imm), e) <==> InMemory(mem, imm, e)
  {
    assert MemChildren(mem, imm)[0] == mem;
    if imm.Some? { assert MemChildren(mem, imm)[1] == imm.value; }
  }

  lemma ChildrenUptoHas(mem: seq<Entry>, imm: Option<seq<Entry>>, files: seq<seq<File>>, m: nat, n: nat, e: Entry)
    requires 1 <= n <= |files| && m <= |files[0]|
    ensures HasEntry(ChildrenUpto(mem, imm, files, m, n), e) <==>
              InMemory(mem, imm, e) || InFiles(files[0][..m], e) || InLevels(files, n, e)
  {
    hide HasEntry, MemChildren, Tables, LevelChildren, InMemory, InFiles, InLevels;
    MemChildrenHas(mem, imm, e);
    TablesAre(files[0][..m], e);
    LevelChildrenHas(files, n, e);
    InBoth(MemChildren(mem, imm), Tables(files[0][..m]), e);
    InBoth(MemChildren(mem, imm) + Tables(files[0][..m]), LevelChildren(files, n), e);
  }

  lemma TablesAre(files: seq<File>, e: Entry)
    ensures HasEntry(Tables(files), e) <==> InFiles(files, e)
  {
    TablesHas(files, e);
  }

  // ---------------------------------------------------------------- the children are apart

  /** One more child with keys of its own. */
  lemma AppendChild(children: seq<seq<Entry>>, last: seq<Entry>)
    requires ChildrenOk(children) && Ascending(last)
    requires forall e, f :: HasEntry(children, e) && f in last ==> e.key != f.key
    ensures ChildrenOk(children + [last])
  {
    var all, n := children + [last], |children|;
    forall c ensures ChildSorted(all, c) {
      assert ChildSorted(children, c);
      assert 0 <= c < n ==> all[c] == children[c];
    }
    forall c, d | c != d ensures KeysApart(all, c, d) {
      assert KeysApart(children, c, d);
      forall i, j | In(all, c, i) && In(all, d, j) ensures all[c][i].key != all[d][j].key {
        if c < n && d < n {
          assert In(children, c, i) && In(children, d, j);
        } else if c < n {
          assert children[c][i] in children[c] && HasEntry(children, children[c][i]);
        } else {
          assert children[d][j] in children[d] && HasEntry(children, children[d][j]);
        }
      }
    }
  }

  lemma MemChildrenOk(mem: seq<Entry>, imm: Option<seq<Entry>>, v: Version)
    requires Lookup.ReadPathOk(mem, imm, v)
    ensures ChildrenOk(MemChildren(mem, imm))
  {
    SortedAscends(mem);
    NoChildrenOk();
    AppendChild([], mem);
    assert [] + [mem] == [mem];
    if imm.Some? {
      SortedAscends(imm.value);
      forall e, f | HasEntry([mem], e) && f in imm.value ensures e.key != f.key {
        assert e in mem;
      }
      AppendChild([mem], imm.value);
    }
  }

  lemma NoChildrenOk()
    ensures ChildrenOk([])
  {
  }

  /** A table entry's key is neither in memory nor in another file. */
  lemma KeyElsewhere(mem: seq<Entry>, imm: Option<seq<Entry>>, v: Version, l: int, f: File, e: Entry, x: Entry)
    requires Lookup.ReadPathOk(mem, imm, v) && 0 <= l < NUM_LEVELS && f in v.files[l] && e in f.entries
    requires x.key == e.key
    ensures !InMemory(mem, imm, x)
    ensures forall k, g :: 0 <= k < NUM_LEVELS && g in v.files[k] && x in g.entries ==> k == l && g == f
  {
    InEntries(v, l, f, e);
    forall k, g | 0 <= k < NUM_LEVELS && g in v.files[k] && x in g.entries ensures k == l && g == f {
      SameFile(v, k, g, x, l, f, e);
    }
  }

  lemma {:induction false} TablesOk(mem: seq<Entry>, imm: Option<seq<Entry>>, v: Version, m: nat)
    requires |v.files| == NUM_LEVELS && Lookup.ReadPathOk(mem, imm, v) && m <= |v.files[0]|
    ensures ChildrenOk(ChildrenUpto(mem, imm, v.files, m, 1))
  {
    hide Lookup.ReadPathOk, ChildrenOk, HasEntry, InMemory;
    var files := v.files[0];
    if m == 0 {
      MemChildrenOk(mem, imm, v);
      assert ChildrenUpto(mem, imm, v.files, 0, 1) == MemChildren(mem, imm);
    } else {
      TablesOk(mem, imm, v, m - 1);
      var before, f := ChildrenUpto(mem, imm, v.files, m - 1, 1), files[m - 1];
      LevelZeroTable(v, m - 1, mem, imm);
      forall e, x | HasEntry(before, x) && e in f.entries ensures x.key != e.key {
        if x.key == e.key {
          ChildrenUptoHas(mem, imm, v.files, m - 1, 1, x);
          KeyElsewhere(mem, imm, v, 0, f, e, x);
          NotAmongEarlier(v, m - 1, x, mem, imm);
        }
      }
      AppendChild(before, f.entries);
      assert Tables(files[..m]) == Tables(files[..m - 1]) + [f.entries];
      assert ChildrenUpto(mem, imm, v.files, m, 1) == before + [f.entries];
    }
  }

  lemma LevelZeroTable(v: Version, i: nat, mem: seq<Entry>, imm: Option<seq<Entry>>)
    requires Lookup.ReadPathOk(mem, imm, v) && i < |v.files[0]|
    ensures v.files[0][i] in v.files[0] && Ascending(v.files[0][i].entries)
  {
    assert v.files[0][i] in v.files[0];
    SortedAscends(v.files[0][i].entries);
  }

  /** An entry that only file i may hold is in no earlier file of the list. */
  lemma NotAmongEarlier(v: Version, i: nat, x: Entry, mem: seq<Entry>, imm: Option<seq<Entry>>)
    requires Lookup.ReadPathOk(mem, imm, v) && i < |v.files[0]|
    requires forall k, g :: 0 <= k < NUM_LEVELS && g in v.files[k] && x in g.entries ==> k == 0 && g == v.files[0][i]
    ensures !InFiles(v.files[0][..i], x) && !InLevels(v.files, 1, x)
  {
    forall f | f in v.files[0][..i] ensures x !in f.entries {
      var j :| 0 <= j < i && v.files[0][j] == f;
      if x in f.entries {
        assert f in v.files[0];
        ListedOnce(v.files[0], j, i);
      }
    }
  }

  lemma {:induction false} LevelsOk(mem: seq<Entry>, imm: Option<seq<Entry>>, v: Version, n: nat)
    requires Lookup.ReadPathOk(mem, imm, v) && 1 <= n <= NUM_LEVELS
    ensures ChildrenOk(ChildrenUpto(mem, imm, v.files, |v.files[0]|, n))
  {
    hide ChildrenOk, HasEntry, InMemory, TreeOk;
    Lookup.ReadPathTree(mem, imm, v);
    assert |v.files| == NUM_LEVELS by { TreeLevels(v); }
    var m := |v.files[0]|;
    if n == 1 {
      TablesOk(mem, imm, v, m);
    } else {
      LevelsOk(mem, imm, v, n - 1);
      var before, files := ChildrenUpto(mem, imm, v.files, m, n - 1), v.files[n - 1];
      if files == [] {
        assert ChildrenUpto(mem, imm, v.files, m, n) == before;
      } else {
        var child := LevelChild(files)[0];
        LevelRunAscends(v, n - 1);
        forall e, x | HasEntry(before, x) && e in child ensures x.key != e.key {
          if x.key == e.key {
            ChildrenUptoHas(mem, imm, v.files, m, n - 1, x);
            LevelKeyElsewhere(mem, imm, v, n - 1, e, x);
          }
        }
        AppendChild(before, child);
        assert ChildrenUpto(mem, imm, v.files, m, n) == before + [child];
      }
    }
  }

  lemma TreeLevels(v: Version)
    requires TreeOk(v)
    ensures |v.files| == NUM_LEVELS
  {
  }

  lemma LevelRunAscends(v: Version, l: nat)
    requires TreeOk(v) && 1 <= l < NUM_LEVELS && v.files[l] != []
    ensures Ascending(LevelChild(v.files[l])[0])
  {
    RunAscends(v.files[l], v.files[l]);
  }

  lemma LevelKeyElsewhere(mem: seq<Entry>, imm: Option<seq<Entry>>, v: Version, l: nat, e: Entry, x: Entry)
    requires Lookup.ReadPathOk(mem, imm, v) && 1 <= l < NUM_LEVELS && v.files[l] != [] && e in LevelChild(v.files[l])[0]
    requires x.key == e.key
    ensures !InMemory(mem, imm, x) && !InFiles(v.files[0][..|v.files[0]|], x) && !InLevels(v.files, l, x)
  {
    LevelIndexHas(v.files[l], |v.files[l]|, e);
    var i :| 0 <= i < |v.files[l]| && e in v.files[l][i].entries;
    KeyElsewhere(mem, imm, v, l, v.files[l][i], e, x);
    assert v.files[0][..|v.files[0]|] == v.files[0];
  }

  // ---------------------------------------------------------------- the whole database as one run

  function AllChildren(mem: seq<Entry>, imm: Option<seq<Entry>>, v: Version): seq<seq<Entry>>
    requires |v.files| == NUM_LEVELS
  {
    ChildrenUpto(mem, imm, v.files, |v.files[0]|, NUM_LEVELS)
  }

  /** The merged children are one sorted run of exactly the entries a point read can see. */
  lemma ChildrenAreAll(mem: seq<Entry>, imm: Option<seq<Entry>>, v: Version)
    requires Lookup.ReadPathOk(mem, imm, v)
    ensures |v.files| == NUM_LEVELS && ChildrenOk(AllChildren(mem, imm, v))
    ensures Sorted(MergeAll(AllChildren(mem, imm, v)))
    ensures Elements(MergeAll(AllChildren(mem, imm, v))) == Lookup.AllEntries(mem, imm, v)
  {
    hide Lookup.ReadPathOk, ChildrenOk, MergeAll, TreeOk;
    Lookup.ReadPathTree(mem, imm, v);
    TreeLevels(v);
    LevelsOk(mem, imm, v, NUM_LEVELS);
    var merged := MergeAll(AllChildren(mem, imm, v));
    MergeAllAscends(AllChildren(mem, imm, v));
    forall e ensures e in merged <==> e in Lookup.AllEntries(mem, imm, v) {
      MergeAllHas(AllChildren(mem, imm, v), e);
      ChildrenUptoHas(mem, imm, v.files, |v.files[0]|, NUM_LEVELS, e);
      AllEntriesAre(mem, imm, v, e);
    }
    Lookup.ReadPathCoherent(mem, imm, v);
    forall i, j | 0 <= i < j < |merged| ensures Precedes(merged[i].key, merged[j].key) {
      assert merged[i] in merged && merged[j] in merged && Less(merged[i].key, merged[j].key);
    }
  }

  lemma AllEntriesAre(mem: seq<Entry>, imm: Option<seq<Entry>>, v: Version, e: Entry)
    requires |v.files| == NUM_LEVELS
    ensures e in Lookup.AllEntries(mem, imm, v) <==>
              InMemory(mem, imm, e) || InFiles(v.files[0][..|v.files[0]|], e) || InLevels(v.files, NUM_LEVELS, e)
  {
    assert v.files[0][..|v.files[0]|] == v.files[0];
    forall l | 0 <= l < NUM_LEVELS ensures e in FileEntries(v.files[l]) <==> InFiles(v.files[l], e) {}
  }

  /** Version::AddIterators: level-zero tables singly, every other non-empty level as one run. */
  method AddIterators(files: seq<seq<File>>, iters: seq<seq<Entry>>) returns (list: seq<seq<Entry>>)
    requires |files| == NUM_LEVELS
    ensures list == iters + Tables(files[0]) + LevelChildren(files, NUM_LEVELS)
  {
    hide LevelChild;
    list := iters;
    var zero := files[0];
    for i := 0 to |zero|
      invariant list == iters + Tables(zero[..i])
    {
      assert Tables(zero[..i + 1]) == Tables(zero[..i]) + [zero[i].entries];
      list := list + [zero[i].entries];
    }
    assert zero[..|zero|] == zero;
    ghost var all := list;
    for level := 1 to NUM_LEVELS
      invariant list == all + LevelChildren(files, level)
    {
      if files[level] != [] {
        list := list + LevelChild(files[level]);
      } else {
        EmptyLevelChild(files[level]);
      }
      assert LevelChildren(files, level + 1) == LevelChildren(files, level) + LevelChild(files[level]);
    }
  }

  lemma EmptyLevelChild(files: seq<File>)
    requires files == []
    ensures LevelChild(files) == []
  {
  }

  /** DBImpl::NewInternalIterator. */
  method NewInternalIterator(mem: seq<Entry>, imm: Option<seq<Entry>>, v: Version) returns (it: MergingIterator)
    requires Lookup.ReadPathOk(mem, imm, v)
    ensures fresh(it) && it.Valid() && |v.files| == NUM_LEVELS && it.children == AllChildren(mem, imm, v)
    ensures Sorted(MergeAll(it.children)) && Elements(MergeAll(it.children)) == Lookup.AllEntries(mem, imm, v)
  {
    hide Lookup.ReadPathOk, ChildrenOk, MergeAll, MergingIterator.Valid, Sorted, Lookup.AllEntries, Tables,
      LevelChildren;
    ChildrenAreAll(mem, imm, v);
    var list := [mem];
    if imm.Some? { list := list + [imm.value]; }
    assert list == MemChildren(mem, imm);
    list := AddIterators(v.files, list);
    assert v.files[0][..|v.files[0]|] == v.files[0];
    assert list == AllChildren(mem, imm, v);
    it := new MergingIterator(list);
  }

  // ---------------------------------------------------------------- what the user sees

  /** The user's iterator at a snapshot shows a key with a value exactly when a point read at the
      snapshot finds that value. */
  lemma IteratorShowsReads(mem: seq<Entry>, imm: Option<seq<Entry>>, v: Version, snapshot: SequenceNumber,
                           user: UserKey)
    requires Lookup.ReadPathOk(mem, imm, v)
    ensures |v.files| == NUM_LEVELS
    ensures var merged := MergeAll(AllChildren(mem, imm, v));
            match Read(Lookup.AllEntries(mem, imm, v), user, snapshot)
            case Some(found) =>
              exists i :: DbIter.Live(merged, snapshot, i) && merged[i].key.user == user && merged[i].value == found
            case None => forall i :: DbIter.Live(merged, snapshot, i) ==> merged[i].key.user != user
  {
    hide Lookup.ReadPathOk, MergeAll, Read, Lookup.AllEntries, AllChildren;
    ChildrenAreAll(mem, imm, v);
    DbIter.LiveIsRead(MergeAll(AllChildren(mem, imm, v)), snapshot, user);
  }

  /** After any run from a new database, an iterator at a snapshot shows exactly the map as it was when
      the snapshot was taken. */
  lemma IteratorShowsMap(states: seq<Database.DB>, actions: seq<Database.Action>, k: nat, user: UserKey)
    requires Snapshots.IsRun(states, actions) && states[0] == DatabaseMap.NewDatabase() && k <= |actions|
    requires forall i :: k < i < |actions| ==> states[k].lastSequence in states[i].snapshots
    ensures var db, s := states[|actions|], states[k].lastSequence;
            |db.version.files| == NUM_LEVELS &&
            var merged := MergeAll(AllChildren(db.mem, db.imm, db.version));
            match DatabaseMap.MapGet(DatabaseMap.Applied(DatabaseMap.Written(actions[..k])), user)
            case Some(found) => exists i ::
                DbIter.Live(merged, s, i) && merged[i].key.user == user && merged[i].value == found
            case None => forall i :: DbIter.Live(merged, s, i) ==> merged[i].key.user != user
  {
    hide MergeAll, Read, Lookup.AllEntries, AllChildren, DatabaseMap.Applied, DatabaseMap.MapGet, DatabaseMap.Written,
      DatabaseMap.NewDatabase, Lookup.ReadPathOk, Database.Bounds, Database.RunningFits, Database.Next, Snapshots.Guard;
    var db, s := states[|actions|], states[k].lastSequence;
    DatabaseMap.NewDatabaseRefinesMap(states, actions, user);
    DatabaseMap.SnapshotShowsItsMoment(states, actions, k, user);
    IteratorShowsReads(db.mem, db.imm, db.version, s, user);
  }
}
