/** Every step of the life of logs and tables keeps the invariant. */
module LifecycleSteps {
  import opened DbFormat
  import opened History
  import opened Lifecycle
  import opened Wrappers

  // ---------------------------------------------------------------- what a step leaves alone

  /** The same tables under these numbers. */
  ghost predicate TablesKept(before: map<Number, set<Entry>>, after: map<Number, set<Entry>>, files: set<Number>) {
    forall n :: n in files ==> (n in before <==> n in after) && (n in before ==> after[n] == before[n])
  }

  /** The same logs from this number on, up to what is synced. */
  ghost predicate LogsKept(before: map<Number, Log>, after: map<Number, Log>, from: Number) {
    forall n :: from <= n ==> (n in before <==> n in after) && (n in before ==> after[n].records == before[n].records)
  }

  lemma SameTableEntries(before: map<Number, set<Entry>>, after: map<Number, set<Entry>>, files: set<Number>)
    requires TablesKept(before, after, files)
    ensures TableEntries(before, files) == TableEntries(after, files)
  {
  }

  lemma SameLogEntries(before: map<Number, Log>, after: map<Number, Log>, from: Number)
    requires LogsKept(before, after, from)
    ensures LogEntries(before, from) == LogEntries(after, from)
    ensures LogsOrdered(before, from) ==> LogsOrdered(after, from)
  {
  }

  lemma SameLogsBetween(before: map<Number, Log>, after: map<Number, Log>, from: Number, to: Number)
    requires forall n :: from <= n < to ==>
               (n in before <==> n in after) && (n in before ==> after[n].records == before[n].records)
    ensures LogsBetween(before, from, to) == LogsBetween(after, from, to)
  {
  }

  lemma TableEntriesOfBoth(tables: map<Number, set<Entry>>, a: set<Number>, b: set<Number>)
    ensures TableEntries(tables, a + b) == TableEntries(tables, a) + TableEntries(tables, b)
  {
  }

  lemma SplitInputs(tables: map<Number, set<Entry>>, files: set<Number>, inputs: set<Number>)
    requires inputs <= files
    ensures TableEntries(tables, files) == TableEntries(tables, files - inputs) + TableEntries(tables, inputs)
  {
    TableEntriesOfBoth(tables, files - inputs, inputs);
    assert files == files - inputs + inputs;
  }

  lemma StillFlushedFirst(before: map<Number, Log>, after: map<Number, Log>, from: Number, flushed: set<Entry>,
                          stored: set<Entry>)
    requires FlushedFirst(before, from, flushed, stored) && LogsKept(before, after, from)
    ensures FlushedFirst(after, from, flushed, stored)
  {
    forall n, a, b | n in after && from <= n && a in flushed && b in Union(after[n].records)
      ensures a.key.sequence < b.key.sequence || (b in stored && exists m :: m in after && n < m)
    {
      if a.key.sequence >= b.key.sequence {
        var m :| m in before && n < m;
        assert m in after;
      }
    }
  }

  /** Nothing the disk part of the invariant looks at has changed. */
  lemma DiskStays(s: State, t: State)
    requires DiskOk(s) && (!Open(t) ==> t.unanswered == {})
    requires t.history + t.unanswered == s.history + s.unanswered && t.flushed == s.flushed
    requires t.manifest == s.manifest && t.manifestLast == s.manifestLast
    requires TablesKept(s.tables, t.tables, s.manifest.files) && LogsKept(s.logs, t.logs, s.manifest.log)
    ensures DiskOk(t)
  {
    hide Faithful, FlushedFirst, LogsOrdered, LogEntries, TableEntries, Numbered, UpTo, TablesKept, LogsKept;
    SameTableEntries(s.tables, t.tables, s.manifest.files);
    SameLogEntries(s.logs, t.logs, s.manifest.log);
    StillFlushedFirst(s.logs, t.logs, s.manifest.log, s.flushed, TableEntries(s.tables, s.manifest.files));
  }

  lemma SetsStay(s: State, t: State)
    requires SetsOk(s)
    requires t.history == s.history && t.unanswered == s.unanswered && t.settled == s.settled
    requires t.mem == s.mem && t.imm == s.imm && t.current == s.current && t.logfile == s.logfile
    requires TablesKept(s.tables, t.tables, s.current.files)
    requires t.logfile in t.logs && t.logs[t.logfile].records == s.logs[s.logfile].records
    requires LogsKept(s.logs, t.logs, s.current.log)
    ensures SetsOk(t)
  {
    hide Faithful, Before, TableEntries, LogsBetween, Union, TablesKept, LogsOrdered;
    SameTableEntries(s.tables, t.tables, s.current.files);
    SameLogEntries(s.logs, t.logs, s.current.log);
    SameLogsBetween(s.logs, t.logs, s.current.log, s.logfile);
  }

  /** The tables outside the inputs of the running compaction stay as they are. */
  lemma FlushedStays(s: State, t: State)
    requires FlushedOk(s) && Inputs(t.job) == Inputs(s.job)
    requires t.flushed == s.flushed && t.settled == s.settled && t.imm == s.imm && t.manifest == s.manifest
    requires TablesKept(s.tables, t.tables, s.manifest.files)
    ensures FlushedOk(t)
  {
    assert TablesKept(s.tables, t.tables, s.manifest.files - Inputs(s.job));
    SameTableEntries(s.tables, t.tables, s.manifest.files - Inputs(s.job));
  }

  lemma ExtraStays(s: State, t: State)
    requires ExtraOk(s) && Inputs(t.job) == Inputs(s.job)
    requires Paused(t.job).Some? && !t.job.CompactLogged? ==> Paused(s.job).Some? && !s.job.CompactLogged?
    requires t.imm == s.imm && t.manifest == s.manifest && t.current == s.current
    requires TablesKept(s.tables, t.tables, s.manifest.files) && TablesKept(s.tables, t.tables, s.current.files)
    ensures ExtraOk(t)
  {
    SameTableEntries(s.tables, t.tables, s.manifest.files - Inputs(s.job));
    SameTableEntries(s.tables, t.tables, s.current.files - Inputs(s.job));
  }

  /** Without an error the manifest names what the current version names. */
  lemma NoExtra(t: State)
    requires t.manifest.files == t.current.files
    ensures ExtraOk(t)
  {
  }

  /** New tables join, under their own numbers, and hold their parts. */
  lemma {:induction false} AddTablesAdds(tables: map<Number, set<Entry>>, first: Number, parts: seq<set<Entry>>)
    ensures var now := AddTables(tables, first, parts);
            forall n :: !(first <= n < first + |parts|) ==>
                (n in tables <==> n in now) && (n in tables ==> now[n] == tables[n])
    ensures forall i {:trigger parts[i]} :: 0 <= i < |parts| ==>
              PartAt(AddTables(tables, first, parts), first + i, parts[i])
  {
    if parts != [] {
      var k := |parts| - 1;
      AddTablesAdds(tables, first, parts[..k]);
      forall i | 0 <= i < k ensures PartAt(AddTables(tables, first, parts), first + i, parts[i]) {
        assert parts[..k][i] == parts[i];
        assert PartAt(AddTables(tables, first, parts[..k]), first + i, parts[i]);
      }
    }
  }

  predicate PartAt(tables: map<Number, set<Entry>>, n: Number, part: set<Entry>) {
    n in tables && tables[n] == part
  }

  lemma AddedTablesHold(tables: map<Number, set<Entry>>, first: Number, parts: seq<set<Entry>>)
    ensures var now := AddTables(tables, first, parts);
            && OnDisk(now, NumbersFrom(first, |parts|))
            && TableEntries(now, NumbersFrom(first, |parts|)) == Parts(parts)
  {
    AddTablesAdds(tables, first, parts);
    var now := AddTables(tables, first, parts);
    forall n | first <= n < first + |parts| ensures n in now && now[n] in parts {
      var i := n - first;
      assert PartAt(now, first + i, parts[i]);
    }
    forall e | e in Parts(parts) ensures e in TableEntries(now, NumbersFrom(first, |parts|)) {
      var i :| 0 <= i < |parts| && e in parts[i];
      assert PartAt(now, first + i, parts[i]) && first + i in NumbersFrom(first, |parts|);
    }
  }

  // ---------------------------------------------------------------- files and numbers

  lemma AppendLogFiles(s: State, record: Record)
    requires FilesOk(s) && Enabled(s, AppendLog(record))
    ensures FilesOk(Apply(s, AppendLog(record)))
  {
    hide TableEntries, LogEntries, Union, Readable, IsLast, DropsAllowed, Elements, Parts, AddTables, NumbersFrom;
  }

  lemma AppendFailsFiles(s: State, failed: Record, tore: bool)
    requires FilesOk(s) && Enabled(s, AppendFails(failed, tore)) && Guard(s, AppendFails(failed, tore))
    ensures FilesOk(Apply(s, AppendFails(failed, tore)))
  {
    hide TableEntries, LogEntries, Union, Readable, IsLast, DropsAllowed, Elements, Parts, AddTables, NumbersFrom;
  }

  lemma SyncLogFiles(s: State, ok: bool)
    requires FilesOk(s) && Enabled(s, SyncLog(ok))
    ensures FilesOk(Apply(s, SyncLog(ok)))
  {
    hide TableEntries, LogEntries, Union, Readable, IsLast, DropsAllowed, Elements, Parts, AddTables, NumbersFrom;
  }

  lemma InsertMemFiles(s: State)
    requires FilesOk(s) && Enabled(s, InsertMem)
    ensures FilesOk(Apply(s, InsertMem))
  {
    hide TableEntries, LogEntries, Union, Readable, IsLast, DropsAllowed, Elements, Parts, AddTables, NumbersFrom;
  }

  lemma SwitchMemFiles(s: State)
    requires FilesOk(s) && Enabled(s, SwitchMem)
    ensures FilesOk(Apply(s, SwitchMem))
  {
    hide TableEntries, LogEntries, Union, Readable, IsLast, DropsAllowed, Elements, Parts, AddTables, NumbersFrom;
  }

  lemma PinFiles(s: State)
    requires FilesOk(s) && Enabled(s, Pin)
    ensures FilesOk(Apply(s, Pin))
  {
    hide TableEntries, LogEntries, Union, Readable, IsLast, DropsAllowed, Elements, Parts, AddTables, NumbersFrom;
  }

  lemma UnpinFiles(s: State, i: nat)
    requires FilesOk(s) && Enabled(s, Unpin(i))
    ensures FilesOk(Apply(s, Unpin(i)))
  {
    hide TableEntries, LogEntries, Union, Readable, IsLast, DropsAllowed, Elements, Parts, AddTables, NumbersFrom;
  }

  lemma StartFlushFiles(s: State)
    requires FilesOk(s) && Enabled(s, StartFlush)
    ensures FilesOk(Apply(s, StartFlush))
  {
    hide TableEntries, LogEntries, Union, Readable, IsLast, DropsAllowed, Elements, Parts, AddTables, NumbersFrom;
  }

  lemma BuildTableMakesTable(s: State)
    requires FilesOk(s) && Enabled(s, BuildTable(true)) && s.imm.value != {}
    ensures FilesOk(Apply(s, BuildTable(true)))
  {
    hide TableEntries, LogEntries, Union, Readable, IsLast, DropsAllowed, Elements, Parts, AddTables, NumbersFrom;
  }

  lemma BuildTableMakesNone(s: State, ok: bool)
    requires FilesOk(s) && Enabled(s, BuildTable(ok)) && (ok ==> s.imm.value == {})
    ensures FilesOk(Apply(s, BuildTable(ok)))
  {
    hide TableEntries, LogEntries, Union, Readable, IsLast, DropsAllowed, Elements, Parts, AddTables, NumbersFrom;
  }

  lemma BuildTableFiles(s: State, ok: bool)
    requires FilesOk(s) && Enabled(s, BuildTable(ok))
    ensures FilesOk(Apply(s, BuildTable(ok)))
  {
    hide FilesOk, Apply;
    if ok && s.imm.value != {} {
      BuildTableMakesTable(s);
    } else {
      BuildTableMakesNone(s, ok);
    }
  }

  lemma LogFlushFiles(s: State, ok: bool, written: bool)
    requires FilesOk(s) && Enabled(s, LogFlush(ok, written))
    ensures FilesOk(Apply(s, LogFlush(ok, written)))
  {
    hide TableEntries, LogEntries, Union, Readable, IsLast, DropsAllowed, Elements, Parts, AddTables, NumbersFrom;
  }

  lemma InstallFlushFiles(s: State)
    requires FilesOk(s) && Enabled(s, InstallFlush)
    ensures FilesOk(Apply(s, InstallFlush))
  {
    hide TableEntries, LogEntries, Union, Readable, IsLast, DropsAllowed, Elements, Parts, AddTables, NumbersFrom;
  }

  lemma StartCompactionFiles(s: State, inputs: set<Number>)
    requires FilesOk(s) && Enabled(s, StartCompaction(inputs))
    ensures FilesOk(Apply(s, StartCompaction(inputs)))
  {
    hide TableEntries, LogEntries, Union, Readable, IsLast, DropsAllowed, Elements, Parts, AddTables, NumbersFrom;
  }

  lemma OpenOutputFiles(s: State)
    requires FilesOk(s) && Enabled(s, OpenOutput)
    ensures FilesOk(Apply(s, OpenOutput))
  {
    hide TableEntries, LogEntries, Union, Readable, IsLast, DropsAllowed, Elements, Parts, AddTables, NumbersFrom;
  }

  lemma WriteOutputFiles(s: State, number: Number, content: set<Entry>)
    requires FilesOk(s) && Enabled(s, WriteOutput(number, content))
    ensures FilesOk(Apply(s, WriteOutput(number, content)))
  {
    hide TableEntries, LogEntries, Union, Readable, IsLast, DropsAllowed, Elements, Parts, AddTables, NumbersFrom;
  }

  lemma LogCompactionFiles(s: State, ok: bool, written: bool)
    requires FilesOk(s) && Enabled(s, LogCompaction(ok, written))
    ensures FilesOk(Apply(s, LogCompaction(ok, written)))
  {
    hide TableEntries, LogEntries, Union, Readable, IsLast, DropsAllowed, Elements, Parts, AddTables, NumbersFrom;
  }

  lemma InstallCompactionFiles(s: State)
    requires FilesOk(s) && Enabled(s, InstallCompaction)
    ensures FilesOk(Apply(s, InstallCompaction))
  {
    hide TableEntries, LogEntries, Union, Readable, IsLast, DropsAllowed, Elements, Parts, AddTables, NumbersFrom;
  }

  lemma DeleteLogFiles(s: State, number: Number)
    requires FilesOk(s) && Enabled(s, DeleteLog(number))
    ensures FilesOk(Apply(s, DeleteLog(number)))
  {
    hide TableEntries, LogEntries, Union, Readable, IsLast, DropsAllowed, Elements, Parts, AddTables, NumbersFrom;
  }

  lemma DeleteTableFiles(s: State, number: Number)
    requires FilesOk(s) && Enabled(s, DeleteTable(number))
    ensures FilesOk(Apply(s, DeleteTable(number)))
  {
    hide TableEntries, LogEntries, Union, Readable, IsLast, DropsAllowed, Elements, Parts, AddTables, NumbersFrom;
  }

  lemma EndCleaningFiles(s: State)
    requires FilesOk(s) && Enabled(s, EndCleaning)
    ensures FilesOk(Apply(s, EndCleaning))
  {
    hide TableEntries, LogEntries, Union, Readable, IsLast, DropsAllowed, Elements, Parts, AddTables, NumbersFrom;
  }

  lemma CrashFiles(s: State, left: map<Number, Log>, torn: bool)
    requires FilesOk(s) && Enabled(s, Crash(left, torn))
    ensures FilesOk(Apply(s, Crash(left, torn)))
  {
    hide TableEntries, LogEntries, Union, Readable, IsLast, DropsAllowed, Elements, Parts, AddTables, NumbersFrom;
  }

  lemma ReopenFiles(s: State)
    requires FilesOk(s) && Enabled(s, Reopen)
    ensures FilesOk(Apply(s, Reopen))
  {
    hide TableEntries, LogEntries, Union, Readable, IsLast, DropsAllowed, Elements, Parts, AddTables, NumbersFrom;
  }

  lemma RecoverLogFiles(s: State, number: Number, parts: seq<set<Entry>>, top: SequenceNumber)
    requires FilesOk(s) && Enabled(s, RecoverLog(number, parts, top))
    ensures FilesOk(Apply(s, RecoverLog(number, parts, top)))
  {
    hide TableEntries, LogEntries, Union, Readable, IsLast, DropsAllowed, Elements, Parts, AddTables, NumbersFrom;
    AddTablesAdds(s.tables, s.next, parts);
    AddedTablesHold(s.tables, s.next, parts);
  }

  lemma ReuseLogFiles(s: State, number: Number, content: set<Entry>, top: SequenceNumber)
    requires FilesOk(s) && Enabled(s, ReuseLog(number, content, top)) && Guard(s, ReuseLog(number, content, top))
    ensures FilesOk(Apply(s, ReuseLog(number, content, top)))
  {
    hide TableEntries, LogEntries, Union, Readable, IsLast, DropsAllowed, Elements, Parts, AddTables, NumbersFrom;
  }

  lemma FinishReusingFiles(s: State, save: bool, keepManifest: bool)
    requires FilesOk(s) && Enabled(s, FinishRecovery(save, keepManifest)) &&
             Guard(s, FinishRecovery(save, keepManifest))
    requires s.job.reused.Some?
    ensures FilesOk(Apply(s, FinishRecovery(save, keepManifest)))
  {
    hide TableEntries, LogEntries, Union, Readable, IsLast, DropsAllowed, Elements, Parts, AddTables, NumbersFrom;
  }

  lemma FinishFreshFiles(s: State, save: bool, keepManifest: bool)
    requires FilesOk(s) && Enabled(s, FinishRecovery(save, keepManifest)) &&
             Guard(s, FinishRecovery(save, keepManifest))
    requires s.job.reused.None?
    ensures FilesOk(Apply(s, FinishRecovery(save, keepManifest)))
  {
    hide TableEntries, LogEntries, Union, Readable, IsLast, DropsAllowed, Elements, Parts, AddTables, NumbersFrom;
  }

  lemma FinishRecoveryFiles(s: State, save: bool, keepManifest: bool)
    requires FilesOk(s) && Enabled(s, FinishRecovery(save, keepManifest)) &&
             Guard(s, FinishRecovery(save, keepManifest))
    ensures FilesOk(Apply(s, FinishRecovery(save, keepManifest)))
  {
    hide FilesOk, Apply;
    if s.job.reused.Some? {
      FinishReusingFiles(s, save, keepManifest);
    } else {
      FinishFreshFiles(s, save, keepManifest);
    }
  }

  // ---------------------------------------------------------------- the disk

  /** Steps that leave the disk part of the invariant alone. */
  predicate LeavesDisk(a: Action) {
    match a
    case SyncLog(_) => true
    case Pin => true
    case Unpin(_) => true
    case StartFlush => true
    case BuildTable(_) => true
    case InstallFlush => true
    case StartCompaction(_) => true
    case OpenOutput => true
    case WriteOutput(_, _) => true
    case InstallCompaction => true
    case DeleteLog(_) => true
    case DeleteTable(_) => true
    case EndCleaning => true
    case Reopen => true
    case RecoverLog(_, _, _) => true
    case ReuseLog(_, _, _) => true
    case AppendFails(_, _) => true
    case _ => false
  }

  /** A flush or a compaction writes only tables that no version names, and no log. */
  lemma FlushWritesUnnamed(s: State, a: Action)
    requires Enabled(s, a) && ByFlush(a)
    ensures forall files :: files !! Unnamed(s.job) ==> TablesKept(s.tables, Apply(s, a).tables, files)
    ensures Apply(s, a).logs == s.logs
  {
    hide TableEntries, DropsAllowed, Elements;
  }

  lemma CompactionWritesUnnamed(s: State, a: Action)
    requires Enabled(s, a) && ByCompaction(a) && (Paused(s.job).Some? ==> CompactionOk(s, Paused(s.job).value))
    ensures forall files :: files !! Unnamed(s.job) ==> TablesKept(s.tables, Apply(s, a).tables, files)
    ensures Apply(s, a).logs == s.logs
  {
    hide TableEntries, DropsAllowed, Elements;
  }

  lemma WorkerWritesUnnamed(s: State, a: Action)
    requires JobOk(s) && Enabled(s, a) && (ByFlush(a) || ByCompaction(a))
    ensures TablesKept(s.tables, Apply(s, a).tables, s.manifest.files)
    ensures TablesKept(s.tables, Apply(s, a).tables, s.current.files)
    ensures forall i :: 0 <= i < |s.readers| ==> TablesKept(s.tables, Apply(s, a).tables, s.readers[i])
    ensures Apply(s, a).logs == s.logs
  {
    hide Apply, Enabled, TablesKept;
    if ByFlush(a) { FlushWritesUnnamed(s, a); } else { CompactionWritesUnnamed(s, a); }
  }

  /** What these steps do to the files the disk part looks at. */
  lemma NamedFilesStayByUser(s: State, a: Action)
    requires ByUser(a)
    requires FilesOk(s) && Enabled(s, a) && Guard(s, a) && LeavesDisk(a)
    ensures TablesKept(s.tables, Apply(s, a).tables, s.manifest.files)
    ensures LogsKept(s.logs, Apply(s, a).logs, s.manifest.log)
  {
    hide TableEntries, LogEntries, Union, Readable, IsLast, DropsAllowed, Elements, Parts, AddTables, NumbersFrom;
  }

  lemma NamedFilesStayOtherwise(s: State, a: Action)
    requires !ByUser(a) && !ByFlush(a) && !ByCompaction(a)
    requires FilesOk(s) && Enabled(s, a) && Guard(s, a) && LeavesDisk(a)
    ensures TablesKept(s.tables, Apply(s, a).tables, s.manifest.files)
    ensures LogsKept(s.logs, Apply(s, a).logs, s.manifest.log)
  {
    hide TableEntries, LogEntries, Union, Readable, IsLast, DropsAllowed, Elements, Parts, AddTables, NumbersFrom;
    if a.RecoverLog? { AddTablesAdds(s.tables, s.next, a.parts); }
  }

  lemma NamedFilesStay(s: State, a: Action)
    requires FilesOk(s) && Enabled(s, a) && Guard(s, a) && LeavesDisk(a)
    ensures TablesKept(s.tables, Apply(s, a).tables, s.manifest.files)
    ensures LogsKept(s.logs, Apply(s, a).logs, s.manifest.log)
  {
    hide Apply, Enabled, Guard, FilesOk, DiskOk, CountersOk, RecoveryOk, MemoryOk;
    if ByUser(a) {
      NamedFilesStayByUser(s, a);
    } else if ByFlush(a) || ByCompaction(a) {
      OpenFacts(s);
      WorkerWritesUnnamed(s, a);
    } else {
      NamedFilesStayOtherwise(s, a);
    }
  }

  lemma HistoryStaysByUser(s: State, a: Action)
    requires ByUser(a)
    requires Enabled(s, a) && Guard(s, a) && LeavesDisk(a)
    ensures var t := Apply(s, a);
            && t.history == s.history && t.unanswered == s.unanswered && t.flushed == s.flushed
            && t.manifest == s.manifest && t.manifestLast == s.manifestLast && (Open(s) ==> Open(t) || a.Reopen?)
  {
    hide TableEntries, LogEntries, Union, Readable, IsLast, DropsAllowed, Elements, Parts, AddTables, NumbersFrom;
  }

  lemma HistoryStaysByFlush(s: State, a: Action)
    requires ByFlush(a)
    requires Enabled(s, a) && Guard(s, a) && LeavesDisk(a)
    ensures var t := Apply(s, a);
            && t.history == s.history && t.unanswered == s.unanswered && t.flushed == s.flushed
            && t.manifest == s.manifest && t.manifestLast == s.manifestLast && (Open(s) ==> Open(t) || a.Reopen?)
  {
    hide Imm, Installed, TableEntries, LogEntries, Union, Readable, IsLast, DropsAllowed, Elements, Parts, AddTables,
      NumbersFrom;
  }

  lemma HistoryStaysByCompaction(s: State, a: Action)
    requires ByCompaction(a)
    requires Enabled(s, a) && Guard(s, a) && LeavesDisk(a)
    ensures var t := Apply(s, a);
            && t.history == s.history && t.unanswered == s.unanswered && t.flushed == s.flushed
            && t.manifest == s.manifest && t.manifestLast == s.manifestLast && (Open(s) ==> Open(t) || a.Reopen?)
  {
    hide TableEntries, LogEntries, Union, Readable, IsLast, DropsAllowed, Elements, Parts, AddTables, NumbersFrom;
  }

  lemma HistoryStaysOtherwise(s: State, a: Action)
    requires !ByUser(a) && !ByFlush(a) && !ByCompaction(a)
    requires Enabled(s, a) && Guard(s, a) && LeavesDisk(a)
    ensures var t := Apply(s, a);
            && t.history == s.history && t.unanswered == s.unanswered && t.flushed == s.flushed
            && t.manifest == s.manifest && t.manifestLast == s.manifestLast && (Open(s) ==> Open(t) || a.Reopen?)
  {
    hide TableEntries, LogEntries, Union, Readable, IsLast, DropsAllowed, Elements, Parts, AddTables, NumbersFrom;
  }

  lemma HistoryStays(s: State, a: Action)
    requires Enabled(s, a) && Guard(s, a) && LeavesDisk(a)
    ensures var t := Apply(s, a);
            && t.history == s.history && t.unanswered == s.unanswered && t.flushed == s.flushed
            && t.manifest == s.manifest && t.manifestLast == s.manifestLast && (Open(s) ==> Open(t) || a.Reopen?)
  {
    hide Apply, Enabled, Guard, FilesOk, DiskOk, CountersOk, RecoveryOk, MemoryOk;
    if ByUser(a) {
      HistoryStaysByUser(s, a);
    } else if ByFlush(a) {
      HistoryStaysByFlush(s, a);
    } else if ByCompaction(a) {
      HistoryStaysByCompaction(s, a);
    } else {
      HistoryStaysOtherwise(s, a);
    }
  }

  lemma LeftDiskOk(s: State, a: Action)
    requires FilesOk(s) && DiskOk(s) && Enabled(s, a) && Guard(s, a) && LeavesDisk(a)
    ensures DiskOk(Apply(s, a))
  {
    hide FilesOk, TablesKept, LogsKept, TableEntries, LogEntries, Union, Faithful, FlushedFirst, LogsOrdered,
      Numbered, UpTo,
      Apply, Guard;
    NamedFilesStay(s, a);
    HistoryStays(s, a);
    DiskStays(s, Apply(s, a));
  }

  lemma InsertMemDisk(s: State)
    requires DiskOk(s) && CountersOk(s) && Enabled(s, InsertMem)
    ensures DiskOk(Apply(s, InsertMem))
  {
    hide Faithful, FlushedFirst, LogsOrdered, Numbered, LogEntries, TableEntries, Elements;
    var t := Apply(s, InsertMem);
    assert t.history + t.unanswered == s.history + s.unanswered;
  }

  /** The entries of a log that has grown by a record. */
  lemma RecordJoins(logs: map<Number, Log>, n: Number, r: Record, from: Number)
    requires n in logs && from <= n
    ensures var now := logs[n := logs[n].(records := logs[n].records + [r])];
            && Union(now[n].records) == Union(logs[n].records) + Elements(r)
            && LogEntries(now, from) == LogEntries(logs, from) + Elements(r)
  {
    var now := logs[n := logs[n].(records := logs[n].records + [r])];
    assert r in now[n].records;
    forall e ensures e in Union(now[n].records) <==> e in Union(logs[n].records) || e in r {
      if e in Union(logs[n].records) {
        var x :| x in logs[n].records && e in x;
        assert x in now[n].records;
      }
    }
    forall e ensures e in LogEntries(now, from) <==> e in LogEntries(logs, from) || e in r {
      if e in LogEntries(logs, from) {
        var m :| m in logs && from <= m && e in Union(logs[m].records);
        assert m in now && e in Union(now[m].records);
      }
      if e in r { assert n in now && e in Union(now[n].records); }
    }
  }

  lemma NextAreNewer(r: Record, last: SequenceNumber)
    requires Follows(r, last)
    ensures forall e :: e in Elements(r) ==> last < e.key.sequence <= last + |r|
    ensures Numbered(Elements(r))
  {
    forall x, y | x in r && y in r && x.key.sequence == y.key.sequence ensures x == y {
      var i :| 0 <= i < |r| && r[i] == x;
      var j :| 0 <= j < |r| && r[j] == y;
    }
  }

  lemma AppendLogDisk(s: State, r: Record)
    requires NumbersOk(s) && DiskOk(s) && CountersOk(s) && Enabled(s, AppendLog(r))
    ensures DiskOk(Apply(s, AppendLog(r)))
  {
    hide Elements, Follows, Faithful, Union, LogEntries, FlushedFirst, LogsOrdered, TableEntries;
    var t := Apply(s, AppendLog(r));
    RecordJoins(s.logs, s.logfile, r, s.manifest.log);
    NextAreNewer(r, s.last);
    assert s.history + s.unanswered == s.history;
    AppendKeepsOrder(s.logs, s.logfile, r, s.manifest.log);
    AppendKeepsFlushedFirst(s.logs, s.logfile, r, s.manifest.log, s.flushed, TableEntries(s.tables, s.manifest.files));
  }

  /** A record newer than all the logs goes to the end of the last one. */
  lemma AppendKeepsOrder(logs: map<Number, Log>, n: Number, r: Record, from: Number)
    requires LogsOrdered(logs, from) && n in logs && from <= n && (forall m :: m in logs ==> m <= n)
    requires Before(LogEntries(logs, from), Elements(r))
    ensures LogsOrdered(logs[n := logs[n].(records := logs[n].records + [r])], from)
  {
    hide Elements, RecordsOrdered, Union;
    var now := logs[n := logs[n].(records := logs[n].records + [r])];
    RecordJoins(logs, n, r, from);
    forall k, m | k in now && m in now && from <= k < m ensures Before(Union(now[k].records), Union(now[m].records)) {
      assert k != n && Before(Union(logs[k].records), Union(logs[m].records));
      forall x | x in Union(logs[k].records) ensures x in LogEntries(logs, from) {}
    }
    forall k | k in now && from <= k ensures RecordsOrdered(now[k].records) {
      if k == n {
        forall x | x in Union(logs[n].records) ensures x in LogEntries(logs, from) {}
        RecordGoesLast(logs[n].records, r);
      }
    }
  }

  lemma RecordGoesLast(records: seq<Record>, r: Record)
    requires RecordsOrdered(records) && Before(Union(records), Elements(r))
    ensures RecordsOrdered(records + [r])
  {
    var now := records + [r];
    forall i, j | 0 <= i < j < |now| ensures Before(Elements(now[i]), Elements(now[j])) {
      if j < |records| {
        assert Before(Elements(records[i]), Elements(records[j]));
      } else {
        forall x | x in Elements(now[i]) ensures x in Union(records) {
          assert records[i] in records;
        }
      }
    }
  }

  lemma AppendKeepsFlushedFirst(logs: map<Number, Log>, n: Number, r: Record, from: Number, flushed: set<Entry>,
                                stored: set<Entry>)
    requires FlushedFirst(logs, from, flushed, stored) && n in logs && from <= n && Before(flushed, Elements(r))
    ensures FlushedFirst(logs[n := logs[n].(records := logs[n].records + [r])], from, flushed, stored)
  {
    hide Elements, Union;
    var now := logs[n := logs[n].(records := logs[n].records + [r])];
    RecordJoins(logs, n, r, from);
    forall k, a, b | k in now && from <= k && a in flushed && b in Union(now[k].records)
      ensures a.key.sequence < b.key.sequence || (b in stored && exists m :: m in now && k < m)
    {
      if a.key.sequence >= b.key.sequence {
        assert b in Union(logs[k].records);
        var m :| m in logs && k < m;
        assert m in now;
      }
    }
  }

  lemma EmptyLogJoins(logs: map<Number, Log>, n: Number, from: Number)
    requires forall m :: m in logs ==> m < n
    ensures var now := logs[n := Log([], 0, None)];
            && LogEntries(now, from) == LogEntries(logs, from) == LogsBetween(now, from, n)
            && (LogsOrdered(logs, from) ==> LogsOrdered(now, from))
  {
    var now := logs[n := Log([], 0, None)];
    NoRecords();
    assert forall m :: m in logs ==> m in now && now[m] == logs[m];
    forall e ensures e in LogEntries(now, from) <==> e in LogEntries(logs, from) {
      if e in LogEntries(logs, from) {
        var m :| m in logs && from <= m && e in Union(logs[m].records);
        assert m in now && e in Union(now[m].records);
      }
    }
  }

  lemma EmptyLogFlushedFirst(logs: map<Number, Log>, n: Number, from: Number, flushed: set<Entry>, stored: set<Entry>)
    requires FlushedFirst(logs, from, flushed, stored) && forall m :: m in logs ==> m < n
    ensures FlushedFirst(logs[n := Log([], 0, None)], from, flushed, stored)
  {
    var now := logs[n := Log([], 0, None)];
    forall k, a, b | k in now && from <= k && a in flushed && b in Union(now[k].records)
      ensures a.key.sequence < b.key.sequence || (b in stored && exists m :: m in now && k < m)
    {
      assert k in logs;
      assert n in now;
    }
  }

  lemma SwitchMemDisk(s: State)
    requires NumbersOk(s) && DiskOk(s) && Enabled(s, SwitchMem)
    ensures DiskOk(Apply(s, SwitchMem))
  {
    hide Faithful, FlushedFirst, LogsOrdered, Numbered, LogEntries, TableEntries, LogsBetween, Union;
    EmptyLogJoins(s.logs, s.next, s.manifest.log);
    EmptyLogFlushedFirst(s.logs, s.next, s.manifest.log, s.flushed, TableEntries(s.tables, s.manifest.files));
  }

  lemma NoRecords()
    ensures RecordsOrdered([]) && Union([]) == {}
  {
  }

  lemma LogHasOrder(logs: map<Number, Log>, from: Number, n: Number)
    requires LogsOrdered(logs, from) && n in logs && from <= n
    ensures RecordsOrdered(logs[n].records)
  {
  }

  /** From the last log on there are only its own entries. */
  lemma LastLogOnly(logs: map<Number, Log>, n: Number)
    requires n in logs && (forall m :: m in logs ==> m <= n) && RecordsOrdered(logs[n].records)
    ensures LogEntries(logs, n) == Union(logs[n].records)
    ensures LogsOrdered(logs, n)
  {
  }

  lemma LastLogFlushedFirst(logs: map<Number, Log>, n: Number, flushed: set<Entry>, stored: set<Entry>)
    requires n in logs && (forall m :: m in logs ==> m <= n) && Before(flushed, Union(logs[n].records))
    ensures FlushedFirst(logs, n, flushed, stored)
  {
  }

  /** A saved edit that only adds tables, and makes the last log the first one in use. */
  lemma MoreFlushed(s: State, t: State, added: set<Number>, more: set<Entry>)
    requires DiskOk(s) && TablesKept(s.tables, t.tables, s.manifest.files)
    requires t.manifest.files == s.manifest.files + added && TableEntries(t.tables, added) == more
    requires t.flushed == s.flushed + more && Newer(TableEntries(s.tables, s.manifest.files), s.flushed, more)
    requires t.manifest.log in t.logs && forall m :: m in t.logs ==> m <= t.manifest.log
    requires RecordsOrdered(t.logs[t.manifest.log].records)
    requires Before(t.flushed, Union(t.logs[t.manifest.log].records))
    requires t.history + t.unanswered == t.flushed + Union(t.logs[t.manifest.log].records) == s.history + s.unanswered
    requires UpTo(t.flushed, t.manifestLast) && (!Open(t) ==> t.unanswered == {})
    ensures DiskOk(t)
  {
    hide LogEntries, TableEntries, Union, LogsOrdered, RecordsOrdered, FlushedFirst, Faithful, Newer, TablesKept,
      Before, Numbered,
      UpTo;
    SameTableEntries(s.tables, t.tables, s.manifest.files);
    TableEntriesOfBoth(t.tables, s.manifest.files, added);
    LastLogOnly(t.logs, t.manifest.log);
    LastLogFlushedFirst(t.logs, t.manifest.log, t.flushed, TableEntries(t.tables, t.manifest.files));
    AddNewer(TableEntries(s.tables, s.manifest.files), s.flushed, more);
  }

  /** The memtable of a flush is newer than what was flushed before. */
  lemma ImmIsNewer(s: State)
    requires Before(s.settled, Imm(s)) && FlushedOk(s)
    ensures s.flushed + Imm(s) == s.settled + Imm(s)
    ensures Newer(TableEntries(s.tables, s.manifest.files), s.flushed, Imm(s))
  {
  }

  lemma LogFlushDisk(s: State, ok: bool)
    requires FilesOk(s) && DiskOk(s) && MemoryOk(s) && CountersOk(s) && Enabled(s, LogFlush(ok, true))
    ensures DiskOk(Apply(s, LogFlush(ok, true)))
  {
    hide LogEntries, TableEntries, LogsBetween, Union, LogsOrdered, FlushedFirst, ExtraOk, JobOk, TablesOk,
      ManifestOk, LogsOk,
      FlushedOk, Faithful, Before, Numbered;
    var t := Apply(s, LogFlush(ok, true));
    assert t.manifest.files == s.manifest.files + s.job.tables;
    ImmIsNewer(s);
    LogHasOrder(s.logs, s.manifest.log, s.logfile);
    MoreFlushed(s, t, s.job.tables, Imm(s));
  }

  /** A compaction replaced its inputs in the manifest. */
  lemma CompactedDisk(s: State, t: State, inputs: set<Number>, outputs: set<Number>)
    requires DiskOk(s) && inputs <= s.manifest.files && t.manifest.files == s.manifest.files - inputs + outputs
    requires t.tables == s.tables && t.logs == s.logs && t.flushed == s.flushed && t.history == s.history
    requires t.unanswered == s.unanswered && Open(s) && Open(t) && UpTo(t.flushed, t.manifestLast)
    requires MayDrop(TableEntries(s.tables, s.manifest.files - inputs), TableEntries(s.tables, inputs),
                     TableEntries(s.tables, outputs))
    requires s.flushed + LogEntries(s.logs, t.manifest.log) == s.history + s.unanswered
    requires LogsOrdered(s.logs, t.manifest.log)
    requires FlushedFirst(s.logs, t.manifest.log, s.flushed, TableEntries(s.tables, t.manifest.files))
    ensures DiskOk(t)
  {
    hide LogEntries, TableEntries, Union, LogsOrdered, FlushedFirst, Faithful, MayDrop, Numbered, UpTo;
    SplitInputs(s.tables, s.manifest.files, inputs);
    TableEntriesOfBoth(s.tables, s.manifest.files - inputs, outputs);
    assert Numbered(s.flushed) by { NumberedPart(s.history + s.unanswered, s.flushed); }
    DropKeepsFaithful(TableEntries(s.tables, s.manifest.files - inputs), TableEntries(s.tables, inputs),
                      TableEntries(s.tables, outputs), s.flushed);
  }

  lemma NumberedPart(data: set<Entry>, part: set<Entry>)
    requires Numbered(data) && part <= data
    ensures Numbered(part)
  {
  }

  /** What may be dropped next to the current version may be dropped next to the manifest, which can only
      name newer tables beyond it. */
  lemma DropsAllowedOnDisk(s: State, c: Compaction)
    requires DropsAllowed(s, c) && Before(s.settled, Imm(s))
    requires Faithful(TableEntries(s.tables, s.current.files), s.settled) && c.inputs <= s.current.files
    requires TableEntries(s.tables, s.manifest.files - c.inputs) <=
             TableEntries(s.tables, s.current.files - c.inputs) + Imm(s)
    ensures MayDrop(TableEntries(s.tables, s.manifest.files - c.inputs), TableEntries(s.tables, c.inputs),
                    TableEntries(s.tables, c.outputs))
  {
    hide TableEntries;
    SplitInputs(s.tables, s.current.files, c.inputs);
    var here, there, input, kept := TableEntries(s.tables, s.current.files - c.inputs),
        TableEntries(s.tables, s.manifest.files - c.inputs), TableEntries(s.tables, c.inputs),
          TableEntries(s.tables, c.outputs);
    forall e | e in input && e !in kept ensures Superseded(input, e) || Obsolete(there + kept, e) {
      assert Superseded(input, e) || Obsolete(here + kept, e);
    }
  }

  /** The logs from the current version's on hold both memtables. */
  lemma CurrentLogs(s: State)
    requires NumbersOk(s) && Open(s) && SetsOk(s)
    ensures LogEntries(s.logs, s.current.log) == Imm(s) + s.mem + s.unanswered
  {
    assert LogEntries(s.logs, s.current.log) ==
           LogsBetween(s.logs, s.current.log, s.logfile) + Union(s.logs[s.logfile].records);
  }

  lemma LogOfCurrent(s: State, n: Number, b: Entry)
    requires NumbersOk(s) && Open(s) && SetsOk(s) && n in s.logs && s.current.log <= n && b in Union(s.logs[n].records)
    ensures if n < s.logfile then b in Imm(s) else b in s.mem + s.unanswered
  {
    hide Union, Faithful, Before, LogsOrdered, TableEntries;
    if n < s.logfile { assert b in LogsBetween(s.logs, s.current.log, s.logfile); }
  }

  /** The logs from the current version's on are newer than what is flushed or, when a logged flush was
      not installed, in the manifest's tables too. */
  lemma CurrentLogsFlushedFirst(s: State, stored: set<Entry>)
    requires NumbersOk(s) && Open(s) && SetsOk(s) && FlushedOk(s)
    requires s.flushed != s.settled ==> Imm(s) <= stored
    ensures FlushedFirst(s.logs, s.current.log, s.flushed, stored)
  {
    hide Union, Faithful, LogsOrdered, TableEntries, LogsBetween;
    assert s.logfile in s.logs;
    forall n, a, b | n in s.logs && s.current.log <= n && a in s.flushed && b in Union(s.logs[n].records)
      ensures a.key.sequence < b.key.sequence || (b in stored && exists m :: m in s.logs && n < m)
    {
      LogOfCurrent(s, n, b);
    }
  }

  lemma LogCompactionDisk(s: State, ok: bool)
    requires FilesOk(s) && DiskOk(s) && MemoryOk(s) && CountersOk(s) && Enabled(s, LogCompaction(ok, true))
    ensures DiskOk(Apply(s, LogCompaction(ok, true)))
  {
    hide LogEntries, TableEntries, LogsBetween, Union, LogsOrdered, FlushedFirst, TablesOk, LogsOk, UnnamedOk, Faithful,
      Before, Numbered, MayDrop;
    var t, c := Apply(s, LogCompaction(ok, true)), s.job.c;
    DropsAllowedOnDisk(s, c);
    CurrentLogs(s);
    SetsOrdered(s);
    CompactionCoversImm(s, c);
    CurrentLogsFlushedFirst(s, TableEntries(s.tables, t.manifest.files));
    assert s.flushed + LogEntries(s.logs, s.current.log) == s.history + s.unanswered;
    CompactedDisk(s, t, c.inputs, c.outputs);
  }

  lemma SetsOrdered(s: State)
    requires SetsOk(s)
    ensures LogsOrdered(s.logs, s.current.log)
  {
  }

  lemma CompactionCoversImm(s: State, c: Compaction)
    requires FlushedOk(s) && Inputs(s.job) == c.inputs
    ensures s.flushed != s.settled ==> Imm(s) <= TableEntries(s.tables, s.manifest.files - c.inputs + c.outputs)
  {
    TableEntriesOfBoth(s.tables, s.manifest.files - c.inputs, c.outputs);
  }

  /** A crash takes away what the cut logs held, unless the manifest accounts for it. */
  lemma CrashDisk(s: State, left: map<Number, Log>, torn: bool)
    requires DiskOk(s) && Enabled(s, Crash(left, torn))
    ensures DiskOk(Apply(s, Crash(left, torn)))
  {
    hide Faithful, TableEntries;
    var from := s.manifest.log;
    forall n | n in left ensures Union(left[n].records) <= Union(s.logs[n].records) {
      assert forall r :: r in left[n].records ==> r in s.logs[n].records;
    }
    assert LogEntries(left, from) <= LogEntries(s.logs, from);
    NumberedPart(s.history + s.unanswered, s.flushed + LogEntries(left, from));
    LeftLogsOrdered(s.logs, left, from);
    LeftLogsFlushedFirst(s.logs, left, from, s.flushed, TableEntries(s.tables, s.manifest.files));
  }

  lemma LeftLogsOrdered(logs: map<Number, Log>, left: map<Number, Log>, from: Number)
    requires LogsOrdered(logs, from) && left.Keys == logs.Keys
    requires forall n :: n in left ==>
               left[n].records <= logs[n].records && Union(left[n].records) <= Union(logs[n].records)
    ensures LogsOrdered(left, from)
  {
    hide Union;
    forall n | n in left && from <= n ensures RecordsOrdered(left[n].records) {
      assert forall i :: 0 <= i < |left[n].records| ==> left[n].records[i] == logs[n].records[i];
    }
    forall n, m | n in left && m in left && from <= n < m
      ensures Before(Union(left[n].records), Union(left[m].records))
    {
      assert n in logs && m in logs && Before(Union(logs[n].records), Union(logs[m].records));
    }
  }

  lemma LeftLogsFlushedFirst(logs: map<Number, Log>, left: map<Number, Log>, from: Number, flushed: set<Entry>,
                             stored: set<Entry>)
    requires FlushedFirst(logs, from, flushed, stored) && left.Keys == logs.Keys
    requires forall n :: n in left ==> Union(left[n].records) <= Union(logs[n].records)
    ensures FlushedFirst(left, from, flushed, stored)
  {
    hide Union;
    forall n, a, b | n in left && from <= n && a in flushed && b in Union(left[n].records)
      ensures a.key.sequence < b.key.sequence || (b in stored && exists m :: m in left && n < m)
    {
      assert n in logs && b in Union(logs[n].records);
      if a.key.sequence >= b.key.sequence {
        var m :| m in logs && n < m;
        assert m in left;
      }
    }
  }

  // ---------------------------------------------------------------- recovery

  /** What recovery has dealt with is what its tables and the memtable hold; it is newer than the flushed
      history or in the manifest's tables. */
  lemma RecoveredIsNewer(s: State, more: set<Entry>)
    requires DiskOk(s) && more <= LogEntries(s.logs, s.manifest.log)
    ensures Newer(TableEntries(s.tables, s.manifest.files), s.flushed, more)
  {
    hide Faithful, Union;
    forall p, q | p in more && q in s.flushed && q !in more
      ensures q.key.sequence < p.key.sequence || p in TableEntries(s.tables, s.manifest.files)
    {
      var n :| n in s.logs && s.manifest.log <= n && p in Union(s.logs[n].records);
    }
  }

  /** With every log dealt with, the recovered tables and the memtable hold the live logs. */
  lemma RecoveredAll(s: State)
    requires JobOk(s) && RecoveryOk(s) && s.job.Recovering? && s.job.todo == {}
    ensures TableEntries(s.tables, s.job.added) + s.mem == LogEntries(s.logs, s.manifest.log)
  {
    hide Union;
    match s.job.reused {
      case None =>
        assert DoneEntries(s.logs, s.manifest.log, {}) == LogEntries(s.logs, s.manifest.log);
      case Some(n) =>
        assert LogEntries(s.logs, s.manifest.log) == LogsBetween(s.logs, s.manifest.log, n) + Union(s.logs[n].records);
    }
  }

  /** The log that is used again is newer than everything else. */
  lemma ReusedIsNewest(s: State)
    requires JobOk(s) && DiskOk(s) && RecoveryOk(s) && s.job.Recovering? && s.job.reused.Some?
    ensures Before(s.flushed + TableEntries(s.tables, s.job.added), s.mem)
  {
    hide Union, Faithful;
    var n := s.job.reused.value;
    forall a, b | a in s.flushed + TableEntries(s.tables, s.job.added) && b in s.mem
      ensures a.key.sequence < b.key.sequence
    {
      if a in s.flushed {
        assert b in Union(s.logs[n].records);
      } else {
        var k :| k in s.logs && s.manifest.log <= k < n && a in Union(s.logs[k].records);
        assert Before(Union(s.logs[k].records), Union(s.logs[n].records));
      }
    }
  }

  lemma FinishRecoveryDisk(s: State, save: bool, keepManifest: bool)
    requires FilesOk(s) && DiskOk(s) && RecoveryOk(s)
    requires Enabled(s, FinishRecovery(save, keepManifest)) && Guard(s, FinishRecovery(save, keepManifest))
    ensures DiskOk(Apply(s, FinishRecovery(save, keepManifest)))
  {
    if save {
      FinishSavedDisk(s, keepManifest);
    } else {
      FinishUnsavedDisk(s, keepManifest);
    }
  }

  lemma FinishUnsavedDisk(s: State, keepManifest: bool)
    requires NumbersOk(s) && JobOk(s) && DiskOk(s) && RecoveryOk(s)
    requires Enabled(s, FinishRecovery(false, keepManifest)) && Guard(s, FinishRecovery(false, keepManifest))
    ensures DiskOk(Apply(s, FinishRecovery(false, keepManifest)))
  {
    hide Faithful, FlushedFirst, LogsOrdered, Numbered, LogEntries, TableEntries, LogsBetween, Union, UpTo;
    var t := Apply(s, FinishRecovery(false, keepManifest));
    if s.job.reused.None? {
      EmptyLogJoins(s.logs, s.next, s.manifest.log);
      EmptyLogFlushedFirst(s.logs, s.next, s.manifest.log, s.flushed, TableEntries(s.tables, s.manifest.files));
    }
  }

  lemma FinishSavedDisk(s: State, keepManifest: bool)
    requires NumbersOk(s) && JobOk(s) && DiskOk(s) && RecoveryOk(s)
    requires Enabled(s, FinishRecovery(true, keepManifest)) && Guard(s, FinishRecovery(true, keepManifest))
    ensures DiskOk(Apply(s, FinishRecovery(true, keepManifest)))
  {
    hide Faithful, FlushedFirst, LogsOrdered, Numbered, LogEntries, TableEntries, LogsBetween, Before, Newer;
    var t, more := Apply(s, FinishRecovery(true, keepManifest)), TableEntries(s.tables, s.job.added);
    RecoveredAll(s);
    RecoveredIsNewer(s, more);
    RecoveredUpTo(s);
    LastLogAfterRecovery(s, t, more);
    assert t.manifest.files == s.manifest.files + s.job.added;
    MoreFlushed(s, t, s.job.added, more);
  }

  lemma RecoveredUpTo(s: State)
    requires RecoveryOk(s) && s.job.Recovering? && s.job.todo == {}
    requires TableEntries(s.tables, s.job.added) + s.mem == LogEntries(s.logs, s.manifest.log)
    ensures UpTo(s.flushed + TableEntries(s.tables, s.job.added), s.last)
  {
    hide TableEntries, Union;
    forall e | e in LogEntries(s.logs, s.manifest.log) ensures e.key.sequence <= s.last {
      assert e in DoneEntries(s.logs, s.manifest.log, {});
    }
  }

  /** After recovery the last log is the reused one, or new and empty. */
  lemma LastLogAfterRecovery(s: State, t: State, more: set<Entry>)
    requires NumbersOk(s) && JobOk(s) && DiskOk(s) && RecoveryOk(s) && s.job.Recovering? && s.job.todo == {}
    requires more == TableEntries(s.tables, s.job.added)
    requires if s.job.reused.Some? then t.logs == s.logs && t.logfile == s.job.reused.value
             else t.logs == s.logs[s.next := Log([], 0, None)] && t.logfile == s.next
    ensures t.logfile in t.logs && (forall m :: m in t.logs ==> m <= t.logfile)
    ensures Union(t.logs[t.logfile].records) == s.mem && RecordsOrdered(t.logs[t.logfile].records)
    ensures Before(s.flushed + more, s.mem)
  {
    hide Faithful, TableEntries, LogEntries, LogsBetween, FlushedFirst, RecordsOrdered;
    if s.job.reused.None? { NoRecords(); }
    if s.job.reused.Some? { ReusedIsNewest(s); }
  }

  // ---------------------------------------------------------------- the memory

  /** Steps that change nothing the memory part of the invariant looks at, except the stage of the job. */
  predicate LeavesMemory(a: Action) {
    match a
    case AppendFails(_, _) => true
    case SyncLog(_) => true
    case Pin => true
    case Unpin(_) => true
    case StartFlush => true
    case BuildTable(_) => true
    case OpenOutput => true
    case WriteOutput(_, _) => true
    case DeleteLog(_) => true
    case DeleteTable(_) => true
    case EndCleaning => true
    case _ => false
  }

  lemma CurrentFilesStayByUser(s: State, a: Action)
    requires ByUser(a)
    requires FilesOk(s) && Enabled(s, a) && Guard(s, a) && LeavesMemory(a)
    ensures TablesKept(s.tables, Apply(s, a).tables, s.current.files)
    ensures TablesKept(s.tables, Apply(s, a).tables, s.manifest.files)
    ensures LogsKept(s.logs, Apply(s, a).logs, s.current.log)
  {
    hide TableEntries, LogEntries, Union, Readable, IsLast, DropsAllowed, Elements;
  }

  lemma CurrentFilesStayOtherwise(s: State, a: Action)
    requires !ByUser(a) && !ByFlush(a) && !ByCompaction(a)
    requires FilesOk(s) && Enabled(s, a) && Guard(s, a) && LeavesMemory(a)
    ensures TablesKept(s.tables, Apply(s, a).tables, s.current.files)
    ensures TablesKept(s.tables, Apply(s, a).tables, s.manifest.files)
    ensures LogsKept(s.logs, Apply(s, a).logs, s.current.log)
  {
    hide TableEntries, LogEntries, Union, Readable, IsLast, DropsAllowed, Elements;
  }

  lemma CurrentFilesStay(s: State, a: Action)
    requires FilesOk(s) && Enabled(s, a) && Guard(s, a) && LeavesMemory(a)
    ensures TablesKept(s.tables, Apply(s, a).tables, s.current.files)
    ensures TablesKept(s.tables, Apply(s, a).tables, s.manifest.files)
    ensures LogsKept(s.logs, Apply(s, a).logs, s.current.log)
  {
    hide Apply, Enabled, Guard, FilesOk, DiskOk, CountersOk, RecoveryOk, MemoryOk;
    if ByUser(a) {
      CurrentFilesStayByUser(s, a);
    } else if ByFlush(a) || ByCompaction(a) {
      OpenFacts(s);
      WorkerWritesUnnamed(s, a);
    } else {
      CurrentFilesStayOtherwise(s, a);
    }
  }

  lemma MemoryFieldsStayByUser(s: State, a: Action)
    requires ByUser(a)
    requires Enabled(s, a) && Guard(s, a) && LeavesMemory(a) && Open(s)
    ensures var t := Apply(s, a);
            && Open(t) && t.history == s.history && t.unanswered == s.unanswered && t.settled == s.settled &&
               t.flushed == s.flushed
            && t.mem == s.mem && t.imm == s.imm && t.current == s.current && t.logfile == s.logfile &&
               t.manifest == s.manifest
  {
    hide TableEntries, LogEntries, Union, Readable, IsLast, DropsAllowed, Elements;
  }

  lemma MemoryFieldsStayByFlush(s: State, a: Action)
    requires ByFlush(a)
    requires Enabled(s, a) && Guard(s, a) && LeavesMemory(a) && Open(s)
    ensures var t := Apply(s, a);
            && Open(t) && t.history == s.history && t.unanswered == s.unanswered && t.settled == s.settled &&
               t.flushed == s.flushed
            && t.mem == s.mem && t.imm == s.imm && t.current == s.current && t.logfile == s.logfile &&
               t.manifest == s.manifest
  {
    hide TableEntries, LogEntries, Union, Readable, IsLast, DropsAllowed, Elements;
  }

  lemma MemoryFieldsStayByCompaction(s: State, a: Action)
    requires ByCompaction(a)
    requires Enabled(s, a) && Guard(s, a) && LeavesMemory(a) && Open(s)
    ensures var t := Apply(s, a);
            && Open(t) && t.history == s.history && t.unanswered == s.unanswered && t.settled == s.settled &&
               t.flushed == s.flushed
            && t.mem == s.mem && t.imm == s.imm && t.current == s.current && t.logfile == s.logfile &&
               t.manifest == s.manifest
  {
    hide TableEntries, LogEntries, Union, Readable, IsLast, DropsAllowed, Elements;
  }

  lemma MemoryFieldsStayOtherwise(s: State, a: Action)
    requires !ByUser(a) && !ByFlush(a) && !ByCompaction(a)
    requires Enabled(s, a) && Guard(s, a) && LeavesMemory(a) && Open(s)
    ensures var t := Apply(s, a);
            && Open(t) && t.history == s.history && t.unanswered == s.unanswered && t.settled == s.settled &&
               t.flushed == s.flushed
            && t.mem == s.mem && t.imm == s.imm && t.current == s.current && t.logfile == s.logfile &&
               t.manifest == s.manifest
  {
    hide TableEntries, LogEntries, Union, Readable, IsLast, DropsAllowed, Elements;
  }

  lemma MemoryFieldsStay(s: State, a: Action)
    requires Enabled(s, a) && Guard(s, a) && LeavesMemory(a) && Open(s)
    ensures var t := Apply(s, a);
            && Open(t) && t.history == s.history && t.unanswered == s.unanswered && t.settled == s.settled &&
               t.flushed == s.flushed
            && t.mem == s.mem && t.imm == s.imm && t.current == s.current && t.logfile == s.logfile &&
               t.manifest == s.manifest
  {
    hide Apply, Enabled, Guard, FilesOk, DiskOk, CountersOk, RecoveryOk, MemoryOk;
    if ByUser(a) {
      MemoryFieldsStayByUser(s, a);
    } else if ByFlush(a) {
      MemoryFieldsStayByFlush(s, a);
    } else if ByCompaction(a) {
      MemoryFieldsStayByCompaction(s, a);
    } else {
      MemoryFieldsStayOtherwise(s, a);
    }
  }

  lemma JobStageStays(s: State, a: Action)
    requires Enabled(s, a) && LeavesMemory(a) && Open(s)
    ensures var t := Apply(s, a); Inputs(t.job) == Inputs(s.job)
    ensures var t := Apply(s, a);
            Paused(t.job).Some? && !t.job.CompactLogged? ==> Paused(s.job).Some? && !s.job.CompactLogged?
  {
    hide TableEntries, LogEntries, Union, Readable, IsLast, DropsAllowed, Elements;
  }

  lemma BuiltTableHolds(tables: map<Number, set<Entry>>, n: Number, content: set<Entry>)
    ensures TableEntries(tables[n := content], {n}) == content
    ensures TableEntries(tables, {}) == {}
  {
    assert n in {n} && n in tables[n := content];
  }

  lemma ContentsStayByUser(s: State, a: Action)
    requires ByUser(a)
    requires JobOk(s) && ContentsOk(s) && Enabled(s, a) && Guard(s, a) && LeavesMemory(a) && Open(s)
    ensures ContentsOk(Apply(s, a))
  {
    hide LogEntries, Union, Readable, IsLast, Elements;
  }

  lemma ContentsStayByFlush(s: State, a: Action)
    requires ByFlush(a)
    requires JobOk(s) && ContentsOk(s) && Enabled(s, a) && Guard(s, a) && LeavesMemory(a) && Open(s)
    ensures ContentsOk(Apply(s, a))
  {
    hide LogEntries, Union, Readable, IsLast, Elements;
    var t := Apply(s, a);
    if a.BuildTable? && t.job.FlushBuilt? {
      BuiltTableHolds(s.tables, s.job.number, s.imm.value);
    }
  }

  lemma ContentsStayByCompaction(s: State, a: Action)
    requires ByCompaction(a)
    requires JobOk(s) && ContentsOk(s) && Enabled(s, a) && Guard(s, a) && LeavesMemory(a) && Open(s)
    ensures ContentsOk(Apply(s, a))
  {
    hide LogEntries, Union, Readable, IsLast, Elements;
  }

  lemma ContentsStayOtherwise(s: State, a: Action)
    requires !ByUser(a) && !ByFlush(a) && !ByCompaction(a)
    requires JobOk(s) && ContentsOk(s) && Enabled(s, a) && Guard(s, a) && LeavesMemory(a) && Open(s)
    ensures ContentsOk(Apply(s, a))
  {
    hide LogEntries, Union, Readable, IsLast, Elements;
  }

  lemma ContentsStay(s: State, a: Action)
    requires JobOk(s) && ContentsOk(s) && Enabled(s, a) && Guard(s, a) && LeavesMemory(a) && Open(s)
    ensures ContentsOk(Apply(s, a))
  {
    hide Apply, Enabled, Guard, FilesOk, DiskOk, CountersOk, RecoveryOk, MemoryOk;
    if ByUser(a) {
      ContentsStayByUser(s, a);
    } else if ByFlush(a) {
      ContentsStayByFlush(s, a);
    } else if ByCompaction(a) {
      ContentsStayByCompaction(s, a);
    } else {
      ContentsStayOtherwise(s, a);
    }
  }

  lemma LeftMemoryOk(s: State, a: Action)
    requires FilesOk(s) && MemoryOk(s) && Enabled(s, a) && Guard(s, a) && LeavesMemory(a)
    ensures MemoryOk(Apply(s, a))
  {
    hide FilesOk, Apply, Guard, Enabled, SetsOk, FlushedOk, ExtraOk, ContentsOk, TablesKept, LogsKept;
    var t := Apply(s, a);
    NeedsOpen(s, a);
    OpenNumbers(s);
    CurrentFilesStay(s, a);
    MemoryFieldsStay(s, a);
    JobStageStays(s, a);
    LogFileStays(s, t);
    SetsStay(s, t);
    FlushedStays(s, t);
    ExtraStays(s, t);
    ContentsStay(s, a);
  }

  lemma OpenNumbers(s: State)
    requires FilesOk(s) && Open(s)
    ensures s.logfile in s.logs && s.current.log <= s.logfile
    ensures JobOk(s) && NumbersOk(s)
  {
  }

  lemma LogFileStays(s: State, t: State)
    requires LogsKept(s.logs, t.logs, s.current.log) && s.logfile in s.logs && s.current.log <= s.logfile &&
             t.logfile == s.logfile
    ensures t.logfile in t.logs && t.logs[t.logfile].records == s.logs[s.logfile].records
  {
  }

  lemma NeedsOpen(s: State, a: Action)
    requires Enabled(s, a) && LeavesMemory(a)
    ensures Open(s)
  {
    hide TableEntries, LogEntries, Union, Readable, IsLast, DropsAllowed, Elements;
  }

  lemma AppendLogMemory(s: State, r: Record)
    requires FilesOk(s) && MemoryOk(s) && CountersOk(s) && Enabled(s, AppendLog(r))
    ensures MemoryOk(Apply(s, AppendLog(r)))
  {
    hide Elements, Follows, Faithful, Union, LogEntries, TableEntries, LogsOrdered, LogsBetween, MayDrop, ManifestOk,
      TornOk,
      TablesOk, LogsOk;
    var t := Apply(s, AppendLog(r));
    RecordJoins(s.logs, s.logfile, r, s.current.log);
    NextAreNewer(r, s.last);
    SameLogsBetween(s.logs, t.logs, s.current.log, s.logfile);
    CurrentLogs(s);
    AppendKeepsOrder(s.logs, s.logfile, r, s.current.log);
    assert t.mem + t.unanswered == (s.mem + s.unanswered) + Elements(r);
    assert SetsOk(t);
  }

  lemma InsertMemMemory(s: State)
    requires MemoryOk(s) && CountersOk(s) && Enabled(s, InsertMem)
    ensures MemoryOk(Apply(s, InsertMem))
  {
    hide Faithful, Union, TableEntries, LogsOrdered, LogsBetween, MayDrop, Elements;
    var t := Apply(s, InsertMem);
    assert t.mem + t.unanswered == s.mem + s.unanswered;
  }

  lemma SwitchMemMemory(s: State)
    requires FilesOk(s) && MemoryOk(s) && CountersOk(s) && Enabled(s, SwitchMem)
    ensures MemoryOk(Apply(s, SwitchMem))
  {
    hide Faithful, TableEntries, LogEntries, LogsOrdered, DropsAllowed, TornOk, TablesOk, LogsOk, LogsBetween;
    var t := Apply(s, SwitchMem);
    EmptyLogJoins(s.logs, s.next, s.current.log);
    CurrentLogs(s);
    assert s.history == s.settled + s.mem && Before(s.settled, s.mem);
    SwitchMemJob(s);
    assert t.history == t.settled + Imm(t) + t.mem;
    assert t.mem + t.unanswered == Union(t.logs[t.logfile].records);
    assert Imm(t) == LogsBetween(t.logs, t.current.log, t.logfile);
    assert Before(t.settled, Imm(t));
    assert Before(t.settled + Imm(t), t.mem + t.unanswered);
    assert LogsOrdered(t.logs, t.current.log);
    assert SetsOk(t);
  }

  /** Without an immutable memtable no flush is under way, and without an error nothing is named twice. */
  lemma SwitchMemJob(s: State)
    requires FilesOk(s) && MemoryOk(s) && Enabled(s, SwitchMem)
    ensures FlushedOk(Apply(s, SwitchMem)) && ExtraOk(Apply(s, SwitchMem)) && ContentsOk(Apply(s, SwitchMem))
  {
    hide Faithful, LogEntries, LogsOrdered, TornOk, TablesOk, LogsOk, LogsBetween, Before, MayDrop;
    var t := Apply(s, SwitchMem);
    assert s.settled + {} == s.settled;
    if !s.job.CompactLogged? { NoExtra(t); }
    assert FlushedOk(t);
    assert ExtraOk(t);
    assert ContentsOk(t);
  }

  lemma StartCompactionMemory(s: State, inputs: set<Number>)
    requires FilesOk(s) && MemoryOk(s) && Enabled(s, StartCompaction(inputs))
    ensures MemoryOk(Apply(s, StartCompaction(inputs)))
  {
    hide Faithful, LogEntries, LogsOrdered, TornOk, TablesOk, LogsOk, LogsBetween, Before, MayDrop, TableEntries;
    NoExtra(Apply(s, StartCompaction(inputs)));
  }

  lemma LogFlushMemory(s: State, ok: bool, written: bool)
    requires FilesOk(s) && MemoryOk(s) && Enabled(s, LogFlush(ok, written))
    ensures MemoryOk(Apply(s, LogFlush(ok, written)))
  {
    hide Faithful, LogEntries, LogsOrdered, TablesOk, LogsOk, LogsBetween, Before, MayDrop, TableEntries, Union,
      ManifestOk,
      UnnamedOk, NumbersOk;
    var t, added, inputs := Apply(s, LogFlush(ok, written)), s.job.tables, Inputs(s.job);
    assert Inputs(t.job) == inputs;
    if written {
      assert s.flushed + Imm(s) == s.settled + Imm(s);
      assert added !! inputs;
      assert t.manifest.files - inputs == (s.manifest.files - inputs) + added;
      TableEntriesOfBoth(s.tables, s.manifest.files - inputs, added);
    }
  }

  lemma InstallFlushMemory(s: State)
    requires FilesOk(s) && DiskOk(s) && MemoryOk(s) && Enabled(s, InstallFlush)
    ensures MemoryOk(Apply(s, InstallFlush))
  {
    hide LogEntries, LogsOrdered, TablesOk, LogsOk, MayDrop, TableEntries, Union, UnnamedOk, FlushedFirst, Faithful;
    var t, added, inputs := Apply(s, InstallFlush), s.job.edit.added, Inputs(s.job);
    assert t.current.files == s.current.files + added;
    TableEntriesOfBoth(s.tables, s.current.files, added);
    AddLater(TableEntries(s.tables, s.current.files), s.settled, Imm(s));
    LogHasOrder(s.logs, s.manifest.log, s.logfile);
    LastLogOnly(s.logs, s.logfile);
    assert LogsBetween(s.logs, s.logfile, s.logfile) == {};
    assert added !! inputs;
    assert t.current.files - inputs == (s.current.files - inputs) + added;
    TableEntriesOfBoth(s.tables, s.current.files - inputs, added);
  }

  lemma LogCompactionMemory(s: State, ok: bool, written: bool)
    requires FilesOk(s) && MemoryOk(s) && Enabled(s, LogCompaction(ok, written))
    ensures MemoryOk(Apply(s, LogCompaction(ok, written)))
  {
    hide Faithful, LogEntries, LogsOrdered, TablesOk, LogsOk, LogsBetween, Before, MayDrop, Union, ManifestOk,
      UnnamedOk,
      NumbersOk;
    var t, c := Apply(s, LogCompaction(ok, written)), s.job.c;
    assert TableEntries(s.tables, s.manifest.files - c.inputs) <=
           TableEntries(s.tables, t.manifest.files - Inputs(t.job));
  }

  lemma InstallCompactionMemory(s: State)
    requires FilesOk(s) && DiskOk(s) && MemoryOk(s) && Enabled(s, InstallCompaction)
    ensures MemoryOk(Apply(s, InstallCompaction))
  {
    hide LogEntries, LogsOrdered, TablesOk, LogsOk, MayDrop, Union, UnnamedOk, FlushedFirst, Faithful, LogsBetween,
      Before, Numbered;
    var t, c := Apply(s, InstallCompaction), s.job.c;
    assert t.current.files == s.current.files - c.inputs + c.outputs;
    SplitInputs(s.tables, s.current.files, c.inputs);
    TableEntriesOfBoth(s.tables, s.current.files - c.inputs, c.outputs);
    assert Numbered(s.settled) by { NumberedPart(s.history + s.unanswered, s.settled); }
    DropKeepsFaithful(TableEntries(s.tables, s.current.files - c.inputs), TableEntries(s.tables, c.inputs),
                      TableEntries(s.tables, c.outputs), s.settled);
    assert TableEntries(s.tables, s.manifest.files - c.inputs) <= TableEntries(s.tables, s.manifest.files);
  }

  /** What recovery leaves, whatever the fields of the state that are not named here. */
  lemma SetsAfterRecovery(s: State, t: State, more: set<Entry>)
    requires NumbersOk(s) && JobOk(s) && DiskOk(s) && RecoveryOk(s) && s.job.Recovering? && s.job.todo == {}
    requires more == TableEntries(s.tables, s.job.added)
    requires if s.job.reused.Some? then t.logs == s.logs && t.logfile == s.job.reused.value
             else t.logs == s.logs[s.next := Log([], 0, None)] && t.logfile == s.next
    requires t.current.log == t.logfile || (s.job.added == {} && t.current.log == s.manifest.log)
    requires t.current.files == s.manifest.files + s.job.added && t.tables == s.tables
    requires t.history == s.history && t.unanswered == s.unanswered && !Open(s) && t.mem == s.mem && t.imm.None?
    requires t.settled == s.flushed + more
    ensures SetsOk(t)
  {
    hide LogEntries, LogsOrdered, TablesOk, FlushedFirst, Faithful, LogsBetween, Numbered, TableEntries, Before,
      Newer, UpTo, Union,
      JobOk, RecoveryOk, NumbersOk;
    RecoveredAll(s);
    RecoveredIsNewer(s, more);
    LastLogAfterRecovery(s, t, more);
    AddNewer(TableEntries(s.tables, s.manifest.files), s.flushed, more);
    TableEntriesOfBoth(s.tables, s.manifest.files, s.job.added);
    NoneBefore(s.flushed + more, s.mem);
    LogsAfterRecovery(s, t);
    assert s.history == s.flushed + more + s.mem;
  }

  lemma FinishRecoverySets(s: State, save: bool, keepManifest: bool)
    requires FilesOk(s) && DiskOk(s) && RecoveryOk(s)
    requires Enabled(s, FinishRecovery(save, keepManifest)) && Guard(s, FinishRecovery(save, keepManifest))
    ensures SetsOk(Apply(s, FinishRecovery(save, keepManifest)))
  {
    hide DiskOk, RecoveryOk, TablesOk, TornOk, ManifestOk, UnnamedOk, SetsOk, TableEntries;
    var t := Apply(s, FinishRecovery(save, keepManifest));
    assert s.manifest.files + {} == s.manifest.files;
    SetsAfterRecovery(s, t, TableEntries(s.tables, s.job.added));
  }

  lemma FinishRecoveryMemory(s: State, save: bool, keepManifest: bool)
    requires FilesOk(s) && DiskOk(s) && RecoveryOk(s)
    requires Enabled(s, FinishRecovery(save, keepManifest)) && Guard(s, FinishRecovery(save, keepManifest))
    ensures MemoryOk(Apply(s, FinishRecovery(save, keepManifest)))
  {
    hide SetsOk, FilesOk, DiskOk, TableEntries, Readable, RecoveryOk;
    FinishRecoverySets(s, save, keepManifest);
    NoTables(s.tables);
    assert s.flushed + {} == s.flushed;
  }

  lemma NoTables(tables: map<Number, set<Entry>>)
    ensures TableEntries(tables, {}) == {}
  {
  }

  lemma NoneBefore(settled: set<Entry>, mem: set<Entry>)
    requires Before(settled, mem)
    ensures Before(settled, {}) && Before(settled + {}, mem + {})
  {
  }

  /** After recovery no log but the last one holds anything the current version does not account for. */
  lemma LogsAfterRecovery(s: State, t: State)
    requires NumbersOk(s) && JobOk(s) && DiskOk(s) && RecoveryOk(s) && s.job.Recovering? && s.job.todo == {}
    requires if s.job.reused.Some? then t.logs == s.logs && t.logfile == s.job.reused.value
             else t.logs == s.logs[s.next := Log([], 0, None)] && t.logfile == s.next
    requires t.current.log == t.logfile || (s.job.added == {} && t.current.log == s.manifest.log)
    ensures LogsBetween(t.logs, t.current.log, t.logfile) == {}
    ensures LogsOrdered(t.logs, t.current.log)
  {
    hide Faithful, FlushedFirst, Union, UnnamedOk;
    if t.current.log != t.logfile {
      RecoveredAll(s);
      assert TableEntries(s.tables, {}) == {};
      if s.job.reused.None? { EmptyLogJoins(s.logs, s.next, s.manifest.log); }
    } else {
      LastLogAfterRecovery(s, t, TableEntries(s.tables, s.job.added));
      LastLogOnly(t.logs, t.logfile);
    }
  }

  // ---------------------------------------------------------------- counters and recovery

  lemma CountersKeepByUser(s: State, a: Action)
    requires ByUser(a)
    requires CountersOk(s) && Enabled(s, a) && Guard(s, a)
    ensures CountersOk(Apply(s, a))
  {
    hide TableEntries, Union, Readable, IsLast, DropsAllowed, Elements, UnnamedOk, LogsOrdered, FlushedFirst,
      Numbered, Faithful,
      LogEntries, AddTables, NumbersFrom, LogsBetween, TornOk, TablesOk, ManifestOk;
    if a.AppendLog? { NextAreNewer(a.record, s.last); }
  }

  lemma CountersKeepByFlush(s: State, a: Action)
    requires ByFlush(a)
    requires CountersOk(s) && Enabled(s, a)
    ensures CountersOk(Apply(s, a))
  {
    hide TableEntries, Union, Readable, IsLast, DropsAllowed, Elements, UnnamedOk, LogsOrdered, FlushedFirst,
      Numbered, Faithful,
      LogEntries, AddTables, NumbersFrom, LogsBetween, TornOk, TablesOk, ManifestOk, UpTo, Before, Imm, Installed,
      NumbersOk, JobOk;
  }

  lemma CountersKeepByCompaction(s: State, a: Action)
    requires ByCompaction(a)
    requires CountersOk(s) && Enabled(s, a)
    ensures CountersOk(Apply(s, a))
  {
    hide TableEntries, Union, Readable, IsLast, DropsAllowed, Elements, UnnamedOk, LogsOrdered, FlushedFirst,
      Numbered, Faithful,
      LogEntries, AddTables, NumbersFrom, LogsBetween, TornOk, TablesOk, ManifestOk, UpTo, Before, Imm, Installed,
      NumbersOk, JobOk;
  }

  lemma CountersKeepOtherwise(s: State, a: Action)
    requires !ByUser(a) && !ByFlush(a) && !ByCompaction(a)
    requires FilesOk(s) && DiskOk(s) && CountersOk(s) && RecoveryOk(s) && Enabled(s, a) && Guard(s, a)
    ensures CountersOk(Apply(s, a))
  {
    hide TableEntries, Union, Readable, IsLast, DropsAllowed, Elements, UnnamedOk, LogsOrdered, FlushedFirst,
      Numbered, Faithful,
      LogEntries, AddTables, NumbersFrom, LogsBetween, TornOk, TablesOk, ManifestOk;
    if a.FinishRecovery? {
      RecoveredAll(s);
      AllUpTo(s);
    }
  }

  lemma CountersKeep(s: State, a: Action)
    requires FilesOk(s) && DiskOk(s) && CountersOk(s) && RecoveryOk(s) && Enabled(s, a) && Guard(s, a)
    ensures CountersOk(Apply(s, a))
  {
    hide Apply, Enabled, Guard, FilesOk, DiskOk, CountersOk, RecoveryOk, MemoryOk;
    if ByUser(a) {
      CountersKeepByUser(s, a);
    } else if ByFlush(a) {
      CountersKeepByFlush(s, a);
    } else if ByCompaction(a) {
      CountersKeepByCompaction(s, a);
    } else {
      CountersKeepOtherwise(s, a);
    }
  }

  lemma AllUpTo(s: State)
    requires DiskOk(s) && RecoveryOk(s) && s.job.Recovering? && s.job.todo == {}
    ensures UpTo(s.history, s.last) && s.unanswered == {}
  {
    hide TableEntries, Union, Faithful, FlushedFirst, LogsOrdered, Numbered, LogsBetween;
    assert DoneEntries(s.logs, s.manifest.log, {}) == LogEntries(s.logs, s.manifest.log);
  }

  lemma ReopenRecovery(s: State)
    requires FilesOk(s) && DiskOk(s) && RecoveryOk(s) && Enabled(s, Reopen)
    ensures RecoveryOk(Apply(s, Reopen))
  {
    hide Union, Faithful, FlushedFirst, LogsOrdered, Numbered;
    var t := Apply(s, Reopen);
    assert DoneEntries(t.logs, t.manifest.log, t.job.todo) == {};
    NoTables(t.tables);
  }

  /** A log in use by recovery is read to its end. */
  lemma ReadsAll(log: Log, content: set<Entry>)
    requires Readable(log, content) && (log.torn.Some? ==> log.torn.value == |log.records|)
    ensures content == Union(log.records)
  {
    if log.torn.Some? { assert log.records[..|log.records|] == log.records; }
  }

  lemma DoneGrows(logs: map<Number, Log>, from: Number, todo: set<Number>, n: Number)
    requires n in todo && n in logs && from <= n
    ensures DoneEntries(logs, from, todo - {n}) == DoneEntries(logs, from, todo) + Union(logs[n].records)
  {
    hide Union;
  }

  lemma RecoverLogRecovery(s: State, n: Number, parts: seq<set<Entry>>, top: SequenceNumber)
    requires FilesOk(s) && RecoveryOk(s) && Enabled(s, RecoverLog(n, parts, top))
    ensures RecoveryOk(Apply(s, RecoverLog(n, parts, top)))
  {
    hide Union, TableEntries, DoneEntries, LogsBetween, Parts, AddTables, LogsOk, UnnamedOk, TablesOk, ManifestOk;
    var t, fresh0 := Apply(s, RecoverLog(n, parts, top)), NumbersFrom(s.next, |parts|);
    ReadsAll(s.logs[n], Parts(parts));
    DoneGrows(s.logs, s.manifest.log, s.job.todo, n);
    AddedTablesHold(s.tables, s.next, parts);
    AddTablesAdds(s.tables, s.next, parts);
    TableEntriesOfBoth(t.tables, s.job.added, fresh0);
    SameTableEntries(s.tables, t.tables, s.job.added);
  }

  lemma ReuseLogRecovery(s: State, n: Number, content: set<Entry>, top: SequenceNumber)
    requires FilesOk(s) && RecoveryOk(s) && Enabled(s, ReuseLog(n, content, top)) && Guard(s, ReuseLog(n, content, top))
    ensures RecoveryOk(Apply(s, ReuseLog(n, content, top)))
  {
    hide Union, TableEntries, LogsOk, UnnamedOk, TablesOk, ManifestOk;
    var t := Apply(s, ReuseLog(n, content, top));
    ReadsAll(s.logs[n], content);
    assert s.job.todo - {n} == {};
    DoneGrows(s.logs, s.manifest.log, s.job.todo, n);
    forall e ensures e in DoneEntries(s.logs, s.manifest.log, s.job.todo) <==>
      e in LogsBetween(s.logs, s.manifest.log, n) {}
  }

  /** Outside recovery there is nothing to say, and a crash empties the memory. */
  lemma RecoveryKeeps(s: State, a: Action)
    requires FilesOk(s) && DiskOk(s) && RecoveryOk(s) && Enabled(s, a) && Guard(s, a)
    ensures RecoveryOk(Apply(s, a))
  {
    hide TableEntries, Union, Readable, IsLast, DropsAllowed, Elements, FilesOk, DiskOk, LogEntries, AddTables,
      NumbersFrom;
    match a {
      case Reopen => ReopenRecovery(s);
      case RecoverLog(n, parts, top) => RecoverLogRecovery(s, n, parts, top);
      case ReuseLog(n, content, top) => ReuseLogRecovery(s, n, content, top);
      case _ =>
    }
  }

  // ---------------------------------------------------------------- every step

  lemma FlushFiles(s: State, a: Action)
    requires FilesOk(s) && Enabled(s, a) && ByFlush(a)
    ensures FilesOk(Apply(s, a))
  {
    hide FilesOk, Apply, Enabled;
    match a {
      case StartFlush => StartFlushFiles(s);
      case BuildTable(ok) => BuildTableFiles(s, ok);
      case LogFlush(ok, written) => LogFlushFiles(s, ok, written);
      case InstallFlush => InstallFlushFiles(s);
      case _ =>
    }
  }

  lemma CompactionFiles(s: State, a: Action)
    requires FilesOk(s) && Enabled(s, a) && ByCompaction(a)
    ensures FilesOk(Apply(s, a))
  {
    hide FilesOk, Apply, Enabled;
    match a {
      case StartCompaction(inputs) => StartCompactionFiles(s, inputs);
      case OpenOutput => OpenOutputFiles(s);
      case WriteOutput(number, content) => WriteOutputFiles(s, number, content);
      case LogCompaction(ok, written) => LogCompactionFiles(s, ok, written);
      case InstallCompaction => InstallCompactionFiles(s);
      case _ =>
    }
  }

  lemma OtherFiles(s: State, a: Action)
    requires FilesOk(s) && Enabled(s, a) && Guard(s, a)
    requires !ByFlush(a) && !ByCompaction(a)
    ensures FilesOk(Apply(s, a))
  {
    hide FilesOk, Apply, Enabled, Guard;
    match a {
      case AppendLog(r) => AppendLogFiles(s, r);
      case AppendFails(r, tore) => AppendFailsFiles(s, r, tore);
      case SyncLog(ok) => SyncLogFiles(s, ok);
      case InsertMem => InsertMemFiles(s);
      case SwitchMem => SwitchMemFiles(s);
      case Pin => PinFiles(s);
      case Unpin(i) => UnpinFiles(s, i);
      case DeleteLog(n) => DeleteLogFiles(s, n);
      case DeleteTable(n) => DeleteTableFiles(s, n);
      case EndCleaning => EndCleaningFiles(s);
      case Crash(left, torn) => CrashFiles(s, left, torn);
      case Reopen => ReopenFiles(s);
      case RecoverLog(n, parts, top) => RecoverLogFiles(s, n, parts, top);
      case ReuseLog(n, content, top) => ReuseLogFiles(s, n, content, top);
      case FinishRecovery(save, keepManifest) => FinishRecoveryFiles(s, save, keepManifest);
      case _ =>
    }
  }

  lemma FilesKeep(s: State, a: Action)
    requires FilesOk(s) && Enabled(s, a) && Guard(s, a)
    ensures FilesOk(Apply(s, a))
  {
    hide FilesOk, Apply, Enabled, Guard;
    if ByFlush(a) {
      FlushFiles(s, a);
    } else if ByCompaction(a) {
      CompactionFiles(s, a);
    } else {
      OtherFiles(s, a);
    }
  }

  /** A manifest record that was not written. */
  lemma UnwrittenDisk(s: State, a: Action)
    requires DiskOk(s) && Enabled(s, a) && ((a.LogFlush? && !a.written) || (a.LogCompaction? && !a.written))
    ensures DiskOk(Apply(s, a))
  {
    hide Faithful, FlushedFirst, LogsOrdered, Numbered, LogEntries, TableEntries, UpTo, DropsAllowed;
  }

  lemma DiskKeeps(s: State, a: Action)
    requires Inv(s) && Enabled(s, a) && Guard(s, a)
    ensures DiskOk(Apply(s, a))
  {
    hide FilesOk, DiskOk, MemoryOk, CountersOk, RecoveryOk, Apply, Enabled, Guard;
    OpenFacts(s);
    match a {
      case AppendLog(r) => AppendLogDisk(s, r);
      case InsertMem => InsertMemDisk(s);
      case SwitchMem => SwitchMemDisk(s);
      case LogFlush(ok, written) => if written { LogFlushDisk(s, ok); } else { UnwrittenDisk(s, a); }
      case LogCompaction(ok, written) => if written { LogCompactionDisk(s, ok); } else { UnwrittenDisk(s, a); }
      case Crash(left, torn) => CrashDisk(s, left, torn);
      case FinishRecovery(save, keepManifest) => FinishRecoveryDisk(s, save, keepManifest);
      case _ => LeftDiskOk(s, a);
    }
  }

  lemma OpenFacts(s: State)
    requires FilesOk(s)
    ensures NumbersOk(s) && JobOk(s)
  {
  }

  lemma ClosedMemory(s: State, a: Action)
    requires Enabled(s, a) && (a.Crash? || a.Reopen? || a.RecoverLog? || a.ReuseLog?)
    ensures MemoryOk(Apply(s, a))
  {
    hide TableEntries, Union, Readable, IsLast, AddTables, NumbersFrom, SetsOk, FlushedOk, ExtraOk, ContentsOk,
      LogEntries;
  }

  lemma MemoryKeeps(s: State, a: Action)
    requires Inv(s) && Enabled(s, a) && Guard(s, a)
    ensures MemoryOk(Apply(s, a))
  {
    hide FilesOk, DiskOk, MemoryOk, CountersOk, RecoveryOk, Apply, Enabled, Guard;
    match a {
      case AppendLog(r) => AppendLogMemory(s, r);
      case InsertMem => InsertMemMemory(s);
      case SwitchMem => SwitchMemMemory(s);
      case LogFlush(ok, written) => LogFlushMemory(s, ok, written);
      case InstallFlush => InstallFlushMemory(s);
      case StartCompaction(inputs) => StartCompactionMemory(s, inputs);
      case LogCompaction(ok, written) => LogCompactionMemory(s, ok, written);
      case InstallCompaction => InstallCompactionMemory(s);
      case Crash(_, _) => ClosedMemory(s, a);
      case Reopen => ClosedMemory(s, a);
      case RecoverLog(_, _, _) => ClosedMemory(s, a);
      case ReuseLog(_, _, _) => ClosedMemory(s, a);
      case FinishRecovery(save, keepManifest) => FinishRecoveryMemory(s, save, keepManifest);
      case _ => LeftMemoryOk(s, a);
    }
  }

  /** Every step of every interleaving, crashes and restarts included, keeps the invariant, as long as
      nothing is written behind a torn record. */
  lemma StepKeeps(s: State, a: Action)
    requires Inv(s) && Enabled(s, a) && Guard(s, a)
    ensures Inv(Apply(s, a))
  {
    hide FilesOk, DiskOk, MemoryOk, CountersOk, RecoveryOk, Apply, Enabled, Guard;
    FilesKeep(s, a);
    DiskKeeps(s, a);
    MemoryKeeps(s, a);
    CountersKeep(s, a);
    RecoveryKeeps(s, a);
  }
}
