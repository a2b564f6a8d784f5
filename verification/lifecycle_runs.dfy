/** Whole runs of the life of logs and tables: an open database reads as the history of its answered
    writes, a crash takes away only writes that were never synced, and no table in use is lost. */
module LifecycleRuns {
  import opened DbFormat
  import opened History
  import opened Lifecycle
  import opened LifecycleSteps
  import opened Wrappers

  /** A new database, before it is opened. */
  const START :=
    State(map[], map[], Version({}, 0), 2, 0, false, Version({}, 0), [], {}, {}, None, 0, None, 2, 0, Closed,
                       false, {}, {}, {}, {})

  /** A run under the guard: nothing is written behind a torn record. */
  ghost predicate IsRun(states: seq<State>, actions: seq<Action>) {
    AreSteps(states, actions) && states[0] == START
  }

  ghost predicate AreSteps(states: seq<State>, actions: seq<Action>) {
    && |states| == |actions| + 1
    && forall i {:trigger actions[i]} :: 0 <= i < |actions| ==> IsStep(states[i], actions[i], states[i + 1])
  }

  ghost predicate IsStep(s: State, a: Action, t: State) {
    Enabled(s, a) && Guard(s, a) && t == Apply(s, a)
  }

  lemma StartIsOk()
    ensures Inv(START)
  {
    NoTables(START.tables);
    assert LogEntries(START.logs, 0) == {};
    assert DoneEntries(START.logs, 0, {}) == {};
  }

  lemma {:induction false} StepsKeep(states: seq<State>, actions: seq<Action>, i: nat)
    requires AreSteps(states, actions) && Inv(states[0]) && i < |states|
    ensures Inv(states[i])
  {
    hide Inv, Enabled, Guard, Apply;
    if i > 0 {
      StepsKeep(states, actions, i - 1);
      assert IsStep(states[i - 1], actions[i - 1], states[i]);
      StepKeeps(states[i - 1], actions[i - 1]);
    }
  }

  lemma RunKeeps(states: seq<State>, actions: seq<Action>, i: nat)
    requires IsRun(states, actions) && i < |states|
    ensures Inv(states[i])
  {
    hide Inv, AreSteps;
    StartIsOk();
    StepsKeep(states, actions, i);
  }

  // ---------------------------------------------------------------- what an open database shows

  /** What a read looks into. */
  ghost function Contents(s: State): set<Entry> {
    TableEntries(s.tables, s.current.files) + Imm(s) + s.mem
  }

  /** What a recovery would find, if the logs were read to their ends. */
  ghost function Stored(s: State): set<Entry> {
    TableEntries(s.tables, s.manifest.files) + LogEntries(s.logs, s.manifest.log)
  }

  lemma ContentsAreFaithful(s: State)
    requires Inv(s) && Open(s)
    ensures Faithful(Contents(s), s.history) && Numbered(s.history)
  {
    hide FilesOk, CountersOk, RecoveryOk, FlushedOk, ExtraOk, ContentsOk, TableEntries, Faithful, LogsOrdered,
      FlushedFirst, Union,
      LogEntries, LogsBetween;
    var more := Imm(s) + s.mem;
    assert Before(s.settled, more);
    AddLater(TableEntries(s.tables, s.current.files), s.settled, more);
    assert Contents(s) == TableEntries(s.tables, s.current.files) + more && s.history == s.settled + more;
    NumberedPart(s.history + s.unanswered, s.history);
  }

  lemma StoredIsFaithful(s: State)
    requires Inv(s)
    ensures Faithful(Stored(s), s.history + s.unanswered) && Numbered(s.history + s.unanswered)
  {
    hide FilesOk, MemoryOk, CountersOk, RecoveryOk, TableEntries, Faithful, LogsOrdered, Numbered, Newer,
      FlushedFirst, LogEntries;
    RecoveredIsNewer(s, LogEntries(s.logs, s.manifest.log));
    AddNewer(TableEntries(s.tables, s.manifest.files), s.flushed, LogEntries(s.logs, s.manifest.log));
  }

  /** In every run, crashes and recoveries included, an open database reads as its history does. */
  lemma OpenReadsAreHistory(states: seq<State>, actions: seq<Action>, i: nat, user: UserKey)
    requires IsRun(states, actions) && i < |states| && Open(states[i])
    ensures Read(Contents(states[i]), user, MAX_SEQUENCE) == Read(states[i].history, user, MAX_SEQUENCE)
  {
    hide Inv, Contents, Faithful, Numbered;
    RunKeeps(states, actions, i);
    ContentsAreFaithful(states[i]);
    FaithfulReads(Contents(states[i]), states[i].history, user);
  }

  /** No answered write is lost by flushes, compactions or cleanup: tables and memtables have it or a
      newer write of its key, or the newest write of the key is a deletion that left nothing behind. */
  lemma AnsweredIsKept(states: seq<State>, actions: seq<Action>, i: nat, w: Entry)
    requires IsRun(states, actions) && i < |states| && Open(states[i]) && w in states[i].history
    ensures Covered(Contents(states[i]), states[i].history, w)
  {
    hide Inv, Contents, Faithful, Numbered;
    RunKeeps(states, actions, i);
    ContentsAreFaithful(states[i]);
    FaithfulCovers(Contents(states[i]), states[i].history, w);
  }

  /** The same on disk: the tables of the manifest and the logs from LogNumber() on have it, whatever
      else was deleted. */
  lemma AnsweredIsStored(states: seq<State>, actions: seq<Action>, i: nat, w: Entry)
    requires IsRun(states, actions) && i < |states| && w in states[i].history
    ensures Covered(Stored(states[i]), states[i].history + states[i].unanswered, w)
  {
    hide Inv, Stored, Faithful, Numbered;
    RunKeeps(states, actions, i);
    StoredIsFaithful(states[i]);
    FaithfulCovers(Stored(states[i]), states[i].history + states[i].unanswered, w);
  }

  // ---------------------------------------------------------------- what a crash leaves

  /** The answered writes that a crash cannot take away: those in synced parts of logs, and those in
      tables that the manifest names. */
  ghost function Durable(s: State): set<Entry> {
    (s.flushed + SyncedEntries(s.logs, s.manifest.log)) * s.history
  }

  lemma SyncedIsLogged(log: Log, e: Entry)
    requires e in Union(SyncedPart(log))
    ensures e in Union(log.records)
  {
    var r :| r in SyncedPart(log) && e in r;
    assert r in log.records;
  }

  lemma LeftIsSynced(before: Log, after: Log, live: bool, e: Entry)
    requires LogLeft(before, after, live) && before.synced <= |before.records| && e in Union(SyncedPart(before))
    ensures e in Union(after.records) && e in Union(SyncedPart(after))
  {
    assert SyncedPart(after) == SyncedPart(before);
    SyncedIsLogged(after, e);
  }

  lemma CrashKeepsDurable(s: State, left: map<Number, Log>, torn: bool)
    requires FilesOk(s) && Enabled(s, Crash(left, torn))
    ensures Durable(s) <= Durable(Apply(s, Crash(left, torn)))
  {
    hide TableEntries, Union, LogLeft, JobOk, NumbersOk, TablesOk, ManifestOk, TornOk;
    forall n, e | n in s.logs && s.manifest.log <= n && e in Union(SyncedPart(s.logs[n]))
      ensures e in Union(left[n].records) && e in Union(SyncedPart(left[n]))
    {
      LeftIsSynced(s.logs[n], left[n], Open(s) && n == s.logfile, e);
    }
  }

  ghost predicate SyncedStays(s: State, t: State) {
    forall n :: n in s.logs && s.manifest.log <= n && t.manifest.log <= n ==>
      n in t.logs && SyncedPart(s.logs[n]) <= SyncedPart(t.logs[n])
  }

  /** The logs that a flush or a recovery leaves behind are accounted for by the manifest. */
  lemma DurableStaysIf(s: State, t: State)
    requires s.history <= t.history && s.flushed <= t.flushed && SyncedStays(s, t)
    requires forall n, e :: n in s.logs && s.manifest.log <= n < t.manifest.log && e in Union(s.logs[n].records) ==>
               e in t.flushed
    ensures Durable(s) <= Durable(t)
  {
    hide Union;
    forall e | e in Durable(s) ensures e in Durable(t) {
      if e !in s.flushed {
        var n :| n in s.logs && s.manifest.log <= n && e in Union(SyncedPart(s.logs[n]));
        SyncedIsLogged(s.logs[n], e);
        if t.manifest.log <= n { UnionGrows(SyncedPart(s.logs[n]), SyncedPart(t.logs[n]), e); }
      }
    }
  }

  lemma UnionGrows(a: seq<Record>, b: seq<Record>, e: Entry)
    requires a <= b && e in Union(a)
    ensures e in Union(b)
  {
    var r :| r in a && e in r;
    assert r in b;
  }

  lemma LogFlushKeepsDurable(s: State, ok: bool, written: bool)
    requires Inv(s) && Enabled(s, LogFlush(ok, written))
    ensures Durable(s) <= Durable(Apply(s, LogFlush(ok, written)))
  {
    hide TableEntries, Union, DiskOk, CountersOk, RecoveryOk, TablesOk, ManifestOk, TornOk, UnnamedOk, Faithful,
      LogsOrdered,
      LogsBetween, Before, FlushedOk, ExtraOk, ContentsOk;
    var t := Apply(s, LogFlush(ok, written));
    forall n, e | n in s.logs && s.manifest.log <= n < t.manifest.log && e in Union(s.logs[n].records)
      ensures e in t.flushed
    {
      LogOfCurrent(s, n, e);
    }
    DurableStaysIf(s, t);
  }

  lemma FinishRecoveryKeepsDurable(s: State, save: bool, keepManifest: bool)
    requires Inv(s) && Enabled(s, FinishRecovery(save, keepManifest)) && Guard(s, FinishRecovery(save, keepManifest))
    ensures Durable(s) <= Durable(Apply(s, FinishRecovery(save, keepManifest)))
  {
    hide TableEntries, Union, DiskOk, CountersOk, MemoryOk, TablesOk, ManifestOk, TornOk, UnnamedOk, Faithful,
      LogsOrdered;
    var t := Apply(s, FinishRecovery(save, keepManifest));
    forall n, e | n in s.logs && s.manifest.log <= n < t.manifest.log && e in Union(s.logs[n].records)
      ensures e in t.flushed
    {
      if s.job.reused.Some? {
        assert e in LogsBetween(s.logs, s.manifest.log, s.job.reused.value);
      } else {
        assert e in DoneEntries(s.logs, s.manifest.log, s.job.todo);
      }
    }
    DurableStaysIf(s, t);
  }

  lemma LogsStayByUser(s: State, a: Action)
    requires ByUser(a)
    requires LogsOk(s) && NumbersOk(s) && Enabled(s, a) && Guard(s, a) && !a.Crash? && !a.LogFlush? &&
             !a.FinishRecovery?
    ensures SyncedStays(s, Apply(s, a)) && Apply(s, a).manifest.log <= s.manifest.log
  {
    hide TableEntries, Union, Readable, IsLast, DropsAllowed, Elements, UnnamedOk, TablesOk, ManifestOk, TornOk,
      AddTables, NumbersFrom;
  }

  lemma LogsStayByFlush(s: State, a: Action)
    requires ByFlush(a)
    requires LogsOk(s) && NumbersOk(s) && Enabled(s, a) && Guard(s, a) && !a.Crash? && !a.LogFlush? &&
             !a.FinishRecovery?
    ensures SyncedStays(s, Apply(s, a)) && Apply(s, a).manifest.log <= s.manifest.log
  {
    hide TableEntries, Union, Readable, IsLast, DropsAllowed, Elements, UnnamedOk, TablesOk, ManifestOk, TornOk,
      AddTables, NumbersFrom;
  }

  lemma LogsStayByCompaction(s: State, a: Action)
    requires ByCompaction(a)
    requires LogsOk(s) && NumbersOk(s) && Enabled(s, a) && Guard(s, a) && !a.Crash? && !a.LogFlush? &&
             !a.FinishRecovery?
    ensures SyncedStays(s, Apply(s, a)) && Apply(s, a).manifest.log <= s.manifest.log
  {
    hide TableEntries, Union, Readable, IsLast, DropsAllowed, Elements, UnnamedOk, TablesOk, ManifestOk, TornOk,
      AddTables, NumbersFrom;
  }

  lemma LogsStayOtherwise(s: State, a: Action)
    requires !ByUser(a) && !ByFlush(a) && !ByCompaction(a)
    requires LogsOk(s) && NumbersOk(s) && Enabled(s, a) && Guard(s, a) && !a.Crash? && !a.LogFlush? &&
             !a.FinishRecovery?
    ensures SyncedStays(s, Apply(s, a)) && Apply(s, a).manifest.log <= s.manifest.log
  {
    hide TableEntries, Union, Readable, IsLast, DropsAllowed, Elements, UnnamedOk, TablesOk, ManifestOk, TornOk,
      AddTables, NumbersFrom;
  }

  lemma LogsStay(s: State, a: Action)
    requires LogsOk(s) && NumbersOk(s) && Enabled(s, a) && Guard(s, a) && !a.Crash? && !a.LogFlush? &&
             !a.FinishRecovery?
    ensures SyncedStays(s, Apply(s, a)) && Apply(s, a).manifest.log <= s.manifest.log
  {
    hide Apply, Enabled, Guard, FilesOk, DiskOk, CountersOk, RecoveryOk, MemoryOk;
    if ByUser(a) {
      LogsStayByUser(s, a);
    } else if ByFlush(a) {
      LogsStayByFlush(s, a);
    } else if ByCompaction(a) {
      LogsStayByCompaction(s, a);
    } else {
      LogsStayOtherwise(s, a);
    }
  }

  lemma HistoryGrowsByUser(s: State, a: Action)
    requires ByUser(a)
    requires Enabled(s, a) && Guard(s, a) && !a.Crash? && !a.LogFlush? && !a.FinishRecovery?
    ensures s.history <= Apply(s, a).history && s.flushed <= Apply(s, a).flushed
    ensures !a.InsertMem? ==> Apply(s, a).history == s.history
  {
    hide TableEntries, Union, Readable, IsLast, DropsAllowed, Elements, UnnamedOk, TablesOk, ManifestOk, TornOk,
      AddTables, NumbersFrom;
  }

  lemma HistoryGrowsByFlush(s: State, a: Action)
    requires ByFlush(a)
    requires Enabled(s, a) && Guard(s, a) && !a.Crash? && !a.LogFlush? && !a.FinishRecovery?
    ensures s.history <= Apply(s, a).history && s.flushed <= Apply(s, a).flushed
    ensures !a.InsertMem? ==> Apply(s, a).history == s.history
  {
    hide TableEntries, Union, Readable, IsLast, DropsAllowed, Elements, UnnamedOk, TablesOk, ManifestOk, TornOk,
      AddTables, NumbersFrom;
  }

  lemma HistoryGrowsByCompaction(s: State, a: Action)
    requires ByCompaction(a)
    requires Enabled(s, a) && Guard(s, a) && !a.Crash? && !a.LogFlush? && !a.FinishRecovery?
    ensures s.history <= Apply(s, a).history && s.flushed <= Apply(s, a).flushed
    ensures !a.InsertMem? ==> Apply(s, a).history == s.history
  {
    hide TableEntries, Union, Readable, IsLast, DropsAllowed, Elements, UnnamedOk, TablesOk, ManifestOk, TornOk,
      AddTables, NumbersFrom;
  }

  lemma HistoryGrowsOtherwise(s: State, a: Action)
    requires !ByUser(a) && !ByFlush(a) && !ByCompaction(a)
    requires Enabled(s, a) && Guard(s, a) && !a.Crash? && !a.LogFlush? && !a.FinishRecovery?
    ensures s.history <= Apply(s, a).history && s.flushed <= Apply(s, a).flushed
    ensures !a.InsertMem? ==> Apply(s, a).history == s.history
  {
    hide TableEntries, Union, Readable, IsLast, DropsAllowed, Elements, UnnamedOk, TablesOk, ManifestOk, TornOk,
      AddTables, NumbersFrom;
  }

  lemma HistoryGrows(s: State, a: Action)
    requires Enabled(s, a) && Guard(s, a) && !a.Crash? && !a.LogFlush? && !a.FinishRecovery?
    ensures s.history <= Apply(s, a).history && s.flushed <= Apply(s, a).flushed
    ensures !a.InsertMem? ==> Apply(s, a).history == s.history
  {
    hide Apply, Enabled, Guard, FilesOk, DiskOk, CountersOk, RecoveryOk, MemoryOk;
    if ByUser(a) {
      HistoryGrowsByUser(s, a);
    } else if ByFlush(a) {
      HistoryGrowsByFlush(s, a);
    } else if ByCompaction(a) {
      HistoryGrowsByCompaction(s, a);
    } else {
      HistoryGrowsOtherwise(s, a);
    }
  }

  lemma OtherStepKeepsDurable(s: State, a: Action)
    requires Inv(s) && Enabled(s, a) && Guard(s, a) && !a.Crash? && !a.LogFlush? && !a.FinishRecovery?
    ensures Durable(s) <= Durable(Apply(s, a))
  {
    hide Inv, Apply, Enabled, Guard, Durable, SyncedStays, Union, FilesOk, LogsOk, NumbersOk;
    InvHasFiles(s);
    LogsStay(s, a);
    HistoryGrows(s, a);
    DurableStaysIf(s, Apply(s, a));
  }

  lemma StepKeepsDurable(s: State, a: Action)
    requires Inv(s) && Enabled(s, a) && Guard(s, a)
    ensures Durable(s) <= Durable(Apply(s, a))
  {
    hide Inv, Apply, Enabled, Guard, Durable, FilesOk;
    InvHasFiles(s);
    match a {
      case Crash(left, torn) => CrashKeepsDurable(s, left, torn);
      case LogFlush(ok, written) => LogFlushKeepsDurable(s, ok, written);
      case FinishRecovery(save, keepManifest) => FinishRecoveryKeepsDurable(s, save, keepManifest);
      case _ => OtherStepKeepsDurable(s, a);
    }
  }

  lemma {:induction false} DurableStays(states: seq<State>, actions: seq<Action>, i: nat, j: nat)
    requires AreSteps(states, actions) && Inv(states[0]) && i <= j < |states|
    ensures Durable(states[i]) <= Durable(states[j])
  {
    hide Inv, Enabled, Guard, Apply, Durable;
    if i < j {
      DurableStays(states, actions, i, j - 1);
      StepsKeep(states, actions, j - 1);
      assert IsStep(states[j - 1], actions[j - 1], states[j]);
      StepKeepsDurable(states[j - 1], actions[j - 1]);
    }
  }

  /** A write that was answered and synced, or flushed, is covered whenever the database is open again,
      whatever crashes, flushes, compactions and cleanups came in between. */
  lemma DurableSurvives(states: seq<State>, actions: seq<Action>, i: nat, j: nat, w: Entry)
    requires IsRun(states, actions) && i <= j < |states| && Open(states[j]) && w in Durable(states[i])
    ensures w in states[j].history && Covered(Contents(states[j]), states[j].history, w)
  {
    hide Inv, Contents, AreSteps;
    StartIsOk();
    DurableSurvivesSteps(states, actions, i, j, w);
  }

  lemma DurableSurvivesSteps(states: seq<State>, actions: seq<Action>, i: nat, j: nat, w: Entry)
    requires AreSteps(states, actions) && Inv(states[0])
    requires i <= j < |states| && Open(states[j]) && w in Durable(states[i])
    ensures w in states[j].history && Covered(Contents(states[j]), states[j].history, w)
  {
    hide Inv, Contents, Faithful, Numbered, AreSteps;
    DurableStays(states, actions, i, j);
    assert w in Durable(states[j]);
    StepsKeep(states, actions, j);
    ContentsAreFaithful(states[j]);
    FaithfulCovers(Contents(states[j]), states[j].history, w);
  }

  /** An answer after a successful sync is durable at once. */
  lemma SyncedAnswerIsDurable(s: State)
    requires Inv(s) && Enabled(s, InsertMem) && s.logs[s.logfile].synced == |s.logs[s.logfile].records|
    ensures Elements(s.inFlight.value) <= Durable(Apply(s, InsertMem))
  {
    hide TableEntries, Faithful, LogsOrdered, FlushedFirst, JobOk, TablesOk, ManifestOk, TornOk;
    var t, log := Apply(s, InsertMem), s.logs[s.logfile];
    assert SyncedPart(log) == log.records;
    forall e | e in s.inFlight.value ensures e in SyncedEntries(t.logs, t.manifest.log) {
      assert e in s.unanswered && e in Union(log.records);
    }
  }

  // ---------------------------------------------------------------- when a crash leaves a prefix

  /** Log n loses a write that the manifest does not account for. */
  ghost predicate Loses(s: State, left: map<Number, Log>, n: Number) {
    n in s.logs && n in left &&
    exists e :: e in Union(s.logs[n].records) && e !in Union(left[n].records) && e !in s.flushed
  }

  /** When a log loses something, all later logs are left empty. */
  ghost predicate LosesTailOnly(s: State, left: map<Number, Log>) {
    forall n, m :: n in s.logs && m in left && s.manifest.log <= n < m && Loses(s, left, n) ==>
        Union(left[m].records) == {}
  }

  lemma RecordOrder(records: seq<Record>, i: nat, j: nat, a: Entry, b: Entry)
    requires RecordsOrdered(records) && i < j < |records| && a in records[i] && b in records[j]
    ensures a.key.sequence < b.key.sequence
  {
    assert Before(Elements(records[i]), Elements(records[j]));
  }

  /** Within one log the cut leaves what is older than anything it leaves. */
  lemma CutKeepsEarlier(before: seq<Record>, after: seq<Record>, a: Entry, b: Entry)
    requires RecordsOrdered(before) && after <= before
    requires a in Union(after) && b in Union(before) && b.key.sequence < a.key.sequence
    ensures b in Union(after)
  {
    var ra :| ra in after && a in ra;
    var i :| 0 <= i < |after| && after[i] == ra;
    var rb :| rb in before && b in rb;
    var j :| 0 <= j < |before| && before[j] == rb;
    if i < j { RecordOrder(before, i, j, a, b); }
    assert rb == after[j] && rb in after;
  }

  predicate IsCut(logs: map<Number, Log>, left: map<Number, Log>) {
    left.Keys == logs.Keys && forall n :: n in left ==> left[n].records <= logs[n].records
  }

  /** What an older write of the whole needs to be left. */
  lemma EarlierIsLeft(s: State, left: map<Number, Log>, a: Entry, b: Entry)
    requires DiskOk(s) && IsCut(s.logs, left) && LosesTailOnly(s, left)
    requires a in s.flushed + LogEntries(left, s.manifest.log) && b in s.flushed + LogEntries(s.logs, s.manifest.log)
    requires b.key.sequence < a.key.sequence
    ensures b in s.flushed + LogEntries(left, s.manifest.log)
  {
    hide Union, Numbered, TableEntries, RecordsOrdered, Faithful, FlushedFirst, LogsOrdered;
    if b !in s.flushed {
      var n :| n in s.logs && s.manifest.log <= n && b in Union(s.logs[n].records);
      if b !in Union(left[n].records) {
        assert Loses(s, left, n);
        FlushedIsEarlier(s, n, a, b);
        var m :| m in left && s.manifest.log <= m && a in Union(left[m].records);
        LeftIsLogged(s.logs[m].records, left[m].records, a);
        LogOrder(s.logs, s.manifest.log, m, n, a, b);
        assert m == n;
        CutKeepsEarlier(s.logs[n].records, left[n].records, a, b);
      }
    }
  }

  lemma FlushedIsEarlier(s: State, n: Number, a: Entry, b: Entry)
    requires DiskOk(s) && n in s.logs && s.manifest.log <= n && b in Union(s.logs[n].records) && b !in s.flushed
    requires b.key.sequence < a.key.sequence
    ensures a !in s.flushed
  {
    hide Union, TableEntries, LogsOrdered, Numbered;
    assert b !in TableEntries(s.tables, s.manifest.files);
  }

  lemma LeftIsLogged(before: seq<Record>, after: seq<Record>, e: Entry)
    requires after <= before && e in Union(after)
    ensures e in Union(before)
  {
    var r :| r in after && e in r;
    assert r in before;
  }

  lemma EarlierLog(logs: map<Number, Log>, from: Number, m: Number, n: Number, a: Entry, b: Entry)
    requires LogsOrdered(logs, from) && m in logs && n in logs && from <= m < n
    requires a in Union(logs[m].records) && b in Union(logs[n].records)
    ensures a.key.sequence < b.key.sequence
  {
    hide Union;
    assert Before(Union(logs[m].records), Union(logs[n].records));
  }

  lemma LogOrder(logs: map<Number, Log>, from: Number, m: Number, n: Number, a: Entry, b: Entry)
    requires LogsOrdered(logs, from) && m in logs && n in logs && from <= m && from <= n
    requires a in Union(logs[m].records) && b in Union(logs[n].records) && b.key.sequence <= a.key.sequence
    ensures n <= m
    ensures RecordsOrdered(logs[n].records)
  {
    hide Union, LogsOrdered;
    if m < n { EarlierLog(logs, from, m, n, a, b); }
    assert RecordsOrdered(logs[n].records) by { LogHasOrder(logs, from, n); }
  }

  lemma LostIsGone(logs: map<Number, Log>, left: map<Number, Log>, from: Number, n: Number, e: Entry)
    requires LogsOrdered(logs, from) && IsCut(logs, left) && n in logs && from <= n
    requires e in Union(logs[n].records) && e !in Union(left[n].records)
    ensures e !in LogEntries(left, from)
  {
    hide Union, LogsOrdered;
    if e in LogEntries(left, from) {
      var k :| k in left && from <= k && e in Union(left[k].records);
      LeftIsLogged(logs[k].records, left[k].records, e);
      LogOrder(logs, from, k, n, e, e);
      LogOrder(logs, from, n, k, e, e);
    }
  }

  lemma NotLeft(s: State, left: map<Number, Log>, n: Number, m: Number, e: Entry, x: Entry)
    requires DiskOk(s) && IsCut(s.logs, left) &&
             IsPrefix(s.flushed + LogEntries(left, s.manifest.log), s.history + s.unanswered)
    requires n in s.logs && m in s.logs && s.manifest.log <= n < m
    requires e in Union(s.logs[n].records) && e !in Union(left[n].records) && e !in s.flushed
    ensures x !in Union(left[m].records)
  {
    hide Union, Numbered, TableEntries, FlushedFirst, LogsOrdered, Faithful;
    LostIsGone(s.logs, left, s.manifest.log, n, e);
    assert e in LogEntries(s.logs, s.manifest.log);
    if x in Union(left[m].records) {
      LeftIsLogged(s.logs[m].records, left[m].records, x);
      EarlierLog(s.logs, s.manifest.log, n, m, e, x);
    }
  }

  /** Nothing is left behind a loss in an earlier log. */
  lemma PrefixLosesTail(s: State, left: map<Number, Log>, n: Number, m: Number)
    requires DiskOk(s) && IsCut(s.logs, left) &&
             IsPrefix(s.flushed + LogEntries(left, s.manifest.log), s.history + s.unanswered)
    requires n in s.logs && m in s.logs && s.manifest.log <= n < m && Loses(s, left, n)
    ensures Union(left[m].records) == {}
  {
    hide Union, DiskOk, IsPrefix;
    var e :| e in Union(s.logs[n].records) && e !in Union(left[n].records) && e !in s.flushed;
    forall x ensures x !in Union(left[m].records) {
      NotLeft(s, left, n, m, e, x);
    }
  }

  /** A crash leaves a prefix of what was written, in the order of writing, exactly when no log keeps
      anything behind a loss in an earlier one. */
  lemma CrashLeavesPrefixExactly(s: State, left: map<Number, Log>, torn: bool)
    requires Inv(s) && Enabled(s, Crash(left, torn))
    ensures IsPrefix(Apply(s, Crash(left, torn)).history, s.history + s.unanswered) <==> LosesTailOnly(s, left)
  {
    hide Union, FilesOk, MemoryOk, CountersOk, RecoveryOk, Numbered, TableEntries, FlushedFirst, LogsOrdered,
      Faithful, LosesTailOnly;
    assert IsCut(s.logs, left);
    CutIsPrefixExactly(s, left);
  }

  lemma CutIsPrefixExactly(s: State, left: map<Number, Log>)
    requires DiskOk(s) && IsCut(s.logs, left)
    ensures IsPrefix(s.flushed + LogEntries(left, s.manifest.log), s.history + s.unanswered) <==> LosesTailOnly(s, left)
  {
    hide Union, Numbered, TableEntries, FlushedFirst, LogsOrdered, Faithful;
    var part, whole := s.flushed + LogEntries(left, s.manifest.log), s.history + s.unanswered;
    forall n, e | n in left && e in Union(left[n].records) ensures e in Union(s.logs[n].records) {
      LeftIsLogged(s.logs[n].records, left[n].records, e);
    }
    assert part <= whole;
    if LosesTailOnly(s, left) {
      forall a, b | a in part && b in whole && b.key.sequence < a.key.sequence ensures b in part {
        EarlierIsLeft(s, left, a, b);
      }
    }
    if IsPrefix(part, whole) {
      forall n, m | n in s.logs && m in s.logs && s.manifest.log <= n < m && Loses(s, left, n)
        ensures Union(left[m].records) == {}
      {
        PrefixLosesTail(s, left, n, m);
      }
    }
  }

  // ---------------------------------------------------------------- tables in use

  /** A version that recovery or a reader may still go to names the table. */
  predicate Named(s: State, n: Number) {
    || n in s.manifest.files
    || (!s.job.Closed? && n in s.current.files)
    || (exists i :: 0 <= i < |s.readers| && n in s.readers[i])
  }

  /** Every table of a live version, and every finished output that is still pending, is on disk. */
  lemma LiveTablesAreOnDisk(states: seq<State>, actions: seq<Action>, i: nat, n: Number)
    requires IsRun(states, actions) && i < |states|
    requires Named(states[i], n) || (Paused(states[i].job).Some? &&
               n in Paused(states[i].job).value.pinned + Paused(states[i].job).value.written)
    ensures n in states[i].tables
  {
    hide DiskOk, MemoryOk, CountersOk, RecoveryOk;
    RunKeeps(states, actions, i);
  }

  /** A table keeps its contents for as long as a version names it, also across crashes and recoveries. */
  lemma NamedTablesNeverChange(states: seq<State>, actions: seq<Action>, i: nat, n: Number)
    requires IsRun(states, actions) && i < |actions| && Named(states[i], n) && Named(states[i + 1], n)
    ensures n in states[i].tables && n in states[i + 1].tables && states[i + 1].tables[n] == states[i].tables[n]
  {
    hide Inv, Named, Apply, Enabled, Guard;
    LiveTablesAreOnDisk(states, actions, i, n);
    LiveTablesAreOnDisk(states, actions, i + 1, n);
    RunKeeps(states, actions, i);
    assert FilesOk(states[i]) by { InvHasFiles(states[i]); }
    assert IsStep(states[i], actions[i], states[i + 1]);
    StepLeavesNamedTables(states[i], actions[i], n);
  }

  lemma InvHasFiles(s: State)
    requires Inv(s)
    ensures FilesOk(s) && LogsOk(s) && NumbersOk(s)
  {
  }

  lemma StepLeavesNamedTables(s: State, a: Action, n: Number)
    requires FilesOk(s) && Enabled(s, a) && Named(s, n) && n in s.tables && n in Apply(s, a).tables
    ensures Apply(s, a).tables[n] == s.tables[n]
  {
    match a {
      case RecoverLog(number, parts, top) => RecoveryLeavesNamedTables(s, number, parts, top, n);
      case _ => OtherStepLeavesNamedTables(s, a, n);
    }
  }

  lemma RecoveryLeavesNamedTables(s: State, number: Number, parts: seq<set<Entry>>, top: SequenceNumber, n: Number)
    requires FilesOk(s) && Enabled(s, RecoverLog(number, parts, top)) && Named(s, n) && n in s.tables
    ensures var t := Apply(s, RecoverLog(number, parts, top)); n in t.tables && t.tables[n] == s.tables[n]
  {
    hide Union, Readable, IsLast, TablesOk, ManifestOk, TornOk, AddTables, NumbersFrom, Parts;
    AddTablesAdds(s.tables, s.next, parts);
  }

  lemma OtherStepLeavesNamedTablesByUser(s: State, a: Action, n: Number)
    requires ByUser(a)
    requires JobOk(s) && Enabled(s, a) && Named(s, n) && n in s.tables && n in Apply(s, a).tables && !a.RecoverLog?
    ensures Apply(s, a).tables[n] == s.tables[n]
  {
    hide TableEntries, Union, Readable, IsLast, DropsAllowed, Elements;
  }

  lemma OtherStepLeavesNamedTablesOtherwise(s: State, a: Action, n: Number)
    requires !ByUser(a) && !ByFlush(a) && !ByCompaction(a)
    requires JobOk(s) && Enabled(s, a) && Named(s, n) && n in s.tables && n in Apply(s, a).tables && !a.RecoverLog?
    ensures Apply(s, a).tables[n] == s.tables[n]
  {
    hide TableEntries, Union, Readable, IsLast, DropsAllowed, Elements;
  }

  lemma OtherStepLeavesNamedTables(s: State, a: Action, n: Number)
    requires JobOk(s) && Enabled(s, a) && Named(s, n) && n in s.tables && n in Apply(s, a).tables && !a.RecoverLog?
    ensures Apply(s, a).tables[n] == s.tables[n]
  {
    hide Apply, Enabled, Guard, FilesOk, DiskOk, CountersOk, RecoveryOk, MemoryOk;
    if ByUser(a) {
      OtherStepLeavesNamedTablesByUser(s, a, n);
    } else if ByFlush(a) || ByCompaction(a) {
      WorkerWritesUnnamed(s, a);
    } else {
      OtherStepLeavesNamedTablesOtherwise(s, a, n);
    }
  }
}
