/** What the life of the files can always reach: a closed database can be opened, and cleaning can delete
    everything but live tables and the logs that a recovery would read (DBImpl::Recover,
    DBImpl::DeleteObsoleteFiles). */
module LifecycleProgress {
  import opened DbFormat
  import opened Lifecycle
  import opened LifecycleRuns
  import opened LifecycleSteps
  import opened Wrappers

  // ---------------------------------------------------------------- cleaning

  predicate Deletes(a: Action) {
    a.DeleteLog? || a.DeleteTable?
  }

  /** The tables that are kept. */
  function LiveTables(s: State): map<Number, set<Entry>> {
    map n | n in s.tables && IsLive(s, n) :: s.tables[n]
  }

  /** The logs that are kept. */
  function LiveLogs(s: State): map<Number, Log> {
    map n | n in s.logs && s.current.log <= n :: s.logs[n]
  }

  lemma MapShrinks<K, V>(m: map<K, V>, k: K)
    requires k in m
    ensures |m - {k}| < |m|
  {
    assert (m - {k}).Keys == m.Keys - {k};
    assert |(m - {k}).Keys| == |m - {k}| && |m.Keys| == |m|;
  }

  lemma DeletedTableKeepsLive(s: State, n: Number)
    requires s.job.Cleaning? && !s.error && n in s.tables && !IsLive(s, n)
    ensures var t := Apply(s, DeleteTable(n));
            && IsStep(s, DeleteTable(n), t) && t.job == s.job && !t.error && t.logs == s.logs
            && t.(tables := s.tables) == s && LiveTables(t) == LiveTables(s) && LiveLogs(t) == LiveLogs(s)
            && |t.tables| < |s.tables|
  {
    MapShrinks(s.tables, n);
    var t := Apply(s, DeleteTable(n));
    assert forall m :: IsLive(t, m) <==> IsLive(s, m);
  }

  lemma DeletedLogKeepsLive(s: State, n: Number)
    requires s.job.Cleaning? && !s.error && n in s.logs && n < s.current.log
    ensures var t := Apply(s, DeleteLog(n));
            && IsStep(s, DeleteLog(n), t) && t.job == s.job && !t.error && t.tables == s.tables
            && t.(logs := s.logs) == s && LiveTables(t) == LiveTables(s) && LiveLogs(t) == LiveLogs(s)
            && |t.logs| < |s.logs|
  {
    MapShrinks(s.logs, n);
    var t := Apply(s, DeleteLog(n));
    assert forall m :: IsLive(t, m) <==> IsLive(s, m);
  }

  /** A round of cleaning can delete everything that is not live, by deletions alone; what it leaves is
      exactly the live tables and the logs from the current log number on, with what they hold. */
  lemma {:induction false} CleaningCollects(s: State) returns (states: seq<State>, actions: seq<Action>)
    requires s.job.Cleaning? && !s.error
    ensures AreSteps(states, actions) && states[0] == s && forall i :: 0 <= i < |actions| ==> Deletes(actions[i])
    ensures states[|actions|] == s.(tables := LiveTables(s), logs := LiveLogs(s))
    decreases |s.tables| + |s.logs|
  {
    hide IsLive, LiveTables, LiveLogs, IsStep, Apply;
    if n :| n in s.tables && !IsLive(s, n) {
      DeletedTableKeepsLive(s, n);
      var t := Apply(s, DeleteTable(n));
      var more, steps := CleaningCollects(t);
      states, actions := [s] + more, [DeleteTable(n)] + steps;
      StepsCons(s, DeleteTable(n), more, steps);
    } else if n :| n in s.logs && n < s.current.log {
      DeletedLogKeepsLive(s, n);
      var t := Apply(s, DeleteLog(n));
      var more, steps := CleaningCollects(t);
      states, actions := [s] + more, [DeleteLog(n)] + steps;
      StepsCons(s, DeleteLog(n), more, steps);
    } else {
      NothingToDelete(s);
      states, actions := [s], [];
    }
  }

  lemma NothingToDelete(s: State)
    requires (forall n :: n in s.tables ==> IsLive(s, n)) && forall n :: n in s.logs ==> s.current.log <= n
    ensures LiveTables(s) == s.tables && LiveLogs(s) == s.logs
  {
  }

  lemma StepsCons(s: State, a: Action, more: seq<State>, steps: seq<Action>)
    requires AreSteps(more, steps) && IsStep(s, a, more[0])
    ensures AreSteps([s] + more, [a] + steps)
  {
    hide IsStep;
    var states, actions := [s] + more, [a] + steps;
    forall i | 0 <= i < |actions| ensures IsStep(states[i], actions[i], states[i + 1]) {
      if i > 0 { assert steps[i - 1] == actions[i]; }
    }
  }

  // ---------------------------------------------------------------- recovery

  predicate Recovers(a: Action) {
    a.Reopen? || a.RecoverLog? || a.FinishRecovery?
  }

  /** A log has something that reading it may find. */
  lemma SomethingReadable(log: Log) returns (content: set<Entry>)
    requires log.torn.Some? ==> log.torn.value == |log.records|
    ensures Readable(log, content)
  {
    content := Union(log.records);
    if log.torn.Some? { assert log.records[..|log.records|] == log.records; }
  }

  lemma {:induction false} LargestNumber(content: set<Entry>, last: SequenceNumber) returns (top: SequenceNumber)
    ensures IsLast(content, last, top)
    decreases |content|
  {
    if content == {} {
      top := last;
    } else {
      var e :| e in content;
      var rest := LargestNumber(content - {e}, last);
      top := if e.key.sequence > rest then e.key.sequence else rest;
      assert forall x :: x in content ==> x == e || x in content - {e};
    }
  }

  lemma {:induction false} Smallest(numbers: set<Number>) returns (n: Number)
    requires numbers != {}
    ensures n in numbers && forall m :: m in numbers ==> n <= m
    decreases |numbers|
  {
    n :| n in numbers;
    if numbers != {n} {
      var m := Smallest(numbers - {n});
      assert forall x :: x in numbers ==> x == n || x in numbers - {n};
      if m < n { n := m; }
    }
  }

  lemma RecoverLogIsStep(s: State, n: Number, content: set<Entry>, top: SequenceNumber) returns (t: State)
    requires s.job.Recovering? && s.job.reused.None? && n in s.job.todo && n in s.logs
    requires (forall m :: m in s.job.todo ==> n <= m) && Readable(s.logs[n], content) && IsLast(content, s.last, top)
    ensures Enabled(s, RecoverLog(n, [content], top)) && t == Apply(s, RecoverLog(n, [content], top))
    ensures IsStep(s, RecoverLog(n, [content], top), t)
    ensures t.job.Recovering? && t.job.reused.None? && t.job.todo == s.job.todo - {n}
  {
    hide Readable, IsLast, AddTables, NumbersFrom;
    assert Parts([content]) == content;
    t := Apply(s, RecoverLog(n, [content], top));
  }

  lemma RecoversNext(s: State) returns (a: Action, t: State)
    requires Inv(s) && s.job.Recovering? && s.job.reused.None? && s.job.todo != {}
    ensures a.RecoverLog? && IsStep(s, a, t) && Inv(t)
    ensures t.job.Recovering? && t.job.reused.None? && |t.job.todo| < |s.job.todo|
  {
    hide Inv, Readable, IsLast;
    var n := Smallest(s.job.todo);
    TodoIsThere(s, n);
    var content := SomethingReadable(s.logs[n]);
    var top := LargestNumber(content, s.last);
    a := RecoverLog(n, [content], top);
    t := RecoverLogIsStep(s, n, content, top);
    hide Apply;
    StepKeeps(s, a);
  }

  lemma TodoIsThere(s: State, n: Number)
    requires Inv(s) && s.job.Recovering? && n in s.job.todo
    ensures n in s.logs && (s.logs[n].torn.Some? ==> s.logs[n].torn.value == |s.logs[n].records|)
  {
    hide DiskOk, MemoryOk, CountersOk, RecoveryOk;
  }

  lemma {:induction false} CanRecover(s: State) returns (states: seq<State>, actions: seq<Action>)
    requires Inv(s) && s.job.Recovering? && s.job.reused.None?
    ensures AreSteps(states, actions) && states[0] == s && forall i :: 0 <= i < |actions| ==> Recovers(actions[i])
    ensures Open(states[|actions|])
    decreases |s.job.todo|
  {
    hide Inv, Apply, IsStep;
    if s.job.todo == {} {
      var a := FinishRecovery(true, false);
      FinishOpens(s);
      states, actions := [s, Apply(s, a)], [a];
    } else {
      var a, t := RecoversNext(s);
      var more, steps := CanRecover(t);
      states, actions := [s] + more, [a] + steps;
      StepsCons(s, a, more, steps);
    }
  }

  lemma FinishOpens(s: State)
    requires s.job.Recovering? && s.job.todo == {}
    ensures var a := FinishRecovery(true, false);
            IsStep(s, a, Apply(s, a)) && Open(Apply(s, a))
  {
    hide TableEntries;
  }

  /** Wherever a crash has left the files, the database can be opened again. */
  lemma CanAlwaysReopen(s: State) returns (states: seq<State>, actions: seq<Action>)
    requires Inv(s) && s.job.Closed?
    ensures AreSteps(states, actions) && states[0] == s && forall i :: 0 <= i < |actions| ==> Recovers(actions[i])
    ensures Open(states[|actions|])
  {
    hide Inv, IsStep;
    StepKeeps(s, Reopen);
    var t := Apply(s, Reopen);
    assert IsStep(s, Reopen, t) by { ReopenIsStep(s); }
    hide Apply;
    var more, steps := CanRecover(t);
    states, actions := [s] + more, [Reopen] + steps;
    StepsCons(s, Reopen, more, steps);
  }

  lemma ReopenIsStep(s: State)
    requires s.job.Closed?
    ensures IsStep(s, Reopen, Apply(s, Reopen))
  {
  }

  // ---------------------------------------------------------------- the background thread

  ghost predicate IsPath(s: State, states: seq<State>, actions: seq<Action>) {
    AreSteps(states, actions) && states[0] == s
  }

  lemma PathSnoc(s: State, states: seq<State>, actions: seq<Action>, a: Action) returns (more: seq<State>)
    requires IsPath(s, states, actions) && Enabled(states[|actions|], a) && Guard(states[|actions|], a)
    ensures IsPath(s, more, actions + [a]) && more[|actions| + 1] == Apply(states[|actions|], a)
  {
    hide Enabled, Guard, Apply;
    more := states + [Apply(states[|actions|], a)];
    forall i | 0 <= i < |actions + [a]| ensures IsStep(more[i], (actions + [a])[i], more[i + 1]) {
      assert i < |actions| ==> (actions + [a])[i] == actions[i];
    }
  }

  /** A full memtable can be written to a table. */
  lemma FlushCanBuild(s: State) returns (states: seq<State>, actions: seq<Action>)
    requires Open(s) && s.job.Idle? && !s.error && s.imm.Some?
    ensures IsPath(s, states, actions) && |actions| == 2 && forall i :: 0 <= i < 2 ==> ByFlush(actions[i])
    ensures states[2] == s.(next := s.next + 1, pending := s.pending + {s.next} - {s.next},
                            tables := if s.imm.value == {} then s.tables else s.tables[s.next := s.imm.value],
                            job := FlushBuilt(if s.imm.value == {} then {} else {s.next}, None))
  {
    hide IsPath;
    PathOfNone(s);
    states := PathSnoc(s, [s], [], StartFlush);
    assert [] + [StartFlush] == [StartFlush];
    states := PathSnoc(s, states, [StartFlush], BuildTable(true));
    actions := [StartFlush] + [BuildTable(true)];
  }

  /** A full memtable can always be brought into a table of the current version. */
  lemma FlushCanFinish(s: State) returns (states: seq<State>, actions: seq<Action>)
    requires Open(s) && s.job.Idle? && !s.error && s.imm.Some?
    ensures IsPath(s, states, actions) && forall i :: 0 <= i < |actions| ==> ByFlush(actions[i])
    ensures var t := states[|actions|];
            && t.job == Cleaning(None) && t.imm.None? && t.current.log == s.logfile
            && t.current.files == (if s.imm.value == {} then s.current.files else s.current.files + {s.next})
            && (s.imm.value != {} ==> s.next in t.tables && t.tables[s.next] == s.imm.value)
  {
    states, actions := FlushCanBuild(s);
    hide IsPath;
    states := PathSnoc(s, states, actions, LogFlush(true, true));
    states := PathSnoc(s, states, actions + [LogFlush(true, true)], InstallFlush);
    actions := actions + [LogFlush(true, true)] + [InstallFlush];
  }

  lemma PathOfNone(s: State)
    ensures IsPath(s, [s], [])
  {
  }

  /** Keeping everything is a compaction that the drop rule allows. */
  lemma KeepingIsAllowed(s: State, c: Compaction, n: Number)
    requires c.outputs == {n} && n !in s.current.files && n in s.tables && c.inputs <= s.current.files
    requires s.tables[n] == TableEntries(s.tables, c.inputs)
    ensures DropsAllowed(s, c)
  {
    assert TableEntries(s.tables, {n}) == s.tables[n];
  }

  lemma NewTableLeavesInputs(s: State, n: Number, content: set<Entry>, inputs: set<Number>)
    requires n !in inputs
    ensures TableEntries(s.tables[n := content], inputs) == TableEntries(s.tables, inputs)
  {
    var now := s.tables[n := content];
    forall e ensures e in TableEntries(now, inputs) <==> e in TableEntries(s.tables, inputs) {
      if m :| m in inputs && m in now && e in now[m] { assert m in s.tables && s.tables[m] == now[m]; }
      if m :| m in inputs && m in s.tables && e in s.tables[m] { assert m in now && s.tables[m] == now[m]; }
    }
  }

  lemma NextIsNew(s: State)
    requires Inv(s) && Open(s)
    ensures s.next !in s.current.files
  {
    hide TablesOk, JobOk, ManifestOk, TornOk, DiskOk, MemoryOk, CountersOk, RecoveryOk;
    assert FilesOk(s) && NumbersOk(s);
    assert Below(s.current.files, s.next);
  }

  /** All inputs can be written to one output table. */
  lemma CompactionCanWrite(s: State, inputs: set<Number>) returns (states: seq<State>, actions: seq<Action>)
    requires Open(s) && s.job.Idle? && !s.error && s.imm.None? && inputs <= s.current.files
    ensures IsPath(s, states, actions) && |actions| == 3 && forall i :: 0 <= i < 3 ==> ByCompaction(actions[i])
    ensures states[3] == s.(next := s.next + 1, pending := s.pending + {s.next},
                            tables := s.tables[s.next := TableEntries(s.tables, inputs)],
                            job := Compacting(Compaction(inputs, s.current.files, {s.next}, {s.next})))
  {
    hide IsPath, TableEntries, DropsAllowed;
    var a1, a2, a3 := StartCompaction(inputs), OpenOutput, WriteOutput(s.next, TableEntries(s.tables, inputs));
    PathOfNone(s);
    states := PathSnoc(s, [s], [], a1);
    assert [] + [a1] == [a1];
    states := PathSnoc(s, states, [a1], a2);
    states := PathSnoc(s, states, [a1] + [a2], a3);
    actions := [a1] + [a2] + [a3];
    assert {} + {s.next} == {s.next};
  }

  /** Any tables of the current version can be compacted into one. */
  lemma CompactionCanFinish(s: State, inputs: set<Number>) returns (states: seq<State>, actions: seq<Action>)
    requires Inv(s) && Open(s) && s.job.Idle? && !s.error && s.imm.None? && inputs <= s.current.files
    ensures IsPath(s, states, actions) && forall i :: 0 <= i < |actions| ==> ByCompaction(actions[i])
    ensures var t := states[|actions|];
            && t.job == Cleaning(None) && t.current.files == s.current.files - inputs + {s.next}
            && s.next in t.tables && t.tables[s.next] == TableEntries(s.tables, inputs)
  {
    NextIsNew(s);
    states, actions := CompactionCanWrite(s, inputs);
    hide IsPath, Inv, TableEntries, DropsAllowed;
    var t := states[3];
    NewTableLeavesInputs(s, s.next, TableEntries(s.tables, inputs), inputs);
    KeepingIsAllowed(t, t.job.c, s.next);
    states := PathSnoc(s, states, actions, LogCompaction(true, true));
    states := PathSnoc(s, states, actions + [LogCompaction(true, true)], InstallCompaction);
    actions := actions + [LogCompaction(true, true)] + [InstallCompaction];
  }
}
