/** The same gap in VersionSet::ReuseManifest (db/version_set.cc): a manifest that a crash cut within an
    edit is kept and written on.  What is saved behind the cut is not read again, while the log that a
    flush made obsolete is deleted, so a synced answer is lost. */
module TornManifest {
  import opened DbFormat
  import opened History
  import opened Lifecycle
  import opened LifecycleFailures
  import opened LifecycleRuns
  import opened Wrappers

  const NEW_LOG := Log([], 0, None)

  // the states of the run, one behind the other: a flush, and a crash while it appends to the manifest
  const IDLE := BEGUN.(job := Idle)
  const SWITCHED := IDLE.(logs := map[3 := NEW_LOG, 4 := NEW_LOG], logfile := 4, next := 5, imm := Some({}))
  const FLUSHING := SWITCHED.(next := 6, pending := {5}, job := Flushing(5, None))
  const BUILT := FLUSHING.(pending := {}, job := FlushBuilt({}, None))
  const DOWN := BUILT.(imm := None, manifestTorn := true, job := Closed)
  // recovery, which keeps the manifest
  const FOUND := DOWN.(job := Recovering({3, 4}, {}, None), next := 5)
  const REPLAYED := FOUND.(job := Recovering({4}, {}, None))
  const REUSED := REPLAYED.(job := Recovering({}, {}, Some(4)))
  const OPEN := REUSED.(job := Cleaning(None))
  // a synced answer
  const LOGGED :=
    OPEN.(logs := map[3 := NEW_LOG, 4 := Log([[LOST]], 0, None)], inFlight := Some([LOST]), unanswered := {LOST})
  const SYNCED := LOGGED.(logs := map[3 := NEW_LOG, 4 := Log([[LOST]], 1, None)])
  const ANSWERED := SYNCED.(mem := {LOST}, inFlight := None, unanswered := {}, history := {LOST}, last := 1)
  // a flush that succeeds, and the cleanup behind it
  const CLEAN := ANSWERED.(job := Idle)
  const FULL := CLEAN.(logs := CLEAN.logs[5 := NEW_LOG], logfile := 5, next := 6, imm := Some({LOST}), mem := {})
  const WRITING := FULL.(next := 7, pending := {6}, job := Flushing(6, None))
  const WRITTEN := WRITING.(pending := {}, tables := map[6 := {LOST}], job := FlushBuilt({6}, None))
  const SAVED := WRITTEN.(job := FlushLogged(Edit({}, {6}, 5), None))
  const INSTALLED := SAVED.(current := Version({6}, 5), imm := None, settled := {LOST}, job := Cleaning(None))
  const CLEANED := INSTALLED.(logs := map[3 := NEW_LOG, 5 := NEW_LOG])

  lemma NothingInLogs(logs: map<Number, Log>)
    requires forall n :: n in logs ==> logs[n].records == []
    ensures LogEntries(logs, 3) == {}
  {
  }

  lemma FirstFlush()
    ensures Leads(BEGUN, EndCleaning, IDLE) && Leads(IDLE, SwitchMem, SWITCHED) && Leads(SWITCHED, StartFlush, FLUSHING)
  {
    assert BEGUN.logs[4 := NEW_LOG] == SWITCHED.logs;
  }

  lemma FlushIsCut()
    ensures Leads(FLUSHING, BuildTable(true), BUILT) && Leads(BUILT, Crash(BUILT.logs, true), DOWN)
  {
    NothingInLogs(BUILT.logs);
    assert LogLeft(NEW_LOG, NEW_LOG, false) && LogLeft(NEW_LOG, NEW_LOG, true);
    assert Enabled(BUILT, Crash(BUILT.logs, true));
  }

  lemma FindsLogs()
    ensures Leads(DOWN, Reopen, FOUND)
  {
    assert Apply(DOWN, Reopen).job.todo == {3, 4};
  }

  lemma Replays()
    ensures Leads(FOUND, RecoverLog(3, [], 0), REPLAYED)
  {
    assert Parts([]) == {} && Union(NEW_LOG.records) == {};
    assert NumbersFrom(5, 0) == {} && Max(5, 4) == 5;
    assert FOUND.job.todo - {3} == {4} && FOUND.job.added + NumbersFrom(5, 0) == {};
  }

  lemma TakesUpLog()
    ensures Leads(REPLAYED, ReuseLog(4, {}, 0), REUSED)
  {
    assert Union(NEW_LOG.records) == {};
  }

  lemma KeepsManifest()
    ensures Leads(REUSED, FinishRecovery(false, true), OPEN)
  {
    assert TableEntries(REUSED.tables, {}) == {};
  }

  lemma SyncedAnswer()
    ensures Leads(OPEN, AppendLog([LOST]), LOGGED) && Leads(LOGGED, SyncLog(true), SYNCED)
  {
    assert Elements([LOST]) == {LOST};
    assert [] + [[LOST]] == [[LOST]];
    assert OPEN.logs[4 := Log([[LOST]], 0, None)] == LOGGED.logs &&
           LOGGED.logs[4 := Log([[LOST]], 1, None)] == SYNCED.logs;
  }

  lemma AnswerIsDurable()
    ensures Leads(SYNCED, InsertMem, ANSWERED) && Open(ANSWERED) && LOST in Durable(ANSWERED)
  {
    assert Elements([LOST]) == {LOST};
    assert {} + {LOST} == {LOST} && {LOST} - {LOST} == {};
    var log := Log([[LOST]], 1, None);
    assert SyncedPart(log) == log.records && [LOST] in log.records;
    assert ANSWERED.logs[4] == log && LOST in Union(SyncedPart(ANSWERED.logs[4]));
    assert LOST in SyncedEntries(ANSWERED.logs, ANSWERED.manifest.log);
  }

  lemma SecondFlush()
    ensures Leads(ANSWERED, EndCleaning, CLEAN) && Leads(CLEAN, SwitchMem, FULL) && Leads(FULL, StartFlush, WRITING)
    ensures Leads(WRITING, BuildTable(true), WRITTEN)
  {
    assert WRITING.tables[6 := {LOST}] == WRITTEN.tables;
  }

  /** The edit goes behind the cut: the manifest that is read again stays as it was. */
  lemma SavedInVain()
    ensures Leads(WRITTEN, LogFlush(true, true), SAVED) && Leads(SAVED, InstallFlush, INSTALLED)
  {
    assert Installed(SAVED.current, SAVED.job.edit) == Version({6}, 5);
  }

  lemma LogIsDeleted()
    ensures Leads(INSTALLED, DeleteLog(4), CLEANED) && Stored(CLEANED) == {} && !HasUser(Stored(CLEANED), LOST.key.user)
  {
    assert INSTALLED.logs - {4} == CLEANED.logs;
    NothingInLogs(CLEANED.logs);
    assert TableEntries(CLEANED.tables, {}) == {};
  }

  lemma OneStepIsGuarded()
    ensures !Guard(REUSED, FinishRecovery(false, true)) && Guard(REPLAYED, ReuseLog(4, {}, 0))
    ensures forall s: State, a: Action :: !a.AppendFails? && !a.ReuseLog? && !a.FinishRecovery? ==> Guard(s, a)
    ensures forall s: State :: Guard(s, FinishRecovery(true, false))
  {
  }

  /** A flush whose edit is cut short, and a recovery that keeps the manifest. */
  lemma TornManifestIsKept() returns (states: seq<State>, actions: seq<Action>)
    ensures IsPath(states, actions) && |actions| == 11 && states[11] == OPEN && actions[10].FinishRecovery?
    ensures forall i {:trigger actions[i]} :: 0 <= i < 11 ==> (Guard(states[i], actions[i]) <==> i != 10)
  {
    hide Enabled, Apply, Leads, Guard;
    states := [START, EMPTY, BEGUN, IDLE, SWITCHED, FLUSHING, BUILT, DOWN, FOUND, REPLAYED, REUSED, OPEN];
    actions :=
      [Reopen, FinishRecovery(true, false), EndCleaning, SwitchMem, StartFlush, BuildTable(true),
       Crash(BUILT.logs, true),
                Reopen, RecoverLog(3, [], 0), ReuseLog(4, {}, 0), FinishRecovery(false, true)];
    FirstOpen();
    FirstFlush();
    FlushIsCut();
    FindsLogs();
    Replays();
    TakesUpLog();
    KeepsManifest();
    OneStepIsGuarded();
  }

  /** From there a synced answer, a flush and the deletion of its log. */
  lemma AnswerIsDeleted() returns (states: seq<State>, actions: seq<Action>)
    ensures LeadsAll(states, actions) && |actions| == 10 && states[0] == OPEN
    ensures Open(states[3]) && LOST in Durable(states[3]) && !HasUser(Stored(states[10]), LOST.key.user)
    ensures forall i {:trigger actions[i]} :: 0 <= i < 10 ==> Guard(states[i], actions[i])
  {
    hide Enabled, Apply, Leads, Guard, Stored, Durable, HasUser, Lifecycle.Open;
    states := [OPEN, LOGGED, SYNCED, ANSWERED, CLEAN, FULL, WRITING, WRITTEN, SAVED, INSTALLED, CLEANED];
    actions := [AppendLog([LOST]), SyncLog(true), InsertMem, EndCleaning, SwitchMem, StartFlush, BuildTable(true),
                LogFlush(true, true), InstallFlush, DeleteLog(4)];
    SyncedAnswer();
    AnswerIsDurable();
    SecondFlush();
    SavedInVain();
    LogIsDeleted();
    OneStepIsGuarded();
  }

  /** A write that was synced and answered is nowhere on disk that a recovery would look, with no crash
      since.  The guard excludes exactly the step that kept the torn manifest. */
  lemma SyncedWriteIsLost() returns (states: seq<State>, actions: seq<Action>, w: Entry)
    ensures IsPath(states, actions) && |actions| == 21
    ensures Open(states[14]) && w in Durable(states[14])
    ensures !HasUser(Stored(states[21]), w.key.user)
    ensures forall i {:trigger actions[i]} :: 0 <= i < 21 ==> (Guard(states[i], actions[i]) <==> i != 10)
    ensures actions[10].FinishRecovery?
  {
    hide Enabled, Apply, Leads, Guard, Stored, Durable, HasUser, Lifecycle.Open;
    w := LOST;
    var before, steps := TornManifestIsKept();
    var after, more := AnswerIsDeleted();
    states, actions := before + after[1..], steps + more;
    forall i | 0 <= i < 21
      ensures Leads(states[i], actions[i], states[i + 1]) && (Guard(states[i], actions[i]) <==> i != 10)
    {
      if i < 11 {
        assert steps[i] == actions[i];
      } else {
        assert more[i - 11] == actions[i];
      }
    }
  }
}
