/** Where the code's own checks are too weak: writes behind a torn record.  A log that is used again, or
    a manifest that is kept, may end in the beginning of a record, and what is then written behind it is
    not read again.  Each failure is a run of the steps, and the condition that excludes it is exact. */
module LifecycleFailures {
  import opened DbFormat
  import opened History
  import opened Lifecycle
  import opened LifecycleRuns
  import opened Wrappers

  /** A run of the code's own steps, without the guard. */
  ghost predicate IsPath(states: seq<State>, actions: seq<Action>) {
    LeadsAll(states, actions) && states[0] == START
  }

  ghost predicate LeadsAll(states: seq<State>, actions: seq<Action>) {
    && |states| == |actions| + 1
    && forall i {:trigger actions[i]} :: 0 <= i < |actions| ==> Leads(states[i], actions[i], states[i + 1])
  }

  /** A step of the code from s to t. */
  ghost predicate Leads(s: State, a: Action, t: State) {
    Enabled(s, a) && t == Apply(s, a)
  }

  /** A record appended to a log is read back for sure exactly when the log is not torn. */
  lemma AppendedIsReadExactly(log: Log, r: Record)
    requires r != [] && Elements(r) !! Union(log.records) && (log.torn.Some? ==> log.torn.value <= |log.records|)
    ensures (forall content :: Readable(log.(records := log.records + [r]), content) ==> Elements(r) <= content)
            <==> log.torn.None?
  {
    var longer := log.(records := log.records + [r]);
    assert r in longer.records;
    if log.torn.Some? {
      var k := log.torn.value;
      var content := Union(log.records[..k]);
      assert longer.records[..k] == log.records[..k];
      forall e | e in content ensures e in Union(log.records) && e in Union(longer.records) {
        var x :| x in log.records[..k] && e in x;
        assert x in log.records && x in longer.records;
      }
      assert Readable(longer, content);
      assert r[0] in Elements(r) && r[0] !in content;
    }
  }

  function Put(user: UserKey, sequence: SequenceNumber): Entry {
    Entry(InternalKey(user, sequence, ValueType.Value), "v")
  }

  // ---------------------------------------------------------------- a torn log that is used again

  /** An open database with one log, and nothing in memory. */
  function Fresh(log: Log): State {
    START.(logs := map[3 := log], manifest := Version({}, 3), manifestNext := 4, current := Version({}, 3),
           logfile := 3,
           next := 4, job := Cleaning(None))
  }

  const LOST := Put(0.0, 1)

  /** The log of the run: torn at its beginning, with these records behind the tear. */
  function TornLog(records: seq<Record>, synced: nat): Log {
    Log(records, synced, Some(0))
  }

  lemma NothingLogged(log: Log)
    requires log.records == []
    ensures Union(log.records) == {} && LogEntries(map[3 := log], 3) == {}
  {
  }

  lemma OneLogged(log: Log)
    requires log.records == [[LOST]]
    ensures Union(log.records) == {LOST} && LogEntries(map[3 := log], 3) == {LOST}
  {
    assert LOST in log.records[0] && log.records[0] in log.records;
    var logs := map[3 := log];
    assert 3 in logs && LOST in Union(logs[3].records);
  }

  // the states of the run, one behind the other
  const EMPTY := START.(job := Recovering({}, {}, None), next := 3)
  const BEGUN := Fresh(Log([], 0, None))
  const CLOSED := Fresh(TornLog([], 0)).(job := Closed)
  const OPENING := CLOSED.(job := Recovering({3}, {}, None), next := 5)
  const REUSED := OPENING.(job := Recovering({}, {}, Some(3)))
  const OPEN := REUSED.(job := Cleaning(None))
  const LOGGED := OPEN.(logs := map[3 := TornLog([[LOST]], 0)], inFlight := Some([LOST]), unanswered := {LOST})
  const SYNCED := LOGGED.(logs := map[3 := TornLog([[LOST]], 1)])
  const ANSWERED := SYNCED.(mem := {LOST}, inFlight := None, unanswered := {}, history := {LOST}, last := 1)
  const CRASHED := ANSWERED.(mem := {}, job := Closed)
  const AGAIN := CRASHED.(last := 0, job := Recovering({3}, {}, None))
  const RECOVERED := AGAIN.(job := Recovering({}, {}, None))
  const REOPENED :=
    RECOVERED.(job := Cleaning(None), logs := AGAIN.logs[5 := Log([], 0, None)], logfile := 5, next := 6,
                               manifest := Version({}, 5), manifestNext := 6, current := Version({}, 5))

  lemma FirstOpen()
    ensures Leads(START, Reopen, EMPTY) && Leads(EMPTY, FinishRecovery(true, false), BEGUN)
  {
    assert Apply(START, Reopen).job.todo == {};
    assert TableEntries(EMPTY.tables, {}) == {};
    assert Version({}, 3) == Installed(EMPTY.manifest, Edit({}, {}, 3));
    var t := Apply(EMPTY, FinishRecovery(true, false));
    assert t.settled == {} && t.flushed == {};
  }

  /** The crash in the middle of an append. */
  lemma TearingCrash()
    ensures Leads(BEGUN, Crash(CLOSED.logs, false), CLOSED) && Leads(CLOSED, Reopen, OPENING)
  {
    NothingLogged(TornLog([], 0));
    assert Enabled(BEGUN, Crash(CLOSED.logs, false));
    assert Apply(CLOSED, Reopen).job.todo == {3};
  }

  /** The recovery that takes the log up again. */
  lemma TornReuse()
    ensures Leads(OPENING, ReuseLog(3, {}, 0), REUSED) && Leads(REUSED, FinishRecovery(false, true), OPEN)
  {
    NothingLogged(TornLog([], 0));
    assert Enabled(OPENING, ReuseLog(3, {}, 0));
    assert TableEntries(OPENING.tables, {}) == {};
  }

  /** A write that is synced and answered. */
  lemma AnswerBehindTear()
    ensures Leads(OPEN, AppendLog([LOST]), LOGGED) && Leads(LOGGED, SyncLog(true), SYNCED)
    ensures Leads(SYNCED, InsertMem, ANSWERED) && Open(ANSWERED) && LOST in Durable(ANSWERED)
  {
    assert Elements([LOST]) == {LOST};
    assert [] + [[LOST]] == [[LOST]];
    assert OPEN.logs[3 := TornLog([[LOST]], 0)] == LOGGED.logs && LOGGED.logs[3 := TornLog([[LOST]], 1)] == SYNCED.logs;
    assert Leads(OPEN, AppendLog([LOST]), LOGGED);
    assert Leads(LOGGED, SyncLog(true), SYNCED);
    assert {} + {LOST} == {LOST} && {LOST} - {LOST} == {};
    assert Leads(SYNCED, InsertMem, ANSWERED);
    var log := TornLog([[LOST]], 1);
    OneLogged(log);
    assert SyncedPart(log) == log.records;
    assert ANSWERED.logs[3] == log && LOST in Union(SyncedPart(ANSWERED.logs[3]));
    assert LOST in SyncedEntries(ANSWERED.logs, ANSWERED.manifest.log);
  }

  /** The next crash takes nothing away. */
  lemma HarmlessCrash()
    ensures Leads(ANSWERED, Crash(ANSWERED.logs, false), CRASHED) && Leads(CRASHED, Reopen, AGAIN)
  {
    var log := TornLog([[LOST]], 1);
    OneLogged(log);
    assert LogLeft(log, log, true);
    assert Enabled(ANSWERED, Crash(ANSWERED.logs, false));
    assert Apply(CRASHED, Reopen).job.todo == {3};
  }

  /** But the reader stops at the tear. */
  lemma ReadsNothing()
    ensures Parts([]) == {} && Readable(TornLog([[LOST]], 1), {})
  {
    assert [[LOST]][..0] == [] && Union([]) == {};
  }

  lemma RecoveryFindsNothing()
    ensures Leads(AGAIN, RecoverLog(3, [], 0), RECOVERED)
  {
    hide Readable, Parts, Union;
    ReadsNothing();
    assert Enabled(AGAIN, RecoverLog(3, [], 0));
    assert AddTables(AGAIN.tables, 5, []) == AGAIN.tables && NumbersFrom(5, 0) == {} && Max(5, 4) == 5;
    assert AGAIN.job.todo - {3} == {} && AGAIN.job.added + NumbersFrom(5, 0) == {};
  }

  lemma ReopenedEmpty()
    ensures Leads(RECOVERED, FinishRecovery(true, false), REOPENED)
    ensures Contents(REOPENED) == {} && !HasUser(Contents(REOPENED), LOST.key.user)
  {
    assert TableEntries(RECOVERED.tables, {}) == {};
    assert Installed(RECOVERED.manifest, Edit({}, {}, 5)) == Version({}, 5);
  }

  lemma OneStepIsGuarded()
    ensures !Guard(OPENING, ReuseLog(3, {}, 0)) && Guard(REUSED, FinishRecovery(false, true))
    ensures forall s: State, a: Action :: !a.AppendFails? && !a.ReuseLog? && !a.FinishRecovery? ==> Guard(s, a)
    ensures forall s: State :: Guard(s, FinishRecovery(true, false))
  {
  }

  /** A write that was synced and answered is gone after a crash that took no byte away: the log it went
      to had been torn by the crash before.  The guard excludes exactly that reuse. */
  lemma SyncedWriteIsLost() returns (states: seq<State>, actions: seq<Action>, w: Entry)
    ensures IsPath(states, actions) && |actions| == 13
    ensures Open(states[9]) && w in Durable(states[9])
    ensures Open(states[13]) && !HasUser(Contents(states[13]), w.key.user)
    ensures forall i {:trigger actions[i]} :: 0 <= i < 13 ==> (Guard(states[i], actions[i]) <==> i != 4)
    ensures actions[4].ReuseLog?
  {
    hide Enabled, Apply, Contents, Durable, Leads, Guard, HasUser, Fresh, TornLog, Put;
    FirstOpen();
    w := LOST;
    states := [START, EMPTY, BEGUN, CLOSED, OPENING, REUSED, OPEN, LOGGED, SYNCED, ANSWERED, CRASHED, AGAIN, RECOVERED,
               REOPENED];
    actions := [Reopen, FinishRecovery(true, false), Crash(CLOSED.logs, false), Reopen, ReuseLog(3, {}, 0),
                FinishRecovery(false, true), AppendLog([LOST]), SyncLog(true), InsertMem, Crash(ANSWERED.logs, false),
                  Reopen,
                RecoverLog(3, [], 0), FinishRecovery(true, false)];
    TearingCrash();
    TornReuse();
    AnswerBehindTear();
    HarmlessCrash();
    RecoveryFindsNothing();
    ReopenedEmpty();
    OneStepIsGuarded();
  }

  // ---------------------------------------------------------------- a crash that leaves no prefix

  const SECOND := Put(1.0, 2)

  const IN_FLIGHT := BEGUN.(logs := map[3 := Log([[LOST]], 0, None)], inFlight := Some([LOST]), unanswered := {LOST})
  const UNSYNCED := IN_FLIGHT.(inFlight := None, unanswered := {}, mem := {LOST}, history := {LOST}, last := 1)
  const SWITCHED :=
    UNSYNCED.(logs := map[3 := Log([[LOST]], 0, None), 4 := Log([], 0, None)], logfile := 4, next := 5, mem := {},
                              imm := Some({LOST}))
  const SECOND_LOGGED := SWITCHED.(logs := map[3 := Log([[LOST]], 0, None), 4 := Log([[SECOND]], 0, None)],
                                   inFlight := Some([SECOND]), unanswered := {SECOND})
  const SECOND_SYNCED := SECOND_LOGGED.(logs := map[3 := Log([[LOST]], 0, None), 4 := Log([[SECOND]], 1, None)])
  const BOTH :=
    SECOND_SYNCED.(inFlight := None, unanswered := {}, mem := {SECOND}, history := {LOST, SECOND}, last := 2)
  const ONE_LEFT :=
    BOTH.(logs := map[3 := Log([], 0, None), 4 := Log([[SECOND]], 1, None)], mem := {}, imm := None, job := Closed,
                          history := {SECOND})

  lemma FirstAnswer()
    ensures Leads(BEGUN, AppendLog([LOST]), IN_FLIGHT) && Leads(IN_FLIGHT, InsertMem, UNSYNCED)
    ensures Leads(UNSYNCED, SwitchMem, SWITCHED)
  {
    assert Elements([LOST]) == {LOST} && {} + {LOST} == {LOST} && {LOST} - {LOST} == {};
    assert [] + [[LOST]] == [[LOST]];
    assert BEGUN.logs[3 := Log([[LOST]], 0, None)] == IN_FLIGHT.logs;
    assert UNSYNCED.logs[4 := Log([], 0, None)] == SWITCHED.logs;
  }

  lemma SecondAnswer()
    ensures Leads(SWITCHED, AppendLog([SECOND]), SECOND_LOGGED) && Leads(SECOND_LOGGED, SyncLog(true), SECOND_SYNCED)
  {
    assert Elements([SECOND]) == {SECOND} && {} + {SECOND} == {SECOND};
    assert [] + [[SECOND]] == [[SECOND]];
    assert SWITCHED.logs[4 := Log([[SECOND]], 0, None)] == SECOND_LOGGED.logs;
    assert SECOND_LOGGED.logs[4 := Log([[SECOND]], 1, None)] == SECOND_SYNCED.logs;
  }

  lemma SecondIsAnswered()
    ensures Leads(SECOND_SYNCED, InsertMem, BOTH)
  {
    assert Elements([SECOND]) == {SECOND} && {} + {SECOND} == {SECOND} && {SECOND} - {SECOND} == {};
    assert {LOST} + {SECOND} == {LOST, SECOND};
  }

  lemma TwoLogged(logs: map<Number, Log>, e: Entry)
    requires logs.Keys == {3, 4} && logs[3].records == [] && logs[4].records == [[e]]
    ensures LogEntries(logs, 3) == {e}
  {
    assert e in logs[4].records[0] && logs[4].records[0] in logs[4].records;
    assert 4 in logs && e in Union(logs[4].records);
  }

  lemma OlderLogIsCut()
    ensures Leads(BOTH, Crash(ONE_LEFT.logs, false), ONE_LEFT)
  {
    var logs := ONE_LEFT.logs;
    assert LogLeft(BOTH.logs[3], logs[3], false) && LogLeft(BOTH.logs[4], logs[4], true);
    assert Enabled(BOTH, Crash(logs, false));
    TwoLogged(logs, SECOND);
  }

  /** A crash takes an answered write away and leaves a later one: only the later log was synced. */
  lemma CrashLeavesNoPrefix() returns (states: seq<State>, actions: seq<Action>)
    ensures IsRun(states, actions) && |actions| == 9 && actions[8].Crash?
    ensures !IsPrefix(states[9].history, states[8].history)
  {
    hide Enabled, Apply, Guard;
    states := [START, EMPTY, BEGUN, IN_FLIGHT, UNSYNCED, SWITCHED, SECOND_LOGGED, SECOND_SYNCED, BOTH, ONE_LEFT];
    actions :=
      [Reopen, FinishRecovery(true, false), AppendLog([LOST]), InsertMem, SwitchMem, AppendLog([SECOND]), SyncLog(true),
                InsertMem, Crash(ONE_LEFT.logs, false)];
    FirstOpen();
    FirstAnswer();
    SecondAnswer();
    SecondIsAnswered();
    OlderLogIsCut();
    OneStepIsGuarded();
    assert SECOND in states[9].history && LOST in states[8].history && LOST !in states[9].history;
  }
}
