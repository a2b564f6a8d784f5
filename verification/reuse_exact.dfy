/** The exact condition for options.reuse_logs: the log that a recovery takes up again can lose a later
    synced answer if and only if it is torn. */
module ReuseExact {
  import opened DbFormat
  import opened History
  import opened Lifecycle
  import opened LifecycleFailures
  import opened LifecycleRuns
  import opened LifecycleSteps
  import opened Wrappers

  /** An open database, all of whose logged writes are in one log, which is torn at its end. */
  ghost predicate IsTornOpen(s: State) {
    && s.job == Cleaning(None) && s.inFlight.None? && s.imm.None? && !s.error && !s.manifestTorn
    && s.current == s.manifest && s.manifest.log == s.logfile && s.logfile in s.logs && s.last < MAX_SEQUENCE
    && (forall n :: n in s.logs ==> n <= s.logfile)
    && s.logs[s.logfile].torn == Some(|s.logs[s.logfile].records|)
    && s.logs[s.logfile].synced <= |s.logs[s.logfile].records|
  }

  lemma {:induction false} FreshUser(data: set<Entry>) returns (user: UserKey)
    ensures !HasUser(data, user)
    ensures forall e :: e in data ==> e.key.user < user
    decreases data
  {
    if data == {} {
      user := 0.0;
    } else {
      var e :| e in data;
      var u := FreshUser(data - {e});
      user := (if e.key.user < u then u else e.key.user) + 1.0;
      assert data == data - {e} + {e};
    }
  }

  /** A sequence number for what recovery finds. */
  lemma {:induction false} LastOf(content: set<Entry>, last: SequenceNumber) returns (top: SequenceNumber)
    ensures IsLast(content, last, top)
    decreases content
  {
    if content == {} {
      top := last;
    } else {
      var e :| e in content;
      var t := LastOf(content - {e}, last);
      top := if e.key.sequence < t then t else e.key.sequence;
      assert content == content - {e} + {e};
    }
  }

  // ---------------------------------------------------------------- a synced answer

  function Behind(log: Log, w: Entry, synced: bool): Log {
    Log(log.records + [[w]], if synced then |log.records| + 1 else log.synced, log.torn)
  }

  function WithLog(s: State, log: Log): State {
    s.(logs := s.logs[s.logfile := log])
  }

  function Logged(s: State, w: Entry): State
    requires s.logfile in s.logs
  {
    WithLog(s, Behind(s.logs[s.logfile], w, false)).(inFlight := Some([w]), unanswered := s.unanswered + {w})
  }

  function Synced(s: State, w: Entry): State
    requires s.logfile in s.logs
  {
    WithLog(Logged(s, w), Behind(s.logs[s.logfile], w, true))
  }

  function Answered(s: State, w: Entry): State
    requires s.logfile in s.logs && s.last < MAX_SEQUENCE
  {
    Synced(s, w).(mem := s.mem + {w}, inFlight := None, history := s.history + {w},
                  unanswered := s.unanswered + {w} - {w},
                  last := s.last + 1)
  }

  lemma AnswerBehindTear(s: State, w: Entry)
    requires IsTornOpen(s) && w.key.sequence == s.last + 1
    ensures Leads(s, AppendLog([w]), Logged(s, w)) && Leads(Logged(s, w), SyncLog(true), Synced(s, w))
    ensures Leads(Synced(s, w), InsertMem, Answered(s, w)) && Open(Answered(s, w)) && w in Durable(Answered(s, w))
  {
    assert Elements([w]) == {w};
    var t := Answered(s, w);
    var log := t.logs[t.logfile];
    assert SyncedPart(log) == log.records && log.records[|log.records| - 1] == [w] && [w] in log.records;
    assert w in Union(SyncedPart(log));
    assert w in SyncedEntries(t.logs, t.manifest.log);
  }

  // ---------------------------------------------------------------- a crash that takes nothing away

  function Left(log: Log): Log {
    if log.torn.Some? && |log.records| <= log.torn.value then log.(torn := None) else log
  }

  function LeftLogs(s: State): map<Number, Log> {
    map n | n in s.logs :: Left(s.logs[n])
  }

  ghost function Crashed(s: State, w: Entry): State
    requires IsTornOpen(s)
  {
    var t := Answered(s, w);
    t.(logs := LeftLogs(t), readers := [], pending := {}, mem := {}, job := Closed, unanswered := {},
       history := t.flushed + LogEntries(LeftLogs(t), t.manifest.log))
  }

  ghost function Reopening(s: State, w: Entry): State
    requires IsTornOpen(s)
  {
    Crashed(s, w).(next := s.manifestNext + 1, last := s.manifestLast, job := Recovering({s.logfile}, {}, None))
  }

  lemma HarmlessCrash(s: State, w: Entry)
    requires IsTornOpen(s)
    ensures Leads(Answered(s, w), Crash(LeftLogs(Answered(s, w)), false), Crashed(s, w))
    ensures Leads(Crashed(s, w), Reopen, Reopening(s, w))
  {
    hide LogEntries;
    var t := Answered(s, w);
    forall n | n in t.logs ensures LogLeft(t.logs[n], LeftLogs(t)[n], Open(t) && n == t.logfile) {
    }
    assert LeftLogs(t).Keys == t.logs.Keys;
    assert Enabled(t, Crash(LeftLogs(t), false));
    assert Apply(Crashed(s, w), Reopen).job.todo == {s.logfile};
  }

  // ---------------------------------------------------------------- recovery stops at the tear

  ghost function Found(s: State): set<Entry>
    requires s.logfile in s.logs
  {
    Union(s.logs[s.logfile].records)
  }

  ghost function Replayed(s: State, w: Entry, top: SequenceNumber): State
    requires IsTornOpen(s)
  {
    var t := Reopening(s, w);
    t.(tables := t.tables[t.next := Found(s)], next := Max(t.next + 1, s.logfile + 1), last := top,
       job := Recovering({}, {t.next}, None))
  }

  lemma FindsWhatWasBefore(s: State, w: Entry)
    requires IsTornOpen(s)
    ensures var log := Reopening(s, w).logs[s.logfile]; Readable(log, Found(s))
  {
    var before, log := s.logs[s.logfile], Reopening(s, w).logs[s.logfile];
    assert log.records[..|before.records|] == before.records;
    forall e | e in Found(s) ensures e in Union(log.records) {
      var r :| r in before.records && e in r;
      assert r in log.records;
    }
  }

  lemma RecoversLess(s: State, w: Entry, top: SequenceNumber)
    requires IsTornOpen(s) && IsLast(Found(s), s.manifestLast, top)
    ensures Leads(Reopening(s, w), RecoverLog(s.logfile, [Found(s)], top), Replayed(s, w, top))
  {
    hide Readable, IsLast, Union;
    FindsWhatWasBefore(s, w);
    var t := Reopening(s, w);
    assert Parts([Found(s)]) == Found(s);
    assert [Found(s)][..0] == [];
    assert AddTables(t.tables, t.next, [Found(s)]) == t.tables[t.next := Found(s)];
    assert NumbersFrom(t.next, 1) == {t.next} && t.job.todo - {s.logfile} == {} && {} + {t.next} == {t.next};
  }

  ghost function Reopened(s: State, w: Entry, top: SequenceNumber): State
    requires IsTornOpen(s)
  {
    Apply(Replayed(s, w, top), FinishRecovery(true, false))
  }

  lemma HistoryHasNoOther(s: State, w: Entry, e: Entry)
    requires IsTornOpen(s) && !HasUser(s.flushed + Found(s), w.key.user)
    requires e in Crashed(s, w).history && e.key.user == w.key.user
    ensures e == w
  {
    if e !in s.flushed {
      var logs := Crashed(s, w).logs;
      var n :| n in logs && s.manifest.log <= n && e in Union(logs[n].records);
      var r :| r in logs[n].records && e in r;
      assert r !in s.logs[s.logfile].records;
    }
  }

  /** The database opens again without the answered write, and with nothing newer of its key. */
  lemma ReopensWithout(s: State, w: Entry, top: SequenceNumber)
    requires IsTornOpen(s) && w.key.kind.Value?
    requires !HasUser(TableEntries(s.tables, s.current.files) + s.flushed + Found(s), w.key.user)
    ensures Leads(Replayed(s, w, top), FinishRecovery(true, false), Reopened(s, w, top)) && Open(Reopened(s, w, top))
    ensures !Covered(Contents(Reopened(s, w, top)), Reopened(s, w, top).history, w)
  {
    hide Union, LogEntries;
    var t, u := Replayed(s, w, top), Reopened(s, w, top);
    assert u.tables == s.tables[Reopening(s, w).next := Found(s)] && u.mem == {} && u.imm.None?;
    forall e | e in Contents(u) ensures e.key.user != w.key.user {
      assert e in TableEntries(s.tables, s.current.files) + s.flushed + Found(s);
    }
    assert u.history == Crashed(s, w).history;
    forall d | IsTop(u.history, d) && d.key.user == w.key.user ensures d == w {
      assert forall e :: e in s.flushed + Found(s) ==>
               e in TableEntries(s.tables, s.current.files) + s.flushed + Found(s);
      HistoryHasNoOther(s, w, d);
    }
  }

  // ---------------------------------------------------------------- the exact condition

  /** A continuation in which an answer that was safe on disk is not there when the database is open. */
  ghost predicate LosesAnswer(states: seq<State>) {
    exists i, j, w :: Lost(states, i, j, w)
  }

  ghost predicate Lost(states: seq<State>, i: nat, j: nat, w: Entry) {
    && i <= j < |states| && Open(states[i]) && Open(states[j]) && w in Durable(states[i])
    && !Covered(Contents(states[j]), states[j].history, w)
  }

  /** All further steps keep to the guard. */
  ghost predicate Continues(s: State, a: Action, states: seq<State>, actions: seq<Action>) {
    && LeadsAll(states, actions) && actions != [] && states[0] == s && actions[0] == a
    && forall i {:trigger actions[i]} :: 1 <= i < |actions| ==> Guard(states[i], actions[i])
  }

  lemma UsualSteps()
    ensures forall s: State, a: Action :: !a.AppendFails? && !a.ReuseLog? && !a.FinishRecovery? ==> Guard(s, a)
    ensures forall s: State :: Guard(s, FinishRecovery(true, false))
  {
  }

  /** From a torn open database seven steps lose a synced answer. */
  lemma TornOpenLoses(s: State) returns (states: seq<State>, actions: seq<Action>, w: Entry)
    requires IsTornOpen(s)
    ensures LeadsAll(states, actions) && |actions| == 7 && states[0] == s && Lost(states, 3, 7, w)
    ensures forall i {:trigger actions[i]} :: 0 <= i < 7 ==> Guard(states[i], actions[i])
  {
    hide Enabled, Apply, Leads, Guard, Durable, Contents, Covered, Answered, Crashed, Reopening, Replayed, Reopened,
      HasUser, Found,
      Open, Logged, Synced, IsLast;
    var top := LastOf(Found(s), s.manifestLast);
    var user := FreshUser(TableEntries(s.tables, s.current.files) + s.flushed + Found(s));
    w := Put(user, s.last + 1);
    AnswerBehindTear(s, w);
    HarmlessCrash(s, w);
    RecoversLess(s, w, top);
    ReopensWithout(s, w, top);
    UsualSteps();
    states :=
      [s, Logged(s, w), Synced(s, w), Answered(s, w), Crashed(s, w), Reopening(s, w), Replayed(s, w, top),
       Reopened(s, w, top)];
    actions := [AppendLog([w]), SyncLog(true), InsertMem, Crash(LeftLogs(Answered(s, w)), false), Reopen,
                RecoverLog(s.logfile, [Found(s)], top), FinishRecovery(true, false)];
  }

  lemma ReuseLeavesTorn(s: State, n: Number, content: set<Entry>, top: SequenceNumber)
    requires n in s.logs && s.logs[n].torn.Some? && top < MAX_SEQUENCE && Enabled(s, ReuseLog(n, content, top)) &&
             FilesOk(s)
    ensures var t := Apply(s, ReuseLog(n, content, top));
            && Enabled(t, FinishRecovery(true, false)) && IsTornOpen(Apply(t, FinishRecovery(true, false)))
  {
    hide Readable, IsLast, TableEntries, UnnamedOk, TablesOk, ManifestOk, NumbersOk, Union, CompactionOk, OnDisk, Below;
  }

  lemma TornReuseLoses(s: State, n: Number, content: set<Entry>, top: SequenceNumber)
    returns (states: seq<State>, actions: seq<Action>)
    requires n in s.logs && s.logs[n].torn.Some? && top < MAX_SEQUENCE && Enabled(s, ReuseLog(n, content, top)) &&
             FilesOk(s)
    ensures Continues(s, ReuseLog(n, content, top), states, actions) && LosesAnswer(states)
  {
    hide Enabled, Apply, Guard, Durable, Contents, Covered, Open, FilesOk, IsTornOpen;
    ReuseLeavesTorn(s, n, content, top);
    var t := Apply(s, ReuseLog(n, content, top));
    var u := Apply(t, FinishRecovery(true, false));
    var after, more, w := TornOpenLoses(u);
    UsualSteps();
    states, actions := [s, t] + after, [ReuseLog(n, content, top), FinishRecovery(true, false)] + more;
    forall i | 0 <= i < |actions|
      ensures Leads(states[i], actions[i], states[i + 1]) && (i > 0 ==> Guard(states[i], actions[i]))
    {
      if i >= 2 { assert more[i - 2] == actions[i]; }
    }
    assert Lost(states, 5, 9, w);
  }

  lemma WholeReuseLosesNothing(s: State, n: Number, content: set<Entry>, top: SequenceNumber, states: seq<State>,
                               actions: seq<Action>)
    requires n in s.logs && s.logs[n].torn.None? && Enabled(s, ReuseLog(n, content, top)) && Inv(s)
    requires Continues(s, ReuseLog(n, content, top), states, actions)
    ensures !LosesAnswer(states)
  {
    hide Inv, Enabled, Apply, Durable, Contents, Covered, Open;
    forall i | 0 <= i < |actions| ensures IsStep(states[i], actions[i], states[i + 1]) {
      assert Leads(states[i], actions[i], states[i + 1]);
    }
    forall i: nat, j: nat, w | i <= j < |states| && Open(states[j]) && w in Durable(states[i])
      ensures Covered(Contents(states[j]), states[j].history, w)
    {
      DurableSurvivesSteps(states, actions, i, j, w);
    }
  }

  /** Taking up a log again can lose a synced answer, whatever else keeps to the guard, exactly when the
      log is torn. */
  lemma ReuseIsSafeExactly(s: State, n: Number, content: set<Entry>, top: SequenceNumber)
    requires n in s.logs && top < MAX_SEQUENCE && Enabled(s, ReuseLog(n, content, top)) && Inv(s)
    ensures (forall states,
             actions :: Continues(s, ReuseLog(n, content, top), states, actions) ==> !LosesAnswer(states))
            <==> s.logs[n].torn.None?
  {
    hide Inv, Enabled, LosesAnswer, Continues, FilesOk;
    if s.logs[n].torn.None? {
      forall states, actions | Continues(s, ReuseLog(n, content, top), states, actions) ensures !LosesAnswer(states) {
        WholeReuseLosesNothing(s, n, content, top, states, actions);
      }
    } else {
      InvHasFiles(s);
      var states, actions := TornReuseLoses(s, n, content, top);
    }
  }
}
