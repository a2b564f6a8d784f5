/** Over whole runs: a held snapshot never changes its answers, and where the code's own conditions
    are too weak for that. */
module Snapshots {
  import opened DbFormat
  import opened Wrappers
  import opened Versions
  import opened CompactionInputs
  import opened Tree
  import opened CompactionInstall
  import opened Database
  import Lookup
  import Loop = CompactionLoop

  /** While a compaction runs: its level+1 inputs end between user keys, and no level+1 file that is
      not an input lies between its inputs. */
  ghost predicate Guarded(db: DB) {
    match db.running
    case None => true
    case Some(c) => BelowClosed(c) && RestBeside(db.version, c.level, AsSet(c.in0), AsSet(c.in1))
  }

  /** What two steps need beyond the code's own checks, each decided before the step: a compaction
      starts with level+1 inputs that end between user keys, and a flush next to a running compaction
      puts no file at the output level between the compaction's inputs. */
  ghost predicate Guard(db: DB, a: Action) {
    match a
    case AStart(level, _, in1) => level + 1 < |db.version.files| ==> EndsBetweenUsers(db.version.files[level + 1], in1)
    case AFlush(level, size) =>
      db.running.Some? && level == db.running.value.level + 1 && db.imm.Some? && db.imm.value != [] ==>
        Beside(MakeFile(db.nextFile, size, db.imm.value), Inputs(db.running.value))
    case _ => true
  }

  lemma StartIsGuarded(db: DB, level: nat, in0: seq<File>, in1: seq<File>, after: DB)
    requires DBOk(db) && StartCompaction(db, level, in0, in1, after) && Guard(db, AStart(level, in0, in1))
    ensures Guarded(after)
  {
    hide InputsOk, Bounds, RunningFits, EndsBetweenUsers, RestBeside, TreeOk;
    Lookup.ReadPathTree(db.mem, db.imm, db.version);
    ChosenInputsLeaveRestBeside(db.version, level, in0, in1);
  }

  lemma FlushStaysGuarded(db: DB, level: nat, size: nat, after: DB)
    requires DBOk(db) && Guarded(db) && Flush(db, level, size, after) && Guard(db, AFlush(level, size))
    ensures Guarded(after)
  {
    hide Lookup.ReadPathOk, Bounds, RunningFits, EndsBetweenUsers, CanFlushTo, Beside;
    if db.running.Some? && db.imm.value != [] {
      var c, file := db.running.value, MakeFile(db.nextFile, size, db.imm.value);
      forall g | g in after.version.files[c.level + 1] && g !in AsSet(c.in1) ensures Beside(g, Inputs(c)) {
        FlushedFiles(db.version, level, file, after.version, c.level + 1, g);
      }
    }
  }

  lemma InstallIsSafe(db: DB, merged: seq<Entry>, outputs: seq<seq<Entry>>, size: seq<Entry> -> nat, after: DB)
    requires DBOk(db) && Guarded(db) && Install(db, merged, outputs, size, after)
    ensures DBOk(after)
  {
    hide Lookup.ReadPathOk, Bounds, RunningOk, IsMerged, TreeOk, BelowClosed, RestBeside, NoStraddle;
    var c := db.running.value;
    RunningIsOk(db, c);
    assert IsInputOf(db.version, c.level, AsSet(c.in0), AsSet(c.in1)) by { RunningHasInputs(db.version, c); }
    InstalledOutputs(db, c, merged, outputs, size);
    NothingBetweenNoStraddle(db.version, c.level, AsSet(c.in0), AsSet(c.in1),
                             AsSet(OutputFiles(outputs, db.nextFile, size)));
    InstallKeepsExactly(db, merged, outputs, size, after);
  }

  lemma RunningHasInputs(v: Version, c: Running)
    requires RunningOk(v, c)
    ensures IsInputOf(v, c.level, AsSet(c.in0), AsSet(c.in1))
  {
  }

  /** Any ascending list of snapshots drawn from the old one and the last sequence number will do. */
  lemma SnapshotsMayChange(db: DB, after: DB)
    requires DBOk(db) && after == db.(snapshots := after.snapshots)
    requires forall i, j :: 0 <= i < j < |after.snapshots| ==> after.snapshots[i] <= after.snapshots[j]
    requires forall s :: s in after.snapshots ==> s in db.snapshots || s == db.lastSequence
    ensures All(after) == All(db) && Bounds(after) && RunningFits(after)
  {
    assert All(after) == All(db);
  }

  lemma SnapshotStepKeeps(db: DB, a: Action, after: DB)
    requires DBOk(db) && Next(db, a, after) && (a.AGetSnapshot? || a.AReleaseSnapshot?)
    ensures DBOk(after) && All(after) == All(db)
  {
    forall i, j | 0 <= i < j < |after.snapshots| ensures after.snapshots[i] <= after.snapshots[j] {
      if a.AGetSnapshot? { assert db.snapshots[i] in db.snapshots; }
    }
    SnapshotsMayChange(db, after);
  }

  /** Every step keeps the database invariant and, under the guard, what keeps an install safe. */
  lemma StepKeeps(db: DB, a: Action, after: DB)
    requires DBOk(db) && Guarded(db) && Next(db, a, after) && Guard(db, a)
    ensures DBOk(after) && Guarded(after)
  {
    hide DBOk, BelowClosed, RestBeside;
    match a
    case AWrite(updates) => WriteKeeps(db, updates, after);
    case ASwitch => SwitchKeeps(db, after);
    case AFlush(level, size) =>
      FlushKeeps(db, level, size, after);
      FlushStaysGuarded(db, level, size, after);
    case AStart(level, in0, in1) =>
      StartKeeps(db, level, in0, in1, after);
      StartIsGuarded(db, level, in0, in1, after);
    case ATrivialMove(level, file) => TrivialMoveKeeps(db, level, file, after);
    case AInstall(merged, outputs, size) => InstallIsSafe(db, merged, outputs, size, after);
    case AGetSnapshot => SnapshotStepKeeps(db, a, after);
    case AReleaseSnapshot(i) => SnapshotStepKeeps(db, a, after);
  }

  lemma WriteKeepsReads(db: DB, updates: seq<Update>, after: DB, user: UserKey, s: SequenceNumber)
    requires DBOk(db) && Write(db, updates, after) && s <= db.lastSequence
    ensures Read(All(after), user, s) == Read(All(db), user, s)
  {
    WriteKeeps(db, updates, after);
    Lookup.ReadPathCoherent(db.mem, db.imm, db.version);
    Lookup.ReadPathCoherent(after.mem, after.imm, after.version);
    SameVisibleSameRead(All(after), All(db), user, s);
  }

  /** The reads the database must go on answering alike: at a held snapshot, and at the last sequence. */
  ghost predicate Served(db: DB, s: SequenceNumber) {
    s in db.snapshots || s == db.lastSequence
  }

  lemma InstallKeepsReads(db: DB, a: Action, after: DB, user: UserKey, s: SequenceNumber)
    requires DBOk(db) && Guarded(db) && a.AInstall? && Next(db, a, after) && Served(db, s)
    ensures Read(All(after), user, s) == Read(All(db), user, s)
  {
    hide Lookup.ReadPathOk, Bounds, RunningOk, BelowClosed, RestBeside, IsCompacted, IsMerged, Outside, Inputs,
      Loop.Resurrects;
    var c := db.running.value;
    RunningIsOk(db, c);
    InstallReads(db, a.merged, a.outputs, a.sizeOf, after, user);
    ClosedMeansNoResurrection(db, c, user);
    assert Loop.ReadsKept(All(db), All(after), user, c.smallestSnapshot);
  }

  /** Every step keeps the answers at every held snapshot and at the last sequence number. */
  lemma StepKeepsReads(db: DB, a: Action, after: DB, user: UserKey, s: SequenceNumber)
    requires DBOk(db) && Guarded(db) && Next(db, a, after) && Served(db, s)
    ensures Read(All(after), user, s) == Read(All(db), user, s)
  {
    assert s <= db.lastSequence;
    hide Lookup.ReadPathOk, RunningFits, BelowClosed, RestBeside;
    match a
    case AWrite(updates) => WriteKeepsReads(db, updates, after, user, s);
    case ASwitch => SwitchKeeps(db, after);
    case AFlush(level, size) => FlushKeeps(db, level, size, after);
    case AStart(level, in0, in1) => StartKeeps(db, level, in0, in1, after);
    case ATrivialMove(level, file) => TrivialMoveKeeps(db, level, file, after);
    case AInstall(merged, outputs, size) => InstallKeepsReads(db, a, after, user, s);
    case AGetSnapshot => SnapshotStepKeeps(db, a, after);
    case AReleaseSnapshot(i) => SnapshotStepKeeps(db, a, after);
  }

  ghost predicate IsRun(states: seq<DB>, actions: seq<Action>) {
    && |states| == |actions| + 1
    && forall i {:trigger actions[i]} :: 0 <= i < |actions| ==>
         Next(states[i], actions[i], states[i + 1]) && Guard(states[i], actions[i])
  }

  lemma RunPrefix(states: seq<DB>, actions: seq<Action>, n: nat)
    requires IsRun(states, actions) && n <= |actions|
    ensures IsRun(states[..n + 1], actions[..n])
  {
    forall i | 0 <= i < n ensures Next(states[i], actions[i], states[i + 1]) && Guard(states[i], actions[i]) {
      assert actions[..n][i] == actions[i];
    }
  }

  lemma RunSuffix(states: seq<DB>, actions: seq<Action>, n: nat)
    requires IsRun(states, actions) && n <= |actions|
    ensures IsRun(states[n..], actions[n..])
  {
    forall i | 0 <= i < |actions| - n
      ensures Next(states[n..][i], actions[n..][i], states[n..][i + 1]) && Guard(states[n..][i], actions[n..][i])
    {
      assert actions[n..][i] == actions[n + i];
    }
  }

  /** Every state of a run satisfies the database invariant. */
  lemma {:induction false} RunKeeps(states: seq<DB>, actions: seq<Action>)
    requires IsRun(states, actions) && DBOk(states[0]) && Guarded(states[0])
    ensures DBOk(states[|actions|]) && Guarded(states[|actions|])
    decreases |actions|
  {
    hide DBOk, Guarded, Next, Guard;
    var n := |actions|;
    if n > 0 {
      RunPrefix(states, actions, n - 1);
      RunKeeps(states[..n], actions[..n - 1]);
      assert Next(states[n - 1], actions[n - 1], states[n]);
      StepKeeps(states[n - 1], actions[n - 1], states[n]);
    }
  }

  /** Snapshot isolation: over any run of writes, switches, flushes, moves and compactions, a snapshot
      taken at the start and held since reads the same value for every key. */
  lemma {:induction false} HeldSnapshotIsStable(states: seq<DB>, actions: seq<Action>, user: UserKey, s: SequenceNumber)
    requires IsRun(states, actions) && DBOk(states[0]) && Guarded(states[0])
    requires forall i :: 0 <= i < |actions| ==> Served(states[i], s)
    ensures Read(All(states[|actions|]), user, s) == Read(All(states[0]), user, s)
    decreases |actions|
  {
    hide DBOk, Guarded, Next, Guard, Served, Read, All;
    var n := |actions|;
    if n > 0 {
      RunPrefix(states, actions, n - 1);
      assert forall i :: 0 <= i < n - 1 ==> states[..n][i] == states[i];
      HeldSnapshotIsStable(states[..n], actions[..n - 1], user, s);
      RunKeeps(states[..n], actions[..n - 1]);
      assert Next(states[n - 1], actions[n - 1], states[n]);
      StepKeepsReads(states[n - 1], actions[n - 1], states[n], user, s);
    }
  }

  // ---------------------------------------------------------------- writes are read back

  /** The last update of a key in a batch, if any. */
  function LastUpdate(updates: seq<Update>, user: UserKey): Option<Update> {
    if updates == [] then None
    else
      var n := |updates| - 1;
      if updates[n].user == user then Some(updates[n]) else LastUpdate(updates[..n], user)
  }

  lemma {:induction false} LastUpdateAt(updates: seq<Update>, user: UserKey) returns (i: int)
    ensures LastUpdate(updates, user).None? ==> forall j :: 0 <= j < |updates| ==> updates[j].user != user
    ensures LastUpdate(updates, user).Some? ==>
              0 <= i < |updates| && LastUpdate(updates, user).value == updates[i] && updates[i].user == user &&
              forall j :: i < j < |updates| ==> updates[j].user != user
  {
    i := 0;
    if updates != [] {
      var n := |updates| - 1;
      if updates[n].user == user { i := n; } else { i := LastUpdateAt(updates[..n], user); }
    }
  }

  /** `after` is `db` plus a batch of newer entries. */
  ghost predicate Extends(db: set<Entry>, batch: seq<Entry>, after: set<Entry>, lastSequence: SequenceNumber) {
    && (forall e :: e in after <==> e in db || e in batch)
    && (forall e :: e in db ==> e.key.sequence <= lastSequence)
    && (forall e :: e in batch ==> lastSequence < e.key.sequence)
  }

  lemma WriteExtends(db: DB, updates: seq<Update>, after: DB) returns (batch: seq<Entry>)
    requires DBOk(db) && Write(db, updates, after)
    ensures IsBatch(updates, db.lastSequence, batch) && Extends(All(db), batch, All(after), db.lastSequence)
  {
    batch :| IsBatch(updates, db.lastSequence, batch) && Elements(after.mem) == Elements(db.mem) + Elements(batch);
    forall e ensures e in All(after) <==> e in All(db) || e in batch {
      AllHas(db, e);
      AllHas(after, e);
      assert e in after.mem <==> e in Elements(after.mem);
      assert e in db.mem <==> e in Elements(db.mem);
    }
  }

  lemma UpdatedRead(data: set<Entry>, updates: seq<Update>, batch: seq<Entry>, after: set<Entry>,
                    last: SequenceNumber, newLast: SequenceNumber, user: UserKey, i: int)
    requires Coherent(after) && Extends(data, batch, after, last) && IsBatch(updates, last, batch)
    requires newLast == last + |updates| && 0 <= i < |updates| && updates[i].user == user
    requires forall j :: i < j < |updates| ==> updates[j].user != user
    ensures Read(after, user, newLast) == if updates[i].kind.Value? then Some(updates[i].value) else None
  {
    forall o | o in after && Visible(o, user, newLast) ensures o.key.sequence <= batch[i].key.sequence {
      if o in batch {
        var j :| 0 <= j < |batch| && batch[j] == o;
        assert updates[j].user == user;
      }
    }
    assert batch[i] in after && IsNewest(after, user, newLast, batch[i]);
    NewestIs(after, user, newLast, batch[i]);
  }

  lemma UntouchedRead(data: set<Entry>, updates: seq<Update>, batch: seq<Entry>, after: set<Entry>,
                      last: SequenceNumber, newLast: SequenceNumber, user: UserKey)
    requires Coherent(data) && Coherent(after) && Extends(data, batch, after, last) && IsBatch(updates, last, batch)
    requires last <= newLast && forall j :: 0 <= j < |updates| ==> updates[j].user != user
    ensures Read(after, user, newLast) == Read(data, user, last)
  {
    forall e ensures Visible(e, user, newLast) ==> (e in after <==> e in data && Visible(e, user, last)) {
      if e in batch {
        var j :| 0 <= j < |batch| && batch[j] == e;
        assert updates[j].user != user;
      }
    }
    NewestCases(data, user, last);
    match Newest(data, user, last) {
      case Some(e) =>
        assert IsNewest(after, user, newLast, e);
        NewestIs(after, user, newLast, e);
      case None =>
        NothingVisible(after, user, newLast);
    }
  }

  /** A read right after a write sees the write: its last update of the key, else what was there before. */
  lemma WriteIsReadBack(db: DB, updates: seq<Update>, after: DB, user: UserKey)
    requires DBOk(db) && Write(db, updates, after)
    ensures Read(All(after), user, after.lastSequence) ==
            match LastUpdate(updates, user)
            case Some(u) => if u.kind.Value? then Some(u.value) else None
            case None => Read(All(db), user, db.lastSequence)
  {
    WriteKeeps(db, updates, after);
    Lookup.ReadPathCoherent(db.mem, db.imm, db.version);
    Lookup.ReadPathCoherent(after.mem, after.imm, after.version);
    var batch := WriteExtends(db, updates, after);
    var i := LastUpdateAt(updates, user);
    if LastUpdate(updates, user).Some? {
      UpdatedRead(All(db), updates, batch, All(after), db.lastSequence, after.lastSequence, user, i);
    } else {
      UntouchedRead(All(db), updates, batch, All(after), db.lastSequence, after.lastSequence, user);
    }
  }
}
