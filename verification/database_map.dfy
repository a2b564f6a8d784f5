/** Over whole runs the database is a map: a read shows the last update of its key, and a read at a
    snapshot shows the map as it was when the snapshot was taken. */
module DatabaseMap {
  import opened DbFormat
  import opened Wrappers
  import opened Versions
  import opened Database
  import opened Snapshots

  /** The map a sequence of updates leaves behind. */
  function Applied(updates: seq<Update>): map<UserKey, Value> {
    if updates == [] then map[]
    else
      var n := |updates| - 1;
      var before, u := Applied(updates[..n]), updates[n];
      if u.kind.Value? then before[u.user := u.value] else before - {u.user}
  }

  function MapGet(m: map<UserKey, Value>, user: UserKey): Option<Value> {
    if user in m then Some(m[user]) else None
  }

  /** What the last update of a key says about it. */
  function Shown(last: Option<Update>, otherwise: Option<Value>): Option<Value> {
    match last
    case Some(u) => if u.kind.Value? then Some(u.value) else None
    case None => otherwise
  }

  /** All updates of a run, in order. */
  function Written(actions: seq<Action>): seq<Update> {
    if actions == [] then []
    else
      var n := |actions| - 1;
      Written(actions[..n]) + if actions[n].AWrite? then actions[n].updates else []
  }

  lemma {:induction false} AppliedShowsLast(updates: seq<Update>, user: UserKey)
    ensures MapGet(Applied(updates), user) == Shown(LastUpdate(updates, user), None)
  {
    if updates != [] {
      AppliedShowsLast(updates[..|updates| - 1], user);
    }
  }

  lemma {:induction false} LastOfBoth(first: seq<Update>, second: seq<Update>, user: UserKey)
    ensures LastUpdate(first + second, user) ==
            if LastUpdate(second, user).Some? then LastUpdate(second, user) else LastUpdate(first, user)
  {
    var both, n := first + second, |second| - 1;
    if second == [] {
      assert both == first;
    } else {
      assert both[..|both| - 1] == first + second[..n];
      LastOfBoth(first, second[..n], user);
    }
  }

  /** Any run refines a map: afterwards a read shows the last update of its key over the whole run,
      else what it showed at the start. */
  lemma {:induction false} RunShowsLastUpdate(states: seq<DB>, actions: seq<Action>, user: UserKey)
    requires IsRun(states, actions) && DBOk(states[0]) && Guarded(states[0])
    ensures Read(All(states[|actions|]), user, states[|actions|].lastSequence) ==
            Shown(LastUpdate(Written(actions), user), Read(All(states[0]), user, states[0].lastSequence))
    decreases |actions|
  {
    hide DBOk, Guarded, Guard, Next, Read, All;
    var n := |actions|;
    if n == 0 {
      assert LastUpdate(Written(actions), user) == None;
    } else {
      RunPrefix(states, actions, n - 1);
      RunShowsLastUpdate(states[..n], actions[..n - 1], user);
      RunKeeps(states[..n], actions[..n - 1]);
      assert Next(states[n - 1], actions[n - 1], states[n]);
      StepShowsLastUpdate(states[n - 1], actions[n - 1], states[n], user);
      if actions[n - 1].AWrite? {
        LastOfBoth(Written(actions[..n - 1]), actions[n - 1].updates, user);
      } else {
        LastOfBoth(Written(actions[..n - 1]), [], user);
      }
    }
  }

  /** One step: a write shows its last update of the key, every other step what was shown before. */
  lemma StepShowsLastUpdate(db: DB, a: Action, after: DB, user: UserKey)
    requires DBOk(db) && Guarded(db) && Next(db, a, after)
    ensures Read(All(after), user, after.lastSequence) ==
            Shown(LastUpdate(if a.AWrite? then a.updates else [], user), Read(All(db), user, db.lastSequence))
  {
    hide DBOk, Guarded, Read, All, Write;
    if a.AWrite? {
      WriteIsReadBack(db, a.updates, after, user);
    } else {
      OnlyWritesAdvance(db, a, after);
      StepKeepsReads(db, a, after, user, db.lastSequence);
    }
  }

  lemma OnlyWritesAdvance(db: DB, a: Action, after: DB)
    requires Next(db, a, after) && !a.AWrite?
    ensures after.lastSequence == db.lastSequence
  {
  }

  // ---------------------------------------------------------------- from a new database

  /** The database DBImpl::NewDB leaves behind. */
  function NewDatabase(): DB {
    DB([], None, Version([[], [], [], [], [], [], []]), 0, 2, [], None)
  }

  lemma NoFilesTreeOk(v: Version)
    requires |v.files| == NUM_LEVELS && forall l :: 0 <= l < NUM_LEVELS ==> v.files[l] == []
    ensures TreeOk(v) && Entries(v) == {}
  {
    assert forall l, f :: 0 <= l < NUM_LEVELS ==> f !in v.files[l];
  }

  lemma NoFilesDatabaseOk(db: DB)
    requires db.mem == [] && db.imm == None && db.snapshots == [] && db.running == None
    requires |db.version.files| == NUM_LEVELS && forall l :: 0 <= l < NUM_LEVELS ==> db.version.files[l] == []
    ensures DBOk(db) && Guarded(db) && All(db) == {}
  {
    hide TreeOk, Entries;
    NoFilesTreeOk(db.version);
    assert forall l, f :: 0 <= l < NUM_LEVELS ==> f !in db.version.files[l];
  }

  lemma NewDatabaseIsOk()
    ensures DBOk(NewDatabase()) && Guarded(NewDatabase()) && All(NewDatabase()) == {}
  {
    hide DBOk, Guarded, All;
    NoFilesDatabaseOk(NewDatabase());
  }

  /** A run from a new database keeps the invariant and shows exactly the map of its updates. */
  lemma NewDatabaseRefinesMap(states: seq<DB>, actions: seq<Action>, user: UserKey)
    requires IsRun(states, actions) && states[0] == NewDatabase()
    ensures DBOk(states[|actions|])
    ensures Read(All(states[|actions|]), user, states[|actions|].lastSequence) ==
            MapGet(Applied(Written(actions)), user)
  {
    hide DBOk, Guarded, All, Next, Guard, NewDatabase, Read, Shown, LastUpdate, Applied, MapGet;
    NewDatabaseIsOk();
    RunKeeps(states, actions);
    RunShowsLastUpdate(states, actions, user);
    AppliedShowsLast(Written(actions), user);
    NothingVisible(All(states[0]), user, states[0].lastSequence);
    assert Read(All(states[0]), user, states[0].lastSequence) == None;
  }

  /** A read at a snapshot shows the map as it was when the snapshot was taken, whatever ran since. */
  lemma SnapshotShowsItsMoment(states: seq<DB>, actions: seq<Action>, k: nat, user: UserKey)
    requires IsRun(states, actions) && states[0] == NewDatabase() && k <= |actions|
    requires forall i :: k < i < |actions| ==> states[k].lastSequence in states[i].snapshots
    ensures Read(All(states[|actions|]), user, states[k].lastSequence) == MapGet(Applied(Written(actions[..k])), user)
  {
    hide DBOk, Guarded, All, Read, Next, Guard, NewDatabase, Applied, MapGet, Written;
    NewDatabaseIsOk();
    RunPrefix(states, actions, k);
    assert states[..k + 1][k] == states[k];
    NewDatabaseRefinesMap(states[..k + 1], actions[..k], user);
    RunKeeps(states[..k + 1], actions[..k]);
    RunSuffix(states, actions, k);
    var later, s := states[k..], states[k].lastSequence;
    forall i | 0 <= i < |actions| - k ensures Served(later[i], s) {
      assert later[i] == states[k + i];
    }
    HeldSnapshotIsStable(later, actions[k..], user, s);
  }
}
