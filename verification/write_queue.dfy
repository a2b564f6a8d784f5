/** Group commit (DBImpl::Write and BuildBatchGroup, db/db_impl.cc).  Writers queue up; the writer at
    the front commits a group of batches for all of them while the others wait.  The commit runs
    without the lock, so writers arrive and readers look at the data between any two of its steps. */
module WriteQueue {
  import opened DbFormat
  import opened Wrappers
  import Sequences

  type Id = nat

  datatype Op = Put(user: UserKey, value: Value) | Delete(user: UserKey)

  /** `bytes` is WriteBatchInternal::ByteSize, the length of the batch's representation. */
  datatype Batch = Batch(ops: seq<Op>, bytes: nat)

  /** A null batch only asks for a memtable switch. */
  datatype Request = Request(batch: Option<Batch>, sync: bool)

  datatype Status = Ok | Error

  // ---------------------------------------------------------------- the group

  const MAX_GROUP := 0x100000

  const SMALL_WRITE := 0x20000

  function Ops(queue: seq<Request>): seq<Op> {
    if queue == [] then []
    else
      var last := queue[|queue| - 1];
      Ops(queue[..|queue| - 1]) + if last.batch.Some? then last.batch.value.ops else []
  }

  function Bytes(queue: seq<Request>): nat {
    if queue == [] then 0
    else
      var last := queue[|queue| - 1];
      Bytes(queue[..|queue| - 1]) + if last.batch.Some? then last.batch.value.bytes else 0
  }

  /** A small first write may only grow by a little, so that it is not slowed down too much. */
  function GroupLimit(first: nat): nat {
    if first <= SMALL_WRITE then first + SMALL_WRITE else MAX_GROUP
  }

  /** Writer i cannot join the group of the writers before it. */
  predicate Blocks(queue: seq<Request>, i: nat)
    requires i < |queue| && queue[0].batch.Some?
  {
    || (queue[i].sync && !queue[0].sync)
    || (queue[i].batch.Some? && Bytes(queue[..i + 1]) > GroupLimit(queue[0].batch.value.bytes))
  }

  /** The group is the longest prefix in which no writer after the first is blocked. */
  ghost predicate IsGroup(queue: seq<Request>, n: nat)
    requires queue != [] && queue[0].batch.Some?
  {
    && 1 <= n <= |queue|
    && (forall i :: 1 <= i < n ==> !Blocks(queue, i))
    && (n < |queue| ==> Blocks(queue, n))
  }

  lemma PrefixGrows(queue: seq<Request>, n: nat)
    requires n < |queue|
    ensures var batch := queue[n].batch;
            && Ops(queue[..n + 1]) == Ops(queue[..n]) + (if batch.Some? then batch.value.ops else [])
            && Bytes(queue[..n + 1]) == Bytes(queue[..n]) + (if batch.Some? then batch.value.bytes else 0)
    ensures Ops(queue[..0]) == [] && Bytes(queue[..0]) == 0
  {
    assert queue[..n + 1][..n] == queue[..n];
  }

  /** BuildBatchGroup.  `temporary` says that the result was gathered in tmp_batch_ rather than being
      the first writer's own batch. */
  method BuildBatchGroup(queue: seq<Request>) returns (n: nat, ops: seq<Op>, temporary: bool)
    requires queue != [] && queue[0].batch.Some?
    ensures IsGroup(queue, n)
    ensures ops == Ops(queue[..n])
    ensures temporary <==> exists i :: 1 <= i < n && queue[i].batch.Some?
  {
    hide Ops, Bytes;
    var first := queue[0];
    PrefixGrows(queue, 0);
    ops := first.batch.value.ops;
    var size := first.batch.value.bytes;
    var maxSize := MAX_GROUP;
    if size <= SMALL_WRITE {
      maxSize := size + SMALL_WRITE;
    }
    temporary := false;
    n := 1;
    while n < |queue|
      invariant 1 <= n <= |queue|
      invariant size == Bytes(queue[..n]) && ops == Ops(queue[..n])
      invariant forall i :: 1 <= i < n ==> !Blocks(queue, i)
      invariant temporary <==> exists i :: 1 <= i < n && queue[i].batch.Some?
    {
      var w := queue[n];
      PrefixGrows(queue, n);
      if w.sync && !first.sync {
        break;
      }
      if w.batch.Some? {
        size := size + w.batch.value.bytes;
        if size > maxSize {
          break;
        }
        temporary := true;
        ops := ops + w.batch.value.ops;
      }
      n := n + 1;
    }
  }

  /** There is exactly one group for a queue, and later arrivals do not change it unless they join it. */
  lemma GroupIsUnique(queue: seq<Request>, n: nat, m: nat)
    requires queue != [] && queue[0].batch.Some? && IsGroup(queue, n) && IsGroup(queue, m)
    ensures n == m
  {
  }

  /** A group respects its limit, and a sync write is never carried by a leader that will not sync. */
  lemma GroupIsBounded(queue: seq<Request>, n: nat)
    requires queue != [] && queue[0].batch.Some? && IsGroup(queue, n)
    ensures Bytes(queue[..n]) <= GroupLimit(queue[0].batch.value.bytes) || forall i :: 1 <= i < n ==>
              queue[i].batch.None?
    ensures forall i :: 0 <= i < n && queue[i].sync ==> queue[0].sync
  {
    assert forall i :: 1 <= i < n && queue[i].sync ==> !Blocks(queue, i);
    PrefixIsBounded(queue, n);
  }

  lemma {:induction false} PrefixIsBounded(queue: seq<Request>, n: nat)
    requires queue != [] && queue[0].batch.Some? && 1 <= n <= |queue| && forall i :: 1 <= i < n ==> !Blocks(queue, i)
    ensures Bytes(queue[..n]) <= GroupLimit(queue[0].batch.value.bytes) || forall i :: 1 <= i < n ==>
              queue[i].batch.None?
  {
    if n > 1 {
      PrefixIsBounded(queue, n - 1);
      assert queue[..n][..n - 1] == queue[..n - 1];
      assert !Blocks(queue, n - 1);
    }
  }

  // ---------------------------------------------------------------- the protocol

  /** One log record: a batch with the sequence number of its first operation. */
  datatype Record = Record(first: nat, ops: seq<Op>)

  /** An operation in the memtable under its sequence number. */
  datatype Stamped = Stamped(sequence: nat, op: Op)

  datatype Departure = Departure(id: Id, status: Status)

  /** How far the writer at the front has come with its group of n. */
  datatype Stage = Prepared | Logged | Inserting(inserted: nat) | Failed(written: bool, syncError: bool)

  datatype Phase = Idle | Committing(n: nat, record: Record, stage: Stage)

  /** A finished group.  `numbered` groups were given sequence numbers, from record.first on. */
  datatype Group = Group(members: seq<Id>, numbered: bool, record: Record, status: Status, logged: bool,
                         syncError: bool)

  datatype State = State(
    requests: map<Id, Request>,
    waiting: seq<Id>,
    phase: Phase,
    last: nat,
    log: seq<Record>,
    synced: nat,
    mem: seq<Stamped>,
    backgroundError: bool,
    // what happened so far
    arrived: seq<Id>,
    left: seq<Departure>,
    history: seq<Group>)

  datatype Action =
    | Enter(id: Id, request: Request)
    | Lead(room: bool)
    | AddRecord(ok: bool, written: bool)
    | Sync(ok: bool)
    | Insert
    | Finish

  const START := State(map[], [], Idle, 0, [], 0, [], false, [], [], [])

  predicate Known(requests: map<Id, Request>, ids: seq<Id>) {
    forall i :: 0 <= i < |ids| ==> ids[i] in requests
  }

  function Requests(requests: map<Id, Request>, ids: seq<Id>): seq<Request>
    requires Known(requests, ids)
  {
    seq(|ids|, i requires 0 <= i < |ids| => requests[ids[i]])
  }

  function Leave(ids: seq<Id>, status: Status): seq<Departure> {
    seq(|ids|, i requires 0 <= i < |ids| => Departure(ids[i], status))
  }

  /** The front writer's own request needs no group: there is no room, or it has no batch. */
  predicate Alone(s: State, room: bool)
    requires s.waiting != [] && Known(s.requests, s.waiting)
  {
    !room || s.requests[s.waiting[0]].batch.None?
  }

  ghost predicate Enabled(s: State, a: Action)
    requires Known(s.requests, s.waiting)
  {
    match a
    case Enter(id, _) => id !in s.requests
    case Lead(room) => s.phase.Idle? && s.waiting != [] && (s.backgroundError ==> !room)
    case AddRecord(ok, written) => s.phase.Committing? && s.phase.stage.Prepared? && (ok ==> written)
    case Sync(_) => s.phase.Committing? && s.phase.stage.Logged? && s.waiting != [] && s.requests[s.waiting[0]].sync
    case Insert =>
      && s.phase.Committing? && |s.phase.record.ops| > 0 && s.waiting != []
      && (match s.phase.stage
          case Logged => !s.requests[s.waiting[0]].sync
          case Inserting(k) => k < |s.phase.record.ops|
          case _ => false)
    case Finish =>
      && s.phase.Committing? && s.waiting != []
      && (match s.phase.stage
          case Failed(_, _) => true
          case Logged => !s.requests[s.waiting[0]].sync && s.phase.record.ops == []
          case Inserting(k) => k == |s.phase.record.ops|
          case _ => false)
  }

  /** Entries inserted so far by the running commit. */
  function Inserted(stage: Stage): nat {
    if stage.Inserting? then stage.inserted else 0
  }

  /** The front n writers leave with one status. */
  function Pop(s: State, n: nat, g: Group): State
    requires n <= |s.waiting|
  {
    s.(waiting := s.waiting[n..], left := s.left + Leave(s.waiting[..n], g.status), history := s.history + [g],
       phase := Idle)
  }

  /** One step.  `Lead` covers Write up to the unlock; AddRecord, Sync and Insert run without the
      lock; `Finish` is the rest, where the sequence number moves whatever the status is. */
  ghost function Apply(s: State, a: Action): State
    requires Known(s.requests, s.waiting) && Enabled(s, a)
    requires s.phase.Committing? ==> s.phase.n <= |s.waiting|
  {
    match a
    case Enter(id, request) =>
      s.(requests := s.requests[id := request], waiting := s.waiting + [id], arrived := s.arrived + [id])
    case Lead(room) =>
      if Alone(s, room) then
        Pop(s, 1, Group(s.waiting[..1], false, Record(0, []), if room then Ok else Error, false, false))
      else
        var queue := Requests(s.requests, s.waiting);
        var n := GroupLength(queue);
        s.(phase := Committing(n, Record(s.last + 1, Ops(queue[..n])), Prepared))
    case AddRecord(ok, written) =>
      s.(log := if written then s.log + [s.phase.record] else s.log,
         phase := s.phase.(stage := if ok then Logged else Failed(written, false)))
    case Sync(ok) =>
      if ok then s.(synced := |s.log|, phase := s.phase.(stage := Inserting(0)))
      else s.(phase := s.phase.(stage := Failed(true, true)))
    case Insert =>
      var k := Inserted(s.phase.stage);
      s.(mem := s.mem + [Stamped(s.phase.record.first + k, s.phase.record.ops[k])],
         phase := s.phase.(stage := Inserting(k + 1)))
    case Finish =>
      var failed := s.phase.stage.Failed?;
      var syncError := failed && s.phase.stage.syncError;
      var g :=
        Group(s.waiting[..s.phase.n], true, s.phase.record, if failed then Error else Ok, InLog(s.phase.stage),
              syncError);
      Pop(s, s.phase.n, g).(last := s.last + |s.phase.record.ops|, backgroundError := s.backgroundError || syncError)
  }

  /** Whether the record of the running commit has reached the log. */
  predicate InLog(stage: Stage) {
    match stage
    case Prepared => false
    case Failed(written, _) => written
    case _ => true
  }

  ghost function GroupLength(queue: seq<Request>): (n: nat)
    requires queue != [] && queue[0].batch.Some?
    ensures IsGroup(queue, n)
  {
    GroupExists(queue);
    var n :| IsGroup(queue, n);
    n
  }

  lemma GroupExists(queue: seq<Request>)
    requires queue != [] && queue[0].batch.Some?
    ensures exists n :: IsGroup(queue, n)
  {
    var n := 1;
    while n < |queue| && !Blocks(queue, n)
      invariant 1 <= n <= |queue| && forall i :: 1 <= i < n ==> !Blocks(queue, i)
    {
      n := n + 1;
    }
    assert IsGroup(queue, n);
  }

  // ---------------------------------------------------------------- what the history says

  function MembersOf(history: seq<Group>): seq<Id> {
    if history == [] then [] else MembersOf(history[..|history| - 1]) + history[|history| - 1].members
  }

  function Departures(history: seq<Group>): seq<Departure> {
    if history == [] then []
    else
      var g := history[|history| - 1];
      Departures(history[..|history| - 1]) + Leave(g.members, g.status)
  }

  function LogOf(history: seq<Group>): seq<Record> {
    if history == [] then []
    else
      var g := history[|history| - 1];
      LogOf(history[..|history| - 1]) + if g.logged then [g.record] else []
  }

  function Stamps(record: Record, n: nat): seq<Stamped>
    requires n <= |record.ops|
  {
    seq(n, k requires 0 <= k < n => Stamped(record.first + k, record.ops[k]))
  }

  /** The groups that succeeded, whole and in order. */
  function MemOf(history: seq<Group>): seq<Stamped> {
    if history == [] then []
    else
      var g := history[|history| - 1];
      MemOf(history[..|history| - 1]) + if g.numbered && g.status.Ok? then Stamps(g.record, |g.record.ops|) else []
  }

  /** The numbered groups take consecutive ranges of sequence numbers, up to but excluding `next`. */
  predicate Tiled(history: seq<Group>, next: nat) {
    if history == [] then next == 1
    else
      var g := history[|history| - 1];
      if g.numbered then next == g.record.first + |g.record.ops| && Tiled(history[..|history| - 1], g.record.first)
      else Tiled(history[..|history| - 1], next)
  }

  /** A group is the batches of its members, in order, and a success was logged. */
  predicate GroupOk(requests: map<Id, Request>, g: Group) {
    && g.members != [] && Known(requests, g.members)
    && (g.numbered ==> g.record.ops == Ops(Requests(requests, g.members)))
    && (!g.numbered ==> !g.logged && |g.members| == 1 && (g.status.Ok? ==> requests[g.members[0]].batch.None?))
    && (g.numbered && g.status.Ok? ==> g.logged)
    && (g.syncError ==> g.status.Error?)
    && (forall i :: 0 <= i < |g.members| && requests[g.members[i]].sync && g.numbered ==> requests[g.members[0]].sync)
  }

  ghost predicate HistoryOk(requests: map<Id, Request>, history: seq<Group>) {
    history == [] || (HistoryOk(requests, history[..|history| - 1]) && GroupOk(requests, history[|history| - 1]))
  }

  /** A writer that asked for a sync succeeded with its group. */
  predicate SyncedSuccess(requests: map<Id, Request>, g: Group) {
    g.numbered && g.status.Ok? && exists i ::
        0 <= i < |g.members| && g.members[i] in requests && requests[g.members[i]].sync
  }

  /** The records of synced successes are within the first `synced` records of the log. */
  ghost predicate Durable(requests: map<Id, Request>, history: seq<Group>, synced: nat) {
    history == [] ||
    (Durable(requests, history[..|history| - 1], synced) &&
     (SyncedSuccess(requests, history[|history| - 1]) ==> |LogOf(history)| <= synced))
  }

  predicate SyncFailed(history: seq<Group>) {
    history != [] && (SyncFailed(history[..|history| - 1]) || history[|history| - 1].syncError)
  }

  /** After a failed sync every group fails. */
  ghost predicate ErrorsStick(history: seq<Group>) {
    history == [] ||
    (ErrorsStick(history[..|history| - 1]) &&
     (SyncFailed(history[..|history| - 1]) ==> history[|history| - 1].status.Error?))
  }

  predicate Distinct(ids: seq<Id>) {
    ids == [] || (Distinct(ids[..|ids| - 1]) && ids[|ids| - 1] !in ids[..|ids| - 1])
  }

  predicate CommitOk(s: State) {
    match s.phase
    case Idle => s.log == LogOf(s.history) && s.mem == MemOf(s.history)
    case Committing(n, record, stage) =>
      && 1 <= n <= |s.waiting|
      && Known(s.requests, s.waiting)
      && record == Record(s.last + 1, Ops(Requests(s.requests, s.waiting[..n])))
      && (forall i :: 0 <= i < n && s.requests[s.waiting[i]].sync ==> s.requests[s.waiting[0]].sync)
      && Inserted(stage) <= |record.ops|
      && s.mem == MemOf(s.history) + Stamps(record, Inserted(stage))
      && s.log == LogOf(s.history) + (if InLog(stage) then [record] else [])
      && (stage.Inserting? && s.requests[s.waiting[0]].sync ==> s.synced == |s.log|)
      && !s.backgroundError
  }

  /** What finished groups leave behind. */
  ghost predicate PastOk(s: State) {
    && Tiled(s.history, s.last + 1)
    && HistoryOk(s.requests, s.history)
    && Durable(s.requests, s.history, s.synced)
    && s.backgroundError == SyncFailed(s.history)
  }

  /** Arrivals, departures and the queue fit together. */
  ghost predicate QueueOk(s: State) {
    && s.arrived == MembersOf(s.history) + s.waiting
    && s.left == Departures(s.history)
    && Known(s.requests, s.waiting)
    && ErrorsStick(s.history)
  }

  ghost predicate Inv(s: State) {
    && Known(s.requests, s.arrived) && Distinct(s.arrived)
    && s.synced <= |s.log|
    && QueueOk(s)
    && PastOk(s)
    && CommitOk(s)
  }

  // ---------------------------------------------------------------- every step keeps the invariant

  lemma HistoryGrows(history: seq<Group>, g: Group)
    ensures MembersOf(history + [g]) == MembersOf(history) + g.members
    ensures Departures(history + [g]) == Departures(history) + Leave(g.members, g.status)
    ensures LogOf(history + [g]) == LogOf(history) + if g.logged then [g.record] else []
    ensures MemOf(history + [g]) ==
            MemOf(history) + if g.numbered && g.status.Ok? then Stamps(g.record, |g.record.ops|) else []
    ensures SyncFailed(history + [g]) == (SyncFailed(history) || g.syncError)
    ensures ErrorsStick(history + [g]) <==> ErrorsStick(history) && (SyncFailed(history) ==> g.status.Error?)
  {
    assert (history + [g])[..|history|] == history;
  }

  lemma HistoryStaysOk(requests: map<Id, Request>, history: seq<Group>, synced: nat, g: Group)
    requires HistoryOk(requests, history) && GroupOk(requests, g) && Durable(requests, history, synced)
    requires SyncedSuccess(requests, g) ==> |LogOf(history + [g])| <= synced
    ensures HistoryOk(requests, history + [g]) && Durable(requests, history + [g], synced)
  {
    assert (history + [g])[..|history|] == history;
  }

  lemma StillTiled(history: seq<Group>, g: Group, next: nat)
    requires Tiled(history, next)
    requires g.numbered ==> g.record.first == next
    ensures Tiled(history + [g], if g.numbered then next + |g.record.ops| else next)
  {
    assert (history + [g])[..|history|] == history;
  }

  lemma SameRequests(before: map<Id, Request>, after: map<Id, Request>, ids: seq<Id>)
    requires Known(before, ids) && forall id :: id in before ==> id in after && after[id] == before[id]
    ensures Known(after, ids) && Requests(after, ids) == Requests(before, ids)
  {
  }

  lemma {:induction false} SameHistory(before: map<Id, Request>, after: map<Id, Request>, history: seq<Group>,
                                       synced: nat)
    requires HistoryOk(before, history) && Durable(before, history, synced)
    requires forall id :: id in before ==> id in after && after[id] == before[id]
    ensures HistoryOk(after, history) && Durable(after, history, synced)
  {
    if history != [] {
      SameHistory(before, after, history[..|history| - 1], synced);
      SameRequests(before, after, history[|history| - 1].members);
    }
  }

  lemma EnterKeeps(s: State, id: Id, request: Request)
    requires Inv(s) && Enabled(s, Enter(id, request))
    ensures Inv(Apply(s, Enter(id, request)))
  {
    hide MemOf, LogOf, Departures, MembersOf, Tiled, ErrorsStick, SyncFailed, HistoryOk, Durable, Stamps, Ops;
    var t := Apply(s, Enter(id, request));
    SameHistory(s.requests, t.requests, s.history, s.synced);
    assert t.arrived[..|s.arrived|] == s.arrived;
    assert t.arrived == MembersOf(s.history) + t.waiting;
    if s.phase.Committing? {
      assert t.waiting[..s.phase.n] == s.waiting[..s.phase.n];
      SameRequests(s.requests, t.requests, s.waiting[..s.phase.n]);
    }
  }

  lemma PopKeeps(s: State, n: nat, g: Group)
    requires 1 <= n <= |s.waiting| && g.members == s.waiting[..n]
    requires QueueOk(s) && (SyncFailed(s.history) ==> g.status.Error?)
    ensures QueueOk(Pop(s, n, g))
  {
    hide MembersOf, Departures, Leave, LogOf, MemOf, SyncFailed, ErrorsStick;
    HistoryGrows(s.history, g);
    assert s.waiting == s.waiting[..n] + s.waiting[n..];
    Sequences.Associates(MembersOf(s.history), s.waiting[..n], s.waiting[n..]);
  }

  lemma PastGrows(s: State, t: State, g: Group)
    requires PastOk(s) && GroupOk(s.requests, g)
    requires t.history == s.history + [g] && t.requests == s.requests && t.synced == s.synced
    requires t.last == s.last + (if g.numbered then |g.record.ops| else 0) &&
             (g.numbered ==> g.record.first == s.last + 1)
    requires t.backgroundError == (s.backgroundError || g.syncError)
    requires SyncedSuccess(s.requests, g) ==> |LogOf(t.history)| <= s.synced
    ensures PastOk(t)
  {
    HistoryGrows(s.history, g);
    HistoryStaysOk(s.requests, s.history, s.synced, g);
    StillTiled(s.history, g, s.last + 1);
  }

  lemma LeadAloneKeeps(s: State, room: bool)
    requires Inv(s) && Enabled(s, Lead(room)) && Alone(s, room)
    ensures Inv(Apply(s, Lead(room)))
  {
    var g := Group(s.waiting[..1], false, Record(0, []), if room then Ok else Error, false, false);
    var t := Apply(s, Lead(room));
    HistoryGrows(s.history, g);
    assert QueueOk(t) by { PopKeeps(s, 1, g); }
    assert PastOk(t) by { PastGrows(s, t, g); }
  }

  lemma LeadGroupKeeps(s: State, room: bool)
    requires Inv(s) && Enabled(s, Lead(room)) && !Alone(s, room)
    ensures Inv(Apply(s, Lead(room)))
  {
    var queue := Requests(s.requests, s.waiting);
    var n := GroupLength(queue);
    GroupIsBounded(queue, n);
    assert queue[..n] == Requests(s.requests, s.waiting[..n]);
    assert forall i :: 0 <= i < n ==> queue[i] == s.requests[s.waiting[i]];
  }

  lemma InsertKeeps(s: State)
    requires CommitOk(s) && Known(s.requests, s.waiting) && Enabled(s, Insert)
    requires s.phase.stage.Logged? ==> s.synced <= |s.log|
    ensures CommitOk(Apply(s, Insert))
  {
    var k := Inserted(s.phase.stage);
    var record := s.phase.record;
    assert Stamps(record, k + 1) == Stamps(record, k) + [Stamped(record.first + k, record.ops[k])];
  }

  lemma FinishKeeps(s: State)
    requires Inv(s) && Enabled(s, Finish)
    ensures Inv(Apply(s, Finish))
  {
    var t := Apply(s, Finish);
    var g := t.history[|s.history|];
    HistoryGrows(s.history, g);
    assert QueueOk(t) by { PopKeeps(s, s.phase.n, g); }
    assert PastOk(t) by { PastGrows(s, t, g); }
  }

  lemma AddRecordKeeps(s: State, ok: bool, written: bool)
    requires Inv(s) && Enabled(s, AddRecord(ok, written))
    ensures Inv(Apply(s, AddRecord(ok, written)))
  {
  }

  lemma {:induction false} MoreIsDurable(requests: map<Id, Request>, history: seq<Group>, synced: nat, more: nat)
    requires Durable(requests, history, synced) && synced <= more
    ensures Durable(requests, history, more)
  {
    if history != [] { MoreIsDurable(requests, history[..|history| - 1], synced, more); }
  }

  lemma SyncKeeps(s: State, ok: bool)
    requires Inv(s) && Enabled(s, Sync(ok))
    ensures Inv(Apply(s, Sync(ok)))
  {
    MoreIsDurable(s.requests, s.history, s.synced, |s.log|);
  }

  /** Every step of every interleaving keeps the invariant. */
  lemma StepKeeps(s: State, a: Action)
    requires Inv(s) && Enabled(s, a)
    ensures Inv(Apply(s, a))
  {
    match a {
      case Enter(id, request) => EnterKeeps(s, id, request);
      case Lead(room) => if Alone(s, room) { LeadAloneKeeps(s, room); } else { LeadGroupKeeps(s, room); }
      case AddRecord(ok, written) => AddRecordKeeps(s, ok, written);
      case Sync(ok) => SyncKeeps(s, ok);
      case Insert => InsertKeeps(s);
      case Finish => FinishKeeps(s);
    }
  }

  // ---------------------------------------------------------------- whole runs

  ghost predicate Legal(s: State, a: Action) {
    Known(s.requests, s.waiting) && Enabled(s, a) && (s.phase.Committing? ==> s.phase.n <= |s.waiting|)
  }

  ghost predicate IsRun(states: seq<State>, actions: seq<Action>) {
    && |states| == |actions| + 1 && states[0] == START
    && forall i {:trigger actions[i]} :: 0 <= i < |actions| ==>
         Legal(states[i], actions[i]) && states[i + 1] == Apply(states[i], actions[i])
  }

  lemma {:induction false} RunKeeps(states: seq<State>, actions: seq<Action>, i: nat)
    requires IsRun(states, actions) && i < |states|
    ensures Inv(states[i])
  {
    if i > 0 {
      RunKeeps(states, actions, i - 1);
      StepKeeps(states[i - 1], actions[i - 1]);
    }
  }

  // ---------------------------------------------------------------- what writers and readers observe

  function Ids(left: seq<Departure>): seq<Id> {
    seq(|left|, i requires 0 <= i < |left| => left[i].id)
  }

  /** The operations of the writers that were told Ok, whole batches in the order of leaving. */
  function Succeeded(requests: map<Id, Request>, left: seq<Departure>): seq<Op> {
    if left == [] then []
    else
      var d := left[|left| - 1];
      Succeeded(requests, left[..|left| - 1]) +
      if d.status.Ok? && d.id in requests && requests[d.id].batch.Some? then requests[d.id].batch.value.ops else []
  }

  function Plain(mem: seq<Stamped>): seq<Op> {
    seq(|mem|, i requires 0 <= i < |mem| => mem[i].op)
  }

  /** What a reader that takes the last sequence number sees. */
  function View(mem: seq<Stamped>, last: nat): seq<Stamped> {
    if mem == [] then []
    else View(mem[..|mem| - 1], last) + if mem[|mem| - 1].sequence <= last then [mem[|mem| - 1]] else []
  }

  predicate Numbered(mem: seq<Stamped>) {
    forall i, j :: 0 <= i < j < |mem| ==> mem[i].sequence < mem[j].sequence
  }

  lemma {:induction false} MembersLeft(history: seq<Group>)
    ensures Ids(Departures(history)) == MembersOf(history)
  {
    if history != [] { MembersLeft(history[..|history| - 1]); }
  }

  lemma {:induction false} MemIsBelow(history: seq<Group>, next: nat)
    requires Tiled(history, next)
    ensures next >= 1 && Numbered(MemOf(history))
    ensures forall i :: 0 <= i < |MemOf(history)| ==> MemOf(history)[i].sequence < next
  {
    if history != [] {
      var front, g := history[..|history| - 1], history[|history| - 1];
      MemIsBelow(front, if g.numbered then g.record.first else next);
    }
  }

  lemma {:induction false} ViewAll(mem: seq<Stamped>, last: nat)
    requires forall i :: 0 <= i < |mem| ==> mem[i].sequence <= last
    ensures View(mem, last) == mem
  {
    if mem != [] {
      ViewAll(mem[..|mem| - 1], last);
      Sequences.Snoc(mem);
    }
  }

  lemma {:induction false} ViewCuts(mem: seq<Stamped>, more: seq<Stamped>, last: nat)
    requires forall i :: 0 <= i < |mem| ==> mem[i].sequence <= last
    requires forall i :: 0 <= i < |more| ==> more[i].sequence > last
    ensures View(mem + more, last) == mem
  {
    if more == [] {
      assert mem + more == mem;
      ViewAll(mem, last);
    } else {
      ViewCuts(mem, more[..|more| - 1], last);
      assert (mem + more)[..|mem + more| - 1] == mem + more[..|more| - 1];
    }
  }

  lemma SucceededSnoc(requests: map<Id, Request>, left: seq<Departure>, d: Departure)
    ensures Succeeded(requests, left + [d]) == Succeeded(requests, left) +
            if d.status.Ok? && d.id in requests && requests[d.id].batch.Some?
            then requests[d.id].batch.value.ops
            else []
  {
    assert (left + [d])[..|left|] == left;
  }

  lemma OpsSnoc(requests: map<Id, Request>, ids: seq<Id>)
    requires Known(requests, ids) && ids != []
    ensures var r := requests[ids[|ids| - 1]];
            Ops(Requests(requests, ids)) ==
              Ops(Requests(requests, ids[..|ids| - 1])) + if r.batch.Some? then r.batch.value.ops else []
  {
    assert Requests(requests, ids)[..|ids| - 1] == Requests(requests, ids[..|ids| - 1]);
  }

  lemma LeaveSnoc(left: seq<Departure>, ids: seq<Id>, status: Status)
    requires ids != []
    ensures left + Leave(ids, status) == (left + Leave(ids[..|ids| - 1], status)) + [Departure(ids[|ids| - 1], status)]
  {
  }

  lemma {:induction false} SucceededAppend(requests: map<Id, Request>, left: seq<Departure>, ids: seq<Id>,
                                           status: Status)
    requires Known(requests, ids)
    ensures Succeeded(requests, left + Leave(ids, status)) ==
            Succeeded(requests, left) + if status.Ok? then Ops(Requests(requests, ids)) else []
  {
    hide Succeeded;
    if ids == [] {
      assert left + Leave(ids, status) == left;
    } else {
      var n := |ids| - 1;
      SucceededAppend(requests, left, ids[..n], status);
      LeaveSnoc(left, ids, status);
      SucceededSnoc(requests, left + Leave(ids[..n], status), Departure(ids[n], status));
      OpsSnoc(requests, ids);
    }
  }

  lemma PlainAppend(a: seq<Stamped>, b: seq<Stamped>)
    ensures Plain(a + b) == Plain(a) + Plain(b)
  {
  }

  lemma PlainStamps(record: Record)
    ensures Plain(Stamps(record, |record.ops|)) == record.ops
  {
  }

  /** A group that is not numbered has one member, without a batch if it succeeded. */
  lemma UnnumberedHasNoOps(requests: map<Id, Request>, g: Group)
    requires GroupOk(requests, g) && !g.numbered && g.status.Ok?
    ensures Ops(Requests(requests, g.members)) == []
  {
    OpsSnoc(requests, g.members);
  }

  lemma {:induction false} MemIsSuccess(requests: map<Id, Request>, history: seq<Group>)
    requires HistoryOk(requests, history)
    ensures Plain(MemOf(history)) == Succeeded(requests, Departures(history))
  {
    if history != [] {
      hide Succeeded, Plain, Leave, Stamps, Ops, Requests, Known;
      var front, g := history[..|history| - 1], history[|history| - 1];
      MemIsSuccess(requests, front);
      SucceededAppend(requests, Departures(front), g.members, g.status);
      PlainStamps(g.record);
      PlainAppend(MemOf(front), Stamps(g.record, |g.record.ops|));
      if !g.numbered && g.status.Ok? { UnnumberedHasNoOps(requests, g); }
    }
  }

  /** Writers leave once each, in the order they came. */
  lemma LeavesInOrder(states: seq<State>, actions: seq<Action>, i: nat)
    requires IsRun(states, actions) && i < |states|
    ensures states[i].arrived == Ids(states[i].left) + states[i].waiting && Distinct(states[i].arrived)
  {
    RunKeeps(states, actions, i);
    MembersLeft(states[i].history);
  }

  /** At every moment of every run, also while a commit is inserting its entries, a reader sees the
      batches of exactly the writers that were told Ok, each whole and once, in the order in which
      they left, under ascending sequence numbers. */
  lemma ReaderSeesWholeBatches(states: seq<State>, actions: seq<Action>, i: nat)
    requires IsRun(states, actions) && i < |states|
    ensures var s := states[i];
            Plain(View(s.mem, s.last)) == Succeeded(s.requests, s.left) && Numbered(s.mem)
  {
    hide Succeeded, MemOf, Plain;
    RunKeeps(states, actions, i);
    var s := states[i];
    MemIsBelow(s.history, s.last + 1);
    MemIsSuccess(s.requests, s.history);
    var more := if s.phase.Committing? then Stamps(s.phase.record, Inserted(s.phase.stage)) else [];
    ViewCuts(MemOf(s.history), more, s.last);
    assert s.mem == MemOf(s.history) + more;
  }

  /** Record r of the log holds these operations from sequence number `start` on. */
  predicate Holds(r: Record, start: nat, ops: seq<Op>) {
    r.first <= start && start - r.first + |ops| <= |r.ops| && r.ops[start - r.first..start - r.first + |ops|] == ops
  }

  lemma {:induction false} OpsHold(requests: map<Id, Request>, members: seq<Id>, m: nat, first: nat)
    returns (start: nat)
    requires Known(requests, members) && m < |members| && requests[members[m]].batch.Some?
    ensures Holds(Record(first, Ops(Requests(requests, members))), start, requests[members[m]].batch.value.ops)
  {
    var n := |members| - 1;
    var front := Requests(requests, members)[..n];
    assert front == Requests(requests, members[..n]);
    if m < n {
      start := OpsHold(requests, members[..n], m, first);
      Sequences.SliceOfTake(Ops(Requests(requests, members)), start - first,
                            start - first + |requests[members[m]].batch.value.ops|, |Ops(front)|);
      assert Ops(Requests(requests, members))[..|Ops(front)|] == Ops(front);
    } else {
      start := first + |Ops(front)|;
    }
  }

  /** A writer told Ok finds its batch whole in one log record, which is synced if it asked for that. */
  lemma {:induction false} SuccessIsLogged(requests: map<Id, Request>, history: seq<Group>, synced: nat, d: nat)
      returns (r: nat, start: nat)
    requires HistoryOk(requests, history) && Durable(requests, history, synced)
    requires d < |Departures(history)| && Departures(history)[d].status.Ok?
    requires Departures(history)[d].id in requests && requests[Departures(history)[d].id].batch.Some?
    ensures r < |LogOf(history)| && Holds(LogOf(history)[r], start, requests[Departures(history)[d].id].batch.value.ops)
    ensures requests[Departures(history)[d].id].sync ==> r < synced
  {
    var front, g := history[..|history| - 1], history[|history| - 1];
    if d < |Departures(front)| {
      r, start := SuccessIsLogged(requests, front, synced, d);
    } else {
      var m := d - |Departures(front)|;
      assert Departures(history)[d] == Departure(g.members[m], g.status);
      r := |LogOf(front)|;
      start := OpsHold(requests, g.members, m, g.record.first);
    }
  }

  /** In every run: whoever was told Ok has its batch in the log, whole, and durable if it asked. */
  lemma OkMeansLogged(states: seq<State>, actions: seq<Action>, i: nat, d: nat) returns (r: nat, start: nat)
    requires IsRun(states, actions) && i < |states| && d < |states[i].left| && states[i].left[d].status.Ok?
    requires states[i].left[d].id in states[i].requests && states[i].requests[states[i].left[d].id].batch.Some?
    ensures r < |states[i].log|
    ensures Holds(states[i].log[r], start, states[i].requests[states[i].left[d].id].batch.value.ops)
    ensures states[i].requests[states[i].left[d].id].sync ==> r < states[i].synced
  {
    RunKeeps(states, actions, i);
    r, start := SuccessIsLogged(states[i].requests, states[i].history, states[i].synced, d);
  }

  lemma {:induction false} SyncFailureSticks(history: seq<Group>, i: nat, j: nat)
    requires ErrorsStick(history) && i < j < |history| && history[i].syncError
    ensures history[j].status.Error?
  {
    var front := history[..|history| - 1];
    if j < |front| {
      SyncFailureSticks(front, i, j);
    } else {
      SyncFailureIsSeen(front, i);
    }
  }

  lemma {:induction false} SyncFailureIsSeen(history: seq<Group>, i: nat)
    requires i < |history| && history[i].syncError
    ensures SyncFailed(history)
  {
    if i < |history| - 1 { SyncFailureIsSeen(history[..|history| - 1], i); }
  }

  /** In every run: once a sync has failed, no later group succeeds. */
  lemma NothingSucceedsAfterSyncFailure(states: seq<State>, actions: seq<Action>, i: nat, g: nat, h: nat)
    requires IsRun(states, actions) && i < |states| && g < h < |states[i].history| && states[i].history[g].syncError
    ensures states[i].history[h].status.Error?
  {
    RunKeeps(states, actions, i);
    SyncFailureSticks(states[i].history, g, h);
  }
}
