/** The life of logs and tables (db/db_impl.cc, db/version_set.cc): writes go to a log and a memtable,
    flushes and compactions install versions through the manifest, obsolete files are deleted, and a
    crash at any moment is followed by recovery.  Steps are atomic; everything between two releases of
    the lock, and every write that must reach the disk, is a step of its own. */
module Lifecycle {
  import opened DbFormat
  import opened History
  import opened Wrappers

  type Number = nat

  /** The batch in one log record. */
  type Record = seq<Entry>

  /** A log file: the first `synced` records are on disk for sure.  When `torn`, the beginning of one more
      record, cut short by a crash or a failed append, lies behind that many records. */
  datatype Log = Log(records: seq<Record>, synced: nat, torn: Option<nat>)

  datatype Version = Version(files: set<Number>, log: Number)

  datatype Edit = Edit(deleted: set<Number>, added: set<Number>, log: Number)

  datatype Compaction = Compaction(inputs: set<Number>, pinned: set<Number>, outputs: set<Number>, written: set<Number>)

  /** Where the one background thread stands; `back` is the compaction a flush interrupted. */
  datatype Job =
    | Idle
    | Flushing(number: Number, back: Option<Compaction>)
    | FlushBuilt(tables: set<Number>, back: Option<Compaction>)
    | FlushLogged(edit: Edit, back: Option<Compaction>)
    | Compacting(c: Compaction)
    | CompactLogged(c: Compaction, edit: Edit)
    | Cleaning(back: Option<Compaction>)
    | Closed
    | Recovering(todo: set<Number>, added: set<Number>, reused: Option<Number>)

  datatype State = State(
    // on disk; the manifest is torn when the beginning of an edit, cut short by a crash, ends it
    logs: map<Number, Log>,
    tables: map<Number, set<Entry>>,
    manifest: Version,
    manifestNext: Number,
    manifestLast: SequenceNumber,
    manifestTorn: bool,
    // in memory
    current: Version,
    readers: seq<set<Number>>,
    pending: set<Number>,
    mem: set<Entry>,
    imm: Option<set<Entry>>,
    logfile: Number,
    inFlight: Option<Record>,
    next: Number,
    last: SequenceNumber,
    job: Job,
    error: bool,
    // what happened: writes answered (and, after a crash, those it left), writes logged without an
    // answer, and the part of the history behind the manifest and behind the current version
    history: set<Entry>,
    unanswered: set<Entry>,
    flushed: set<Entry>,
    settled: set<Entry>)

  datatype Action =
    | AppendLog(record: Record)
    | AppendFails(failed: Record, tore: bool)
    | SyncLog(ok: bool)
    | InsertMem
    | SwitchMem
    | Pin
    | Unpin(i: nat)
    | StartFlush
    | BuildTable(ok: bool)
    | LogFlush(ok: bool, written: bool)
    | InstallFlush
    | StartCompaction(inputs: set<Number>)
    | OpenOutput
    | WriteOutput(number: Number, content: set<Entry>)
    | LogCompaction(ok: bool, written: bool)
    | InstallCompaction
    | DeleteLog(number: Number)
    | DeleteTable(number: Number)
    | EndCleaning
    | Crash(left: map<Number, Log>, torn: bool)
    | Reopen
    | RecoverLog(number: Number, parts: seq<set<Entry>>, top: SequenceNumber)
    | ReuseLog(number: Number, content: set<Entry>, top: SequenceNumber)
    | FinishRecovery(save: bool, keepManifest: bool)

  // ---------------------------------------------------------------- what files hold

  ghost function Union(records: seq<Record>): set<Entry> {
    set r, e | r in records && e in r :: e
  }

  ghost function Parts(parts: seq<set<Entry>>): set<Entry> {
    set p, e | p in parts && e in p :: e
  }

  ghost function TableEntries(tables: map<Number, set<Entry>>, files: set<Number>): set<Entry> {
    set n, e | n in files && n in tables && e in tables[n] :: e
  }

  ghost function LogEntries(logs: map<Number, Log>, from: Number): set<Entry> {
    set n, e | n in logs && from <= n && e in Union(logs[n].records) :: e
  }

  ghost function LogsBetween(logs: map<Number, Log>, from: Number, to: Number): set<Entry> {
    set n, e | n in logs && from <= n < to && e in Union(logs[n].records) :: e
  }

  /** The part of a log that a crash leaves for sure. */
  function SyncedPart(log: Log): seq<Record> {
    log.records[..if log.synced <= |log.records| then log.synced else |log.records|]
  }

  ghost function SyncedEntries(logs: map<Number, Log>, from: Number): set<Entry> {
    set n, e | n in logs && from <= n && e in Union(SyncedPart(logs[n])) :: e
  }

  /** What reading a log may find: everything, or, behind a torn record, less than was written there. */
  ghost predicate Readable(log: Log, content: set<Entry>) {
    match log.torn
    case None => content == Union(log.records)
    case Some(k) =>
      && content <= Union(log.records)
      && Union(if k <= |log.records| then log.records[..k] else log.records) <= content
  }

  // ---------------------------------------------------------------- the steps

  function Installed(v: Version, edit: Edit): Version {
    Version(v.files - edit.deleted + edit.added, edit.log)
  }

  function Paused(job: Job): Option<Compaction> {
    match job
    case Flushing(_, back) => back
    case FlushBuilt(_, back) => back
    case FlushLogged(_, back) => back
    case Cleaning(back) => back
    case Compacting(c) => Some(c)
    case CompactLogged(c, _) => Some(c)
    case _ => None
  }

  function Resume(back: Option<Compaction>): Job {
    if back.Some? then Compacting(back.value) else Idle
  }

  function Inputs(job: Job): set<Number> {
    if Paused(job).Some? then Paused(job).value.inputs else {}
  }

  function Outputs(job: Job): set<Number> {
    if Paused(job).Some? then Paused(job).value.outputs else {}
  }

  function Imm(s: State): set<Entry> {
    if s.imm.Some? then s.imm.value else {}
  }

  predicate Open(s: State) {
    !s.job.Closed? && !s.job.Recovering?
  }

  /** AddLiveFiles and pending_outputs_: the tables DeleteObsoleteFiles keeps. */
  predicate IsLive(s: State, n: Number) {
    || n in s.pending
    || n in s.current.files
    || (exists i :: 0 <= i < |s.readers| && n in s.readers[i])
    || (Paused(s.job).Some? && n in Paused(s.job).value.pinned)
  }

  /** WriteBatchInternal::SetSequence: consecutive numbers behind the last one. */
  predicate Follows(r: Record, last: SequenceNumber) {
    last + |r| <= MAX_SEQUENCE && forall i :: 0 <= i < |r| ==> r[i].key.sequence == last + 1 + i
  }

  /** A crash leaves every log file, cut somewhere behind its synced part, perhaps inside a record. */
  predicate LogLeft(before: Log, after: Log, live: bool) {
    && after.records <= before.records && after.synced == before.synced
    && (before.synced <= |before.records| ==> before.synced <= |after.records|)
    && (if before.torn.Some? && before.torn.value < |after.records| then after.torn == before.torn
        else if after.torn.None? then true
        else after.torn == Some(|after.records|) && (live || before.torn.Some? || |after.records| < |before.records|))
  }

  predicate CrashLeaves(s: State, left: map<Number, Log>, torn: bool) {
    && left.Keys == s.logs.Keys
    && (forall n :: n in left ==> LogLeft(s.logs[n], left[n], Open(s) && n == s.logfile))
    && (s.manifestTorn ==> torn)
    && (torn ==> s.manifestTorn || s.error || s.job.FlushBuilt? || s.job.Compacting? || s.job.Recovering?)
  }

  /** The largest sequence number seen so far in a recovery. */
  ghost predicate IsLast(content: set<Entry>, last: SequenceNumber, top: SequenceNumber) {
    && last <= top
    && (forall e :: e in content ==> e.key.sequence <= top)
    && (last < top ==> exists e :: e in content && e.key.sequence == top)
  }

  /** What a compaction may write: the drop rule of CompactionLoop, with what stays outside its inputs. */
  ghost predicate DropsAllowed(s: State, c: Compaction) {
    MayDrop(TableEntries(s.tables, s.current.files - c.inputs), TableEntries(s.tables, c.inputs),
            TableEntries(s.tables, c.outputs))
  }

  ghost predicate Enabled(s: State, a: Action) {
    match a
    // Write: MakeRoomForWrite has passed, so there is no background error
    case AppendLog(r) => Open(s) && s.inFlight.None? && !s.error && s.logfile in s.logs && Follows(r, s.last)
    case AppendFails(r, _) => Open(s) && s.inFlight.None? && !s.error && s.logfile in s.logs && Follows(r, s.last)
    case SyncLog(_) => Open(s) && s.inFlight.Some? && s.logfile in s.logs && s.last + |s.inFlight.value| <= MAX_SEQUENCE
    case InsertMem => Open(s) && s.inFlight.Some? && s.last + |s.inFlight.value| <= MAX_SEQUENCE
    // MakeRoomForWrite
    case SwitchMem => Open(s) && s.inFlight.None? && s.imm.None? && !s.error
    case Pin => Open(s)
    case Unpin(i) => Open(s) && i < |s.readers|
    // CompactMemTable, by itself or from inside the compaction loop
    case StartFlush => s.imm.Some? && ((s.job.Idle? && !s.error) || s.job.Compacting?)
    case BuildTable(_) => s.job.Flushing? && s.imm.Some?
    case LogFlush(ok, written) => s.job.FlushBuilt? && (ok ==> written)
    case InstallFlush => s.job.FlushLogged?
    // BackgroundCompaction and DoCompactionWork
    case StartCompaction(inputs) => s.job.Idle? && !s.error && s.imm.None? && inputs <= s.current.files
    case OpenOutput => s.job.Compacting?
    case WriteOutput(number, content) =>
      && s.job.Compacting? && number in s.job.c.outputs - s.job.c.written
      && content <= TableEntries(s.tables, s.job.c.inputs)
    case LogCompaction(ok, written) =>
      && s.job.Compacting? && (ok ==> written)
      && (written ==> s.job.c.written == s.job.c.outputs && DropsAllowed(s, s.job.c))
    case InstallCompaction => s.job.CompactLogged?
    // DeleteObsoleteFiles
    case DeleteLog(n) => s.job.Cleaning? && !s.error && n in s.logs && n < s.current.log
    case DeleteTable(n) => s.job.Cleaning? && !s.error && n in s.tables && !IsLive(s, n)
    case EndCleaning => s.job.Cleaning?
    case Crash(left, torn) => CrashLeaves(s, left, torn)
    // DB::Open and Recover
    case Reopen => s.job.Closed?
    case RecoverLog(n, parts, top) =>
      && s.job.Recovering? && s.job.reused.None? && n in s.job.todo && n in s.logs &&
         (forall m :: m in s.job.todo ==> n <= m)
      && Readable(s.logs[n], Parts(parts)) && IsLast(Parts(parts), s.last, top)
    case ReuseLog(n, content, top) =>
      && s.job.Recovering? && s.job.reused.None? && s.job.todo == {n} && n in s.logs
      && Readable(s.logs[n], content) && IsLast(content, s.last, top)
    case FinishRecovery(save, keepManifest) =>
      && s.job.Recovering? && s.job.todo == {}
      && (s.job.added != {} ==> save) && (!keepManifest ==> save)
  }

  /** Steps of a flush. */
  predicate ByFlush(a: Action) {
    a.StartFlush? || a.BuildTable? || a.LogFlush? || a.InstallFlush?
  }

  /** Steps of a compaction. */
  predicate ByCompaction(a: Action) {
    a.StartCompaction? || a.OpenOutput? || a.WriteOutput? || a.LogCompaction? || a.InstallCompaction?
  }

  /** Steps of writers and readers. */
  predicate ByUser(a: Action) {
    a.AppendLog? || a.AppendFails? || a.SyncLog? || a.InsertMem? || a.SwitchMem? || a.Pin? || a.Unpin?
  }

  function Max(a: nat, b: nat): nat {
    if a < b then b else a
  }

  /** Tables written one after the other under consecutive numbers. */
  function AddTables(tables: map<Number, set<Entry>>, first: Number, parts: seq<set<Entry>>): map<Number, set<Entry>> {
    if parts == [] then tables
    else
      var n := |parts| - 1;
      AddTables(tables, first, parts[..n])[first + n := parts[n]]
  }

  function NumbersFrom(first: Number, count: nat): (numbers: set<Number>)
    ensures forall n :: n in numbers <==> first <= n < first + count
  {
    if count == 0 then {} else NumbersFrom(first, count - 1) + {first + count - 1}
  }

  /** LogAndApply up to the moment the manifest record is on disk; `more` joins the flushed history.
      Behind a torn edit the record is never read again. */
  function Saved(s: State, edit: Edit, more: set<Entry>): State {
    if s.manifestTorn then s
    else s.(manifest := Installed(s.manifest, edit), manifestNext := s.next, manifestLast := s.last,
            flushed := s.flushed + more)
  }

  ghost function Apply(s: State, a: Action): State
    requires Enabled(s, a)
  {
    match a
    case AppendLog(r) =>
      var log := s.logs[s.logfile];
      s.(logs := s.logs[s.logfile := log.(records := log.records + [r])], inFlight := Some(r),
         unanswered := s.unanswered + Elements(r))
    case AppendFails(r, tore) =>
      var log := s.logs[s.logfile];
      s.(logs := if tore && log.torn.None? then s.logs[s.logfile := log.(torn := Some(|log.records|))] else s.logs,
         last := s.last + |r|)
    case SyncLog(ok) =>
      var log := s.logs[s.logfile];
      if ok then s.(logs := s.logs[s.logfile := log.(synced := |log.records|)])
      else s.(inFlight := None, error := true, last := s.last + |s.inFlight.value|)
    case InsertMem =>
      var r := s.inFlight.value;
      s.(mem := s.mem + Elements(r), inFlight := None, history := s.history + Elements(r),
         unanswered := s.unanswered - Elements(r), last := s.last + |r|)
    case SwitchMem =>
      s.(logs := s.logs[s.next := Log([], 0, None)], logfile := s.next, next := s.next + 1, imm := Some(s.mem),
         mem := {})
    case Pin => s.(readers := s.readers + [s.current.files])
    case Unpin(i) => s.(readers := s.readers[..i] + s.readers[i + 1..])
    case StartFlush =>
      s.(next := s.next + 1, pending := s.pending + {s.next}, job := Flushing(s.next, Paused(s.job)))
    case BuildTable(ok) =>
      var n := s.job.number;
      var left := s.(pending := s.pending - {n});
      if !ok then left.(error := true, job := Resume(s.job.back))
      else if s.imm.value == {} then left.(job := FlushBuilt({}, s.job.back))
      else left.(tables := s.tables[n := s.imm.value], job := FlushBuilt({n}, s.job.back))
    case LogFlush(ok, written) =>
      var edit := Edit({}, s.job.tables, s.logfile);
      var saved := if written then Saved(s, edit, Imm(s)) else s;
      if ok then saved.(job := FlushLogged(edit, s.job.back)) else saved.(error := true, job := Resume(s.job.back))
    case InstallFlush =>
      s.(current := Installed(s.current, s.job.edit), imm := None, settled := s.settled + Imm(s),
         job := Cleaning(s.job.back))
    case StartCompaction(inputs) => s.(job := Compacting(Compaction(inputs, s.current.files, {}, {})))
    case OpenOutput =>
      s.(next := s.next + 1, pending := s.pending + {s.next},
         job := Compacting(s.job.c.(outputs := s.job.c.outputs + {s.next})))
    case WriteOutput(n, content) =>
      s.(tables := s.tables[n := content], job := Compacting(s.job.c.(written := s.job.c.written + {n})))
    case LogCompaction(ok, written) =>
      var c := s.job.c;
      var edit := Edit(c.inputs, c.outputs, s.current.log);
      var saved := if written then Saved(s, edit, {}) else s;
      if ok then saved.(job := CompactLogged(c, edit))
      else saved.(error := true, pending := s.pending - c.outputs, job := Idle)
    case InstallCompaction =>
      s.(current := Installed(s.current, s.job.edit), pending := s.pending - s.job.c.outputs, job := Cleaning(None))
    case DeleteLog(n) => s.(logs := s.logs - {n})
    case DeleteTable(n) => s.(tables := s.tables - {n})
    case EndCleaning => s.(job := Resume(s.job.back))
    case Crash(left, torn) =>
      s.(logs := left, manifestTorn := torn, readers := [], pending := {}, mem := {}, imm := None, inFlight := None,
         job := Closed, error := false, history := s.flushed + LogEntries(left, s.manifest.log), unanswered := {})
    case Reopen =>
      var todo := set n | n in s.logs && s.manifest.log <= n;
      s.(current := s.manifest, next := s.manifestNext + 1, last := s.manifestLast, job := Recovering(todo, {}, None))
    case RecoverLog(n, parts, top) =>
      s.(tables := AddTables(s.tables, s.next, parts), next := Max(s.next + |parts|, n + 1), last := top,
         job := Recovering(s.job.todo - {n}, s.job.added + NumbersFrom(s.next, |parts|), None))
    case ReuseLog(n, content, top) =>
      s.(mem := content, next := Max(s.next, n + 1), last := top, job := Recovering({}, s.job.added, Some(n)))
    case FinishRecovery(save, keepManifest) =>
      var ready := if s.job.reused.Some? then s.(logfile := s.job.reused.value)
                   else s.(logfile := s.next, logs := s.logs[s.next := Log([], 0, None)], next := s.next + 1);
      var more := TableEntries(s.tables, s.job.added);
      var begun :=
        ready.(manifestTorn := keepManifest && s.manifestTorn, settled := s.flushed + more, job := Cleaning(None));
      var edit := Edit({}, s.job.added, ready.logfile);
      if save then Saved(begun, edit, more).(current := Installed(begun.current, edit)) else begun
  }

  /** What the steps need beyond the code's own checks: nothing is ever written behind a torn record, in
      a log that is used again, after a failed append, or in a manifest that is kept. */
  ghost predicate Guard(s: State, a: Action) {
    match a
    case AppendFails(_, tore) => !tore
    case ReuseLog(n, _, _) => n in s.logs ==> s.logs[n].torn.None?
    case FinishRecovery(_, keepManifest) => keepManifest ==> !s.manifestTorn
    case _ => true
  }

  // ---------------------------------------------------------------- the invariant: files and numbers

  ghost predicate Below(files: set<Number>, n: Number) {
    forall f :: f in files ==> f < n
  }

  ghost predicate OnDisk(tables: map<Number, set<Entry>>, files: set<Number>) {
    forall f :: f in files ==> f in tables
  }

  /** Tables a flush has in the making. */
  function FlushTables(job: Job): set<Number> {
    match job
    case Flushing(n, _) => {n}
    case FlushBuilt(tables, _) => tables
    case FlushLogged(edit, _) => edit.added
    case _ => {}
  }

  /** Tables being written: no version may name them. */
  function Unnamed(job: Job): set<Number> {
    match job
    case Flushing(n, _) => {n} + Outputs(job)
    case FlushBuilt(_, _) => Outputs(job)
    case FlushLogged(_, _) => Outputs(job)
    case Cleaning(_) => Outputs(job)
    case Compacting(_) => Outputs(job)
    case _ => {}
  }

  ghost predicate LogsOk(s: State) {
    && (forall n :: n in s.logs ==> s.logs[n].synced <= |s.logs[n].records|)
    && (!Open(s) ==> s.readers == [] && s.imm.None? && s.inFlight.None? && !s.error)
  }

  /** Numbers in use are below the next one, in memory and as the manifest records it. */
  ghost predicate NumbersOk(s: State) {
    && Below(s.manifest.files, s.manifestNext) && s.manifest.log < s.manifestNext
    && (!s.job.Closed? ==>
          && s.manifestNext <= s.next
          && Below(s.current.files, s.next)
          && (forall i :: 0 <= i < |s.readers| ==> Below(s.readers[i], s.next)))
    && (Open(s) ==>
          && s.current.log <= s.manifest.log <= s.logfile < s.next
          && s.logfile in s.logs && forall n :: n in s.logs ==> n <= s.logfile)
    && (s.job.Recovering? ==> forall n :: n in s.logs ==> n in s.job.todo || n < s.next)
  }

  /** Tables of versions in use are there. */
  ghost predicate TablesOk(s: State) {
    && OnDisk(s.tables, s.manifest.files)
    && (!s.job.Closed? ==> OnDisk(s.tables, s.current.files))
    && forall i :: 0 <= i < |s.readers| ==> OnDisk(s.tables, s.readers[i])
  }

  ghost predicate UnnamedOk(s: State) {
    && Below(Unnamed(s.job), s.next)
    && Unnamed(s.job) !! s.current.files && Unnamed(s.job) !! s.manifest.files
    && forall i :: 0 <= i < |s.readers| ==> Unnamed(s.job) !! s.readers[i]
  }

  ghost predicate CompactionOk(s: State, c: Compaction) {
    && c.inputs <= s.current.files && c.inputs <= c.pinned
    && OnDisk(s.tables, c.pinned) && Below(c.pinned, s.next) && c.outputs !! c.pinned
    && c.outputs <= s.pending && c.written <= c.outputs && OnDisk(s.tables, c.written)
    && FlushTables(s.job) !! c.outputs && FlushTables(s.job) !! c.pinned
  }

  /** What the background thread holds. */
  ghost predicate JobOk(s: State) {
    && UnnamedOk(s)
    && (Paused(s.job).Some? ==> CompactionOk(s, Paused(s.job).value))
    && match s.job
       case Flushing(_, _) => s.imm.Some?
       case FlushBuilt(tables, _) => s.imm.Some? && OnDisk(s.tables, tables) && Below(tables, s.next)
       case FlushLogged(edit, _) =>
         && s.imm.Some? && OnDisk(s.tables, edit.added) && Below(edit.added, s.next)
         && edit.deleted == {} && edit.log == s.logfile
       case CompactLogged(c, edit) =>
         edit == Edit(c.inputs, c.outputs, s.current.log) && c.written == c.outputs && Below(c.outputs, s.next)
       case Recovering(todo, added, reused) =>
         && s.current == s.manifest && todo <= s.logs.Keys && (forall n :: n in todo ==> s.manifest.log <= n)
         && (forall m, n :: m in s.logs && m !in todo && n in todo ==> m < n)
         && OnDisk(s.tables, added) && Below(added, s.next)
         && (reused.Some? ==> todo == {} && reused.value in s.logs && s.manifest.log <= reused.value < s.next &&
                              forall n :: n in s.logs ==> n <= reused.value)
       case _ => true
  }

  /** How the manifest relates to the version in memory. */
  ghost predicate ManifestOk(s: State) {
    match s.job
    case Closed => true
    case FlushLogged(edit, _) =>
      (!s.error ==> s.manifest == Installed(s.current, edit)) && Installed(s.current, edit).files <= s.manifest.files &&
      s.manifest.log == edit.log
    case CompactLogged(_, edit) =>
      (!s.error ==> s.manifest == Installed(s.current, edit)) && Installed(s.current, edit).files <= s.manifest.files
    case _ =>
      && (!s.error ==> s.manifest == s.current)
      && ((s.job.Idle? && s.error) || s.current.files <= s.manifest.files)
  }

  /** Nothing lies behind a torn record, and the log and the manifest in use are not torn at all. */
  ghost predicate TornOk(s: State) {
    && (forall n :: n in s.logs && (if Open(s) then s.current.log else s.manifest.log) <= n && s.logs[n].torn.Some? ==>
          s.logs[n].torn.value == |s.logs[n].records|)
    && (Open(s) ==> !s.manifestTorn && (s.logfile in s.logs ==> s.logs[s.logfile].torn.None?))
    && (s.job.Recovering? && s.job.reused.Some? && s.job.reused.value in s.logs ==>
        s.logs[s.job.reused.value].torn.None?)
  }

  ghost predicate FilesOk(s: State) {
    LogsOk(s) && NumbersOk(s) && TablesOk(s) && JobOk(s) && ManifestOk(s) && TornOk(s)
  }

  // ---------------------------------------------------------------- the invariant: the history

  ghost predicate RecordsOrdered(records: seq<Record>) {
    forall i, j :: 0 <= i < j < |records| ==> Before(Elements(records[i]), Elements(records[j]))
  }

  ghost predicate LogsOrdered(logs: map<Number, Log>, from: Number) {
    && (forall n,
        m :: n in logs && m in logs && from <= n < m ==> Before(Union(logs[n].records), Union(logs[m].records)))
    && forall n :: n in logs && from <= n ==> RecordsOrdered(logs[n].records)
  }

  /** A logged write is newer than what the manifest accounts for, unless its tables have it already. */
  ghost predicate FlushedFirst(logs: map<Number, Log>, from: Number, flushed: set<Entry>, stored: set<Entry>) {
    forall n, a, b :: n in logs && from <= n && a in flushed && b in Union(logs[n].records) ==>
      a.key.sequence < b.key.sequence || (b in stored && exists m :: m in logs && n < m)
  }

  ghost predicate UpTo(data: set<Entry>, last: nat) {
    forall e :: e in data ==> e.key.sequence <= last
  }

  /** The disk: the tables of the manifest are faithful to the flushed history, the logs hold the rest. */
  ghost predicate DiskOk(s: State) {
    && s.history + s.unanswered == s.flushed + LogEntries(s.logs, s.manifest.log)
    && Numbered(s.history + s.unanswered)
    && LogsOrdered(s.logs, s.manifest.log)
    && FlushedFirst(s.logs, s.manifest.log, s.flushed, TableEntries(s.tables, s.manifest.files))
    && Faithful(TableEntries(s.tables, s.manifest.files), s.flushed)
    && UpTo(s.flushed, s.manifestLast)
    && (!Open(s) ==> s.unanswered == {})
  }

  function InFlightCount(s: State): nat {
    if s.inFlight.Some? then |s.inFlight.value| else 0
  }

  /** What the manifest accounts for beyond the current version: the memtable of a logged flush. */
  ghost predicate FlushedOk(s: State) {
    || s.flushed == s.settled
    || (s.flushed == s.settled + Imm(s) && Imm(s) <= TableEntries(s.tables, s.manifest.files - Inputs(s.job)))
  }

  /** A table that only the manifest names comes from a flush that did not reach the current version. */
  ghost predicate ExtraOk(s: State) {
    Paused(s.job).Some? && !s.job.CompactLogged? ==>
      TableEntries(s.tables, s.manifest.files - Inputs(s.job)) <=
        TableEntries(s.tables, s.current.files - Inputs(s.job)) + Imm(s)
  }

  /** Tables in the making hold what they are to hold. */
  ghost predicate ContentsOk(s: State) {
    match s.job
    case FlushBuilt(tables, _) => TableEntries(s.tables, tables) == Imm(s)
    case FlushLogged(edit, _) => TableEntries(s.tables, edit.added) == Imm(s) && s.flushed == s.settled + Imm(s)
    case CompactLogged(c, _) => DropsAllowed(s, c)
    case _ => true
  }

  /** Memory: the tables of the current version are faithful to the settled history, and the two
      memtables hold the rest, which their logs hold too. */
  ghost predicate SetsOk(s: State) {
    && s.logfile in s.logs
    && s.history == s.settled + Imm(s) + s.mem
    && s.mem + s.unanswered == Union(s.logs[s.logfile].records)
    && Imm(s) == LogsBetween(s.logs, s.current.log, s.logfile)
    && (s.imm.Some? ==> s.current.log < s.logfile)
    && Before(s.settled, Imm(s)) && Before(s.settled + Imm(s), s.mem + s.unanswered)
    && LogsOrdered(s.logs, s.current.log)
    && Faithful(TableEntries(s.tables, s.current.files), s.settled)
  }

  ghost predicate MemoryOk(s: State) {
    Open(s) ==> SetsOk(s) && FlushedOk(s) && ExtraOk(s) && ContentsOk(s)
  }

  /** Sequence numbers and the write in flight. */
  ghost predicate CountersOk(s: State) {
    Open(s) ==>
      && UpTo(s.history, s.last) && UpTo(s.unanswered, s.last + InFlightCount(s)) && Before(s.history, s.unanswered)
      && s.last + InFlightCount(s) <= MAX_SEQUENCE
      && (s.inFlight.Some? ==> s.unanswered == Elements(s.inFlight.value) && Follows(s.inFlight.value, s.last))
      && (s.inFlight.None? && !s.error ==> s.unanswered == {})
  }

  /** Logs that recovery has dealt with. */
  ghost function DoneEntries(logs: map<Number, Log>, from: Number, todo: set<Number>): set<Entry> {
    set n, e | n in logs && from <= n && n !in todo && e in Union(logs[n].records) :: e
  }

  ghost predicate RecoveryOk(s: State) {
    match s.job
    case Recovering(todo, added, reused) =>
      && UpTo(s.flushed, s.last) && UpTo(DoneEntries(s.logs, s.manifest.log, todo), s.last)
      && (match reused
          case None => s.mem == {} && TableEntries(s.tables, added) == DoneEntries(s.logs, s.manifest.log, todo)
          case Some(n) =>
            && n in s.logs && s.mem == Union(s.logs[n].records)
            && TableEntries(s.tables, added) == LogsBetween(s.logs, s.manifest.log, n))
    case Closed => s.mem == {}
    case _ => true
  }

  ghost predicate Inv(s: State) {
    FilesOk(s) && DiskOk(s) && MemoryOk(s) && CountersOk(s) && RecoveryOk(s)
  }
}
