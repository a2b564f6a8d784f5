/** Internal keys, entries and the abstract meaning of a read (db/dbformat.h, db/dbformat.cc). */
module DbFormat {
  import opened Wrappers

  /** A user key, seen only through the user comparator.  The byte strings under any total order
      are a countable ordered set, and every such set embeds in the reals with `<`, so a theorem
      over real keys covers every user comparator. */
  type UserKey = real

  type Value = string

  /** kMaxSequenceNumber: sequence numbers share a 64-bit tag with an 8-bit type. */
  const MAX_SEQUENCE := 0xFF_FFFF_FFFF_FFFF

  type SequenceNumber = n: nat | n <= MAX_SEQUENCE

  datatype ValueType = Deletion | Value

  datatype InternalKey = InternalKey(user: UserKey, sequence: SequenceNumber, kind: ValueType)

  datatype Entry = Entry(key: InternalKey, value: Value)

  /** PackSequenceAndType. */
  function Pack(sequence: SequenceNumber, kind: ValueType): nat {
    sequence * 256 + (if kind.Value? then 1 else 0)
  }

  /** InternalKeyComparator::Compare(a, b) < 0: user key ascending, then packed number descending. */
  predicate Less(a: InternalKey, b: InternalKey) {
    a.user < b.user || (a.user == b.user && Pack(a.sequence, a.kind) > Pack(b.sequence, b.kind))
  }

  /** InternalKeyComparator::Compare. */
  function Compare(a: InternalKey, b: InternalKey): int {
    if a.user < b.user then -1
    else if a.user > b.user then 1
    else
      var anum := Pack(a.sequence, a.kind);
      var bnum := Pack(b.sequence, b.kind);
      if anum > bnum then -1 else if anum < bnum then 1 else 0
  }

  /** The key to seek to for reading `user` at `snapshot` (kValueTypeForSeek is kTypeValue). */
  function SeekKey(user: UserKey, snapshot: SequenceNumber): InternalKey {
    InternalKey(user, snapshot, ValueType.Value)
  }

  /** The order between the keys of two entries of one database: `Less`, and never the same
      sequence number twice for one user key, because every write gets a fresh number. */
  predicate Precedes(a: InternalKey, b: InternalKey) {
    a.user < b.user || (a.user == b.user && a.sequence > b.sequence)
  }

  ghost predicate Sorted(entries: seq<Entry>) {
    forall i, j :: 0 <= i < j < |entries| ==> Precedes(entries[i].key, entries[j].key)
  }

  ghost function Elements(entries: seq<Entry>): set<Entry> {
    set e | e in entries
  }

  /** The comparator is a total order whose ties are equal keys, and `Less` is its strict part. */
  lemma CompareIsTotalOrder(a: InternalKey, b: InternalKey, c: InternalKey)
    ensures Compare(a, b) < 0 <==> Less(a, b)
    ensures Compare(a, b) > 0 <==> Less(b, a)
    ensures Compare(a, b) == 0 <==> a == b
    ensures Less(a, b) && Less(b, c) ==> Less(a, c)
    ensures !Less(b, a) && !Less(c, b) ==> !Less(c, a)
    ensures Less(a, b) && !Less(c, b) ==> Less(a, c)
    ensures !Less(b, a) && Less(b, c) ==> Less(a, c)
  {
  }

  /** The seek key of a snapshot separates the entries newer than the snapshot from the visible ones. */
  lemma SeekKeySplits(user: UserKey, snapshot: SequenceNumber, k: InternalKey)
    requires k.user == user
    ensures Less(k, SeekKey(user, snapshot)) <==> k.sequence > snapshot
  {
  }

  // ---------------------------------------------------------------- what a read means

  /** `e` is visible to a read of `user` at `snapshot`. */
  predicate Visible(e: Entry, user: UserKey, snapshot: SequenceNumber) {
    e.key.user == user && e.key.sequence <= snapshot
  }

  ghost predicate IsNewest(data: set<Entry>, user: UserKey, snapshot: SequenceNumber, e: Entry) {
    e in data && Visible(e, user, snapshot) &&
    forall o :: o in data && Visible(o, user, snapshot) ==> o.key.sequence <= e.key.sequence
  }

  /** No two entries of one user key carry the same sequence number. */
  ghost predicate Coherent(data: set<Entry>) {
    forall a, b :: a in data && b in data && a.key.user == b.key.user && a.key.sequence == b.key.sequence ==> a == b
  }

  ghost function Newest(data: set<Entry>, user: UserKey, snapshot: SequenceNumber): Option<Entry> {
    if exists e :: IsNewest(data, user, snapshot, e) then
      var e :| IsNewest(data, user, snapshot, e); Some(e)
    else None
  }

  /** The answer of a read: the newest visible entry, where a deletion counts as absent. */
  ghost function Read(data: set<Entry>, user: UserKey, snapshot: SequenceNumber): Option<Value> {
    match Newest(data, user, snapshot)
    case Some(e) => if e.key.kind.Value? then Some(e.value) else None
    case None => None
  }

  lemma {:induction false} NewestExists(data: set<Entry>, user: UserKey, snapshot: SequenceNumber, witness0: Entry)
    requires witness0 in data && Visible(witness0, user, snapshot)
    ensures exists e :: IsNewest(data, user, snapshot, e)
    decreases snapshot - witness0.key.sequence
  {
    if !IsNewest(data, user, snapshot, witness0) {
      var o :| o in data && Visible(o, user, snapshot) && o.key.sequence > witness0.key.sequence;
      NewestExists(data, user, snapshot, o);
    }
  }

  /** Coherent data has at most one newest entry, so `Newest` and `Read` are determined by it. */
  lemma NewestIs(data: set<Entry>, user: UserKey, snapshot: SequenceNumber, e: Entry)
    requires Coherent(data) && IsNewest(data, user, snapshot, e)
    ensures Newest(data, user, snapshot) == Some(e)
    ensures Read(data, user, snapshot) == if e.key.kind.Value? then Some(e.value) else None
  {
  }

  lemma NothingVisible(data: set<Entry>, user: UserKey, snapshot: SequenceNumber)
    requires forall e :: e in data ==> !Visible(e, user, snapshot)
    ensures Newest(data, user, snapshot) == None
    ensures Read(data, user, snapshot) == None
  {
  }

  /** `Newest` characterised: None exactly when nothing is visible. */
  lemma NewestCases(data: set<Entry>, user: UserKey, snapshot: SequenceNumber)
    ensures match Newest(data, user, snapshot)
            case None => forall e :: e in data ==> !Visible(e, user, snapshot)
            case Some(e) => IsNewest(data, user, snapshot, e)
  {
    if e :| e in data && Visible(e, user, snapshot) {
      NewestExists(data, user, snapshot, e);
    }
  }

  /** Two data sets with the same entries visible at a snapshot answer alike there. */
  lemma SameVisibleSameRead(a: set<Entry>, b: set<Entry>, user: UserKey, snapshot: SequenceNumber)
    requires Coherent(a) && Coherent(b)
    requires forall e :: Visible(e, user, snapshot) ==> (e in a <==> e in b)
    ensures Newest(a, user, snapshot) == Newest(b, user, snapshot)
    ensures Read(a, user, snapshot) == Read(b, user, snapshot)
  {
    NewestCases(a, user, snapshot);
    NewestCases(b, user, snapshot);
    match Newest(a, user, snapshot) {
      case Some(e) => NewestIs(b, user, snapshot, e);
      case None =>
    }
  }
}
