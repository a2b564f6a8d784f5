/** Damaged logs are never spliced: whatever physical records the checks reject, the reader returns
    written records only, whole, in order and at most once (db/log_reader.cc). */
module LogDamage {
  import opened Coding
  import opened LogFormat
  import opened LogReader
  import opened LogRecovery
  import opened Wrappers

  /** The physical record at p does not pass the length and checksum tests. */
  predicate Rejected(sum: Checksum, file: Bytes, p: nat) {
    p <= |file| ==> !Next(sum, file, p).Got?
  }

  /** Each piece is either still as it was written, or rejected. */
  predicate Tolerable(sum: Checksum, file: Bytes, p: nat, pieces: seq<Piece>)
    decreases |pieces|
  {
    pieces == [] ||
    ((Intact(sum, file, p, pieces[0]) || Rejected(sum, file, p)) &&
     Tolerable(sum, file, p + Len(pieces[0]), pieces[1..]))
  }

  /** Every record laid out from p on is `ok` at its place. */
  predicate AllAlong(put: (nat, Bytes) -> Bytes, ok: (nat, Bytes) -> bool, p: nat, records: seq<Bytes>)
    decreases |records|
  {
    records == [] || (ok(p, records[0]) && AllAlong(put, ok, p + |put(p, records[0])|, records[1..]))
  }

  function TolerableRecord(sum: Checksum, file: Bytes): (nat, Bytes) -> bool {
    (p: nat, record: Bytes) => Tolerable(sum, file, p, Cut(p, record, true))
  }

  /** Each physical record of the log is either still as it was written, or rejected. */
  predicate TolerableLog(sum: Checksum, file: Bytes, records: seq<Bytes>) {
    AllAlong(AddRecordAt(sum), TolerableRecord(sum, file), 0, records)
  }

  /** `some` is what is left of `all` when elements are taken out. */
  predicate Subsequence(some: seq<Bytes>, all: seq<Bytes>)
    decreases |all|
  {
    some == [] ||
    (all != [] && ((some[0] == all[0] && Subsequence(some[1..], all[1..])) || Subsequence(some, all[1..])))
  }

  // ---------------------------------------------------------------- what reading a place leads to

  type Reads = (nat, Option<Bytes>) -> seq<Bytes>

  /** All records read from p on with a record in the making. */
  function Records(sum: Checksum, file: Bytes): Reads {
    (p: nat, scratch: Option<Bytes>) => RecordsFrom(sum, file, p, scratch)
  }

  function RecordsFrom(sum: Checksum, file: Bytes, p: nat, scratch: Option<Bytes>): seq<Bytes> {
    if p <= |file| then ReadAll(sum, file, p, scratch).records else []
  }

  /** What is read once r has been found. */
  function RecordsAfter(sum: Checksum, file: Bytes, r: Physical, scratch: Option<Bytes>): seq<Bytes> {
    if r.Eof? then []
    else
      match Absorb(scratch, r)
      case Done(record, _) => [record] + RecordsFrom(sum, file, r.next, None)
      case More(now, _) => RecordsFrom(sum, file, r.next, now)
  }

  /** What follows when piece x has been read and q is behind it. */
  function After(read: Reads, q: nat, x: Piece, scratch: Option<Bytes>): seq<Bytes> {
    if x.kind == FULL then [x.payload] + read(q, None)
    else if x.kind == FIRST then read(q, Some(x.payload))
    else if scratch.None? then read(q, None)
    else if x.kind == MIDDLE then read(q, Some(scratch.value + x.payload))
    else [scratch.value + x.payload] + read(q, None)
  }

  ghost predicate TakesIntact(sum: Checksum, read: Reads, file: Bytes, p: nat, x: Piece, scratch: Option<Bytes>) {
    PlacedAt(p, x) && Intact(sum, file, p, x) ==> read(p, scratch) == After(read, p + Len(x), x, scratch)
  }

  ghost predicate SkipsRejected(sum: Checksum, read: Reads, file: Bytes, p: nat, scratch: Option<Bytes>) {
    p <= |file| && Rejected(sum, file, p) ==>
      read(p, scratch) == [] || (p + Pad(p) <= |file| && read(p, scratch) == read(BlockEnd(file, p + Pad(p)), None))
  }

  ghost predicate SkipsTrailer(read: Reads, file: Bytes, p: nat, scratch: Option<Bytes>) {
    p + Pad(p) <= |file| ==> read(p, scratch) == read(p + Pad(p), scratch)
  }

  ghost predicate StopsAtEnd(read: Reads, file: Bytes) {
    forall scratch :: read(|file|, scratch) == []
  }

  ghost predicate ReadsLikeReader(sum: Checksum, read: Reads, file: Bytes) {
    && (forall p, x, scratch :: TakesIntact(sum, read, file, p, x, scratch))
    && (forall p, scratch :: SkipsRejected(sum, read, file, p, scratch))
    && (forall p, scratch :: SkipsTrailer(read, file, p, scratch))
    && StopsAtEnd(read, file)
  }

  lemma ReaderTakesIntact(sum: Checksum, file: Bytes, p: nat, x: Piece, scratch: Option<Bytes>)
    ensures TakesIntact(sum, Records(sum, file), file, p, x, scratch)
  {
    if PlacedAt(p, x) && Intact(sum, file, p, x) {
      NextOfIntact(sum, file, p, x);
      ReadAllStep(sum, file, p, scratch);
      AfterGot(sum, file, p + Len(x), x, scratch);
    }
  }

  lemma ReadAllStep(sum: Checksum, file: Bytes, p: nat, scratch: Option<Bytes>)
    requires p <= |file|
    ensures RecordsFrom(sum, file, p, scratch) == RecordsAfter(sum, file, Next(sum, file, p), scratch)
  {
  }

  lemma AfterGot(sum: Checksum, file: Bytes, q: nat, x: Piece, scratch: Option<Bytes>)
    requires FULL <= x.kind <= LAST
    ensures RecordsAfter(sum, file, Got(x.kind, x.payload, q), scratch) == After(Records(sum, file), q, x, scratch)
  {
  }

  lemma ReaderSkipsRejected(sum: Checksum, file: Bytes, p: nat, scratch: Option<Bytes>)
    ensures SkipsRejected(sum, Records(sum, file), file, p, scratch)
  {
    if p <= |file| && Rejected(sum, file, p) {
      ReadAllStep(sum, file, p, scratch);
      if p + Pad(p) <= |file| {
        NextSkipsTrailer(sum, file, p);
        LeftoverShrinks(p, Pad(p));
      }
    }
  }

  lemma ReaderSkipsTrailer(sum: Checksum, file: Bytes, p: nat, scratch: Option<Bytes>)
    ensures SkipsTrailer(Records(sum, file), file, p, scratch)
  {
    if p + Pad(p) <= |file| {
      NextSkipsTrailer(sum, file, p);
      ReadAllStep(sum, file, p, scratch);
      ReadAllStep(sum, file, p + Pad(p), scratch);
    }
  }

  lemma ReaderReads(sum: Checksum, file: Bytes)
    ensures ReadsLikeReader(sum, Records(sum, file), file)
  {
    forall p, x, scratch ensures TakesIntact(sum, Records(sum, file), file, p, x, scratch) {
      ReaderTakesIntact(sum, file, p, x, scratch);
    }
    forall p, scratch ensures SkipsRejected(sum, Records(sum, file), file, p, scratch) {
      ReaderSkipsRejected(sum, file, p, scratch);
    }
    forall p, scratch ensures SkipsTrailer(Records(sum, file), file, p, scratch) {
      ReaderSkipsTrailer(sum, file, p, scratch);
    }
    forall scratch ensures Records(sum, file)(|file|, scratch) == [] {
      ReadAllStep(sum, file, |file|, scratch);
    }
  }

  // ---------------------------------------------------------------- following the writer

  /** The reader stands at y when the writer stood at p: at the same place, at the end of p's block
      after something in it was rejected, or at the end of the file. */
  predicate Follows(file: Bytes, p: nat, y: nat) {
    y <= |file| && (y == p || y == p + Leftover(p) || y == |file|)
  }

  /** Behind a piece that the reader skipped, the end of its block is still where the reader stands. */
  lemma FollowsPiece(file: Bytes, p: nat, x: Piece, y: nat)
    requires PlacedAt(p, x) && y <= |file|
    requires y == p + x.pad + Leftover(p + x.pad) || y == |file|
    ensures Follows(file, p + Len(x), y)
  {
    PieceFits(p, x);
    LeftoverShrinks(p + x.pad, HEADER + |x.payload|);
  }

  /** Through the rest of one record: it is returned whole or not at all, and nothing else is. */
  lemma {:induction false} ThroughRecord(sum: Checksum, read: Reads, file: Bytes, p: nat, pieces: seq<Piece>,
                                         data: Bytes, begin: bool,
                                         y: nat, scratch: Option<Bytes>, whole: Bytes) returns (end: nat, got: bool)
    requires ReadsLikeReader(sum, read, file)
    requires Placed(p, pieces) && Spells(pieces, data, begin) && Tolerable(sum, file, p, pieces)
    requires Follows(file, p, y) && (scratch.Some? ==> y == p)
    requires if begin then scratch.None? && whole == data else scratch.Some? ==> whole == scratch.value + data
    ensures Follows(file, p + Size(pieces), end)
    ensures read(y, scratch) == (if got then [whole] else []) + read(end, None)
    ensures !begin && scratch.None? ==> !got
    decreases |pieces|
  {
    hide Intact, Size;
    var x, rest := pieces[0], pieces[1..];
    var q := p + Len(x);
    if y == |file| {
      end, got := y, false;
      assert read(y, scratch) == [] && read(end, None) == [];
    } else if y != p && x.pad == 0 {
      FollowsPiece(file, p, x, y);
      end := PastPiece(sum, read, file, p, pieces, data, y);
      got := false;
    } else {
      assert read(y, scratch) == read(p, scratch) by { assert SkipsTrailer(read, file, p, scratch); }
      if Intact(sum, file, p, x) {
        assert TakesIntact(sum, read, file, p, x, scratch);
        end, got := PastIntact(sum, read, file, p, pieces, data, begin, scratch, whole);
      } else {
        assert SkipsRejected(sum, read, file, p, scratch);
        if read(p, scratch) == [] {
          end, got := |file|, false;
        } else {
          var e := BlockEnd(file, p + x.pad);
          FollowsPiece(file, p, x, e);
          end := PastPiece(sum, read, file, p, pieces, data, e);
          got := false;
        }
      }
    }
  }

  /** Past a piece the reader has not read: without its start, no part of the record is returned. */
  lemma {:induction false} PastPiece(sum: Checksum, read: Reads, file: Bytes, p: nat, pieces: seq<Piece>, data: Bytes,
                                     y: nat) returns (end: nat)
    requires ReadsLikeReader(sum, read, file)
    requires Placed(p, pieces) && pieces != [] && Tolerable(sum, file, p, pieces)
    requires pieces[0].payload <= data && (|pieces| > 1 ==> Spells(pieces[1..], data[|pieces[0].payload|..], false))
    requires Follows(file, p + Len(pieces[0]), y)
    ensures Follows(file, p + Size(pieces), end)
    ensures read(y, None) == read(end, None)
    decreases |pieces|, 0
  {
    var x, rest := pieces[0], pieces[1..];
    if rest == [] {
      end := y;
    } else {
      var got;
      end, got := ThroughRecord(sum, read, file, p + Len(x), rest, data[|x.payload|..], false, y, None, data);
      assert [] + read(end, None) == read(end, None);
    }
  }

  /** Past a piece the reader has read. */
  lemma {:induction false} PastIntact(sum: Checksum, read: Reads, file: Bytes, p: nat, pieces: seq<Piece>,
                                      data: Bytes, begin: bool,
                                      scratch: Option<Bytes>, whole: Bytes) returns (end: nat, got: bool)
    requires ReadsLikeReader(sum, read, file)
    requires Placed(p, pieces) && Spells(pieces, data, begin) && Tolerable(sum, file, p, pieces) &&
             Intact(sum, file, p, pieces[0])
    requires if begin then scratch.None? && whole == data else scratch.Some? ==> whole == scratch.value + data
    ensures Follows(file, p + Size(pieces), end)
    ensures After(read, p + Len(pieces[0]), pieces[0], scratch) == (if got then [whole] else []) + read(end, None)
    ensures !begin && scratch.None? ==> !got
    decreases |pieces|, 0
  {
    var x, rest := pieces[0], pieces[1..];
    var q := p + Len(x);
    if rest == [] {
      end, got := q, begin || scratch.Some?;
    } else {
      var now := if begin then Some(x.payload) else if scratch.Some? then Some(scratch.value + x.payload) else None;
      if scratch.Some? { Rejoins(scratch.value, x.payload, data); }
      if begin { Rejoins([], x.payload, data); }
      end, got := ThroughRecord(sum, read, file, q, rest, data[|x.payload|..], false, q, now, whole);
    }
  }

  lemma SubsequenceSkips(some: seq<Bytes>, first: Bytes, all: seq<Bytes>, got: bool)
    requires Subsequence(some, all)
    ensures Subsequence((if got then [first] else []) + some, [first] + all)
  {
    assert ([first] + all)[1..] == all;
    if got {
      assert ([first] + some)[1..] == some;
    } else {
      assert [] + some == some;
    }
  }

  /** The reader passes a record by returning it whole or not at all. */
  ghost predicate PassesRecord(put: (nat, Bytes) -> Bytes, ok: (nat, Bytes) -> bool, read: Reads, file: Bytes, p: nat,
                               record: Bytes, y: nat)
  {
    ok(p, record) && Follows(file, p, y) ==>
      exists end, got :: EndsAt(put, read, file, p, record, y, end, got)
  }

  ghost predicate EndsAt(put: (nat, Bytes) -> Bytes, read: Reads, file: Bytes, p: nat, record: Bytes, y: nat,
                         end: nat, got: bool)
  {
    Follows(file, p + |put(p, record)|, end) && read(y, None) == (if got then [record] else []) + read(end, None)
  }

  lemma {:induction false} ThroughLayout(put: (nat, Bytes) -> Bytes, ok: (nat, Bytes) -> bool, read: Reads,
                                         file: Bytes, p: nat,
                                         records: seq<Bytes>, y: nat)
    requires forall q, r, z :: PassesRecord(put, ok, read, file, q, r, z)
    requires StopsAtEnd(read, file)
    requires AllAlong(put, ok, p, records) && Follows(file, p, y) && |file| <= p + |Joined(put, p, records)|
    ensures Subsequence(read(y, None), records)
    decreases |records|
  {
    if records == [] {
      assert y == |file|;
    } else {
      assert PassesRecord(put, ok, read, file, p, records[0], y);
      var end, got :| EndsAt(put, read, file, p, records[0], y, end, got);
      ThroughLayout(put, ok, read, file, p + |put(p, records[0])|, records[1..], end);
      SubsequenceSkips(read(end, None), records[0], records[1..], got);
      assert records == [records[0]] + records[1..];
    }
  }

  lemma ReaderPassesRecord(sum: Checksum, read: Reads, file: Bytes, p: nat, record: Bytes, y: nat)
    requires ReadsLikeReader(sum, read, file)
    ensures PassesRecord(AddRecordAt(sum), TolerableRecord(sum, file), read, file, p, record, y)
  {
    if Tolerable(sum, file, p, Cut(p, record, true)) && Follows(file, p, y) {
      CutIsPlaced(p, record, true);
      CutSpells(p, record, true);
      var end, got := ThroughRecord(sum, read, file, p, Cut(p, record, true), record, true, y, None, record);
      assert EndsAt(AddRecordAt(sum), read, file, p, record, y, end, got);
    }
  }

  /** Of a log in which any physical records were damaged, or whose end is missing, the reader returns
      some of the written records, whole, in the order of writing, each at most once, and nothing else,
      provided the length and checksum tests reject what was damaged. */
  lemma DamagedLogIsNotSpliced(sum: Checksum, file: Bytes, records: seq<Bytes>)
    requires |file| <= |LogBytes(sum, 0, records)| && TolerableLog(sum, file, records)
    ensures Subsequence(ReadAll(sum, file, 0, None).records, records)
  {
    ReaderReads(sum, file);
    forall q, r, z
      ensures PassesRecord(AddRecordAt(sum), TolerableRecord(sum, file), Records(sum, file), file, q, r, z)
    {
      ReaderPassesRecord(sum, Records(sum, file), file, q, r, z);
    }
    ThroughLayout(AddRecordAt(sum), TolerableRecord(sum, file), Records(sum, file), file, 0, records, 0);
  }
}
