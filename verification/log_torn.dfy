/** Writing on behind a log whose end was cut off, as RecoverLogFile in db/db_impl.cc does with
    reuse_logs: the new writer only knows the length of the file.  Whether its first record is read
    again depends on where the cut fell. */
module LogTorn {
  import opened Coding
  import opened LogDamage
  import opened LogFormat
  import opened LogReader
  import opened LogRecovery
  import opened LogWriter
  import opened Wrappers
  import Sequences

  // ---------------------------------------------------------------- reading whole pieces

  /** The record that piece x ends, with one in the making. */
  function Ended(x: Piece, scratch: Option<Bytes>): seq<Bytes> {
    if x.kind == FULL then [x.payload]
    else if x.kind == LAST && scratch.Some? then [scratch.value + x.payload]
    else []
  }

  /** The record in the making behind piece x. */
  function Held(x: Piece, scratch: Option<Bytes>): Option<Bytes> {
    if x.kind == FIRST then Some(x.payload)
    else if x.kind == MIDDLE && scratch.Some? then Some(scratch.value + x.payload)
    else None
  }

  function Returned(pieces: seq<Piece>, scratch: Option<Bytes>): seq<Bytes> {
    if pieces == [] then [] else Ended(pieces[0], scratch) + Returned(pieces[1..], Held(pieces[0], scratch))
  }

  function Left(pieces: seq<Piece>, scratch: Option<Bytes>): Option<Bytes> {
    if pieces == [] then scratch else Left(pieces[1..], Held(pieces[0], scratch))
  }

  /** All pieces laid out from p on are in the file. */
  predicate AllIntact(sum: Checksum, file: Bytes, p: nat, pieces: seq<Piece>)
    decreases |pieces|
  {
    pieces == [] || (Intact(sum, file, p, pieces[0]) && AllIntact(sum, file, p + Len(pieces[0]), pieces[1..]))
  }

  lemma {:induction false} EncodedIsIntact(sum: Checksum, file: Bytes, p: nat, pieces: seq<Piece>)
    requires Placed(p, pieces) && p + Size(pieces) <= |file| && StartsWith(file, p, Encode(sum, p, pieces))
    ensures AllIntact(sum, file, p, pieces)
    decreases |pieces|
  {
    hide StartsWith, PieceBytes, Intact;
    if pieces != [] {
      var x, rest := pieces[0], pieces[1..];
      StartsWithConcat(file, p, PieceBytes(sum, x), Encode(sum, p + Len(x), rest));
      StartsWithPiece(sum, file, p, x);
      EncodedIsIntact(sum, file, p + Len(x), rest);
    }
  }

  lemma {:induction false} IntactIsTolerable(sum: Checksum, file: Bytes, p: nat, pieces: seq<Piece>)
    requires AllIntact(sum, file, p, pieces)
    ensures Tolerable(sum, file, p, pieces)
    decreases |pieces|
  {
    hide Intact, Rejected, Len;
    if pieces != [] {
      IntactIsTolerable(sum, file, p + Len(pieces[0]), pieces[1..]);
    }
  }

  lemma {:induction false} ThroughPieces(sum: Checksum, read: LogDamage.Reads, file: Bytes, p: nat, pieces: seq<Piece>,
                                         scratch: Option<Bytes>)
    requires ReadsLikeReader(sum, read, file) && Placed(p, pieces) && AllIntact(sum, file, p, pieces)
    ensures read(p, scratch) == Returned(pieces, scratch) + read(p + Size(pieces), Left(pieces, scratch))
    decreases |pieces|
  {
    hide Intact, SkipsRejected, SkipsTrailer, StopsAtEnd;
    if pieces != [] {
      var x, rest := pieces[0], pieces[1..];
      assert TakesIntact(sum, read, file, p, x, scratch);
      AfterPiece(read, p + Len(x), x, scratch);
      ThroughPieces(sum, read, file, p + Len(x), rest, Held(x, scratch));
      Sequences.Associates(Ended(x, scratch), Returned(rest, Held(x, scratch)),
                           read(p + Size(pieces), Left(pieces, scratch)));
    }
  }

  lemma AfterPiece(read: LogDamage.Reads, q: nat, x: Piece, scratch: Option<Bytes>)
    requires FULL <= x.kind <= LAST
    ensures After(read, q, x, scratch) == Ended(x, scratch) + read(q, Held(x, scratch))
  {
  }

  // ---------------------------------------------------------------- reading whole records

  /** The pieces of one record give this record, whatever was in the making before. */
  lemma {:induction false} SpelledIsReturned(pieces: seq<Piece>, data: Bytes, begin: bool, scratch: Option<Bytes>)
    requires Spells(pieces, data, begin) && (begin || scratch.Some?)
    ensures Returned(pieces, scratch) == [if begin then data else scratch.value + data]
    ensures Left(pieces, scratch) == None
    decreases |pieces|
  {
    var x, rest := pieces[0], pieces[1..];
    if rest == [] {
      assert Returned(pieces, scratch) == Ended(x, scratch) + Returned([], None);
    } else {
      SpelledIsReturned(rest, data[|x.payload|..], false, Held(x, scratch));
      if begin {
        assert x.payload + data[|x.payload|..] == data;
      } else {
        Rejoins(scratch.value, x.payload, data);
      }
    }
  }

  /** A reader at q returns a record laid out there, whatever was in the making before. */
  ghost predicate TakesWhole(put: (nat, Bytes) -> Bytes, read: LogDamage.Reads, file: Bytes, q: nat, record: Bytes,
                             scratch: Option<Bytes>)
  {
    q + |put(q, record)| <= |file| && StartsWith(file, q, put(q, record)) ==>
      read(q, scratch) == [record] + read(q + |put(q, record)|, None)
  }

  lemma ReaderTakesWhole(sum: Checksum, read: LogDamage.Reads, file: Bytes, q: nat, record: Bytes,
                         scratch: Option<Bytes>)
    requires ReadsLikeReader(sum, read, file)
    ensures TakesWhole(AddRecordAt(sum), read, file, q, record, scratch)
  {
    hide StartsWith, Encode, ReadsLikeReader;
    var bytes := RecordBytes(sum, q, record, true);
    if q + |bytes| <= |file| && StartsWith(file, q, bytes) {
      CutIsPlaced(q, record, true);
      CutSpells(q, record, true);
      EncodedIsIntact(sum, file, q, Cut(q, record, true));
      ThroughPieces(sum, read, file, q, Cut(q, record, true), scratch);
      SpelledIsReturned(Cut(q, record, true), record, true, scratch);
    }
  }

  lemma {:induction false} ThroughLog(put: (nat, Bytes) -> Bytes, read: LogDamage.Reads, file: Bytes, p: nat,
                                      records: seq<Bytes>,
                                      scratch: Option<Bytes>)
    requires forall q, r, s :: TakesWhole(put, read, file, q, r, s)
    requires p + |Joined(put, p, records)| <= |file| && StartsWith(file, p, Joined(put, p, records))
    ensures read(p, scratch) == records + read(p + |Joined(put, p, records)|, if records == [] then scratch else None)
    decreases |records|
  {
    hide StartsWith;
    if records != [] {
      var first := put(p, records[0]);
      StartsWithConcat(file, p, first, Joined(put, p + |first|, records[1..]));
      assert TakesWhole(put, read, file, p, records[0], scratch);
      ThroughLog(put, read, file, p + |first|, records[1..], None);
      assert records == [records[0]] + records[1..];
      Sequences.Associates([records[0]], records[1..], read(p + |Joined(put, p, records)|, None));
    }
  }

  // ---------------------------------------------------------------- laying pieces end to end

  lemma NothingEncoded(sum: Checksum, p: nat)
    ensures Placed(p, []) && Encode(sum, p, []) == []
  {
  }

  lemma {:induction false} EncodeConcat(sum: Checksum, p: nat, a: seq<Piece>, b: seq<Piece>)
    requires Placed(p, a) && Placed(p + Size(a), b)
    ensures Placed(p, a + b) && Size(a + b) == Size(a) + Size(b)
    ensures Encode(sum, p, a + b) == Encode(sum, p, a) + Encode(sum, p + Size(a), b)
    decreases |a|
  {
    hide PieceBytes, Len, Leftover, Room, Pad, Encode;
    if a == [] {
      assert a + b == b;
      NothingEncoded(sum, p);
    } else {
      var x, rest := a[0], a[1..];
      EncodeConcat(sum, p + Len(x), rest, b);
      assert a + b == [x] + (rest + b) && a == [x] + rest;
      EncodeCons(sum, p, x, rest + b);
      EncodeCons(sum, p, x, rest);
      Sequences.Associates(PieceBytes(sum, x), Encode(sum, p + Len(x), rest), Encode(sum, p + Size(a), b));
    }
  }

  lemma {:induction false} PlacedSplits(p: nat, pieces: seq<Piece>, j: nat)
    requires Placed(p, pieces) && j <= |pieces|
    ensures Placed(p, pieces[..j]) && Placed(p + Size(pieces[..j]), pieces[j..])
    decreases |pieces|
  {
    hide PlacedAt, Len;
    if j > 0 {
      PlacedSplits(p + Len(pieces[0]), pieces[1..], j - 1);
      assert pieces[..j][1..] == pieces[1..][..j - 1] && pieces[j..] == pieces[1..][j - 1..];
    }
  }

  /** The pieces of all records laid out from p on. */
  function CutAll(p: nat, records: seq<Bytes>): seq<Piece>
    decreases |records|
  {
    if records == [] then []
    else Cut(p, records[0], true) + CutAll(p + Size(Cut(p, records[0], true)), records[1..])
  }

  lemma {:induction false} LogIsPieces(sum: Checksum, p: nat, records: seq<Bytes>)
    ensures Placed(p, CutAll(p, records)) && LogBytes(sum, p, records) == Encode(sum, p, CutAll(p, records))
    decreases |records|
  {
    hide Cut, Size, PlacedAt, PieceBytes;
    if records != [] {
      var first := Cut(p, records[0], true);
      CutIsPlaced(p, records[0], true);
      LogIsPieces(sum, p + Size(first), records[1..]);
      EncodeConcat(sum, p, first, CutAll(p + Size(first), records[1..]));
    }
  }

  /** A writer that starts within the trailer leaves the bytes of one that starts in front of it. */
  lemma TrailerIsShared(sum: Checksum, p: nat, z: nat, record: Bytes)
    requires z <= Pad(p)
    ensures Zeros(z) + RecordBytes(sum, p + z, record, true) == RecordBytes(sum, p, record, true)
  {
    hide RecordBytes, Frame, Leftover;
    LeftoverShrinks(p, z);
    var n := if |record| < Room(p) then |record| else Room(p);
    var near, far :=
      Piece(Pad(p + z), Kind(true, n == |record|), record[..n]), Piece(Pad(p), Kind(true, n == |record|), record[..n]);
    assert Pad(p + z) == Pad(p) - z && Room(p + z) == Room(p);
    RecordBytesUnfold(sum, p, record, true);
    RecordBytesUnfold(sum, p + z, record, true);
    assert Zeros(z) + Zeros(near.pad) == Zeros(far.pad);
    Sequences.Associates(Zeros(z), Zeros(near.pad), Frame(sum, near.kind, near.payload));
    assert Zeros(z) + PieceBytes(sum, near) == PieceBytes(sum, far);
    var rest := if n == |record| then [] else RecordBytes(sum, p + Len(far), record[n..], false);
    Sequences.Associates(Zeros(z), PieceBytes(sum, near), rest);
  }

  lemma TrailerIsSharedByLog(sum: Checksum, p: nat, z: nat, records: seq<Bytes>)
    requires z <= Pad(p) && records != []
    ensures Zeros(z) + LogBytes(sum, p + z, records) == LogBytes(sum, p, records)
  {
    hide RecordBytes;
    TrailerIsShared(sum, p, z, records[0]);
    var near, far := RecordBytes(sum, p + z, records[0], true), RecordBytes(sum, p, records[0], true);
    Sequences.Associates(Zeros(z), near, Joined(AddRecordAt(sum), p + |far|, records[1..]));
  }

  // ---------------------------------------------------------------- behind whole pieces

  /** Whole pieces, and perhaps the beginning of the trailer behind them. */
  predicate IsWhole(sum: Checksum, file: Bytes, pieces: seq<Piece>, z: nat) {
    Placed(0, pieces) && z <= Pad(Size(pieces)) && file == Encode(sum, 0, pieces) + Zeros(z)
  }

  /** The file ends at the boundary of a physical record. */
  ghost predicate EndsWhole(sum: Checksum, file: Bytes) {
    exists pieces, z :: IsWhole(sum, file, pieces, z)
  }

  function AllRecords(sum: Checksum, file: Bytes): seq<Bytes> {
    ReadAll(sum, file, 0, None).records
  }

  function Continued(sum: Checksum, file: Bytes, records: seq<Bytes>): Bytes {
    file + LogBytes(sum, |file|, records)
  }

  lemma ReadingStartsWithPieces(sum: Checksum, file: Bytes, pieces: seq<Piece>)
    requires Placed(0, pieces) && Encode(sum, 0, pieces) <= file
    ensures AllRecords(sum, file) == Returned(pieces, None) + RecordsFrom(sum, file, Size(pieces), Left(pieces, None))
  {
    hide ReadAll, Encode, ReadsLikeReader;
    ReaderReads(sum, file);
    assert StartsWith(file, 0, Encode(sum, 0, pieces));
    EncodedIsIntact(sum, file, 0, pieces);
    ThroughPieces(sum, Records(sum, file), file, 0, pieces, None);
  }

  /** In the trailer there is nothing to read. */
  lemma TrailerIsQuiet(sum: Checksum, file: Bytes, p: nat, scratch: Option<Bytes>)
    requires p <= |file| <= p + Pad(p)
    ensures RecordsFrom(sum, file, p, scratch) == []
  {
    LeftoverShrinks(p, Pad(p));
    assert Next(sum, file, p) == Eof;
    ReadAllStep(sum, file, p, scratch);
  }

  lemma WholeIsRead(sum: Checksum, file: Bytes, pieces: seq<Piece>, z: nat)
    requires IsWhole(sum, file, pieces, z)
    ensures AllRecords(sum, file) == Returned(pieces, None)
  {
    hide Encode, ReadAll, AllRecords, RecordsFrom;
    ReadingStartsWithPieces(sum, file, pieces);
    TrailerIsQuiet(sum, file, Size(pieces), Left(pieces, None));
  }

  lemma LogIsRead(sum: Checksum, file: Bytes, p: nat, records: seq<Bytes>, scratch: Option<Bytes>)
    requires p <= |file| && file[p..] == LogBytes(sum, p, records)
    ensures RecordsFrom(sum, file, p, scratch) == records
  {
    hide RecordsFrom, ReadsLikeReader, Joined;
    var read := Records(sum, file);
    ReaderReads(sum, file);
    forall q, r, s ensures TakesWhole(AddRecordAt(sum), read, file, q, r, s) {
      ReaderTakesWhole(sum, read, file, q, r, s);
    }
    assert StartsWith(file, p, LogBytes(sum, p, records));
    ThroughLog(AddRecordAt(sum), read, file, p, records, scratch);
    assert StopsAtEnd(read, file) by { EndIsQuiet(sum, file); }
    assert records + [] == records;
  }

  lemma EndIsQuiet(sum: Checksum, file: Bytes)
    ensures StopsAtEnd(Records(sum, file), file)
  {
    hide RecordsFrom;
    forall scratch ensures Records(sum, file)(|file|, scratch) == [] {
      TrailerIsQuiet(sum, file, |file|, scratch);
    }
  }

  /** Behind whole pieces everything written on is read, and pieces are whole again. */
  lemma WholeContinues(sum: Checksum, file: Bytes, pieces: seq<Piece>, z: nat, records: seq<Bytes>)
    requires IsWhole(sum, file, pieces, z)
    ensures AllRecords(sum, Continued(sum, file, records)) == AllRecords(sum, file) + records
    ensures EndsWhole(sum, Continued(sum, file, records))
  {
    hide Encode, AllRecords, RecordsFrom, LogBytes, CutAll;
    WholeIsRead(sum, file, pieces, z);
    var p := Size(pieces);
    if records == [] {
      EmptyLog(sum, |file|);
      assert Continued(sum, file, records) == file;
    } else {
      var longer := Continued(sum, file, records);
      TrailerIsSharedByLog(sum, p, z, records);
      Sequences.Associates(Encode(sum, 0, pieces), Zeros(z), LogBytes(sum, p + z, records));
      assert longer == Encode(sum, 0, pieces) + LogBytes(sum, p, records);
      ReadingStartsWithPieces(sum, longer, pieces);
      LogIsRead(sum, longer, p, records, Left(pieces, None));
      LogIsPieces(sum, p, records);
      EncodeConcat(sum, 0, pieces, CutAll(p, records));
      assert longer + Zeros(0) == longer;
      assert IsWhole(sum, longer, pieces + CutAll(p, records), 0);
    }
  }

  lemma EmptyLog(sum: Checksum, p: nat)
    ensures LogBytes(sum, p, []) == []
  {
  }

  // ---------------------------------------------------------------- behind a torn piece

  /** The file ends within the frame of piece x, behind whole pieces. */
  predicate IsTorn(sum: Checksum, file: Bytes, pieces: seq<Piece>, x: Piece) {
    var p := Size(pieces);
    && Placed(0, pieces) && PlacedAt(p, x) && p + x.pad < |file| < p + Len(x)
    && Encode(sum, 0, pieces) <= file && file[p..] <= PieceBytes(sum, x)
  }

  lemma TornIsRead(sum: Checksum, file: Bytes, pieces: seq<Piece>, x: Piece)
    requires IsTorn(sum, file, pieces, x)
    ensures AllRecords(sum, file) == Returned(pieces, None)
  {
    hide Encode, AllRecords, PieceBytes, Next;
    ReadingStartsWithPieces(sum, file, pieces);
    NextOfCut(sum, file, Size(pieces), x);
    ReadAllStep(sum, file, Size(pieces), Left(pieces, None));
  }

  /** Where the block of a torn piece ends. */
  lemma TornBlock(file: Bytes, p: nat, x: Piece)
    requires PlacedAt(p, x) && p + x.pad < |file| < p + Len(x)
    ensures var f := p + x.pad; HEADER <= Leftover(f) && f + Leftover(f) == |file| + Leftover(|file|)
  {
    PieceFits(p, x);
    LeftoverShrinks(p + x.pad, |file| - (p + x.pad));
  }

  lemma LogReachesOver(sum: Checksum, n: nat, records: seq<Bytes>)
    requires records != []
    ensures |LogBytes(sum, n, records)| >= Pad(n) + HEADER
  {
    hide Encode;
    CutIsPlaced(n, records[0], true);
    CutSpells(n, records[0], true);
  }

  /** A rejected piece whose block the file has takes the reader to the end of the block. */
  lemma RejectedIsSkipped(sum: Checksum, file: Bytes, p: nat, scratch: Option<Bytes>)
    requires p + Pad(p) + Leftover(p + Pad(p)) <= |file| && Rejected(sum, file, p)
    ensures RecordsFrom(sum, file, p, scratch) == RecordsFrom(sum, file, p + Pad(p) + Leftover(p + Pad(p)), None)
  {
    hide RecordsFrom, Leftover, Unfixed;
    LeftoverShrinks(p, Pad(p));
    NextSkipsTrailer(sum, file, p);
    ReadAllStep(sum, file, p, scratch);
  }

  /** Where no header fits behind the torn piece, the reader skips to where the new records start. */
  lemma SkipsToBlockEnd(sum: Checksum, file: Bytes, longer: Bytes, p: nat, x: Piece, scratch: Option<Bytes>)
    requires PlacedAt(p, x) && p + x.pad < |file| < p + Len(x) && Leftover(|file|) < HEADER
    requires |file| + Leftover(|file|) <= |longer| && Rejected(sum, longer, p)
    ensures RecordsFrom(sum, longer, p, scratch) == RecordsFrom(sum, longer, |file|, None)
  {
    hide RecordsFrom, Leftover, Rejected;
    TornBlock(file, p, x);
    RejectedIsSkipped(sum, longer, p, scratch);
    ReaderSkipsTrailer(sum, longer, |file|, None);
  }

  /** There the new records start a block and are all read. */
  lemma TornAtBlockEnd(sum: Checksum, file: Bytes, pieces: seq<Piece>, x: Piece, records: seq<Bytes>)
    requires IsTorn(sum, file, pieces, x) && records != [] && Leftover(|file|) < HEADER
    requires Rejected(sum, Continued(sum, file, records), Size(pieces))
    ensures AllRecords(sum, Continued(sum, file, records)) == AllRecords(sum, file) + records
  {
    hide Encode, AllRecords, PieceBytes, RecordsFrom, Rejected, LogBytes, Returned, Left, Leftover, Size, Placed;
    var longer := Continued(sum, file, records);
    TornIsRead(sum, file, pieces, x);
    ReadingStartsWithPieces(sum, longer, pieces);
    LogReachesOver(sum, |file|, records);
    SkipsToBlockEnd(sum, file, longer, Size(pieces), x, Left(pieces, None));
    assert longer[|file|..] == LogBytes(sum, |file|, records);
    LogIsRead(sum, longer, |file|, records, None);
  }

  lemma {:induction false} LaidOutIsOk(put: (nat, Bytes) -> Bytes, ok: (nat, Bytes) -> bool, file: Bytes, p: nat,
                                       records: seq<Bytes>)
    requires forall q, r :: LaidOutOk(put, ok, file, q, r)
    requires p + |Joined(put, p, records)| <= |file| && StartsWith(file, p, Joined(put, p, records))
    ensures AllAlong(put, ok, p, records)
    decreases |records|
  {
    hide StartsWith;
    if records != [] {
      var first := put(p, records[0]);
      StartsWithConcat(file, p, first, Joined(put, p + |first|, records[1..]));
      assert LaidOutOk(put, ok, file, p, records[0]);
      LaidOutIsOk(put, ok, file, p + |first|, records[1..]);
    }
  }

  ghost predicate LaidOutOk(put: (nat, Bytes) -> Bytes, ok: (nat, Bytes) -> bool, file: Bytes, q: nat, record: Bytes) {
    q + |put(q, record)| <= |file| && StartsWith(file, q, put(q, record)) ==> ok(q, record)
  }

  lemma RecordIsTolerable(sum: Checksum, file: Bytes, q: nat, record: Bytes)
    ensures LaidOutOk(AddRecordAt(sum), TolerableRecord(sum, file), file, q, record)
  {
    hide StartsWith, Encode, Tolerable;
    var bytes := RecordBytes(sum, q, record, true);
    if q + |bytes| <= |file| && StartsWith(file, q, bytes) {
      CutIsPlaced(q, record, true);
      EncodedIsIntact(sum, file, q, Cut(q, record, true));
      IntactIsTolerable(sum, file, q, Cut(q, record, true));
    }
  }

  /** A reader that skips the first piece of a record returns nothing of the record. */
  lemma PastRecord(sum: Checksum, file: Bytes, n: nat, record: Bytes, y: nat) returns (end: nat)
    requires var bytes := RecordBytes(sum, n, record, true); n + |bytes| <= |file| && StartsWith(file, n, bytes)
    requires Pad(n) == 0 && y <= |file| && (y == n + Leftover(n) || y == |file|)
    ensures Follows(file, n + |RecordBytes(sum, n, record, true)|, end)
    ensures RecordsFrom(sum, file, y, None) == RecordsFrom(sum, file, end, None)
  {
    hide RecordsFrom, Tolerable, ReadsLikeReader, StartsWith, Intact, Encode, Leftover;
    var pieces := Cut(n, record, true);
    ReaderReads(sum, file);
    CutIsPlaced(n, record, true);
    CutSpells(n, record, true);
    EncodedIsIntact(sum, file, n, pieces);
    IntactIsTolerable(sum, file, n, pieces);
    FollowsPiece(file, n, pieces[0], y);
    end := PastPiece(sum, Records(sum, file), file, n, pieces, record, y);
  }

  /** A reader that follows the writer of a log returns some of its records. */
  lemma FollowsLog(sum: Checksum, file: Bytes, q: nat, records: seq<Bytes>, y: nat)
    requires q + |LogBytes(sum, q, records)| == |file| && StartsWith(file, q, LogBytes(sum, q, records))
    requires Follows(file, q, y)
    ensures Subsequence(RecordsFrom(sum, file, y, None), records)
  {
    hide RecordsFrom, TolerableRecord, ReadsLikeReader, StartsWith, Follows, Joined, Subsequence;
    var read, put, ok := Records(sum, file), AddRecordAt(sum), TolerableRecord(sum, file);
    ReaderReads(sum, file);
    forall q, r ensures LaidOutOk(put, ok, file, q, r) {
      RecordIsTolerable(sum, file, q, r);
    }
    LaidOutIsOk(put, ok, file, q, records);
    forall q, r, z ensures PassesRecord(put, ok, read, file, q, r, z) {
      ReaderPassesRecord(sum, read, file, q, r, z);
    }
    assert StopsAtEnd(read, file) by { EndIsQuiet(sum, file); }
    ThroughLayout(put, ok, read, file, q, records, y);
  }

  /** A log whose first piece the reader skips gives only records behind its first one. */
  lemma BehindFirst(sum: Checksum, file: Bytes, n: nat, records: seq<Bytes>, y: nat)
    requires n <= |file| && file[n..] == LogBytes(sum, n, records) && records != [] && Pad(n) == 0
    requires y <= |file| && (y == n + Leftover(n) || y == |file|)
    ensures Subsequence(RecordsFrom(sum, file, y, None), records[1..])
  {
    hide RecordsFrom, StartsWith, Follows, Leftover, Pad, RecordBytes, Subsequence;
    var first := RecordBytes(sum, n, records[0], true);
    WholeStart(file, n);
    StartsWithConcat(file, n, first, LogBytes(sum, n + |first|, records[1..]));
    var end := PastRecord(sum, file, n, records[0], y);
    FollowsLog(sum, file, n + |first|, records[1..], end);
  }

  lemma WholeStart(file: Bytes, n: nat)
    requires n <= |file|
    ensures StartsWith(file, n, file[n..])
  {
  }

  /** Elsewhere the first new record is lost, and perhaps more. */
  lemma TornLosesFirst(sum: Checksum, file: Bytes, pieces: seq<Piece>, x: Piece, records: seq<Bytes>)
    returns (some: seq<Bytes>)
    requires IsTorn(sum, file, pieces, x) && records != [] && Leftover(|file|) >= HEADER
    requires Rejected(sum, Continued(sum, file, records), Size(pieces))
    ensures AllRecords(sum, Continued(sum, file, records)) == AllRecords(sum, file) + some
    ensures Subsequence(some, records[1..])
  {
    hide Encode, AllRecords, PieceBytes, RecordsFrom, Rejected, LogBytes, Subsequence;
    var longer, n, p := Continued(sum, file, records), |file|, Size(pieces);
    TornIsRead(sum, file, pieces, x);
    ReadingStartsWithPieces(sum, longer, pieces);
    some := RecordsFrom(sum, longer, p, Left(pieces, None));
    TornBlock(file, p, x);
    ReaderSkipsRejected(sum, longer, p, Left(pieces, None));
    assert longer[n..] == LogBytes(sum, n, records);
    if some == [] {
      assert Subsequence([], records[1..]) by { NothingIsPart(records[1..]); }
    } else {
      BehindFirst(sum, longer, n, records, BlockEnd(longer, p + x.pad));
    }
  }

  lemma NothingIsPart(all: seq<Bytes>)
    ensures Subsequence([], all)
  {
  }

  // ---------------------------------------------------------------- where a cut falls

  /** How many pieces lie wholly within the first n bytes. */
  function WholeBefore(pieces: seq<Piece>, n: nat): (j: nat)
    ensures j <= |pieces|
  {
    if pieces == [] || n < Len(pieces[0]) then 0 else 1 + WholeBefore(pieces[1..], n - Len(pieces[0]))
  }

  lemma {:induction false} WholeBeforeIsLast(pieces: seq<Piece>, n: nat)
    ensures var j := WholeBefore(pieces, n);
            && Size(pieces[..j]) <= n
            && (j < |pieces| ==> n < Size(pieces[..j]) + Len(pieces[j]))
            && (n <= Size(pieces) && j == |pieces| ==> n == Size(pieces))
  {
    hide Len;
    if pieces != [] && Len(pieces[0]) <= n {
      var j := WholeBefore(pieces[1..], n - Len(pieces[0]));
      WholeBeforeIsLast(pieces[1..], n - Len(pieces[0]));
      assert pieces[..j + 1][1..] == pieces[1..][..j];
    }
  }

  /** The cut after n bytes falls between two pieces, or into the trailer behind one. */
  predicate AtBoundary(pieces: seq<Piece>, n: nat) {
    var j := WholeBefore(pieces, n);
    j == |pieces| || n <= Size(pieces[..j]) + pieces[j].pad
  }

  /** What a crash leaves of a file of whole pieces. */
  function Cutoff(sum: Checksum, pieces: seq<Piece>, n: nat): Bytes
    requires Placed(0, pieces) && n <= Size(pieces)
  {
    Encode(sum, 0, pieces)[..n]
  }

  /** A cut within the first piece of `back`. */
  lemma CutWithin(sum: Checksum, front: seq<Piece>, back: seq<Piece>, n: nat)
    requires Placed(0, front) && Placed(Size(front), back) && back != []
    requires Size(front) <= n < Size(front) + Len(back[0])
    ensures Placed(0, front + back) && n <= Size(front + back)
    ensures Cutoff(sum, front + back, n) == Encode(sum, 0, front) + PieceBytes(sum, back[0])[..n - Size(front)]
  {
    hide PieceBytes, Len, Leftover, Encode;
    var p, x := Size(front), back[0];
    EncodeConcat(sum, 0, front, back);
    assert back == [x] + back[1..];
    EncodeCons(sum, p, x, back[1..]);
    TakeWithin(Encode(sum, 0, front), Encode(sum, p, back), PieceBytes(sum, x), n);
  }

  lemma TakeWithin(a: Bytes, b: Bytes, start: Bytes, n: nat)
    requires |a| <= n <= |a| + |start| && start <= b
    ensures (a + b)[..n] == a + start[..n - |a|]
  {
  }

  lemma PadIsZeros(sum: Checksum, x: Piece, t: nat)
    requires |x.payload| <= 0xffff && t <= x.pad
    ensures PieceBytes(sum, x)[..t] == Zeros(t)
  {
    hide Frame;
  }

  lemma CutIsWholeOrTorn(sum: Checksum, pieces: seq<Piece>, n: nat)
    requires Placed(0, pieces) && n <= Size(pieces)
    ensures var j := WholeBefore(pieces, n);
            if AtBoundary(pieces, n) then
              n >= Size(pieces[..j]) && IsWhole(sum, Cutoff(sum, pieces, n), pieces[..j], n - Size(pieces[..j]))
            else j < |pieces| && IsTorn(sum, Cutoff(sum, pieces, n), pieces[..j], pieces[j])
  {
    hide PieceBytes, Encode, Size;
    var j := WholeBefore(pieces, n);
    WholeBeforeIsLast(pieces, n);
    PlacedSplits(0, pieces, j);
    var front, back := pieces[..j], pieces[j..];
    var p := Size(front);
    assert pieces == front + back;
    if j < |pieces| {
      CutWithin(sum, front, back, n);
      if AtBoundary(pieces, n) {
        PadIsZeros(sum, pieces[j], n - p);
      } else {
        assert Cutoff(sum, pieces, n)[p..] == PieceBytes(sum, pieces[j])[..n - p];
      }
    } else {
      assert Cutoff(sum, pieces, n) == Encode(sum, 0, front) + Zeros(0) by { assert pieces == front; }
    }
  }

  lemma {:induction false} PartIsShorter(some: seq<Bytes>, all: seq<Bytes>)
    requires Subsequence(some, all)
    ensures |some| <= |all|
    decreases |all|
  {
    if some != [] {
      if some[0] == all[0] && Subsequence(some[1..], all[1..]) {
        PartIsShorter(some[1..], all[1..]);
      } else {
        PartIsShorter(some, all[1..]);
      }
    }
  }

  // ---------------------------------------------------------------- the exact condition

  /** Records written on behind a cut are all read, behind those that the cut left whole, exactly when
      the cut is at a boundary of physical records or leaves no room for a header in its block, given
      that the length and checksum tests reject a piece put together from an old and a new one. */
  lemma ContinuedIsReadExactly(sum: Checksum, pieces: seq<Piece>, n: nat, records: seq<Bytes>)
    requires Placed(0, pieces) && n <= Size(pieces) && records != []
    requires AtBoundary(pieces, n) ||
             Rejected(sum, Continued(sum, Cutoff(sum, pieces, n), records), Size(pieces[..WholeBefore(pieces, n)]))
    ensures AllRecords(sum, Continued(sum, Cutoff(sum, pieces, n), records)) ==
            AllRecords(sum, Cutoff(sum, pieces, n)) + records
            <==> AtBoundary(pieces, n) || Leftover(n) < HEADER
  {
    hide IsWhole, IsTorn, AtBoundary, AllRecords, Continued, Rejected, Subsequence, Leftover, Size, EndsWhole;
    var j := WholeBefore(pieces, n);
    var file := Cutoff(sum, pieces, n);
    CutIsWholeOrTorn(sum, pieces, n);
    if AtBoundary(pieces, n) {
      WholeContinues(sum, file, pieces[..j], n - Size(pieces[..j]), records);
    } else if Leftover(n) < HEADER {
      TornAtBlockEnd(sum, file, pieces[..j], pieces[j], records);
    } else {
      var some := TornLosesFirst(sum, file, pieces[..j], pieces[j], records);
      PartIsShorter(some, records[1..]);
    }
  }

  /** The same for a log of records: k of them are whole before the cut. */
  lemma ReusedLogIsReadExactly(sum: Checksum, before: seq<Bytes>, n: nat, after: seq<Bytes>) returns (k: nat)
    requires n <= |LogBytes(sum, 0, before)| && after != []
    requires AtBoundary(CutAll(0, before), n) ||
             Rejected(sum, Continued(sum, LogBytes(sum, 0, before)[..n], after),
                      Size(CutAll(0, before)[..WholeBefore(CutAll(0, before), n)]))
    ensures k <= |before| && |LogBytes(sum, 0, before[..k])| <= n
    ensures k < |before| ==> n < |LogBytes(sum, 0, before[..k + 1])|
    ensures AllRecords(sum, Continued(sum, LogBytes(sum, 0, before)[..n], after)) == before[..k] + after
            <==> AtBoundary(CutAll(0, before), n) || Leftover(n) < HEADER
  {
    hide AtBoundary, LogBytes, CutAll, Placed, Encode, ReadAll, Continued, Rejected, Leftover, WholeBefore;
    k := PrefixOfLogReadsBack(sum, before, n);
    LogIsPieces(sum, 0, before);
    ContinuedIsReadExactly(sum, CutAll(0, before), n, after);
  }

  // ---------------------------------------------------------------- a record that is lost

  function SampleSum(kind: byte, payload: Bytes): Word {
    if payload == [1] then 5 else 6
  }

  lemma SmallRecord(p: nat, b: byte)
    requires Leftover(p) > HEADER
    ensures RecordBytes(SampleSum, p, [b], true) == [SampleSum(FULL, [b]), 0, 0, 0, 1, 0, FULL, b]
  {
    var x, s := Piece(0, FULL, [b]), SampleSum(FULL, [b]);
    RecordBytesUnfold(SampleSum, p, [b], true);
    assert [b][..1] == [b];
    assert Fixed(s, 4) == [s] + Fixed(0, 3) && Fixed(0, 3) == [0] + Fixed(0, 2) && Fixed(0, 2) == [0] + Fixed(0, 1);
    assert Fixed(0, 1) == [0] + Fixed(0, 0);
    assert PieceBytes(SampleSum, x) == [s, 0, 0, 0, 1, 0, FULL, b];
  }

  lemma SmallLog(p: nat, b: byte)
    requires Leftover(p) > HEADER
    ensures LogBytes(SampleSum, p, [[b]]) == [SampleSum(FULL, [b]), 0, 0, 0, 1, 0, FULL, b]
  {
    SmallRecord(p, b);
    assert [[b]][1..] == [];
    EmptyLog(SampleSum, p + 8);
  }

  /** A record of one byte, cut behind its header; then another record, written on from there.  The cut
      header takes the first byte of the new record for its payload, the checksum does not match, and
      the reader drops the block, with the new record in it. */
  lemma ReuseLosesRecord()
    ensures AllRecords(SampleSum, LogBytes(SampleSum, 0, [[9]])) == [[9]]
    ensures AllRecords(SampleSum, Continued(SampleSum, LogBytes(SampleSum, 0, [[1]])[..7], [[9]])) == []
  {
    hide LogBytes, ReadAll, Leftover;
    assert Leftover(0) == BLOCK by { LeftoverIsMod(0); }
    assert Leftover(7) == BLOCK - 7 by { LeftoverIsMod(7); }
    assert Leftover(15) == BLOCK - 15 by { LeftoverIsMod(15); }
    LogIsRead(SampleSum, LogBytes(SampleSum, 0, [[9]]), 0, [[9]], None);
    SmallLog(0, 1);
    SmallLog(7, 9);
    var file := [5, 0, 0, 0, 1, 0, FULL] + [6, 0, 0, 0, 1, 0, FULL, 9];
    assert file == Continued(SampleSum, LogBytes(SampleSum, 0, [[1]])[..7], [[9]]);
    assert Unfixed([5, 0, 0, 0]) == 5 by { SmallWord(); }
    assert file[0..15] == file && file[..4] == [5, 0, 0, 0] && file[7..8] == [6];
    assert Next(SampleSum, file, 0) == Bad(true, 15);
    ReadAllStep(SampleSum, file, 0, None);
    TrailerIsQuiet(SampleSum, file, 15, None);
  }

  lemma SmallWord()
    ensures Unfixed([5, 0, 0, 0]) == 5
  {
    assert Unfixed([0]) == 0 && Unfixed([0, 0]) == 0 && Unfixed([0, 0, 0]) == 0;
  }

  // ---------------------------------------------------------------- any number of sessions

  /** A crash leaves the first `keep` bytes, and a new writer adds records. */
  datatype Session = Session(keep: nat, records: seq<Bytes>)

  function Prefix(file: Bytes, n: nat): Bytes {
    if n <= |file| then file[..n] else file
  }

  function Written(sum: Checksum, sessions: seq<Session>): Bytes {
    if sessions == [] then []
    else
      var last := |sessions| - 1;
      Continued(sum, Prefix(Written(sum, sessions[..last]), sessions[last].keep), sessions[last].records)
  }

  /** Every session starts at a boundary of physical records. */
  ghost predicate StartsWhole(sum: Checksum, sessions: seq<Session>) {
    sessions == [] ||
    var last := |sessions| - 1;
    StartsWhole(sum, sessions[..last]) && EndsWhole(sum, Prefix(Written(sum, sessions[..last]), sessions[last].keep))
  }

  /** What is left when session i kept `kept[i]` of the records before it. */
  function Survivors(sessions: seq<Session>, kept: seq<nat>): seq<Bytes>
    requires |kept| == |sessions|
  {
    if sessions == [] then []
    else
      var last := |sessions| - 1;
      var before := Survivors(sessions[..last], kept[..last]);
      (if kept[last] <= |before| then before[..kept[last]] else before) + sessions[last].records
  }

  lemma {:induction false} ReturnedGrows(a: seq<Piece>, b: seq<Piece>, scratch: Option<Bytes>)
    ensures Returned(a, scratch) <= Returned(a + b, scratch)
  {
    if a != [] {
      ReturnedGrows(a[1..], b, Held(a[0], scratch));
      assert (a + b)[1..] == a[1..] + b;
    }
  }

  lemma CutInPieces(sum: Checksum, pieces: seq<Piece>, n: nat)
    requires Placed(0, pieces) && n <= Size(pieces)
    ensures AllRecords(sum, Cutoff(sum, pieces, n)) <= Returned(pieces, None)
  {
    hide AllRecords, Cutoff, AtBoundary, IsTorn, IsWhole, Placed, Size;
    var j := WholeBefore(pieces, n);
    CutIsWholeOrTorn(sum, pieces, n);
    if AtBoundary(pieces, n) {
      WholeIsRead(sum, Cutoff(sum, pieces, n), pieces[..j], n - Size(pieces[..j]));
    } else {
      TornIsRead(sum, Cutoff(sum, pieces, n), pieces[..j], pieces[j]);
    }
    assert pieces == pieces[..j] + pieces[j..];
    ReturnedGrows(pieces[..j], pieces[j..], None);
  }

  /** A cut takes away a tail of the records. */
  lemma CutReadsPrefix(sum: Checksum, file: Bytes, n: nat)
    requires EndsWhole(sum, file)
    ensures AllRecords(sum, Prefix(file, n)) <= AllRecords(sum, file)
  {
    hide AllRecords, Encode, Placed;
    if n < |file| {
      var pieces, z :| IsWhole(sum, file, pieces, z);
      WholeIsRead(sum, file, pieces, z);
      if n <= Size(pieces) {
        assert file[..n] == Cutoff(sum, pieces, n);
        CutInPieces(sum, pieces, n);
      } else {
        assert file[..n] == Encode(sum, 0, pieces) + Zeros(n - Size(pieces));
        WholeIsRead(sum, file[..n], pieces, n - Size(pieces));
      }
    } else {
      assert Prefix(file, n) == file;
    }
  }

  /** However often a log is cut and written on, as long as every session starts at a boundary of
      physical records, each crash takes away a tail of the records, and all later ones are read. */
  lemma {:induction false} SessionsReadBack(sum: Checksum, sessions: seq<Session>) returns (kept: seq<nat>)
    requires StartsWhole(sum, sessions)
    ensures EndsWhole(sum, Written(sum, sessions))
    ensures |kept| == |sessions| && AllRecords(sum, Written(sum, sessions)) == Survivors(sessions, kept)
  {
    hide AllRecords, IsWhole, Continued;
    if sessions == [] {
      kept := [];
      assert [] + Zeros(0) == [];
      assert IsWhole(sum, [], [], 0) by { NothingIsWhole(sum); }
      WholeIsRead(sum, [], [], 0);
    } else {
      var last := |sessions| - 1;
      var before := Written(sum, sessions[..last]);
      var some := SessionsReadBack(sum, sessions[..last]);
      CutReadsPrefix(sum, before, sessions[last].keep);
      var cut := Prefix(before, sessions[last].keep);
      var pieces, z :| IsWhole(sum, cut, pieces, z);
      WholeContinues(sum, cut, pieces, z, sessions[last].records);
      kept := some + [|AllRecords(sum, cut)|];
      assert kept[..last] == some;
    }
  }

  lemma NothingIsWhole(sum: Checksum)
    ensures IsWhole(sum, [], [], 0)
  {
    assert [] + Zeros(0) == [];
  }
}
