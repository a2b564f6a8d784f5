/** What the log reader makes of what the log writer wrote: of a file cut anywhere, and of a file with
    damaged physical records. */
module LogRecovery {
  import opened Coding
  import opened LogFormat
  import opened LogReader
  import opened Wrappers

  // ---------------------------------------------------------------- one physical record

  lemma WordsFit(w: Word)
    ensures w < Pow2(8 * 4)
  {
    Pow2Step(32);
    Pow2Step(24);
    Pow2Step(16);
    Pow2Step(8);
  }

  lemma ParseFrame(sum: Checksum, kind: byte, payload: Bytes, buffer: Bytes, eof: bool)
    requires |payload| <= 0xffff && kind != 0 && Frame(sum, kind, payload) <= buffer
    ensures Parse(sum, buffer, eof) == Whole(kind, payload)
  {
    var frame := Frame(sum, kind, payload);
    var n := |payload|;
    assert frame[4] == n % 256 && frame[5] == n / 256 && frame[6] == kind;
    assert frame[..4] == Fixed(sum(kind, payload), 4) && frame[HEADER..] == payload;
    assert buffer[..4] == frame[..4] && buffer[HEADER..HEADER + n] == frame[HEADER..];
    WordsFit(sum(kind, payload));
    FixedRoundTrip(sum(kind, payload), 4);
  }

  lemma ParseCutFrame(sum: Checksum, kind: byte, payload: Bytes, buffer: Bytes)
    requires |payload| <= 0xffff && HEADER <= |buffer| < HEADER + |payload| && buffer <= Frame(sum, kind, payload)
    ensures Parse(sum, buffer, true) == Truncated
  {
    var frame := Frame(sum, kind, payload);
    assert frame[4] == |payload| % 256 && frame[5] == |payload| / 256;
    assert buffer[4] == frame[4] && buffer[5] == frame[5];
  }

  lemma NextSkipsTrailer(sum: Checksum, file: Bytes, p: nat)
    requires p + Pad(p) <= |file|
    ensures Next(sum, file, p) == Next(sum, file, p + Pad(p))
  {
  }

  /** Behind the trailer a whole piece fits the block. */
  lemma PieceFits(p: nat, x: Piece)
    requires PlacedAt(p, x)
    ensures HEADER + |x.payload| <= Leftover(p + x.pad) && Pad(p + x.pad) == 0
  {
    LeftoverShrinks(p, x.pad);
  }

  /** The frame of piece x is at its place behind p. */
  predicate Intact(sum: Checksum, file: Bytes, p: nat, x: Piece) {
    && |x.payload| <= 0xffff && p + Len(x) <= |file|
    && file[p + x.pad..p + Len(x)] == Frame(sum, x.kind, x.payload)
  }

  lemma NextOfIntact(sum: Checksum, file: Bytes, p: nat, x: Piece)
    requires PlacedAt(p, x) && Intact(sum, file, p, x)
    ensures Next(sum, file, p) == Got(x.kind, x.payload, p + Len(x))
  {
    hide Frame, Parse, Leftover;
    var q := p + x.pad;
    PieceFits(p, x);
    NextSkipsTrailer(sum, file, p);
    var e := BlockEnd(file, q);
    assert file[q..e][..HEADER + |x.payload|] == file[q..p + Len(x)];
    ParseFrame(sum, x.kind, x.payload, file[q..e], ShortBlock(file, q));
  }

  lemma NextOfCutFrame(sum: Checksum, file: Bytes, q: nat, kind: byte, payload: Bytes)
    requires HEADER + |payload| <= Leftover(q) && q <= |file| < q + HEADER + |payload| &&
             file[q..] <= Frame(sum, kind, payload)
    ensures Next(sum, file, q) == Eof
  {
    assert BlockEnd(file, q) == |file| && file[q..|file|] == file[q..];
    if |file| - q >= HEADER {
      ParseCutFrame(sum, kind, payload, file[q..]);
    }
  }

  lemma NextOfCut(sum: Checksum, file: Bytes, p: nat, x: Piece)
    requires PlacedAt(p, x) && p <= |file| < p + Len(x) && file[p..] <= PieceBytes(sum, x)
    ensures Next(sum, file, p) == Eof
  {
    var q := p + x.pad;
    PieceFits(p, x);
    if q <= |file| {
      NextSkipsTrailer(sum, file, p);
      assert file[q..] == file[p..][x.pad..] == PieceBytes(sum, x)[x.pad..][..|file| - q];
      assert PieceBytes(sum, x)[x.pad..] == Frame(sum, x.kind, x.payload);
      NextOfCutFrame(sum, file, q, x.kind, x.payload);
    }
  }

  // ---------------------------------------------------------------- one record

  /** What `scratch` adds in front of the rest of a record. */
  function Before(scratch: Option<Bytes>): Bytes {
    if scratch.Some? then scratch.value else []
  }

  lemma ReadOneOfPiece(sum: Checksum, file: Bytes, p: nat, scratch: Option<Bytes>, x: Piece, end: bool)
    requires p + Len(x) <= |file| && Next(sum, file, p) == Got(x.kind, x.payload, p + Len(x))
    requires x.kind == Kind(scratch.None?, end)
    ensures ReadOne(sum, file, p, scratch) ==
            var whole := Before(scratch) + x.payload;
            if end then Reading(Some(whole), p + Len(x), 0) else ReadOne(sum, file, p + Len(x), Some(whole))
  {
    assert Before(None) + x.payload == x.payload;
  }

  /** The part of a file from p on starts with these bytes, or with as many of them as it has. */
  predicate StartsWith(file: Bytes, p: nat, s: Bytes)
    requires p <= |file|
  {
    if p + |s| <= |file| then file[p..p + |s|] == s else file[p..] == s[..|file| - p]
  }

  lemma StartsWithConcat(file: Bytes, p: nat, a: Bytes, b: Bytes)
    requires p <= |file| && StartsWith(file, p, a + b)
    ensures StartsWith(file, p, a)
    ensures p + |a| <= |file| ==> StartsWith(file, p + |a|, b)
  {
    if p + |a| <= |file| {
      if p + |a + b| <= |file| {
        assert file[p..p + |a|] == file[p..p + |a + b|][..|a|];
        assert file[p + |a|..p + |a| + |b|] == file[p..p + |a + b|][|a|..];
      } else {
        assert file[p..p + |a|] == file[p..][..|a|];
        assert file[p + |a|..] == file[p..][|a|..];
      }
    } else {
      assert (a + b)[..|file| - p] == a[..|file| - p];
    }
  }

  lemma StartsWithPiece(sum: Checksum, file: Bytes, p: nat, x: Piece)
    requires PlacedAt(p, x) && p <= |file| && StartsWith(file, p, PieceBytes(sum, x))
    ensures if p + Len(x) <= |file| then Intact(sum, file, p, x) else file[p..] <= PieceBytes(sum, x)
  {
    if p + Len(x) <= |file| {
      assert file[p + x.pad..p + Len(x)] == file[p..p + Len(x)][x.pad..];
      assert PieceBytes(sum, x)[x.pad..] == Frame(sum, x.kind, x.payload);
    }
  }

  /** A reader at p treats piece x, or what the file has of it, as ReadRecord does. */
  ghost predicate TakesPiece(sum: Checksum, read: (nat, Option<Bytes>) -> Reading, file: Bytes, p: nat, x: Piece,
                             scratch: Option<Bytes>, end: bool)
  {
    PlacedAt(p, x) && p <= |file| && StartsWith(file, p, PieceBytes(sum, x)) && x.kind == Kind(scratch.None?, end) ==>
      read(p, scratch) ==
      if |file| < p + Len(x) then Reading(None, |file|, 0)
      else if end then Reading(Some(Before(scratch) + x.payload), p + Len(x), 0)
      else read(p + Len(x), Some(Before(scratch) + x.payload))
  }

  /** Reading from a place where the rest of a record starts gives the record, if all of it is there;
      otherwise it ends quietly. */
  lemma {:induction false} ReadsPieces(sum: Checksum, read: (nat, Option<Bytes>) -> Reading, file: Bytes, p: nat,
                                       pieces: seq<Piece>,
                                       data: Bytes, scratch: Option<Bytes>)
    requires forall q, x, s, end :: TakesPiece(sum, read, file, q, x, s, end)
    requires Placed(p, pieces) && Spells(pieces, data, scratch.None?)
    requires p <= |file| && StartsWith(file, p, Encode(sum, p, pieces))
    ensures read(p, scratch) ==
            if p + Size(pieces) <= |file| then Reading(Some(Before(scratch) + data), p + Size(pieces), 0)
            else Reading(None, |file|, 0)
    decreases |pieces|
  {
    hide StartsWith, PieceBytes;
    var x, rest := pieces[0], pieces[1..];
    StartsWithConcat(file, p, PieceBytes(sum, x), Encode(sum, p + Len(x), rest));
    assert TakesPiece(sum, read, file, p, x, scratch, rest == []);
    if rest != [] && p + Len(x) <= |file| {
      ReadsPieces(sum, read, file, p + Len(x), rest, data[|x.payload|..], Some(Before(scratch) + x.payload));
      Rejoins(Before(scratch), x.payload, data);
    }
  }

  function Reads(sum: Checksum, file: Bytes): (nat, Option<Bytes>) -> Reading {
    (p: nat, scratch: Option<Bytes>) => if p <= |file| then ReadOne(sum, file, p, scratch) else Reading(None, p, 0)
  }

  lemma ReadOneTakesPiece(sum: Checksum, file: Bytes, p: nat, x: Piece, scratch: Option<Bytes>, end: bool)
    ensures TakesPiece(sum, Reads(sum, file), file, p, x, scratch, end)
  {
    hide PieceBytes, StartsWith, Next, Leftover, Intact;
    if PlacedAt(p, x) && p <= |file| && StartsWith(file, p, PieceBytes(sum, x)) && x.kind == Kind(scratch.None?, end) {
      StartsWithPiece(sum, file, p, x);
      if |file| < p + Len(x) {
        NextOfCut(sum, file, p, x);
      } else {
        NextOfIntact(sum, file, p, x);
        ReadOneOfPiece(sum, file, p, scratch, x, end);
      }
    }
  }

  lemma Rejoins(s: Bytes, start: Bytes, data: Bytes)
    requires start <= data
    ensures (s + start) + data[|start|..] == s + data
  {
  }

  /** One record read from p, `n` bytes long there, if the file has them. */
  function OneRecord(file: Bytes, p: nat, n: nat, record: Bytes): Reading {
    if p + n <= |file| then Reading(Some(record), p + n, 0) else Reading(None, |file|, 0)
  }

  lemma ReadsOneRecord(sum: Checksum, file: Bytes, p: nat, record: Bytes)
    requires p <= |file| && StartsWith(file, p, RecordBytes(sum, p, record, true))
    ensures Reads(sum, file)(p, None) == OneRecord(file, p, |RecordBytes(sum, p, record, true)|, record)
  {
    CutIsPlaced(p, record, true);
    CutSpells(p, record, true);
    forall q, x, s, end ensures TakesPiece(sum, Reads(sum, file), file, q, x, s, end) {
      ReadOneTakesPiece(sum, file, q, x, s, end);
    }
    ReadsPieces(sum, Reads(sum, file), file, p, Cut(p, record, true), record, None);
    assert Before(None) + record == record;
  }

  lemma ReadAllFollows(sum: Checksum, file: Bytes, p: nat, n: nat, record: Bytes)
    requires p <= |file| && n > 0 && ReadOne(sum, file, p, None) == OneRecord(file, p, n, record)
    ensures ReadAll(sum, file, p, None) == AfterRecord(sum, file, p + n, record)
  {
  }

  /** The record, if it ends within the file, and what is read behind it. */
  function AfterRecord(sum: Checksum, file: Bytes, end: nat, record: Bytes): Contents {
    if end <= |file| then Prepend(record, ReadAll(sum, file, end, None)) else Contents([], 0)
  }

  function Prepend(record: Bytes, rest: Contents): Contents {
    Contents([record] + rest.records, rest.reports)
  }

  // ---------------------------------------------------------------- a log cut anywhere

  /** How many of the records laid out from p on lie wholly before n. */
  function WholeRecords(put: (nat, Bytes) -> Bytes, p: nat, records: seq<Bytes>, n: nat): (k: nat)
    ensures k <= |records|
    decreases |records|
  {
    if records == [] || p + |put(p, records[0])| > n then 0
    else 1 + WholeRecords(put, p + |put(p, records[0])|, records[1..], n)
  }

  lemma {:induction false} WholeIsWhole(put: (nat, Bytes) -> Bytes, p: nat, records: seq<Bytes>, n: nat)
    requires p <= n
    ensures var k := WholeRecords(put, p, records, n);
            && p + |Joined(put, p, records[..k])| <= n
            && (k < |records| ==> n < p + |Joined(put, p, records[..k + 1])|)
    decreases |records|
  {
    if records != [] {
      var q := p + |put(p, records[0])|;
      var k := WholeRecords(put, p, records, n);
      assert k < |records| ==> records[..k + 1][1..] == records[1..][..k];
      if q <= n {
        WholeIsWhole(put, q, records[1..], n);
        assert records[..k][1..] == records[1..][..k - 1];
      }
    }
  }

  /** A reader at q takes a record laid out there, or ends quietly where the file does. */
  ghost predicate TakesRecord(put: (nat, Bytes) -> Bytes, read: nat -> Contents, file: Bytes, q: nat, record: Bytes) {
    q <= |file| && StartsWith(file, q, put(q, record)) ==>
      read(q) == if q + |put(q, record)| <= |file| then Prepend(record, read(q + |put(q, record)|)) else Contents([], 0)
  }

  /** A reader that takes each record takes a cut layout as far as it goes. */
  lemma {:induction false} ReadsLayout(put: (nat, Bytes) -> Bytes, read: nat -> Contents, file: Bytes, p: nat,
                                       records: seq<Bytes>)
    requires p <= |file| <= p + |Joined(put, p, records)| && StartsWith(file, p, Joined(put, p, records))
    requires read(|file|) == Contents([], 0)
    requires forall q, r :: TakesRecord(put, read, file, q, r)
    ensures read(p) == Contents(records[..WholeRecords(put, p, records, |file|)], 0)
    decreases |records|
  {
    hide StartsWith;
    if records != [] {
      var first := put(p, records[0]);
      StartsWithConcat(file, p, first, Joined(put, p + |first|, records[1..]));
      assert TakesRecord(put, read, file, p, records[0]);
      if p + |first| <= |file| {
        ReadsLayout(put, read, file, p + |first|, records[1..]);
        var k := WholeRecords(put, p + |first|, records[1..], |file|);
        assert records[..1 + k] == [records[0]] + records[1..][..k];
      }
    }
  }

  function ReadingFrom(sum: Checksum, file: Bytes): nat -> Contents {
    (p: nat) => if p <= |file| then ReadAll(sum, file, p, None) else Contents([], 0)
  }

  lemma ReadAllTakesRecord(sum: Checksum, file: Bytes, q: nat, record: Bytes)
    ensures TakesRecord(AddRecordAt(sum), ReadingFrom(sum, file), file, q, record)
  {
    hide StartsWith, ReadOne;
    if q <= |file| && StartsWith(file, q, RecordBytes(sum, q, record, true)) {
      ReadsOneRecord(sum, file, q, record);
      assert |RecordBytes(sum, q, record, true)| > 0 by { CutSpells(q, record, true); }
      ReadAllFollows(sum, file, q, |RecordBytes(sum, q, record, true)|, record);
    }
  }

  /** Reading any byte prefix of a log gives exactly the records that lie wholly inside the prefix, and
      reports nothing.  What becomes of records written on behind such a prefix is in LogTorn. */
  lemma PrefixOfLogReadsBack(sum: Checksum, records: seq<Bytes>, n: nat) returns (k: nat)
    requires n <= |LogBytes(sum, 0, records)|
    ensures k <= |records|
    ensures ReadAll(sum, LogBytes(sum, 0, records)[..n], 0, None) == Contents(records[..k], 0)
    ensures |LogBytes(sum, 0, records[..k])| <= n
    ensures k < |records| ==> n < |LogBytes(sum, 0, records[..k + 1])|
  {
    var file := LogBytes(sum, 0, records)[..n];
    forall q, r ensures TakesRecord(AddRecordAt(sum), ReadingFrom(sum, file), file, q, r) {
      ReadAllTakesRecord(sum, file, q, r);
    }
    NothingAtEnd(sum, file);
    ReadsLayout(AddRecordAt(sum), ReadingFrom(sum, file), file, 0, records);
    WholeIsWhole(AddRecordAt(sum), 0, records, n);
    k := WholeRecords(AddRecordAt(sum), 0, records, n);
  }

  lemma NothingAtEnd(sum: Checksum, file: Bytes)
    ensures ReadingFrom(sum, file)(|file|) == Contents([], 0)
  {
    assert Next(sum, file, |file|) == Eof;
  }
}
