/** Exactly what is read of a damaged log (db/log_reader.cc): a physical record that the checks reject
    loses the rest of its block, and no more. */
module LogDamageExact {
  import opened Coding
  import opened LogDamage
  import opened LogFormat
  import opened LogReader
  import opened LogRecovery
  import opened Wrappers

  // ---------------------------------------------------------------- what survives

  /** Something was rejected before, in the block in which the piece at p lies. */
  predicate Blocked(p: nat, lost: bool) {
    lost && Pad(p) == 0 && Leftover(p) < BLOCK
  }

  predicate AllIntact(sum: Checksum, file: Bytes, p: nat, pieces: seq<Piece>)
    decreases |pieces|
  {
    pieces == [] || (Intact(sum, file, p, pieces[0]) && AllIntact(sum, file, p + Len(pieces[0]), pieces[1..]))
  }

  /** Whether the rest of the block is lost behind the pieces. */
  predicate LostBehind(sum: Checksum, file: Bytes, p: nat, pieces: seq<Piece>, lost: bool)
    decreases |pieces|
  {
    if pieces == [] then lost
    else LostBehind(sum, file, p + Len(pieces[0]), pieces[1..], Blocked(p, lost) || !Intact(sum, file, p, pieces[0]))
  }

  /** The records of which every physical record is intact, and for which nothing was rejected earlier in
      the block in which they begin. */
  function Survivors(sum: Checksum, file: Bytes, p: nat, records: seq<Bytes>, lost: bool): seq<Bytes>
    decreases |records|
  {
    if records == [] then []
    else
      var pieces := Cut(p, records[0], true);
      (if !Blocked(p, lost) && AllIntact(sum, file, p, pieces) then [records[0]] else []) +
      Survivors(sum, file, p + Size(pieces), records[1..], LostBehind(sum, file, p, pieces, lost))
  }

  // ---------------------------------------------------------------- one physical record

  /** Where the reader stands when the writer stood at p. */
  function Here(file: Bytes, p: nat, lost: bool): (y: nat)
    ensures y <= |file|
  {
    if p >= |file| then |file| else if lost && Leftover(p) < BLOCK then BlockEnd(file, p) else p
  }

  /** Behind a rejected piece the reader stands at the end of its block. */
  lemma HereBehind(file: Bytes, p: nat, x: Piece)
    requires PlacedAt(p, x) && p + x.pad <= |file|
    ensures Here(file, p + Len(x), true) == BlockEnd(file, p + x.pad)
  {
    PieceFits(p, x);
    LeftoverShrinks(p + x.pad, HEADER + |x.payload|);
  }

  ghost predicate SkipsBlock(sum: Checksum, read: Reads, file: Bytes, p: nat, x: Piece, scratch: Option<Bytes>) {
    PlacedAt(p, x) && p <= |file| && Rejected(sum, file, p) ==>
      read(p, scratch) == read(Here(file, p + Len(x), true), None)
  }

  ghost predicate ReadsExactly(sum: Checksum, read: Reads, file: Bytes) {
    && (forall p, x, scratch :: TakesIntact(sum, read, file, p, x, scratch))
    && (forall p, x, scratch :: SkipsBlock(sum, read, file, p, x, scratch))
    && (forall p, scratch :: SkipsTrailer(read, file, p, scratch))
    && StopsAtEnd(read, file)
  }

  /** The reader comes to its end only where the file ends in this block. */
  lemma {:induction false} EofEndsBlock(sum: Checksum, file: Bytes, p: nat)
    requires p <= |file| && Next(sum, file, p).Eof?
    ensures |file| < p + Pad(p) + Leftover(p + Pad(p))
  {
    LeftoverShrinks(p, Pad(p));
    if p + Pad(p) <= |file| { NextSkipsTrailer(sum, file, p); }
  }

  /** A rejected physical record takes the rest of its block with it. */
  lemma BadEndsBlock(sum: Checksum, file: Bytes, p: nat)
    requires p <= |file| && Next(sum, file, p).Bad?
    ensures p + Pad(p) <= |file| && Next(sum, file, p).next == BlockEnd(file, p + Pad(p))
  {
    hide Parse;
    LeftoverShrinks(p, Pad(p));
    if p + Pad(p) <= |file| { NextSkipsTrailer(sum, file, p); }
  }

  lemma BadIsSkipped(sum: Checksum, file: Bytes, r: Physical, scratch: Option<Bytes>)
    requires r.Bad? && r.next <= |file|
    ensures RecordsAfter(sum, file, r, scratch) == RecordsFrom(sum, file, r.next, None)
  {
  }

  lemma ReaderSkipsBlock(sum: Checksum, file: Bytes, p: nat, x: Piece, scratch: Option<Bytes>)
    ensures SkipsBlock(sum, Records(sum, file), file, p, x, scratch)
  {
    hide RecordsAfter, Parse;
    if PlacedAt(p, x) && p <= |file| && Rejected(sum, file, p) {
      ReadAllStep(sum, file, p, scratch);
      ReadAllStep(sum, file, |file|, None);
      if Next(sum, file, p).Eof? {
        EofEndsBlock(sum, file, p);
        PieceFits(p, x);
        LeftoverShrinks(p + x.pad, HEADER + |x.payload|);
      } else {
        BadEndsBlock(sum, file, p);
        BadIsSkipped(sum, file, Next(sum, file, p), scratch);
        HereBehind(file, p, x);
      }
    }
  }

  lemma ReaderReadsExactly(sum: Checksum, file: Bytes)
    ensures ReadsExactly(sum, Records(sum, file), file)
  {
    hide TakesIntact, SkipsBlock, SkipsTrailer, SkipsRejected;
    ReaderReads(sum, file);
    forall p, x, scratch ensures SkipsBlock(sum, Records(sum, file), file, p, x, scratch) {
      ReaderSkipsBlock(sum, file, p, x, scratch);
    }
  }

  // ---------------------------------------------------------------- following the writer

  /** What the reader makes of the piece at p. */
  ghost predicate PassesPiece(sum: Checksum, read: Reads, file: Bytes, p: nat, x: Piece, lost: bool,
                              scratch: Option<Bytes>)
  {
    var y, q := Here(file, p, lost), p + Len(x);
    if Blocked(p, lost) then read(y, None) == read(Here(file, q, true), None)
    else if Intact(sum, file, p, x) then
      Here(file, q, false) == q && read(y, scratch) == After(read, q, x, scratch)
    else read(y, scratch) == read(Here(file, q, true), None)
  }

  lemma ThroughPiece(sum: Checksum, read: Reads, file: Bytes, p: nat, x: Piece, lost: bool, scratch: Option<Bytes>)
    requires ReadsExactly(sum, read, file) && PlacedAt(p, x)
    requires Intact(sum, file, p, x) || Rejected(sum, file, p)
    requires scratch.Some? ==> !lost
    ensures PassesPiece(sum, read, file, p, x, lost, scratch)
  {
    hide Intact, Rejected;
    var y, q := Here(file, p, lost), p + Len(x);
    assert TakesIntact(sum, read, file, p, x, scratch) && SkipsBlock(sum, read, file, p, x, scratch) &&
           SkipsTrailer(read, file, p, scratch);
    PieceFits(p, x);
    if Intact(sum, file, p, x) { IntactIsInside(sum, file, p, x); }
    if p <= |file| && p + x.pad <= |file| { HereBehind(file, p, x); }
  }

  lemma IntactIsInside(sum: Checksum, file: Bytes, p: nat, x: Piece)
    requires Intact(sum, file, p, x)
    ensures p + Len(x) <= |file|
  {
  }

  /** Through the rest of one record: it is returned if its beginning was, and all of this is intact. */
  lemma {:induction false} ThroughPieces(sum: Checksum, read: Reads, file: Bytes, p: nat, pieces: seq<Piece>,
                                         data: Bytes, begin: bool, lost: bool, scratch: Option<Bytes>, whole: Bytes)
    requires ReadsExactly(sum, read, file)
    requires Placed(p, pieces) && Spells(pieces, data, begin) && Tolerable(sum, file, p, pieces)
    requires scratch.Some? ==> !lost
    requires if begin then scratch.None? && whole == data else scratch.Some? ==> whole == scratch.value + data
    ensures var got := (begin || scratch.Some?) && !Blocked(p, lost) && AllIntact(sum, file, p, pieces);
            read(Here(file, p, lost), scratch) ==
              (if got then [whole] else []) +
              read(Here(file, p + Size(pieces), LostBehind(sum, file, p, pieces, lost)), None)
    decreases |pieces|
  {
    hide Intact, Rejected, ReadsExactly, Here, Blocked, Leftover;
    var x, rest, q := pieces[0], pieces[1..], p + Len(pieces[0]);
    ThroughPiece(sum, read, file, p, x, lost, scratch);
    var now := Blocked(p, lost) || !Intact(sum, file, p, x);
    if rest == [] {
      BlockedHasNoScratch(p, lost, scratch);
    } else if now {
      BlockedHasNoScratch(p, lost, scratch);
      assert [] + read(Here(file, q, true), None) == read(Here(file, q, true), None);
      ThroughPieces(sum, read, file, q, rest, data[|x.payload|..], false, true, None, data);
    } else {
      var next := if begin then Some(x.payload) else if scratch.Some? then Some(scratch.value + x.payload) else None;
      if scratch.Some? { Rejoins(scratch.value, x.payload, data); }
      if begin { Rejoins([], x.payload, data); }
      NotBlockedBehind(q);
      ThroughPieces(sum, read, file, q, rest, data[|x.payload|..], false, false, next, whole);
    }
  }

  lemma BlockedHasNoScratch(p: nat, lost: bool, scratch: Option<Bytes>)
    requires scratch.Some? ==> !lost
    ensures Blocked(p, lost) ==> scratch == None
  {
  }

  lemma NotBlockedBehind(p: nat)
    ensures !Blocked(p, false)
  {
  }

  lemma EndIsEmpty(sum: Checksum, file: Bytes)
    ensures RecordsFrom(sum, file, |file|, None) == []
  {
    ReadAllStep(sum, file, |file|, None);
  }

  lemma {:induction false} ThroughRecords(sum: Checksum, file: Bytes, p: nat, records: seq<Bytes>, lost: bool)
    requires AllAlong(AddRecordAt(sum), TolerableRecord(sum, file), p, records)
    requires |file| <= p + |Joined(AddRecordAt(sum), p, records)|
    ensures RecordsFrom(sum, file, Here(file, p, lost), None) == Survivors(sum, file, p, records, lost)
    decreases |records|
  {
    hide Intact, Rejected, ReadsExactly, Blocked, Leftover, RecordsFrom, AllIntact, LostBehind, Tolerable, Cut, Placed,
      Spells, Size;
    ReaderReadsExactly(sum, file);
    var read := Records(sum, file);
    if records == [] {
      EndIsEmpty(sum, file);
    } else {
      var pieces := Cut(p, records[0], true);
      CutIsPlaced(p, records[0], true);
      CutSpells(p, records[0], true);
      ThroughPieces(sum, read, file, p, pieces, records[0], true, lost, None, records[0]);
      ThroughRecords(sum, file, p + Size(pieces), records[1..], LostBehind(sum, file, p, pieces, lost));
    }
  }

  /** Of a log in which any physical records were damaged, or whose end is missing, exactly the survivors
      are read, provided the length and checksum tests reject what was damaged. */
  lemma DamagedLogReadsExactly(sum: Checksum, file: Bytes, records: seq<Bytes>)
    requires |file| <= |LogBytes(sum, 0, records)| && TolerableLog(sum, file, records)
    ensures ReadAll(sum, file, 0, None).records == Survivors(sum, file, 0, records, false)
  {
    hide ReadAll, Survivors;
    ThroughRecords(sum, file, 0, records, false);
  }
}
