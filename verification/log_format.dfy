/** The log format (db/log_format.h): records are cut into pieces that never cross a 32KB block. */
module LogFormat {
  import opened Coding
  import opened Wrappers
  import Sequences

  const BLOCK := 32768

  /** Checksum (4 bytes), length (2 bytes), type (1 byte). */
  const HEADER := 7

  const FULL: byte := 1
  const FIRST: byte := 2
  const MIDDLE: byte := 3
  const LAST: byte := 4

  type Word = n: nat | n < 0x1_0000_0000

  /** The masked checksum of a record type and payload.  Nothing is assumed of it. */
  type Checksum = (byte, Bytes) -> Word

  // ---------------------------------------------------------------- places in a file

  /** Bytes left in the block at file position p; a whole block at a block boundary. */
  function Leftover(p: nat): (n: nat)
    ensures 0 < n <= BLOCK
  {
    if p < BLOCK then BLOCK - p else Leftover(p - BLOCK)
  }

  lemma {:induction false} LeftoverIsMod(p: nat)
    ensures Leftover(p) == BLOCK - p % BLOCK
  {
    if p >= BLOCK { LeftoverIsMod(p - BLOCK); }
  }

  /** Moving on within a block, or exactly to its end. */
  lemma {:induction false} LeftoverShrinks(p: nat, n: nat)
    requires n <= Leftover(p)
    ensures Leftover(p + n) == if n < Leftover(p) then Leftover(p) - n else BLOCK
  {
    if p >= BLOCK { LeftoverShrinks(p - BLOCK, n); }
  }

  /** Trailer bytes to leave at p: a header never starts within the last six bytes of a block. */
  function Pad(p: nat): (n: nat)
    ensures n < HEADER
  {
    if Leftover(p) < HEADER then Leftover(p) else 0
  }

  /** Payload bytes that fit at p, behind the trailer. */
  function Room(p: nat): (n: nat)
    ensures n <= BLOCK - HEADER
  {
    if Leftover(p) < HEADER then BLOCK - HEADER else Leftover(p) - HEADER
  }

  // ---------------------------------------------------------------- pieces

  /** A physical record behind `pad` trailer bytes. */
  datatype Piece = Piece(pad: nat, kind: byte, payload: Bytes)

  function Len(x: Piece): nat {
    x.pad + HEADER + |x.payload|
  }

  function Size(pieces: seq<Piece>): nat {
    if pieces == [] then 0 else Len(pieces[0]) + Size(pieces[1..])
  }

  function Kind(begin: bool, end: bool): byte {
    if begin && end then FULL else if begin then FIRST else if end then LAST else MIDDLE
  }

  predicate PlacedAt(p: nat, x: Piece) {
    x.pad == Pad(p) && |x.payload| <= Room(p) && FULL <= x.kind <= LAST
  }

  /** The pieces lie one behind the other from p on. */
  predicate Placed(p: nat, pieces: seq<Piece>)
    decreases |pieces|
  {
    pieces == [] || (PlacedAt(p, pieces[0]) && Placed(p + Len(pieces[0]), pieces[1..]))
  }

  /** The pieces are the rest `data` of one record, whose beginning they hold if `begin`. */
  predicate Spells(pieces: seq<Piece>, data: Bytes, begin: bool) {
    && pieces != []
    && pieces[0].kind == Kind(begin, |pieces| == 1)
    && pieces[0].payload <= data
    && (if |pieces| == 1 then pieces[0].payload == data else Spells(pieces[1..], data[|pieces[0].payload|..], false))
  }

  /** AddRecord's fragmentation at file position p. */
  function Cut(p: nat, data: Bytes, begin: bool): (pieces: seq<Piece>)
    decreases |data|, if Room(p) == 0 then 1 else 0
  {
    var n := if |data| < Room(p) then |data| else Room(p);
    var x := Piece(Pad(p), Kind(begin, n == |data|), data[..n]);
    if n == |data| then [x]
    else
      NoRoomTwice(p);
      [x] + Cut(p + Len(x), data[n..], false)
  }

  lemma NoRoomTwice(p: nat)
    ensures Room(p) == 0 ==> Room(p + Pad(p) + HEADER) > 0
  {
    LeftoverShrinks(p, Pad(p));
    LeftoverShrinks(p + Pad(p), HEADER);
  }

  /** Cutting places the pieces and loses nothing. */
  lemma {:induction false} CutIsPlaced(p: nat, data: Bytes, begin: bool)
    ensures Placed(p, Cut(p, data, begin))
    decreases |data|, if Room(p) == 0 then 1 else 0
  {
    var n := if |data| < Room(p) then |data| else Room(p);
    var x := Piece(Pad(p), Kind(begin, n == |data|), data[..n]);
    if n == |data| {
      assert Placed(p + Len(x), [x][1..]);
    } else {
      NoRoomTwice(p);
      CutIsPlaced(p + Len(x), data[n..], false);
      assert Cut(p, data, begin)[1..] == Cut(p + Len(x), data[n..], false);
    }
  }

  lemma {:induction false} CutSpells(p: nat, data: Bytes, begin: bool)
    ensures Spells(Cut(p, data, begin), data, begin)
    decreases |data|, if Room(p) == 0 then 1 else 0
  {
    var n := if |data| < Room(p) then |data| else Room(p);
    var x := Piece(Pad(p), Kind(begin, n == |data|), data[..n]);
    if n != |data| {
      NoRoomTwice(p);
      CutSpells(p + Len(x), data[n..], false);
      assert Cut(p, data, begin)[1..] == Cut(p + Len(x), data[n..], false);
    }
  }

  // ---------------------------------------------------------------- bytes

  /** EmitPhysicalRecord: checksum, length, type, payload. */
  function Frame(sum: Checksum, kind: byte, payload: Bytes): (s: Bytes)
    requires |payload| <= 0xffff
    ensures |s| == HEADER + |payload|
  {
    Fixed(sum(kind, payload), 4) + [|payload| % 256, |payload| / 256, kind] + payload
  }

  function PieceBytes(sum: Checksum, x: Piece): (s: Bytes)
    requires |x.payload| <= 0xffff
    ensures |s| == Len(x)
  {
    Zeros(x.pad) + Frame(sum, x.kind, x.payload)
  }

  function Encode(sum: Checksum, p: nat, pieces: seq<Piece>): (s: Bytes)
    requires Placed(p, pieces)
    ensures |s| == Size(pieces)
    decreases |pieces|
  {
    if pieces == [] then [] else PieceBytes(sum, pieces[0]) + Encode(sum, p + Len(pieces[0]), pieces[1..])
  }

  lemma EncodeCons(sum: Checksum, p: nat, x: Piece, rest: seq<Piece>)
    requires PlacedAt(p, x) && Placed(p + Len(x), rest)
    ensures Placed(p, [x] + rest) && Encode(sum, p, [x] + rest) == PieceBytes(sum, x) + Encode(sum, p + Len(x), rest)
  {
    hide PieceBytes, Len, PlacedAt;
    assert ([x] + rest)[1..] == rest;
  }

  /** The bytes that AddRecord appends at file position p for the rest of a record. */
  function RecordBytes(sum: Checksum, p: nat, data: Bytes, begin: bool): (s: Bytes)
    ensures |s| == Size(Cut(p, data, begin))
  {
    CutIsPlaced(p, data, begin);
    Encode(sum, p, Cut(p, data, begin))
  }

  /** Records laid end to end from position p on, each as `put` lays it out at its place. */
  function Joined(put: (nat, Bytes) -> Bytes, p: nat, records: seq<Bytes>): Bytes
    decreases |records|
  {
    if records == [] then [] else put(p, records[0]) + Joined(put, p + |put(p, records[0])|, records[1..])
  }

  /** AddRecord as a layout. */
  function AddRecordAt(sum: Checksum): (nat, Bytes) -> Bytes {
    (p: nat, data: Bytes) => RecordBytes(sum, p, data, true)
  }

  /** The bytes of whole records written from file position p on. */
  function LogBytes(sum: Checksum, p: nat, records: seq<Bytes>): Bytes {
    Joined(AddRecordAt(sum), p, records)
  }

  lemma {:induction false} JoinedGrow(put: (nat, Bytes) -> Bytes, p: nat, records: seq<Bytes>, more: seq<Bytes>)
    ensures Joined(put, p, records + more) ==
            Joined(put, p, records) + Joined(put, p + |Joined(put, p, records)|, more)
    decreases |records|
  {
    if records == [] {
      assert records + more == more;
    } else {
      var q := p + |put(p, records[0])|;
      JoinedGrow(put, q, records[1..], more);
      assert (records + more)[1..] == records[1..] + more;
      Sequences.Associates(put(p, records[0]), Joined(put, q, records[1..]),
                           Joined(put, q + |Joined(put, q, records[1..])|, more));
    }
  }

  /** Writing on from where a log ends is the same as writing it all. */
  lemma LogBytesGrow(sum: Checksum, p: nat, records: seq<Bytes>, more: seq<Bytes>)
    ensures LogBytes(sum, p, records + more) ==
            LogBytes(sum, p, records) + LogBytes(sum, p + |LogBytes(sum, p, records)|, more)
  {
    JoinedGrow(AddRecordAt(sum), p, records, more);
  }
}
