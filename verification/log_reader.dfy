/** The log reader (db/log_reader.cc), reading from the start of a file with checksums on. */
module LogReader {
  import opened Coding
  import opened LogFormat
  import opened Wrappers

  // ---------------------------------------------------------------- physical records

  /** What a buffer that holds a header at least starts with. */
  datatype Head = Whole(kind: byte, payload: Bytes) | Damaged(reported: bool) | Truncated

  /** The checks of ReadPhysicalRecord: length, preallocated zeros, checksum. */
  function Parse(sum: Checksum, buffer: Bytes, eof: bool): (h: Head)
    requires |buffer| >= HEADER
    ensures h.Whole? ==> HEADER + |h.payload| <= |buffer|
  {
    var length := buffer[4] as int + 256 * (buffer[5] as int);
    var kind := buffer[6];
    if HEADER + length > |buffer| then
      if eof then Truncated else Damaged(true)
    else if kind == 0 && length == 0 then Damaged(false)
    else
      var payload := buffer[HEADER..HEADER + length];
      if Unfixed(buffer[..4]) != sum(kind, payload) then Damaged(true) else Whole(kind, payload)
  }

  /** What ReadPhysicalRecord finds, and where the reader stands then. */
  datatype Physical =
    | Got(kind: byte, payload: Bytes, next: nat)
    | Bad(reported: bool, next: nat)
    | Eof

  /** The end of the part of p's block that the file has. */
  function BlockEnd(file: Bytes, p: nat): (e: nat)
    requires p <= |file|
    ensures p <= e <= |file|
  {
    if p + Leftover(p) <= |file| then p + Leftover(p) else |file|
  }

  /** The file stops within p's block: the reader's eof_. */
  predicate ShortBlock(file: Bytes, p: nat) {
    |file| < p + Leftover(p)
  }

  /** ReadPhysicalRecord for a reader whose buffer holds the rest of p's block. */
  function Next(sum: Checksum, file: Bytes, p: nat): (r: Physical)
    requires p <= |file|
    ensures r.Got? || r.Bad? ==> p < r.next <= |file|
    decreases |file| - p
  {
    var e := BlockEnd(file, p);
    if e - p < HEADER then
      if ShortBlock(file, p) then Eof else Next(sum, file, e)
    else
      match Parse(sum, file[p..e], ShortBlock(file, p))
      case Whole(kind, payload) => Got(kind, payload, p + HEADER + |payload|)
      case Damaged(reported) => Bad(reported, e)
      case Truncated => Eof
  }

  // ---------------------------------------------------------------- records

  /** The record, or None at the end; where the reader stands; how many corruptions it reported. */
  datatype Reading = Reading(record: Option<Bytes>, next: nat, reports: nat)

  function Reported(r: Reading, n: nat): Reading {
    r.(reports := r.reports + n)
  }

  /** A fragment in the making that is thrown away is reported if it holds anything. */
  function Discard(scratch: Option<Bytes>): nat {
    if scratch.Some? && scratch.value != [] then 1 else 0
  }

  /** What a physical record does to the record in the making (`scratch`, when there is one): it
      finishes a record, or the reading goes on. */
  datatype Effect = Done(record: Bytes, reports: nat) | More(scratch: Option<Bytes>, reports: nat)

  function Absorb(scratch: Option<Bytes>, r: Physical): Effect
    requires !r.Eof?
  {
    match r
    case Bad(reported, _) => More(None, (if reported then 1 else 0) + (if scratch.Some? then 1 else 0))
    case Got(kind, payload, _) =>
      if kind == FULL then Done(payload, Discard(scratch))
      else if kind == FIRST then More(Some(payload), Discard(scratch))
      else if kind == MIDDLE && scratch.Some? then More(Some(scratch.value + payload), 0)
      else if kind == LAST && scratch.Some? then Done(scratch.value + payload, 0)
      else More(None, 1)
  }

  /** ReadRecord's loop. */
  function ReadOne(sum: Checksum, file: Bytes, p: nat, scratch: Option<Bytes>): (r: Reading)
    requires p <= |file|
    ensures p <= r.next <= |file|
    ensures r.record.Some? ==> p < r.next
    decreases |file| - p
  {
    var r := Next(sum, file, p);
    if r.Eof? then Reading(None, |file|, 0)
    else
      match Absorb(scratch, r)
      case Done(record, reports) => Reading(Some(record), r.next, reports)
      case More(now, reports) => Reported(ReadOne(sum, file, r.next, now), reports)
  }

  /** All the records that repeated calls return, and all the reports. */
  datatype Contents = Contents(records: seq<Bytes>, reports: nat)

  function ReadAll(sum: Checksum, file: Bytes, p: nat, scratch: Option<Bytes>): Contents
    requires p <= |file|
    decreases |file| - p
  {
    var r := ReadOne(sum, file, p, scratch);
    match r.record
    case None => Contents([], r.reports)
    case Some(record) =>
      var rest := ReadAll(sum, file, r.next, None);
      Contents([record] + rest.records, r.reports + rest.reports)
  }

  // ---------------------------------------------------------------- the reader

  /** The buffer holds what was read of the block of `place` and not yet handed out. */
  ghost predicate Buffered(file: Bytes, place: nat, consumed: nat, buffer: Bytes, eof: bool) {
    && place + |buffer| == consumed <= |file|
    && buffer == file[place..consumed]
    && (if eof then consumed == |file| && ShortBlock(file, place)
        else Leftover(consumed) == BLOCK && (buffer == [] || consumed == place + Leftover(place)))
  }

  class Reader {
    const sum: Checksum
    const file: Bytes
    /** Bytes read from the file so far, of which the last ones are still in the buffer. */
    var consumed: nat
    var buffer: Bytes
    var eof: bool
    var reports: nat

    /** Where in the file the reader stands. */
    ghost var place: nat

    ghost predicate Valid()
      reads this
    {
      Buffered(file, place, consumed, buffer, eof)
    }

    constructor (sum: Checksum, file: Bytes)
      ensures Valid() && place == 0 && this.sum == sum && this.file == file && reports == 0
    {
      this.sum, this.file, consumed, buffer, eof, reports, place := sum, file, 0, [], false, 0, 0;
    }

    /** SequentialFile::Read of one block. */
    method ReadBlock()
      requires Valid() && !eof
      requires buffer == [] || |buffer| < HEADER
      modifies this`buffer, this`consumed, this`eof, this`place
      ensures Valid() && place == old(consumed) && (eof || buffer != [])
      ensures !eof ==> |buffer| == BLOCK
      ensures Leftover(place) == BLOCK
    {
      var n := if |file| - consumed < BLOCK then |file| - consumed else BLOCK;
      buffer, place := file[consumed..consumed + n], consumed;
      consumed := consumed + n;
      if n < BLOCK {
        eof := true;
      }
    }

    /** The first half of ReadPhysicalRecord's loop: skip the trailer and read on until a header is there. */
    method Refill() returns (more: bool)
      requires Valid()
      modifies this`buffer, this`consumed, this`eof, this`place
      ensures Valid()
      ensures Next(sum, file, old(place)) == if more then Next(sum, file, place) else Eof
      ensures if more then |buffer| >= HEADER else place == |file|
    {
      while |buffer| < HEADER
        invariant Valid()
        invariant Next(sum, file, old(place)) == Next(sum, file, place)
        decreases !eof, HEADER - |buffer|
      {
        if eof {
          buffer, place := [], |file|;
          return false;
        }
        ReadBlock();
      }
      return true;
    }

    /** Drops n bytes from the front of the buffer. */
    method Consume(n: nat)
      requires Valid() && 0 < n <= |buffer|
      modifies this`buffer, this`place
      ensures Valid() && place == old(place) + n
    {
      LeftoverShrinks(place, n);
      assert buffer[n..] == file[place + n..consumed];
      buffer, place := buffer[n..], place + n;
    }

    /** The checks of ReadPhysicalRecord. */
    method CheckHead() returns (h: Head)
      requires |buffer| >= HEADER
      ensures h == Parse(sum, buffer, eof)
    {
      var length := buffer[4] as int + 256 * (buffer[5] as int);
      var kind := buffer[6];
      if HEADER + length > |buffer| {
        if !eof {
          return Damaged(true);
        }
        return Truncated;
      }
      if kind == 0 && length == 0 {
        return Damaged(false);
      }
      var payload := buffer[HEADER..HEADER + length];
      if Unfixed(buffer[..4]) != sum(kind, payload) {
        return Damaged(true);
      }
      return Whole(kind, payload);
    }

    method ReadPhysicalRecord() returns (r: Physical)
      requires Valid()
      modifies this
      ensures Valid()
      ensures r == Next(sum, file, old(place))
      ensures place == if r.Eof? then |file| else r.next
      ensures reports == old(reports) + if r.Bad? && r.reported then 1 else 0
    {
      var more := Refill();
      if !more {
        return Eof;
      }
      assert BlockEnd(file, place) == consumed && eof == ShortBlock(file, place);
      var h := CheckHead();
      match h {
        case Whole(kind, payload) =>
          Consume(HEADER + |payload|);
          return Got(kind, payload, consumed - |buffer|);
        case Damaged(reported) =>
          Consume(|buffer|);
          if reported {
            reports := reports + 1;
          }
          return Bad(reported, consumed);
        case Truncated =>
          Consume(|buffer|);
          return Eof;
      }
    }

    /** The switch in ReadRecord's loop. */
    method AbsorbRecord(r: Physical, scratch: Option<Bytes>) returns (record: Option<Bytes>, now: Option<Bytes>)
      requires !r.Eof?
      modifies this`reports
      ensures var counted := if r.Bad? && r.reported then 1 else 0;
              match Absorb(scratch, r)
              case Done(whole, n) => record == Some(whole) && reports + counted == old(reports) + n
              case More(s, n) => record == None && now == s && reports + counted == old(reports) + n
    {
      record, now := None, scratch;
      match r {
        case Bad(_, _) =>
          if scratch.Some? {
            reports := reports + 1;
            now := None;
          }
        case Got(kind, payload, _) =>
          if kind == FULL {
            if scratch.Some? && scratch.value != [] {
              reports := reports + 1;
            }
            record := Some(payload);
          } else if kind == FIRST {
            if scratch.Some? && scratch.value != [] {
              reports := reports + 1;
            }
            now := Some(payload);
          } else if kind == MIDDLE {
            if scratch.None? {
              reports := reports + 1;
            } else {
              now := Some(scratch.value + payload);
            }
          } else if kind == LAST {
            if scratch.None? {
              reports := reports + 1;
            } else {
              record := Some(scratch.value + payload);
            }
          } else {
            reports := reports + 1;
            now := None;
          }
      }
    }

    method ReadRecord() returns (record: Option<Bytes>)
      requires Valid()
      modifies this
      ensures Valid()
      ensures reports >= old(reports)
      ensures Reading(record, place, reports - old(reports)) == ReadOne(sum, file, old(place), None)
    {
      var scratch: Option<Bytes> := None;
      ghost var target := ReadOne(sum, file, place, None);
      while true
        invariant Valid() && reports >= old(reports)
        invariant target == Reported(ReadOne(sum, file, place, scratch), reports - old(reports))
        decreases |file| - place
      {
        var r := ReadPhysicalRecord();
        if r.Eof? {
          return None;
        }
        record, scratch := AbsorbRecord(r, scratch);
        if record.Some? {
          return;
        }
      }
    }
  }

  /** The loop of RecoverLogFile: read records until there are no more. */
  method ReadLog(sum: Checksum, file: Bytes) returns (records: seq<Bytes>, reports: nat)
    ensures Contents(records, reports) == ReadAll(sum, file, 0, None)
  {
    hide ReadOne;
    var reader := new Reader(sum, file);
    records := [];
    var more := true;
    while more
      invariant reader.Valid() && reader.sum == sum && reader.file == file
      invariant ReadAll(sum, file, 0, None) ==
                if more then Continued(records, reader.reports, ReadAll(sum, file, reader.place, None))
                else Contents(records, reader.reports)
      decreases more, |file| - reader.place
    {
      var record := reader.ReadRecord();
      if record.Some? {
        records := records + [record.value];
      } else {
        more := false;
      }
    }
    reports := reader.reports;
  }

  function Continued(records: seq<Bytes>, reports: nat, rest: Contents): Contents {
    Contents(records + rest.records, reports + rest.reports)
  }
}
