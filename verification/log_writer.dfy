/** The log writer (db/log_writer.cc). */
module LogWriter {
  import opened Coding
  import opened LogFormat
  import Sequences

  /** log::Writer: appends to a file and remembers its place in the block. */
  class Writer {
    const sum: Checksum
    var dest: Bytes
    var blockOffset: nat

    ghost predicate Valid()
      reads this
    {
      InBlock(|dest|, blockOffset)
    }

    /** Writer(dest): a new file. */
    constructor Fresh(sum: Checksum)
      ensures Valid() && dest == [] && this.sum == sum
    {
      this.sum, dest, blockOffset := sum, [], 0;
    }

    /** Writer(dest, dest_length): continue a file of that length. */
    constructor Continue(sum: Checksum, dest: Bytes)
      ensures Valid() && this.dest == dest && this.sum == sum
    {
      LeftoverIsMod(|dest|);
      this.sum, this.dest, blockOffset := sum, dest, |dest| % BLOCK;
    }

    method AddRecord(record: Bytes)
      requires Valid()
      modifies this
      ensures Valid() && dest == old(dest) + RecordBytes(sum, |old(dest)|, record, true)
    {
      var left := record;
      var begin := true;
      var more := true;
      ghost var target := dest + RecordBytes(sum, |dest|, record, true);
      while more
        invariant Valid()
        invariant target == if more then dest + RecordBytes(sum, |dest|, left, begin) else dest
        decreases |left|, more, if Room(|dest|) == 0 then 1 else 0
      {
        FragmentFirst(sum, dest, left, begin);
        NoRoomTwice(|dest|);
        var length := EmitFragment(left, begin);
        left := left[length..];
        begin := false;
        more := left != [];
      }
    }

    /** The body of AddRecord's loop. */
    method EmitFragment(left: Bytes, begin: bool) returns (length: nat)
      requires Valid()
      modifies this
      ensures Valid()
      ensures length == if |left| < Room(|old(dest)|) then |left| else Room(|old(dest)|)
      ensures dest ==
              old(dest) + PieceBytes(sum, Piece(Pad(|old(dest)|), Kind(begin, length == |left|), left[..length]))
    {
      var leftover := BLOCK - blockOffset;
      ghost var pad := Pad(|dest|);
      if leftover < HEADER {
        if leftover > 0 {
          dest := dest + Zeros(leftover);
        }
        blockOffset := 0;
      }
      assert dest == old(dest) + Zeros(pad);
      LeftoverShrinks(|old(dest)|, pad);
      var avail := BLOCK - blockOffset - HEADER;
      length := if |left| < avail then |left| else avail;
      var end := |left| == length;
      EmitPhysicalRecord(Kind(begin, end), left[..length]);
      Sequences.Associates(old(dest), Zeros(pad), Frame(sum, Kind(begin, end), left[..length]));
    }

    method EmitPhysicalRecord(kind: byte, payload: Bytes)
      requires Valid() && blockOffset + HEADER + |payload| <= BLOCK
      modifies this
      ensures Valid() && dest == old(dest) + Frame(sum, kind, payload)
    {
      var header := Fixed(sum(kind, payload), 4) + [|payload| % 256, |payload| / 256, kind];
      dest := dest + header;
      dest := dest + payload;
      Sequences.Associates(old(dest), header, payload);
      LeftoverShrinks(|old(dest)|, HEADER + |payload|);
      blockOffset := blockOffset + HEADER + |payload|;
    }
  }

  /** block_offset_ is the place in the block; after a full block it may say the block's end. */
  predicate InBlock(p: nat, offset: nat) {
    offset <= BLOCK && Leftover(p) == if offset == BLOCK then BLOCK else BLOCK - offset
  }

  lemma CutUnfold(p: nat, data: Bytes, begin: bool)
    ensures var n := if |data| < Room(p) then |data| else Room(p);
            var x := Piece(Pad(p), Kind(begin, n == |data|), data[..n]);
            && PlacedAt(p, x)
            && Cut(p, data, begin) == [x] + if n == |data| then [] else Cut(p + Len(x), data[n..], false)
  {
  }

  lemma RecordBytesUnfold(sum: Checksum, p: nat, data: Bytes, begin: bool)
    ensures var n := if |data| < Room(p) then |data| else Room(p);
            var x := Piece(Pad(p), Kind(begin, n == |data|), data[..n]);
            RecordBytes(sum, p, data, begin) ==
            PieceBytes(sum, x) + if n == |data| then [] else RecordBytes(sum, p + Len(x), data[n..], false)
  {
    var n := if |data| < Room(p) then |data| else Room(p);
    var x := Piece(Pad(p), Kind(begin, n == |data|), data[..n]);
    var rest := if n == |data| then [] else Cut(p + Len(x), data[n..], false);
    CutUnfold(p, data, begin);
    CutIsPlaced(p, data, begin);
    if n < |data| { CutIsPlaced(p + Len(x), data[n..], false); }
    EncodeCons(sum, p, x, rest);
  }

  lemma FragmentFirst(sum: Checksum, dest: Bytes, data: Bytes, begin: bool)
    ensures var n := if |data| < Room(|dest|) then |data| else Room(|dest|);
            var now := dest + PieceBytes(sum, Piece(Pad(|dest|), Kind(begin, n == |data|), data[..n]));
            dest + RecordBytes(sum, |dest|, data, begin) ==
            if n == |data| then now else now + RecordBytes(sum, |now|, data[n..], false)
  {
    hide Frame, RecordBytes;
    var n := if |data| < Room(|dest|) then |data| else Room(|dest|);
    var x := Piece(Pad(|dest|), Kind(begin, n == |data|), data[..n]);
    RecordBytesUnfold(sum, |dest|, data, begin);
    if n < |data| {
      Sequences.Associates(dest, PieceBytes(sum, x), RecordBytes(sum, |dest| + Len(x), data[n..], false));
    }
  }

  lemma JoinedTwice(put: (nat, Bytes) -> Bytes, before: seq<Bytes>, after: seq<Bytes>)
    ensures var dest := [] + Joined(put, 0, before);
            dest + Joined(put, |dest|, after) == Joined(put, 0, before + after)
  {
    JoinedGrow(put, 0, before, after);
    assert [] + Joined(put, 0, before) == Joined(put, 0, before);
  }

  /** Records added in two sessions, the second by a writer that only knows the file's length, leave
      the bytes of one session. */
  method WriteInTwoSessions(sum: Checksum, before: seq<Bytes>, after: seq<Bytes>) returns (dest: Bytes)
    ensures dest == LogBytes(sum, 0, before + after)
  {
    var first := new Writer.Fresh(sum);
    AddAll(first, before);
    var second := new Writer.Continue(sum, first.dest);
    AddAll(second, after);
    JoinedTwice(AddRecordAt(sum), before, after);
    dest := second.dest;
  }

  lemma JoinedSnoc(put: (nat, Bytes) -> Bytes, dest: Bytes, records: seq<Bytes>, i: nat)
    requires i < |records|
    ensures var now := dest + Joined(put, |dest|, records[..i]);
            dest + Joined(put, |dest|, records[..i + 1]) == now + put(|now|, records[i])
  {
    var before := Joined(put, |dest|, records[..i]);
    var at := |dest| + |before|;
    var one := [records[i]];
    JoinedGrow(put, |dest|, records[..i], one);
    assert one[1..] == [];
    assert Joined(put, at, one) == put(at, records[i]);
    assert records[..i + 1] == records[..i] + one;
    Sequences.Associates(dest, before, put(at, records[i]));
  }

  method AddAll(w: Writer, records: seq<Bytes>)
    requires w.Valid()
    modifies w
    ensures w.Valid() && w.dest == old(w.dest) + LogBytes(w.sum, |old(w.dest)|, records)
  {
    for i := 0 to |records|
      invariant w.Valid() && w.dest == old(w.dest) + LogBytes(w.sum, |old(w.dest)|, records[..i])
    {
      JoinedSnoc(AddRecordAt(w.sum), old(w.dest), records, i);
      w.AddRecord(records[i]);
    }
    assert records[..|records|] == records;
  }
}
