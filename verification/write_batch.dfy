/** A batch of writes as bytes (db/write_batch.cc). */
module WriteBatches {
  import opened Coding
  import opened Wrappers
  import Sequences

  datatype Op = Put(key: Bytes, value: Bytes) | Delete(key: Bytes)

  const HEADER := 12
  const WORD := 0x1_0000_0000

  function EncodeOp(op: Op): Bytes {
    match op
    case Put(key, value) => [1] + (Prefixed(key) + Prefixed(value))
    case Delete(key) => [0] + Prefixed(key)
  }

  function Records(ops: seq<Op>): Bytes {
    if ops == [] then [] else EncodeOp(ops[0]) + Records(ops[1..])
  }

  /** Sequence number, count, records. */
  function Encoded(sequence: nat, count: nat, ops: seq<Op>): (s: Bytes)
    ensures |s| >= HEADER
  {
    Fixed(sequence, 8) + Fixed(count, 4) + Records(ops)
  }

  /** The next record; None when it is cut short or has an unknown tag. */
  function ParseOp(s: Bytes): (r: Option<Parsed<Op>>)
    ensures r.Some? ==> |r.value.rest| < |s|
  {
    if s == [] then None
    else if s[0] == 1 then
      match GetPrefixed(s[1..])
      case None => None
      case Some(key) =>
        match GetPrefixed(key.rest)
        case None => None
        case Some(value) => Some(Parsed(Put(key.value, value.value), value.rest))
    else if s[0] == 0 then
      match GetPrefixed(s[1..])
      case None => None
      case Some(key) => Some(Parsed(Delete(key.value), key.rest))
    else None
  }

  /** The records up to the end or to the first bad one, and whether the end was reached. */
  function ParseOps(s: Bytes): (seq<Op>, bool)
    decreases |s|
  {
    if s == [] then ([], true)
    else
      match ParseOp(s)
      case None => ([], false)
      case Some(p) => ([p.value] + ParseOps(p.rest).0, ParseOps(p.rest).1)
  }

  predicate OpOk(op: Op) {
    |op.key| < WORD && (op.Put? ==> |op.value| < WORD)
  }

  lemma WordIsPower()
    ensures Pow2(32) == WORD
  {
    Pow2Step(32);
    Pow2Step(24);
    Pow2Step(16);
    Pow2Step(8);
  }

  lemma OpRoundTrip(op: Op, rest: Bytes)
    requires OpOk(op)
    ensures ParseOp(EncodeOp(op) + rest) == Some(Parsed(op, rest))
  {
    hide GetPrefixed, Prefixed;
    WordIsPower();
    match op
    case Put(key, value) =>
      assert (EncodeOp(op) + rest)[1..] == Prefixed(key) + (Prefixed(value) + rest);
      PrefixedRoundTrip(key, Prefixed(value) + rest);
      PrefixedRoundTrip(value, rest);
    case Delete(key) =>
      assert (EncodeOp(op) + rest)[1..] == Prefixed(key) + rest;
      PrefixedRoundTrip(key, rest);
  }

  lemma {:induction false} RecordsReadBack(ops: seq<Op>)
    requires forall i :: 0 <= i < |ops| ==> OpOk(ops[i])
    ensures ParseOps(Records(ops)) == (ops, true)
  {
    hide EncodeOp, ParseOp;
    if ops != [] {
      OpRoundTrip(ops[0], Records(ops[1..]));
      RecordsReadBack(ops[1..]);
      assert ops == [ops[0]] + ops[1..];
    }
  }

  lemma {:induction false} RecordsAppend(a: seq<Op>, b: seq<Op>)
    ensures Records(a + b) == Records(a) + Records(b)
  {
    if a == [] {
      assert a + b == b;
    } else {
      assert (a + b)[1..] == a[1..] + b;
      RecordsAppend(a[1..], b);
      Sequences.Associates(EncodeOp(a[0]), Records(a[1..]), Records(b));
    }
  }

  /** The count is a 32-bit number. */
  function Wrap(n: nat): (r: nat)
    ensures r < WORD && (n < WORD <==> r == n)
  {
    n % WORD
  }

  datatype Status = Ok | TooSmall | BadRecord | WrongCount

  class WriteBatch {
    var rep: Bytes
    ghost var sequence: nat
    ghost var ops: seq<Op>

    ghost predicate Valid()
      reads this
    {
      sequence < Pow2(64) && rep == Encoded(sequence, Wrap(|ops|), ops)
    }

    constructor ()
      ensures Valid() && ops == [] && sequence == 0
    {
      rep, sequence, ops := Fixed(0, 8) + Fixed(0, 4), 0, [];
      new;
      assert Encoded(0, 0, []) == Fixed(0, 8) + Fixed(0, 4);
    }

    function Count(): nat
      reads this
      requires |rep| >= HEADER
    {
      Unfixed(rep[8..12])
    }

    function Sequence(): nat
      reads this
      requires |rep| >= HEADER
    {
      Unfixed(rep[..8])
    }

    lemma Header()
      requires Valid()
      ensures Count() == Wrap(|ops|) && Sequence() == sequence && rep[HEADER..] == Records(ops)
    {
      HeaderOf(sequence, Wrap(|ops|), ops);
    }

    method SetCount(n: nat)
      requires |rep| >= HEADER
      modifies this`rep
      ensures rep == old(rep)[..8] + Fixed(n, 4) + old(rep)[12..]
    {
      rep := rep[..8] + Fixed(n, 4) + rep[12..];
    }

    method SetSequence(n: nat)
      requires Valid() && n < Pow2(64)
      modifies this
      ensures Valid() && sequence == n && ops == old(ops)
    {
      Header();
      rep := Fixed(n, 8) + rep[8..];
      sequence := n;
    }

    method AddRecord(op: Op)
      requires Valid()
      modifies this
      ensures Valid() && ops == old(ops) + [op] && sequence == old(sequence)
    {
      hide Wrap, Fixed, Unfixed, Encoded, Records, EncodeOp;
      Header();
      SetCount(Wrap(Count() + 1));
      CountPlus(|ops|, 1);
      rep := rep + EncodeOp(op);
      EncodedAppends(sequence, ops, [op]);
      RecordsOfOne(op);
      ops := ops + [op];
    }

    method Put(key: Bytes, value: Bytes)
      requires Valid()
      modifies this
      ensures Valid() && ops == old(ops) + [Op.Put(key, value)] && sequence == old(sequence)
    {
      AddRecord(Op.Put(key, value));
    }

    method Delete(key: Bytes)
      requires Valid()
      modifies this
      ensures Valid() && ops == old(ops) + [Op.Delete(key)] && sequence == old(sequence)
    {
      AddRecord(Op.Delete(key));
    }

    /** WriteBatchInternal::Append: what BuildBatchGroup joins the batches of a group with. */
    method Append(source: WriteBatch)
      requires Valid() && source.Valid() && source != this
      modifies this
      ensures Valid() && ops == old(ops) + source.ops && sequence == old(sequence)
    {
      hide Wrap, Fixed, Unfixed, Encoded, Records, EncodeOp;
      Header();
      source.Header();
      SetCount(Wrap(Count() + source.Count()));
      CountPlus(|ops|, |source.ops|);
      rep := rep + source.rep[HEADER..];
      EncodedAppends(sequence, ops, source.ops);
      ops := ops + source.ops;
    }

    /** The calls that the handler gets, in order. */
    method Iterate() returns (status: Status, calls: seq<Op>)
      ensures |rep| < HEADER ==> status == TooSmall && calls == []
      ensures |rep| >= HEADER ==>
                && calls == ParseOps(rep[HEADER..]).0
                && status == if !ParseOps(rep[HEADER..]).1 then BadRecord else if |calls| ==
                   Count() then Ok else WrongCount
    {
      hide ParseOp;
      calls := [];
      if |rep| < HEADER {
        return TooSmall, calls;
      }
      var input := rep[HEADER..];
      var found := 0;
      assert [] + ParseOps(input).0 == ParseOps(input).0;
      while input != []
        invariant found == |calls|
        invariant ParseOps(rep[HEADER..]) == (calls + ParseOps(input).0, ParseOps(input).1)
        decreases |input|
      {
        found := found + 1;
        var p := ParseOp(input);
        if p.None? {
          return BadRecord, calls;
        }
        assert calls + ([p.value.value] + ParseOps(p.value.rest).0) ==
               (calls + [p.value.value]) + ParseOps(p.value.rest).0;
        calls := calls + [p.value.value];
        input := p.value.rest;
      }
      status := if found != Count() then WrongCount else Ok;
    }

    /** InsertInto: the operations with the sequence numbers that they get in the memtable.  A batch that was
        built in memory is taken over whole exactly when its count did not wrap around. */
    method InsertInto() returns (status: Status, added: seq<(nat, Op)>)
      requires Valid() && forall i :: 0 <= i < |ops| ==> OpOk(ops[i])
      ensures |added| == |ops| && forall i :: 0 <= i < |ops| ==> added[i] == (sequence + i, ops[i])
      ensures status == Ok <==> |ops| < WORD
    {
      hide Wrap, Fixed, Unfixed, Encoded, Records, EncodeOp, ParseOps;
      Header();
      RecordsReadBack(ops);
      var calls;
      status, calls := Iterate();
      added := Numbered(Sequence(), calls);
    }
  }

  /** MemTableInserter: one sequence number for each call. */
  method Numbered(sequence: nat, calls: seq<Op>) returns (added: seq<(nat, Op)>)
    ensures |added| == |calls| && forall i :: 0 <= i < |calls| ==> added[i] == (sequence + i, calls[i])
  {
    var next := sequence;
    added := [];
    for i := 0 to |calls|
      invariant |added| == i && next == sequence + i && forall k :: 0 <= k < i ==> added[k] == (sequence + k, calls[k])
    {
      added := added + [(next, calls[i])];
      next := next + 1;
    }
  }

  /** What the two stores of an addition make of a batch. */
  lemma EncodedAppends(sequence: nat, a: seq<Op>, b: seq<Op>)
    requires sequence < Pow2(64)
    ensures var s := Encoded(sequence, Wrap(|a|), a);
            |s| >= HEADER &&
              s[..8] + Fixed(Wrap(|a| + |b|), 4) + s[12..] + Records(b) == Encoded(sequence, Wrap(|a + b|), a + b)
  {
    hide EncodeOp, Records, Fixed;
    HeaderOf(sequence, Wrap(|a|), a);
    RecordsAppend(a, b);
    Regroups(Fixed(sequence, 8), Fixed(Wrap(|a| + |b|), 4), Records(a), Records(b));
  }

  lemma RecordsOfOne(op: Op)
    ensures Records([op]) == EncodeOp(op)
  {
    assert [op][1..] == [];
    assert Records([]) == [];
  }

  lemma HeaderOf(sequence: nat, count: nat, ops: seq<Op>)
    requires sequence < Pow2(64) && count < WORD
    ensures var s := Encoded(sequence, count, ops);
            Unfixed(s[..8]) == sequence && Unfixed(s[8..12]) == count && s[HEADER..] == Records(ops) &&
              s[..8] == Fixed(sequence, 8)
  {
    var s := Encoded(sequence, count, ops);
    WordIsPower();
    FixedRoundTrip(sequence, 8);
    FixedRoundTrip(count, 4);
    assert s[..8] == Fixed(sequence, 8) && s[8..12] == Fixed(count, 4);
  }

  lemma CountPlus(a: nat, b: nat)
    ensures Wrap(Wrap(a) + b) == Wrap(a + b) && Wrap(Wrap(a) + Wrap(b)) == Wrap(a + b)
  {
  }

  lemma Regroups(a: Bytes, b: Bytes, c: Bytes, d: Bytes)
    ensures (a + b + c) + d == a + b + (c + d)
  {
  }
}
