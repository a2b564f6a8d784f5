/** pb_decode undoes pb_encode. */
module PbRoundTrip {
  import opened Coding
  import opened PbDecode
  import opened PbEncode
  import opened PbTypes
  import opened PbWire
  import opened Wrappers
  import Sequences

  // ---------------------------------------------------------------- what decoding gives back

  /** A message as decoding leaves it: what was not written is at its default. */
  function Normal(t: MessageType, slots: seq<Slot>): (r: seq<Slot>)
    requires MessageTyped(t, slots)
    ensures |r| == |slots|
    decreases t, 1
  {
    seq(|slots|, i requires 0 <= i < |slots| => NormalSlot(t, slots, i))
  }

  function NormalSlot(t: MessageType, slots: seq<Slot>, i: nat): Slot
    requires MessageTyped(t, slots) && i < |slots|
    decreases t, 0
  {
    assert SlotTyped(t, slots, i);
    var lt := t.fields[i].ltype;
    if slots[i].Many? then Many(NormalItems(lt, slots[i].items))
    else if IsWritten(t, slots, i) then One(true, NormalValue(lt, slots[i].value))
    else DefaultSlot(t, i)
  }

  function NormalValue(lt: LType, v: Value): Value
    requires Typed(lt, v)
    decreases lt, 2
  {
    if lt.Nested? then Sub(Normal(lt, v.slots)) else v
  }

  function NormalItems(lt: LType, items: seq<Value>): (r: seq<Value>)
    requires ItemsTyped(lt, items)
    ensures |r| == |items|
    decreases lt, 3
  {
    seq(|items|, k requires 0 <= k < |items| => NormalValue(lt, items[k]))
  }

  /** Leaving out a zero singular field loses nothing: its default is the value it had. */
  lemma {:induction false} ZeroIsDefault(lt: LType, v: Value)
    requires Typed(lt, v) && IsZero(lt, v)
    ensures NormalValue(lt, v) == Default(lt)
    decreases lt
  {
    if lt.Nested? {
      forall i | 0 <= i < |lt.fields| ensures NormalSlot(lt, v.slots, i) == DefaultSlot(lt, i) {
        assert SlotTyped(lt, v.slots, i) && FieldIsZero(lt, v.slots, i);
      }
      assert Normal(lt, v.slots) == Defaults(lt);
    } else if lt.FixedBytes? {
      assert v.bytes == Zeros(lt.size);
    }
  }

  // ---------------------------------------------------------------- for which messages

  /** No submessage or packed array is 4GB long and, if `room`, strings keep room for their terminator. */
  predicate Decodable(lt: LType, v: Value, room: bool)
    requires Typed(lt, v)
    decreases lt, 2
  {
    match lt
    case Text(size) => room ==> |v.bytes| < size
    case Nested(fields) => MessageDecodable(lt, v.slots, room) && |MessageBytes(lt, v.slots, |fields|)| < TWO_32
    case _ => true
  }

  predicate MessageDecodable(t: MessageType, slots: seq<Slot>, room: bool)
    requires MessageTyped(t, slots)
    decreases t, 1
  {
    forall i :: 0 <= i < |slots| ==> FieldDecodable(t, slots, i, room)
  }

  predicate FieldDecodable(t: MessageType, slots: seq<Slot>, i: nat, room: bool)
    requires MessageTyped(t, slots) && i < |slots|
    decreases t, 0
  {
    assert SlotTyped(t, slots, i);
    var lt := t.fields[i].ltype;
    if slots[i].Many? then
      && ItemsDecodable(lt, slots[i].items, room)
      && (Packable(lt) ==> |PackedBytes(lt, slots[i].items)| < TWO_32)
    else IsWritten(t, slots, i) ==> Decodable(lt, slots[i].value, room)
  }

  predicate ItemsDecodable(lt: LType, items: seq<Value>, room: bool)
    requires ItemsTyped(lt, items)
    decreases lt, 3
  {
    forall k :: 0 <= k < |items| ==> Decodable(lt, items[k], room)
  }

  /** All that the round trip of a value asks for. */
  ghost predicate Good(lt: LType, v: Value) {
    DescriptorOk(lt) && Typed(lt, v) && Encodable(lt, v) && Decodable(lt, v, true)
  }

  /** What the encoder writes without an error, with sizes below 4GB. */
  ghost predicate Written(t: MessageType, slots: seq<Slot>) {
    DescriptorOk(t) && MessageTyped(t, slots) && MessageEncodable(t, slots, |slots|) &&
      MessageDecodable(t, slots, false)
  }

  /** The first n fields of a message can be read back. */
  ghost predicate GoodUpTo(t: MessageType, slots: seq<Slot>, n: nat) {
    && DescriptorOk(t) && MessageTyped(t, slots) && n <= |slots| && MessageEncodable(t, slots, n)
    && forall i :: 0 <= i < n ==> FieldDecodable(t, slots, i, true)
  }

  ghost predicate GoodMessage(t: MessageType, slots: seq<Slot>) {
    GoodUpTo(t, slots, |slots|)
  }

  /** The first k values can be read back. */
  ghost predicate GoodItems(lt: LType, items: seq<Value>, k: nat) {
    && DescriptorOk(lt) && ItemsTyped(lt, items) && k <= |items| && ItemsEncodable(lt, items)
    && forall j :: 0 <= j < k ==> Decodable(lt, items[j], true)
  }

  // ---------------------------------------------------------------- numbers and strings

  lemma StringRoundTrip(s: Bytes, rest: Bytes)
    requires |s| < TWO_32
    ensures TakeString(Prefixed(s) + rest) == Some(Parsed(s, rest))
  {
    Varint32RoundTrip(|s|, s + rest);
    assert Prefixed(s) + rest == Varint(|s|) + (s + rest);
    assert (s + rest)[..|s|] == s && (s + rest)[|s|..] == rest;
  }

  lemma FixedRoundTripAt(n: nat, width: nat, rest: Bytes)
    requires (width == 4 && n < TWO_32) || (width == 8 && n < TWO_64)
    ensures Take(Fixed(n, width) + rest, width) == Some(Parsed(Fixed(n, width), rest))
    ensures Unfixed(Fixed(n, width)) == n
  {
    PowersAre();
    FixedRoundTrip(n, width);
    var s := Fixed(n, width) + rest;
    assert s[..width] == Fixed(n, width) && s[width..] == rest;
  }

  /** A text decodes exactly when it leaves room for its terminator. */
  lemma TextRoundTrip(size: nat, s: Bytes, rest: Bytes, under: Value)
    requires Typed(Text(size), Blob(s)) && size <= SIZE_MAX
    ensures DecodeValue(Text(size), ValueBytes(Text(size), Blob(s)) + rest, under) ==
            if |s| < size then Some(Parsed(Blob(s), rest)) else None
  {
    StringRoundTrip(s, rest);
  }

  lemma NumberRoundTrip(lt: LType, v: Value, rest: Bytes, under: Value)
    requires Packable(lt) && Typed(lt, v)
    ensures DecodeValue(lt, ValueBytes(lt, v) + rest, under) == Some(Parsed(v, rest))
  {
    match lt {
      case Bool => BoolRoundTrip(v.b, rest, under);
      case Int(size) => IntRoundTrip(size, v.n, rest, under);
      case UInt(size) => UIntRoundTrip(size, v.n, rest, under);
      case SInt(size) => SIntRoundTrip(size, v.n, rest, under);
      case Fixed32 => FixedNumberRoundTrip(lt, v.n, rest, under);
      case Fixed64 => FixedNumberRoundTrip(lt, v.n, rest, under);
    }
  }

  lemma BoolRoundTrip(b: bool, rest: Bytes, under: Value)
    ensures DecodeValue(Bool, ValueBytes(Bool, Flag(b)) + rest, under) == Some(Parsed(Flag(b), rest))
  {
    Varint32RoundTrip(if b then 1 else 0, rest);
  }

  lemma UIntRoundTrip(size: nat, n: nat, rest: Bytes, under: Value)
    requires Typed(UInt(size), Number(n))
    ensures DecodeValue(UInt(size), ValueBytes(UInt(size), Number(n)) + rest, under) == Some(Parsed(Number(n), rest))
  {
    ReadVarintRoundTrip(n, rest);
  }

  lemma FixedNumberRoundTrip(lt: LType, n: nat, rest: Bytes, under: Value)
    requires (lt.Fixed32? || lt.Fixed64?) && Typed(lt, Number(n))
    ensures DecodeValue(lt, ValueBytes(lt, Number(n)) + rest, under) == Some(Parsed(Number(n), rest))
  {
    FixedRoundTripAt(n, if lt.Fixed32? then 4 else 8, rest);
  }

  lemma IntRoundTrip(size: nat, n: int, rest: Bytes, under: Value)
    requires Typed(Int(size), Number(n))
    ensures DecodeValue(Int(size), ValueBytes(Int(size), Number(n)) + rest, under) == Some(Parsed(Number(n), rest))
  {
    WireRoundTrip(size, n);
    ReadVarintRoundTrip(ToWire(n), rest);
  }

  lemma SIntRoundTrip(size: nat, n: int, rest: Bytes, under: Value)
    requires Typed(SInt(size), Number(n))
    ensures DecodeValue(SInt(size), ValueBytes(SInt(size), Number(n)) + rest, under) == Some(Parsed(Number(n), rest))
  {
    ZigZagRoundTrip(n);
    ReadVarintRoundTrip(ZigZag(n), rest);
  }

  lemma ScalarRoundTrip(lt: LType, v: Value, rest: Bytes, under: Value)
    requires Good(lt, v) && !lt.Nested?
    ensures DecodeValue(lt, ValueBytes(lt, v) + rest, under) == Some(Parsed(v, rest))
  {
    hide Prefixed, TakeString, ReadVarint, ReadVarint32, UpToNul;
    if Packable(lt) {
      NumberRoundTrip(lt, v, rest, under);
    } else if lt.Text? {
      TextRoundTrip(lt.size, v.bytes, rest, under);
    } else {
      StringRoundTrip(v.bytes, rest);
      if lt.FixedBytes? && v.bytes == [] {
        assert v.bytes == Zeros(lt.size);
      }
    }
  }

  // ---------------------------------------------------------------- tags

  lemma {:induction false} FindsField(fields: seq<Field>, i: nat)
    requires i < |fields| && forall j, k :: 0 <= j < k < |fields| ==> fields[j].tag != fields[k].tag
    ensures FindField(fields, fields[i].tag) == Some(i)
  {
    if i > 0 {
      FindsField(fields[1..], i - 1);
    }
  }

  /** What DecodeFields does at the tag of field i. */
  function AtField(t: MessageType, i: nat, wt: nat, s: Bytes, d: Progress): Option<Progress>
    requires i < |t.fields| && ProgressOk(t, d)
  {
    match Found(t, i, d)
    case None => None
    case Some(found) =>
      match DecodeField(t, i, wt, s, found)
      case None => None
      case Some(q) => DecodeFields(t, q.rest, q.value)
  }

  lemma TagLeadsToField(t: MessageType, i: nat, wt: nat, s: Bytes, d: Progress)
    requires DescriptorOk(t) && i < |t.fields| && wt < 8 && ProgressOk(t, d)
    ensures DecodeFields(t, TagBytes(t.fields[i].tag, wt) + s, d) == AtField(t, i, wt, s, d)
  {
    assert FieldOk(t, i);
    TagRoundTrip(t.fields[i].tag, wt, s);
    FindsField(t.fields, i);
    assert TagBytes(t.fields[i].tag, wt) + s != [];
  }

  /** A field the descriptor does not know is skipped, whatever its number and wire type. */
  lemma UnknownFieldIsSkipped(t: MessageType, tag: nat, wt: nat, payload: Bytes, rest: Bytes, d: Progress)
    requires ProgressOk(t, d) && 0 < tag && 8 * tag + 7 < TWO_32 && forall i :: 0 <= i < |t.fields| ==>
               t.fields[i].tag != tag
    requires match wt
             case 0 => IsVarint(payload)
             case 1 => |payload| == 8
             case 2 => exists s :: payload == Prefixed(s) && |s| < TWO_32
             case 5 => |payload| == 4
             case _ => false
    ensures DecodeFields(t, TagBytes(tag, wt) + payload + rest, d) == DecodeFields(t, rest, d)
  {
    hide ReadVarint32, TakeString, TagBytes, SkipVarint;
    var s := payload + rest;
    assert TagBytes(tag, wt) + payload + rest == TagBytes(tag, wt) + s;
    TagRoundTrip(tag, wt, s);
    match wt {
      case 0 => SkipsVarint(payload, rest);
      case 2 =>
        var str :| payload == Prefixed(str) && |str| < TWO_32;
        StringRoundTrip(str, rest);
      case _ => assert s[|payload|..] == rest;
    }
    assert SkipField(wt, s) == Some(rest);
  }

  lemma {:induction false} SkipsVarint(v: Bytes, rest: Bytes)
    requires IsVarint(v)
    ensures SkipVarint(v + rest) == Some(rest)
  {
    assert (v + rest)[1..] == v[1..] + rest;
    if |v| == 1 {
      assert v[1..] + rest == rest;
    } else {
      SkipsVarint(v[1..], rest);
    }
  }

  // ---------------------------------------------------------------- packed arrays

  function Encodings(lt: LType, items: seq<Value>): seq<Bytes>
    requires ItemsTyped(lt, items)
  {
    seq(|items|, k requires 0 <= k < |items| => ValueBytes(lt, items[k]))
  }

  lemma {:induction false} PackedIsFlat(lt: LType, items: seq<Value>)
    requires ItemsTyped(lt, items)
    ensures PackedBytes(lt, items) == Sequences.Flatten(Encodings(lt, items))
    decreases |items|
  {
    if items != [] {
      var n := |items| - 1;
      PackedIsFlat(lt, items[..n]);
      assert Encodings(lt, items)[..n] == Encodings(lt, items[..n]);
    }
  }

  /** These bytes, whatever follows, are read as this value. */
  ghost predicate ReadsAs(lt: LType, part: Bytes, v: Value, rest: Bytes) {
    Shape(lt, Default(lt)) && DecodeValue(lt, part + rest, Default(lt)) == Some(Parsed(v, rest))
  }

  lemma NoPartsRoundTrip(lt: LType, room: nat)
    ensures DecodePacked(lt, Sequences.Flatten<byte>([]), room) == Some([])
  {
  }

  lemma {:induction false} FlatRoundTrip(lt: LType, parts: seq<Bytes>, items: seq<Value>, room: nat)
    requires |parts| == |items| <= room && forall k, rest :: 0 <= k < |parts| ==> ReadsAs(lt, parts[k], items[k], rest)
    ensures DecodePacked(lt, Sequences.Flatten(parts), room) == Some(items)
    decreases |parts|
  {
    hide Sequences.Flatten;
    if parts == [] {
      NoPartsRoundTrip(lt, room);
    } else {
      var rest := Sequences.Flatten(parts[1..]);
      Sequences.FlattenFront(parts);
      assert ReadsAs(lt, parts[0], items[0], rest);
      FlatRoundTrip(lt, parts[1..], items[1..], room - 1);
      assert items == [items[0]] + items[1..];
    }
  }

  lemma PackedRoundTrip(lt: LType, items: seq<Value>, room: nat)
    requires Packable(lt) && ItemsTyped(lt, items) && |items| <= room
    ensures DecodePacked(lt, PackedBytes(lt, items), room) == Some(items)
  {
    PackedIsFlat(lt, items);
    forall k, rest | 0 <= k < |items| ensures ReadsAs(lt, Encodings(lt, items)[k], items[k], rest) {
      NumberRoundTrip(lt, items[k], rest, Default(lt));
    }
    FlatRoundTrip(lt, Encodings(lt, items), items, room);
  }

  // ---------------------------------------------------------------- progress through a message

  /** The last fixed-count field with values before field n: the one filled last. */
  function LastFixed(t: MessageType, n: nat): (r: Option<nat>)
    requires n <= |t.fields|
    ensures r.Some? ==> r.value < n && t.fields[r.value].htype.FixedCount?
  {
    if n == 0 then None
    else if t.fields[n - 1].htype.FixedCount? && t.fields[n - 1].htype.count > 0 then Some(n - 1)
    else LastFixed(t, n - 1)
  }

  function FixedLength(t: MessageType, i: Option<nat>): nat
    requires i.Some? ==> i.value < |t.fields| && t.fields[i.value].htype.FixedCount?
  {
    if i.Some? then t.fields[i.value].htype.count else 0
  }

  /** The first n fields decoded, the others at their defaults. */
  function Part(t: MessageType, slots: seq<Slot>, n: nat): (r: seq<Slot>)
    requires MessageTyped(t, slots) && n <= |slots|
    ensures |r| == |slots|
  {
    seq(|slots|, i requires 0 <= i < |slots| => if i < n then NormalSlot(t, slots, i) else DefaultSlot(t, i))
  }

  /** The first n required fields, as far as they are tracked. */
  function Tracked(n: nat): (r: set<nat>)
    ensures forall k: nat :: k in r <==> k < n && k < MAX_REQUIRED
  {
    if n == 0 then {} else Tracked(n - 1) + if n - 1 < MAX_REQUIRED then {n - 1} else {}
  }

  function After(t: MessageType, slots: seq<Slot>, n: nat): Progress
    requires MessageTyped(t, slots) && n <= |slots|
  {
    Progress(Part(t, slots, n), Tracked(RequiredBefore(t.fields, n)), LastFixed(t, n), FixedLength(t, LastFixed(t, n)))
  }

  lemma {:induction false} NormalHasShape(lt: LType, v: Value)
    requires Typed(lt, v)
    ensures Shape(lt, NormalValue(lt, v))
    decreases lt, 1
  {
    if lt.Nested? {
      var r := Normal(lt, v.slots);
      forall i | 0 <= i < |r| ensures SlotShape(lt, i, r[i]) {
        NormalSlotHasShape(lt, v.slots, i);
      }
    }
  }

  lemma {:induction false} NormalSlotHasShape(t: MessageType, slots: seq<Slot>, i: nat)
    requires MessageTyped(t, slots) && i < |slots|
    ensures SlotShape(t, i, NormalSlot(t, slots, i))
    decreases t, 0
  {
    assert SlotTyped(t, slots, i);
    var lt := t.fields[i].ltype;
    DefaultHasShape(lt);
    if slots[i].Many? {
      NormalItemsHaveShape(lt, slots[i].items);
    } else {
      NormalHasShape(lt, slots[i].value);
    }
  }

  lemma {:induction false} NormalItemsHaveShape(lt: LType, items: seq<Value>)
    requires ItemsTyped(lt, items)
    ensures ItemsShape(lt, NormalItems(lt, items))
    decreases lt, 2
  {
    forall k | 0 <= k < |items| ensures Shape(lt, NormalItems(lt, items)[k]) {
      assert Typed(lt, items[k]);
      NormalHasShape(lt, items[k]);
    }
  }

  lemma DefaultSlotHasShape(t: MessageType, i: nat)
    requires i < |t.fields|
    ensures SlotShape(t, i, DefaultSlot(t, i))
  {
    DefaultHasShape(t.fields[i].ltype);
  }

  lemma AfterIsOk(t: MessageType, slots: seq<Slot>, n: nat)
    requires MessageTyped(t, slots) && n <= |slots|
    ensures ProgressOk(t, After(t, slots, n)) && FixedIsFull(t, After(t, slots, n))
  {
    forall i | 0 <= i < |slots| ensures SlotShape(t, i, Part(t, slots, n)[i]) {
      NormalSlotHasShape(t, slots, i);
      DefaultSlotHasShape(t, i);
    }
  }
}
