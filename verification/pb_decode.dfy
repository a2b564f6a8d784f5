/** The nanopb decoder (pb_decode.c) as functions on the bytes that are left. */
module PbDecode {
  import opened Coding
  import opened PbTypes
  import opened PbWire
  import opened Wrappers

  // ---------------------------------------------------------------- shapes

  /** The structure that a descriptor gives a message, whatever the numbers in it. */
  predicate Shape(lt: LType, v: Value)
    decreases lt, 3
  {
    lt.Nested? ==> v.Sub? && MessageShape(lt, v.slots)
  }

  predicate MessageShape(t: MessageType, slots: seq<Slot>)
    decreases t, 2
  {
    |slots| == |t.fields| && forall i :: 0 <= i < |slots| ==> SlotShape(t, i, slots[i])
  }

  predicate SlotShape(t: MessageType, i: int, slot: Slot)
    requires 0 <= i < |t.fields|
    decreases t, 1
  {
    var f := t.fields[i];
    match f.htype
    case Repeated(_) => slot.Many? && ItemsShape(f.ltype, slot.items)
    case FixedCount(count) => slot.Many? && |slot.items| == count && ItemsShape(f.ltype, slot.items)
    case _ => slot.One? && Shape(f.ltype, slot.value)
  }

  predicate ItemsShape(lt: LType, items: seq<Value>)
    decreases lt, 4
  {
    forall k :: 0 <= k < |items| ==> Shape(lt, items[k])
  }

  lemma {:induction false} DefaultHasShape(lt: LType)
    ensures Shape(lt, Default(lt))
    decreases lt
  {
    if lt.Nested? {
      forall i | 0 <= i < |lt.fields| ensures SlotShape(lt, i, Defaults(lt)[i]) {
        DefaultHasShape(lt.fields[i].ltype);
      }
    }
  }

  // ---------------------------------------------------------------- single values

  /** pb_read. */
  function Take(s: Bytes, n: nat): (r: Option<Parsed<Bytes>>)
    ensures r.Some? ==> |r.value.rest| + n == |s|
  {
    if n <= |s| then Some(Parsed(s[..n], s[n..])) else None
  }

  /** A length and so many bytes: pb_make_string_substream. */
  function TakeString(s: Bytes): (r: Option<Parsed<Bytes>>)
    ensures r.Some? ==> |r.value.rest| < |s|
  {
    match ReadVarint32(s)
    case None => None
    case Some(p) => Take(p.rest, p.value)
  }

  /** A C string: what is before the first zero. */
  function UpToNul(s: Bytes): (r: Bytes)
    ensures 0 !in r && |r| <= |s|
    ensures 0 !in s ==> r == s
  {
    if s == [] || s[0] == 0 then [] else [s[0]] + UpToNul(s[1..])
  }

  function Map<A, B>(r: Option<Parsed<A>>, f: A -> Option<B>): Option<Parsed<B>> {
    match r
    case None => None
    case Some(p) =>
      match f(p.value)
      case None => None
      case Some(v) => Some(Parsed(v, p.rest))
  }

  /** pb_dec_bytes, pb_dec_string and pb_dec_fixed_length_bytes, once the length has been read. */
  function FromString(lt: LType, s: Bytes): Option<Value> {
    match lt
    case ByteArray(capacity) => if |s| > SIZE_MAX || |s| > capacity then None else Some(Blob(s))
    case Text(size) => if |s| + 1 > size then None else Some(Blob(UpToNul(s)))
    case FixedBytes(size) =>
      if |s| > SIZE_MAX then None
      else if s == [] then Some(Blob(Zeros(size)))
      else if |s| != size then None
      else Some(Blob(s))
    case _ => None
  }

  function FromInt(size: nat, v: nat): Option<Value> {
    match FromWire(size, v) case None => None case Some(n) => Some(Number(n))
  }

  function FromUInt(size: nat, v: nat): Option<Value> {
    if v < Range(size) then Some(Number(v)) else None
  }

  function FromSInt(size: nat, v: nat): Option<Value> {
    var n := UnZigZag(v);
    if 0 <= 2 * n + Range(size) < 2 * Range(size) then Some(Number(n)) else None
  }

  /** PB_DECODERS: the decoder of one value; a submessage is decoded on top of what is there. */
  function DecodeValue(lt: LType, s: Bytes, under: Value): (r: Option<Parsed<Value>>)
    requires Shape(lt, under)
    ensures r.Some? ==> |r.value.rest| < |s| && Shape(lt, r.value.value)
    decreases lt, 5, |s|
  {
    match lt
    case Bool => Map(ReadVarint32(s), (v: nat) => Some(Flag(v != 0)))
    case Int(size) => Map(ReadVarint(s), (v: nat) => FromInt(size, v))
    case UInt(size) => Map(ReadVarint(s), (v: nat) => FromUInt(size, v))
    case SInt(size) => Map(ReadVarint(s), (v: nat) => FromSInt(size, v))
    case Fixed32 => Map(Take(s, 4), (b: Bytes) => Some(Number(Unfixed(b))))
    case Fixed64 => Map(Take(s, 8), (b: Bytes) => Some(Number(Unfixed(b))))
    case Nested(_) =>
      (match TakeString(s)
       case None => None
       case Some(p) =>
         match DecodeMessage(lt, p.value, under.slots)
         case None => None
         case Some(slots) => Some(Parsed(Sub(slots), p.rest)))
    case _ => Map(TakeString(s), (b: Bytes) => FromString(lt, b))
  }

  /** The loop over a packed array: all of it must be values, and no more than there is room for. */
  function DecodePacked(lt: LType, s: Bytes, room: nat): (r: Option<seq<Value>>)
    ensures r.Some? ==> |r.value| <= room && ItemsShape(lt, r.value)
    decreases lt, 6, room
  {
    if s == [] then Some([])
    else if room == 0 then None
    else
      DefaultHasShape(lt);
      match DecodeValue(lt, s, Default(lt))
      case None => None
      case Some(p) =>
        match DecodePacked(lt, p.rest, room - 1)
        case None => None
        case Some(items) => Some([p.value] + items)
  }

  // ---------------------------------------------------------------- fields

  /** pb_field_iter_find, for tags that differ. */
  function FindField(fields: seq<Field>, tag: nat): (r: Option<nat>)
    ensures r.Some? ==> r.value < |fields| && fields[r.value].tag == tag
    ensures r.None? ==> forall i :: 0 <= i < |fields| ==> fields[i].tag != tag
  {
    if fields == [] then None
    else if fields[0].tag == tag then Some(0)
    else match FindField(fields[1..], tag) case None => None case Some(i) => Some(i + 1)
  }

  /** required_field_index: the number of required fields before field i. */
  function RequiredBefore(fields: seq<Field>, i: nat): (n: nat)
    requires i <= |fields|
    ensures n <= i
  {
    if i == 0 then 0 else RequiredBefore(fields, i - 1) + if fields[i - 1].htype.Required? then 1 else 0
  }

  /** PB_MAX_REQUIRED_FIELDS. */
  const MAX_REQUIRED := 64

  /** pb_skip_varint. */
  function SkipVarint(s: Bytes): (r: Option<Bytes>)
    ensures r.Some? ==> |r.value| < |s|
  {
    if s == [] then None else if s[0] >= 128 then SkipVarint(s[1..]) else Some(s[1..])
  }

  /** pb_skip_field. */
  function SkipField(wt: nat, s: Bytes): (r: Option<Bytes>)
    ensures r.Some? ==> |r.value| <= |s|
  {
    if wt == WT_VARINT then SkipVarint(s)
    else if wt == WT_64BIT then (match Take(s, 8) case None => None case Some(p) => Some(p.rest))
    else if wt == WT_STRING then (match TakeString(s) case None => None case Some(p) => Some(p.rest))
    else if wt == WT_32BIT then (match Take(s, 4) case None => None case Some(p) => Some(p.rest))
    else None
  }

  /** The message so far, the required fields seen, and the fixed-count field being filled. */
  datatype Progress = Progress(slots: seq<Slot>, seen: set<nat>, fixedField: Option<nat>, fixedCount: nat)

  predicate ProgressOk(t: MessageType, d: Progress) {
    && MessageShape(t, d.slots)
    && (d.fixedField.Some? ==>
          && d.fixedField.value < |t.fields| && t.fields[d.fixedField.value].htype.FixedCount?
          && d.fixedCount <= t.fields[d.fixedField.value].htype.count)
  }

  /** The fixed-count field being filled is full. */
  predicate FixedIsFull(t: MessageType, d: Progress)
    requires ProgressOk(t, d)
  {
    d.fixedField.Some? ==> d.fixedCount == t.fields[d.fixedField.value].htype.count
  }

  /** What pb_decode_noinit does before decoding field i. */
  function Found(t: MessageType, i: nat, d: Progress): (r: Option<Progress>)
    requires i < |t.fields| && ProgressOk(t, d)
    ensures r.Some? ==> ProgressOk(t, r.value) && (t.fields[i].htype.FixedCount? ==> r.value.fixedField == Some(i))
  {
    var f := t.fields[i];
    if f.htype.FixedCount? && d.fixedField != Some(i) then
      if FixedIsFull(t, d) then Some(d.(fixedField := Some(i), fixedCount := 0)) else None
    else if f.htype.Required? && RequiredBefore(t.fields, i) < MAX_REQUIRED then
      Some(d.(seen := d.seen + {RequiredBefore(t.fields, i)}))
    else Some(d)
  }

  /** Setting one field of a oneof unsets the others: they share their memory. */
  function ClearOthers(t: MessageType, slots: seq<Slot>, i: nat): (r: seq<Slot>)
    requires i < |t.fields| && MessageShape(t, slots)
    ensures MessageShape(t, r)
  {
    ClearedHasShape(t, slots, i);
    seq(|slots|, k requires 0 <= k < |slots| => Cleared(t, slots, i, k))
  }

  function Cleared(t: MessageType, slots: seq<Slot>, i: nat, k: nat): Slot
    requires i < |t.fields| && k < |slots| == |t.fields|
  {
    if k != i && t.fields[k].htype.OneOf? && t.fields[k].htype == t.fields[i].htype
    then One(false, Default(t.fields[k].ltype))
    else slots[k]
  }

  lemma ClearedHasShape(t: MessageType, slots: seq<Slot>, i: nat)
    requires i < |t.fields| && MessageShape(t, slots)
    ensures forall k :: 0 <= k < |slots| ==> SlotShape(t, k, Cleared(t, slots, i, k))
  {
    forall k | 0 <= k < |slots| ensures SlotShape(t, k, Cleared(t, slots, i, k)) {
      DefaultHasShape(t.fields[k].ltype);
    }
  }

  /** What a field's value is decoded on top of: repeated fields and oneofs start afresh. */
  function Under(f: Field, slot: Slot): Value {
    if slot.Many? || (f.htype.OneOf? && f.ltype.Nested?) then Default(f.ltype) else slot.value
  }

  function Overwritten(items: seq<Value>, n: nat, more: seq<Value>): (r: seq<Value>)
    requires n + |more| <= |items|
    ensures |r| == |items|
  {
    items[..n] + more + items[n + |more|..]
  }

  lemma ItemsShapeConcat(lt: LType, items: seq<Value>, more: seq<Value>)
    requires ItemsShape(lt, items) && ItemsShape(lt, more)
    ensures ItemsShape(lt, items + more)
  {
    forall k | 0 <= k < |items + more| ensures Shape(lt, (items + more)[k]) {
      assert (items + more)[k] == if k < |items| then items[k] else more[k - |items|];
    }
  }

  lemma OverwrittenHasShape(lt: LType, items: seq<Value>, n: nat, more: seq<Value>)
    requires n + |more| <= |items| && ItemsShape(lt, items) && ItemsShape(lt, more)
    ensures ItemsShape(lt, Overwritten(items, n, more))
  {
    var now := Overwritten(items, n, more);
    forall k | 0 <= k < |now| ensures Shape(lt, now[k]) {
      assert now[k] == if k < n then items[k] else if k < n + |more| then more[k - n] else items[k];
    }
  }

  /** The array with these values put behind those that are there. */
  function Appended(t: MessageType, i: nat, d: Progress, more: seq<Value>): (r: Progress)
    requires i < |t.fields| && ProgressOk(t, d) && d.slots[i].Many? && ItemsShape(t.fields[i].ltype, more)
    requires t.fields[i].htype.FixedCount? ==>
               d.fixedField == Some(i) && d.fixedCount + |more| <= t.fields[i].htype.count
    ensures ProgressOk(t, r)
  {
    var items := d.slots[i].items;
    assert SlotShape(t, i, d.slots[i]);
    if t.fields[i].htype.FixedCount? then
      var now := Overwritten(items, d.fixedCount, more);
      OverwrittenHasShape(t.fields[i].ltype, items, d.fixedCount, more);
      d.(slots := d.slots[i := Many(now)], fixedCount := d.fixedCount + |more|)
    else
      ItemsShapeConcat(t.fields[i].ltype, items, more);
      d.(slots := d.slots[i := Many(items + more)])
  }

  /** How many more values the array can take. */
  function Room(t: MessageType, i: nat, d: Progress): nat
    requires i < |t.fields| && ProgressOk(t, d) && d.slots[i].Many?
    requires t.fields[i].htype.FixedCount? ==> d.fixedField == Some(i)
  {
    match t.fields[i].htype
    case Repeated(capacity) => if |d.slots[i].items| <= capacity then capacity - |d.slots[i].items| else 0
    case FixedCount(count) => count - d.fixedCount
    case _ => 0
  }

  /** decode_static_field. */
  function DecodeField(t: MessageType, i: nat, wt: nat, s: Bytes, d: Progress): (r: Option<Parsed<Progress>>)
    requires i < |t.fields| && ProgressOk(t, d) && (t.fields[i].htype.FixedCount? ==> d.fixedField == Some(i))
    ensures r.Some? ==> |r.value.rest| <= |s| && ProgressOk(t, r.value.value)
    decreases t, 0
  {
    var f := t.fields[i];
    assert SlotShape(t, i, d.slots[i]);
    DefaultHasShape(f.ltype);
    if d.slots[i].Many? && wt == WT_STRING && Packable(f.ltype) then
      match TakeString(s)
      case None => None
      case Some(p) =>
        match DecodePacked(f.ltype, p.value, Room(t, i, d))
        case None => None
        case Some(more) => Some(Parsed(Appended(t, i, d, more), p.rest))
    else if d.slots[i].Many? && Room(t, i, d) == 0 then None
    else
      match DecodeValue(f.ltype, s, Under(f, d.slots[i]))
      case None => None
      case Some(p) =>
        if d.slots[i].Many? then
          assert ItemsShape(f.ltype, [p.value]);
          Some(Parsed(Appended(t, i, d, [p.value]), p.rest))
        else
          var slots := if f.htype.OneOf? then ClearOthers(t, d.slots, i) else d.slots;
          Some(Parsed(d.(slots := slots[i := One(true, p.value)]), p.rest))
  }

  /** The loop of pb_decode_noinit. */
  function DecodeFields(t: MessageType, s: Bytes, d: Progress): (r: Option<Progress>)
    requires ProgressOk(t, d)
    ensures r.Some? ==> ProgressOk(t, r.value)
    decreases t, 1, |s|
  {
    if s == [] then Some(d)
    else
      match ReadVarint32(s)
      case None => None
      case Some(p) =>
        if p.value == 0 then Some(d)
        else
          match FindField(t.fields, p.value / 8)
          case None =>
            (match SkipField(p.value % 8, p.rest)
             case None => None
             case Some(rest) => DecodeFields(t, rest, d))
          case Some(i) =>
            match Found(t, i, d)
            case None => None
            case Some(found) =>
              match DecodeField(t, i, p.value % 8, p.rest, found)
              case None => None
              case Some(q) => DecodeFields(t, q.rest, q.value)
  }

  /** Every required field that is tracked has been seen. */
  predicate RequiredSeen(t: MessageType, d: Progress) {
    forall k :: 0 <= k < RequiredBefore(t.fields, |t.fields|) && k < MAX_REQUIRED ==> k in d.seen
  }

  /** pb_decode_noinit. */
  function DecodeMessage(t: MessageType, s: Bytes, slots: seq<Slot>): (r: Option<seq<Slot>>)
    requires MessageShape(t, slots)
    ensures r.Some? ==> MessageShape(t, r.value)
    decreases t, 2
  {
    match DecodeFields(t, s, Progress(slots, {}, None, 0))
    case None => None
    case Some(d) => if FixedIsFull(t, d) && RequiredSeen(t, d) then Some(d.slots) else None
  }

  /** pb_decode. */
  function Decode(t: MessageType, s: Bytes): Option<seq<Slot>> {
    DefaultHasShape(t);
    DecodeMessage(t, s, Defaults(t))
  }
}
