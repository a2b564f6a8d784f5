/** The nanopb encoder (pb_encode.c): what a message's bytes are, and a stream that writes them or
    only counts them. */
module PbEncode {
  import opened Coding
  import opened PbTypes
  import opened PbWire
  import opened Wrappers

  // ---------------------------------------------------------------- the bytes of a message

  /** pb_check_proto3_default_value: a singular field is left out when it is zero. */
  predicate IsZero(lt: LType, v: Value)
    requires Typed(lt, v)
    decreases lt, 2
  {
    match lt
    case Bool => !v.b
    case ByteArray(_) => v.bytes == []
    case Text(_) => v.bytes == []
    case FixedBytes(size) => size == 0
    case Nested(fields) => forall i :: 0 <= i < |fields| ==> FieldIsZero(lt, v.slots, i)
    case _ => v.n == 0
  }

  predicate FieldIsZero(t: MessageType, slots: seq<Slot>, i: int)
    requires MessageTyped(t, slots) && 0 <= i < |slots|
    decreases t, 1
  {
    assert SlotTyped(t, slots, i);
    match t.fields[i].htype
    case Required => false
    case FixedCount(_) => false
    case Repeated(_) => slots[i].items == []
    case Singular => IsZero(t.fields[i].ltype, slots[i].value)
    case _ => !slots[i].has
  }

  /** One value, with the length before it if it has no fixed length. */
  function ValueBytes(lt: LType, v: Value): Bytes
    requires Typed(lt, v)
    decreases lt, 3
  {
    match lt
    case Bool => Varint(if v.b then 1 else 0)
    case Int(size) =>
      WireRoundTrip(size, v.n);
      Varint(ToWire(v.n))
    case UInt(_) => Varint(v.n)
    case SInt(_) => Varint(ZigZag(v.n))
    case Fixed32 => Fixed(v.n, 4)
    case Fixed64 => Fixed(v.n, 8)
    case Nested(fields) => Prefixed(MessageBytes(lt, v.slots, |fields|))
    case _ => Prefixed(v.bytes)
  }

  /** Values without tags: the contents of a packed array. */
  function PackedBytes(lt: LType, items: seq<Value>): Bytes
    requires ItemsTyped(lt, items)
    decreases lt, 4, |items|
  {
    if items == [] then []
    else
      var n := |items| - 1;
      assert Typed(lt, items[n]);
      PackedBytes(lt, items[..n]) + ValueBytes(lt, items[n])
  }

  /** Values with a tag each. */
  function TaggedBytes(f: Field, items: seq<Value>): Bytes
    requires ItemsTyped(f.ltype, items)
    decreases f.ltype, 4, |items|
  {
    if items == [] then []
    else
      var n := |items| - 1;
      assert Typed(f.ltype, items[n]);
      TaggedBytes(f, items[..n]) + (TagBytes(f.tag, WireType(f.ltype)) + ValueBytes(f.ltype, items[n]))
  }

  /** encode_array: arrays are packed when their type allows it. */
  function ArrayBytes(f: Field, items: seq<Value>): Bytes
    requires ItemsTyped(f.ltype, items)
    decreases f.ltype, 5
  {
    if items == [] then []
    else if Packable(f.ltype) then TagBytes(f.tag, WT_STRING) + Prefixed(PackedBytes(f.ltype, items))
    else TaggedBytes(f, items)
  }

  /** Whether a field that is not an array is written. */
  predicate IsWritten(t: MessageType, slots: seq<Slot>, i: int)
    requires MessageTyped(t, slots) && 0 <= i < |slots| && slots[i].One?
    decreases t, 1
  {
    assert SlotTyped(t, slots, i);
    var f := t.fields[i];
    match f.htype
    case Required => true
    case Singular => !IsZero(f.ltype, slots[i].value)
    case _ => slots[i].has
  }

  /** encode_basic_field. */
  function FieldBytes(t: MessageType, slots: seq<Slot>, i: int): Bytes
    requires MessageTyped(t, slots) && 0 <= i < |slots|
    decreases t, 1
  {
    assert SlotTyped(t, slots, i);
    var f := t.fields[i];
    if slots[i].Many? then ArrayBytes(f, slots[i].items)
    else if IsWritten(t, slots, i) then TagBytes(f.tag, WireType(f.ltype)) + ValueBytes(f.ltype, slots[i].value)
    else []
  }

  /** pb_encode, up to the first n fields. */
  function MessageBytes(t: MessageType, slots: seq<Slot>, n: nat): Bytes
    requires MessageTyped(t, slots) && n <= |slots|
    decreases t, 2, n
  {
    if n == 0 then [] else MessageBytes(t, slots, n - 1) + FieldBytes(t, slots, n - 1)
  }

  // ---------------------------------------------------------------- what the encoder refuses

  /** Counts and sizes within what the descriptor allows, for everything that is written. */
  predicate Encodable(lt: LType, v: Value)
    requires Typed(lt, v)
    decreases lt, 3
  {
    match lt
    case ByteArray(capacity) => |v.bytes| <= capacity
    case Nested(fields) => forall i :: 0 <= i < |fields| ==> FieldEncodable(lt, v.slots, i)
    case _ => true
  }

  predicate ItemsEncodable(lt: LType, items: seq<Value>)
    requires ItemsTyped(lt, items)
    decreases lt, 4
  {
    forall k :: 0 <= k < |items| ==> Encodable(lt, items[k])
  }

  predicate FieldEncodable(t: MessageType, slots: seq<Slot>, i: int)
    requires MessageTyped(t, slots) && 0 <= i < |slots|
    decreases t, 2
  {
    assert SlotTyped(t, slots, i);
    var f := t.fields[i];
    match f.htype
    case Repeated(capacity) => |slots[i].items| <= capacity && ItemsEncodable(f.ltype, slots[i].items)
    case FixedCount(_) => ItemsEncodable(f.ltype, slots[i].items)
    case _ => IsWritten(t, slots, i) ==> Encodable(f.ltype, slots[i].value)
  }

  predicate MessageEncodable(t: MessageType, slots: seq<Slot>, n: nat)
    requires MessageTyped(t, slots) && n <= |slots|
    decreases t, 3
  {
    forall i :: 0 <= i < n ==> FieldEncodable(t, slots, i)
  }
}
