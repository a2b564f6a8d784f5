/** Messages and message descriptors of nanopb (pb.h), for static fields without callbacks.  A
    message is a typed record over a list of fields; a descriptor may contain descriptors. */
module PbTypes {
  import opened Coding
  import opened Wrappers

  /** PB_LTYPE.  Integer sizes are in bytes; the size of a text counts its terminator. */
  datatype LType =
    | Bool
    | Int(size: nat)
    | UInt(size: nat)
    | SInt(size: nat)
    | Fixed32
    | Fixed64
    | ByteArray(capacity: nat)
    | Text(size: nat)
    | FixedBytes(size: nat)
    | Nested(fields: seq<Field>)

  /** PB_HTYPE.  Optional fields have a has_ flag, singular ones (proto3) do not; repeated fields have
      a count, fixed ones always hold all their elements; the fields of a oneof share a which_ tag. */
  datatype HType = Required | Optional | Singular | Repeated(capacity: nat) | FixedCount(count: nat) | OneOf(group: nat)

  datatype Field = Field(tag: nat, htype: HType, ltype: LType)

  /** The descriptor of a message. */
  type MessageType = t: LType | t.Nested? witness Nested([])

  datatype Value = Flag(b: bool) | Number(n: int) | Blob(bytes: Bytes) | Sub(slots: seq<Slot>)

  /** The part of a message that belongs to one field.  `has` is the has_ flag, or that the which_ tag
      of a oneof is this field's; fields that are always there have it set. */
  datatype Slot = One(has: bool, value: Value) | Many(items: seq<Value>)

  /** PB_SIZE_MAX of a default build: pb_size_t has eight bits. */
  const SIZE_MAX := 255

  const TWO_32 := 0x1_0000_0000

  const TWO_64 := 0x1_0000_0000_0000_0000

  /** How many values an integer of that many bytes has. */
  function Range(size: nat): nat {
    if size == 1 then 0x100 else if size == 2 then 0x1_0000 else if size == 4 then TWO_32 else TWO_64
  }

  predicate IntSize(size: nat) {
    size == 1 || size == 2 || size == 4 || size == 8
  }

  // ---------------------------------------------------------------- what a C struct can hold

  ghost predicate Typed(lt: LType, v: Value)
    decreases lt, 3
  {
    match lt
    case Bool => v.Flag?
    case Int(size) => v.Number? && IntSize(size) && 0 <= 2 * v.n + Range(size) < 2 * Range(size)
    case UInt(size) => v.Number? && IntSize(size) && 0 <= v.n < Range(size)
    case SInt(size) => v.Number? && IntSize(size) && 0 <= 2 * v.n + Range(size) < 2 * Range(size)
    case Fixed32 => v.Number? && 0 <= v.n < TWO_32
    case Fixed64 => v.Number? && 0 <= v.n < TWO_64
    case ByteArray(_) => v.Blob? && |v.bytes| <= SIZE_MAX
    case Text(size) => v.Blob? && |v.bytes| <= size && 0 !in v.bytes
    case FixedBytes(size) => v.Blob? && |v.bytes| == size <= SIZE_MAX
    case Nested(fields) => v.Sub? && MessageTyped(lt, v.slots)
  }

  ghost predicate MessageTyped(t: MessageType, slots: seq<Slot>)
    decreases t, 2
  {
    && |slots| == |t.fields|
    && (forall i :: 0 <= i < |slots| ==> SlotTyped(t, slots, i))
    && forall i, j :: 0 <= i < j < |slots| ==> Exclusive(t.fields, slots, i, j)
  }

  ghost predicate SlotTyped(t: MessageType, slots: seq<Slot>, i: int)
    requires 0 <= i < |slots| == |t.fields|
    decreases t, 1
  {
    var f := t.fields[i];
    match f.htype
    case Repeated(_) => slots[i].Many? && |slots[i].items| <= SIZE_MAX && ItemsTyped(f.ltype, slots[i].items)
    case FixedCount(count) => slots[i].Many? && |slots[i].items| == count && ItemsTyped(f.ltype, slots[i].items)
    case _ =>
      slots[i].One? && Typed(f.ltype, slots[i].value) && (f.htype.Required? || f.htype.Singular? ==> slots[i].has)
  }

  ghost predicate ItemsTyped(lt: LType, items: seq<Value>)
    decreases lt, 4
  {
    forall k :: 0 <= k < |items| ==> Typed(lt, items[k])
  }

  /** Of the fields of one oneof at most one is set. */
  predicate Exclusive(fields: seq<Field>, slots: seq<Slot>, i: int, j: int)
    requires 0 <= i < j < |slots| == |fields|
  {
    fields[i].htype.OneOf? && fields[i].htype == fields[j].htype && slots[i].One? && slots[j].One? ==>
      !(slots[i].has && slots[j].has)
  }

  /** A descriptor as the generator makes it: tags are distinct, nonzero and fit the wire, and the
      sizes of integers and inline arrays fit the struct. */
  predicate DescriptorOk(lt: LType)
    decreases lt, 1
  {
    match lt
    case FixedBytes(size) => size <= SIZE_MAX
    case Text(size) => size <= SIZE_MAX
    case Nested(fields) =>
      && (forall i :: 0 <= i < |fields| ==> FieldOk(lt, i))
      && forall i, j :: 0 <= i < j < |fields| ==> fields[i].tag != fields[j].tag
    case _ => true
  }

  predicate FieldOk(t: MessageType, i: nat)
    requires i < |t.fields|
    decreases t, 0
  {
    0 < t.fields[i].tag && 8 * t.fields[i].tag + 7 < TWO_32 && DescriptorOk(t.fields[i].ltype)
  }

  // ---------------------------------------------------------------- defaults

  /** pb_field_set_to_default: zeros, recursively. */
  function Default(lt: LType): Value
    decreases lt, 2
  {
    match lt
    case Bool => Flag(false)
    case Int(_) => Number(0)
    case UInt(_) => Number(0)
    case SInt(_) => Number(0)
    case Fixed32 => Number(0)
    case Fixed64 => Number(0)
    case ByteArray(_) => Blob([])
    case Text(_) => Blob([])
    case FixedBytes(size) => Blob(Zeros(size))
    case Nested(_) => Sub(Defaults(lt))
  }

  /** pb_message_set_to_defaults. */
  function Defaults(t: MessageType): (slots: seq<Slot>)
    ensures |slots| == |t.fields|
    decreases t, 1
  {
    seq(|t.fields|, i requires 0 <= i < |t.fields| => DefaultSlot(t, i))
  }

  function DefaultSlot(t: MessageType, i: nat): Slot
    requires i < |t.fields|
    decreases t, 0
  {
    var f := t.fields[i];
    match f.htype
    case Repeated(_) => Many([])
    case FixedCount(count) => Many(seq(count, _ => Default(f.ltype)))
    case _ => One(f.htype.Required? || f.htype.Singular?, Default(f.ltype))
  }
}
