/** Whatever bytes come in, a decoded message fits its C struct (pb_decode.c): counts stay within their
    arrays, texts leave room for their terminators, numbers are in range, and of a oneof at most one
    field is set. */
module PbSafe {
  import opened Coding
  import opened PbDecode
  import opened PbEncode
  import opened PbMessage
  import opened PbRoundTrip
  import opened PbTypes
  import opened PbWire
  import opened Wrappers

  // ---------------------------------------------------------------- what fits

  /** Sizes as the generator makes them: integers of 1, 2, 4 or 8 bytes, texts with a place for the
      terminator, and counts that fit pb_size_t. */
  predicate Generated(lt: LType)
    decreases lt
  {
    match lt
    case Int(size) => IntSize(size)
    case UInt(size) => IntSize(size)
    case SInt(size) => IntSize(size)
    case Text(size) => 1 <= size <= SIZE_MAX
    case FixedBytes(size) => size <= SIZE_MAX
    case Nested(fields) => forall i :: 0 <= i < |fields| ==> FieldGenerated(fields[i])
    case _ => true
  }

  predicate FieldGenerated(f: Field)
    decreases f
  {
    (f.htype.Repeated? ==> f.htype.capacity <= SIZE_MAX) && Generated(f.ltype)
  }

  /** The value stays within the memory that the descriptor gives it. */
  ghost predicate Fits(lt: LType, v: Value)
    decreases lt, 3
  {
    match lt
    case ByteArray(capacity) => v.Blob? && |v.bytes| <= capacity && |v.bytes| <= SIZE_MAX
    case Text(size) => v.Blob? && |v.bytes| < size && 0 !in v.bytes
    case Nested(fields) => v.Sub? && MessageFits(lt, v.slots)
    case _ => Typed(lt, v)
  }

  ghost predicate MessageFits(t: MessageType, slots: seq<Slot>)
    decreases t, 2
  {
    && |slots| == |t.fields|
    && (forall i :: 0 <= i < |slots| ==> SlotFits(t, i, slots[i]))
    && forall i, j :: 0 <= i < j < |slots| ==> Exclusive(t.fields, slots, i, j)
  }

  ghost predicate SlotFits(t: MessageType, i: int, slot: Slot)
    requires 0 <= i < |t.fields|
    decreases t, 1
  {
    var f := t.fields[i];
    match f.htype
    case Repeated(capacity) => slot.Many? && |slot.items| <= capacity && AllFit(f.ltype, slot.items)
    case FixedCount(count) => slot.Many? && |slot.items| == count && AllFit(f.ltype, slot.items)
    case _ => slot.One? && Fits(f.ltype, slot.value) && (f.htype.Required? || f.htype.Singular? ==> slot.has)
  }

  ghost predicate AllFit(lt: LType, items: seq<Value>)
    decreases lt, 4
  {
    forall k :: 0 <= k < |items| ==> Fits(lt, items[k])
  }

  lemma {:induction false} DefaultFits(lt: LType)
    requires Generated(lt)
    ensures Fits(lt, Default(lt))
    decreases lt, 3
  {
    if lt.Nested? { DefaultsFit(lt); }
    if lt.FixedBytes? { assert |Zeros(lt.size)| == lt.size; }
  }

  lemma {:induction false} DefaultsFit(t: MessageType)
    requires Generated(t)
    ensures MessageFits(t, Defaults(t))
    decreases t, 2
  {
    forall i | 0 <= i < |t.fields| ensures SlotFits(t, i, Defaults(t)[i]) {
      assert FieldGenerated(t.fields[i]);
      DefaultFits(t.fields[i].ltype);
    }
  }

  // ---------------------------------------------------------------- decoding keeps it

  lemma ScalarFits(lt: LType, s: Bytes, under: Value)
    requires Generated(lt) && !lt.Nested? && DecodeValue(lt, s, under).Some?
    ensures Fits(lt, DecodeValue(lt, s, under).value.value)
  {
    hide ReadVarint, ReadVarint32, TakeString, UpToNul, FromWire, UnZigZag;
    match lt {
      case Int(size) => IntFits(size, ReadVarint(s).value.value);
      case Fixed32 => UnfixedFits(s[..4]);
      case Fixed64 => UnfixedFits(s[..8]);
      case _ =>
    }
  }

  lemma IntFits(size: nat, v: nat)
    requires IntSize(size) && FromWire(size, v).Some?
    ensures Typed(Int(size), Number(FromWire(size, v).value))
  {
  }

  lemma {:induction false} UnfixedIsBelow(s: Bytes)
    ensures Unfixed(s) < Pow2(8 * |s|)
  {
    if s != [] {
      UnfixedIsBelow(s[1..]);
      Pow2Step(8 * |s|);
    }
  }

  lemma UnfixedFits(s: Bytes)
    ensures |s| == 4 ==> Unfixed(s) < TWO_32
    ensures |s| == 8 ==> Unfixed(s) < TWO_64
  {
    hide Unfixed;
    UnfixedIsBelow(s);
    PowersAre();
  }

  lemma AppendFit(lt: LType, items: seq<Value>, more: seq<Value>)
    requires AllFit(lt, items) && AllFit(lt, more)
    ensures AllFit(lt, items + more)
  {
    hide Fits;
    forall k | 0 <= k < |items + more| ensures Fits(lt, (items + more)[k]) {
      assert (items + more)[k] == if k < |items| then items[k] else more[k - |items|];
    }
  }

  lemma OverwrittenFit(lt: LType, items: seq<Value>, n: nat, more: seq<Value>)
    requires n + |more| <= |items| && AllFit(lt, items) && AllFit(lt, more)
    ensures AllFit(lt, Overwritten(items, n, more))
  {
    hide Fits;
    var now := Overwritten(items, n, more);
    forall k | 0 <= k < |now| ensures Fits(lt, now[k]) {
      assert now[k] == if k < n then items[k] else if k < n + |more| then more[k - n] else items[k];
    }
  }

  /** A message stays fitting when one slot is replaced by a fitting one that sets no field of a oneof. */
  lemma ManyFits(t: MessageType, slots: seq<Slot>, i: nat, items: seq<Value>)
    requires MessageFits(t, slots) && i < |slots| && SlotFits(t, i, Many(items))
    ensures MessageFits(t, slots[i := Many(items)])
  {
    hide SlotFits;
    var now := slots[i := Many(items)];
    forall j, k | 0 <= j < k < |now| ensures Exclusive(t.fields, now, j, k) {
      assert Exclusive(t.fields, slots, j, k);
    }
  }

  lemma OneFits(t: MessageType, slots: seq<Slot>, i: nat, v: Value)
    requires Generated(t) && MessageFits(t, slots) && MessageShape(t, slots) && i < |slots|
    requires SlotFits(t, i, One(true, v))
    ensures var cleared := if t.fields[i].htype.OneOf? then ClearOthers(t, slots, i) else slots;
            MessageFits(t, cleared[i := One(true, v)])
  {
    hide Generated, MessageShape, Fits;
    var cleared := if t.fields[i].htype.OneOf? then ClearOthers(t, slots, i) else slots;
    var now := cleared[i := One(true, v)];
    forall k | 0 <= k < |now| ensures SlotFits(t, k, now[k]) {
      assert SlotFits(t, k, slots[k]);
      TypeIsGenerated(t, k);
      DefaultFits(t.fields[k].ltype);
    }
    forall j, k | 0 <= j < k < |now| ensures Exclusive(t.fields, now, j, k) {
      assert Exclusive(t.fields, slots, j, k);
    }
  }

  lemma TypeIsGenerated(t: MessageType, i: nat)
    requires Generated(t) && i < |t.fields|
    ensures Generated(t.fields[i].ltype)
  {
    assert FieldGenerated(t.fields[i]);
  }

  lemma {:induction false} ValueFits(lt: LType, s: Bytes, under: Value)
    requires Generated(lt) && Fits(lt, under) && Shape(lt, under) && DecodeValue(lt, s, under).Some?
    ensures Fits(lt, DecodeValue(lt, s, under).value.value)
    decreases lt, 5
  {
    if lt.Nested? {
      MessageDecodesFitting(lt, TakeString(s).value.value, under.slots);
    } else {
      ScalarFits(lt, s, under);
    }
  }

  lemma {:induction false} PackedFits(lt: LType, s: Bytes, room: nat)
    requires Generated(lt) && DecodePacked(lt, s, room).Some?
    ensures AllFit(lt, DecodePacked(lt, s, room).value)
    decreases lt, 6, room
  {
    hide DecodeValue, Fits, Generated;
    if s != [] {
      DefaultHasShape(lt);
      DefaultFits(lt);
      ValueFits(lt, s, Default(lt));
      var p := DecodeValue(lt, s, Default(lt)).value;
      PackedFits(lt, p.rest, room - 1);
      assert AllFit(lt, [p.value]);
      AppendFit(lt, [p.value], DecodePacked(lt, p.rest, room - 1).value);
    }
  }

  lemma {:induction false} FieldDecodesFitting(t: MessageType, i: nat, wt: nat, s: Bytes, d: Progress)
    requires Generated(t) && i < |t.fields| && ProgressOk(t, d) && MessageFits(t, d.slots)
    requires (t.fields[i].htype.FixedCount? ==> d.fixedField == Some(i)) && DecodeField(t, i, wt, s, d).Some?
    ensures MessageFits(t, DecodeField(t, i, wt, s, d).value.value.slots)
    decreases t, 0
  {
    hide DecodeValue, DecodePacked, Fits, Generated, MessageShape, TakeString, Overwritten;
    var f := t.fields[i];
    TypeIsGenerated(t, i);
    SlotHasShape(t, i, d);
    assert SlotFits(t, i, d.slots[i]);
    DefaultHasShape(f.ltype);
    DefaultFits(f.ltype);
    if d.slots[i].Many? && wt == WT_STRING && Packable(f.ltype) {
      var more := DecodePacked(f.ltype, TakeString(s).value.value, Room(t, i, d)).value;
      PackedFits(f.ltype, TakeString(s).value.value, Room(t, i, d));
      AppendedFits(t, i, d, more);
    } else {
      var under := Under(f, d.slots[i]);
      ValueFits(f.ltype, s, under);
      var v := DecodeValue(f.ltype, s, under).value.value;
      if d.slots[i].Many? {
        assert ItemsShape(f.ltype, [v]) && AllFit(f.ltype, [v]);
        AppendedFits(t, i, d, [v]);
      } else {
        OneFits(t, d.slots, i, v);
      }
    }
  }

  lemma SlotHasShape(t: MessageType, i: nat, d: Progress)
    requires i < |t.fields| && ProgressOk(t, d)
    ensures |d.slots| == |t.fields| && SlotShape(t, i, d.slots[i])
  {
  }

  lemma AppendedFits(t: MessageType, i: nat, d: Progress, more: seq<Value>)
    requires i < |t.fields| && ProgressOk(t, d) && MessageFits(t, d.slots) && d.slots[i].Many?
    requires ItemsShape(t.fields[i].ltype, more) && AllFit(t.fields[i].ltype, more)
    requires (t.fields[i].htype.FixedCount? ==> d.fixedField == Some(i)) && |more| <= Room(t, i, d)
    ensures MessageFits(t, Appended(t, i, d, more).slots)
  {
    hide Fits, MessageShape, Overwritten;
    var lt, items := t.fields[i].ltype, d.slots[i].items;
    assert SlotFits(t, i, d.slots[i]);
    if t.fields[i].htype.FixedCount? {
      OverwrittenFit(lt, items, d.fixedCount, more);
      ManyFits(t, d.slots, i, Overwritten(items, d.fixedCount, more));
    } else {
      AppendFit(lt, items, more);
      ManyFits(t, d.slots, i, items + more);
    }
  }

  lemma {:induction false} FieldsDecodeFitting(t: MessageType, s: Bytes, d: Progress)
    requires Generated(t) && ProgressOk(t, d) && MessageFits(t, d.slots) && DecodeFields(t, s, d).Some?
    ensures MessageFits(t, DecodeFields(t, s, d).value.slots)
    decreases t, 1, |s|
  {
    hide ReadVarint32, DecodeField, SkipField, MessageShape, Generated, MessageFits;
    if s != [] && ReadVarint32(s).value.value != 0 {
      var p := ReadVarint32(s).value;
      match FindField(t.fields, p.value / 8) {
        case None => FieldsDecodeFitting(t, SkipField(p.value % 8, p.rest).value, d);
        case Some(i) =>
          var found := Found(t, i, d).value;
          FieldDecodesFitting(t, i, p.value % 8, p.rest, found);
          var q := DecodeField(t, i, p.value % 8, p.rest, found).value;
          FieldsDecodeFitting(t, q.rest, q.value);
      }
    }
  }

  /** Decoding on top of a message that fits leaves a message that fits. */
  lemma {:induction false} MessageDecodesFitting(t: MessageType, s: Bytes, slots: seq<Slot>)
    requires Generated(t) && MessageFits(t, slots) && MessageShape(t, slots)
    ensures DecodeMessage(t, s, slots).Some? ==> MessageFits(t, DecodeMessage(t, s, slots).value)
    decreases t, 2
  {
    hide DecodeFields, Generated, MessageFits;
    if DecodeMessage(t, s, slots).Some? {
      FieldsDecodeFitting(t, s, Progress(slots, {}, None, 0));
    }
  }

  /** Whatever the bytes are, what is decoded fits. */
  lemma DecodedFits(t: MessageType, s: Bytes)
    requires Generated(t)
    ensures Decode(t, s).Some? ==> MessageFits(t, Decode(t, s).value)
  {
    hide DecodeMessage, MessageFits, Generated;
    DefaultsFit(t);
    DefaultHasShape(t);
    MessageDecodesFitting(t, s, Defaults(t));
  }

  // ---------------------------------------------------------------- and can be encoded again

  lemma {:induction false} FittingIsTyped(lt: LType, v: Value)
    requires Generated(lt) && Fits(lt, v)
    ensures Typed(lt, v) && Encodable(lt, v)
    decreases lt, 3
  {
    if lt.Nested? { FittingMessageIsTyped(lt, v.slots); }
  }

  lemma {:induction false} FittingItemsAreTyped(lt: LType, items: seq<Value>)
    requires Generated(lt) && AllFit(lt, items)
    ensures ItemsTyped(lt, items) && ItemsEncodable(lt, items)
    decreases lt, 4
  {
    forall k | 0 <= k < |items| ensures Typed(lt, items[k]) && Encodable(lt, items[k]) {
      FittingIsTyped(lt, items[k]);
    }
  }

  lemma {:induction false} FittingSlotIsTyped(t: MessageType, slots: seq<Slot>, i: nat)
    requires Generated(t) && MessageFits(t, slots) && i < |slots|
    ensures SlotTyped(t, slots, i)
    ensures if slots[i].Many? then ItemsEncodable(t.fields[i].ltype, slots[i].items)
            else Encodable(t.fields[i].ltype, slots[i].value)
    decreases t, 1
  {
    assert SlotFits(t, i, slots[i]) && FieldGenerated(t.fields[i]);
    if slots[i].Many? {
      FittingItemsAreTyped(t.fields[i].ltype, slots[i].items);
    } else {
      FittingIsTyped(t.fields[i].ltype, slots[i].value);
    }
  }

  lemma {:induction false} FittingMessageIsTyped(t: MessageType, slots: seq<Slot>)
    requires Generated(t) && MessageFits(t, slots)
    ensures MessageTyped(t, slots) && MessageEncodable(t, slots, |slots|)
    decreases t, 2
  {
    hide Generated, SlotTyped, Encodable, ItemsEncodable;
    forall i | 0 <= i < |slots| ensures SlotTyped(t, slots, i) {
      FittingSlotIsTyped(t, slots, i);
    }
    assert MessageTyped(t, slots);
    forall i | 0 <= i < |slots| ensures FieldEncodable(t, slots, i) {
      FittingSlotIsTyped(t, slots, i);
      assert SlotFits(t, i, slots[i]);
    }
  }

  lemma {:induction false} FittingHasRoom(lt: LType, v: Value)
    requires Typed(lt, v) && Fits(lt, v) && Decodable(lt, v, false)
    ensures Decodable(lt, v, true)
    decreases lt, 3
  {
    if lt.Nested? { FittingMessageHasRoom(lt, v.slots); }
  }

  lemma {:induction false} FittingItemsHaveRoom(lt: LType, items: seq<Value>)
    requires ItemsTyped(lt, items) && AllFit(lt, items) && ItemsDecodable(lt, items, false)
    ensures ItemsDecodable(lt, items, true)
    decreases lt, 4
  {
    forall k | 0 <= k < |items| ensures Decodable(lt, items[k], true) {
      FittingHasRoom(lt, items[k]);
    }
  }

  lemma {:induction false} FittingMessageHasRoom(t: MessageType, slots: seq<Slot>)
    requires MessageTyped(t, slots) && MessageFits(t, slots) && MessageDecodable(t, slots, false)
    ensures MessageDecodable(t, slots, true)
    decreases t, 2
  {
    hide Decodable, ItemsDecodable, Fits, AllFit, Typed, ItemsTyped, PackedBytes;
    forall i: nat | i < |slots| ensures FieldDecodable(t, slots, i, true) {
      assert SlotTyped(t, slots, i) && SlotFits(t, i, slots[i]) && FieldDecodable(t, slots, i, false);
      if slots[i].Many? {
        FittingItemsHaveRoom(t.fields[i].ltype, slots[i].items);
      } else if IsWritten(t, slots, i) {
        FittingHasRoom(t.fields[i].ltype, slots[i].value);
      }
    }
  }

  /** What was decoded, whatever from, can be encoded and decoded again: it comes back, if no part of the
      encoding is 4GB long. */
  lemma DecodedIsReadBack(t: MessageType, s: Bytes)
    requires DescriptorOk(t) && Generated(t) && Decode(t, s).Some?
    ensures var slots := Decode(t, s).value;
            && MessageTyped(t, slots) && MessageEncodable(t, slots, |slots|)
            && (MessageDecodable(t, slots, false) ==>
                  Decode(t, MessageBytes(t, slots, |slots|)) == Some(Normal(t, slots)))
  {
    hide DecodeMessage, MessageFits, Generated, DescriptorOk, MessageTyped, MessageEncodable, MessageDecodable,
      MessageBytes, FieldDecodable;
    var slots := Decode(t, s).value;
    DecodedFits(t, s);
    FittingMessageIsTyped(t, slots);
    if MessageDecodable(t, slots, false) {
      FittingMessageHasRoom(t, slots);
      HasAllFields(t, slots);
      DecodeUndoesEncode(t, slots);
    }
  }

  lemma HasAllFields(t: MessageType, slots: seq<Slot>)
    requires MessageTyped(t, slots) && MessageDecodable(t, slots, true)
    ensures forall i :: 0 <= i < |slots| ==> FieldDecodable(t, slots, i, true)
  {
  }
}
