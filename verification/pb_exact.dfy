/** For which messages decoding undoes encoding: a text that fills its array, without room for the
    terminator, is written by the encoder and refused by the decoder (pb_enc_string, pb_dec_string). */
module PbExact {
  import opened Coding
  import opened PbDecode
  import opened PbEncode
  import opened PbMessage
  import opened PbRoundTrip
  import opened PbTypes
  import opened PbWire
  import opened Wrappers
  import Sequences

  /** Written by the encoder, with sizes below 4GB, and yet not decodable. */
  ghost predicate Full(lt: LType, v: Value) {
    DescriptorOk(lt) && Typed(lt, v) && Encodable(lt, v) && Decodable(lt, v, false) && !Decodable(lt, v, true)
  }

  /** These bytes, whatever follows, are refused. */
  ghost predicate Refused(lt: LType, part: Bytes, rest: Bytes) {
    Shape(lt, Default(lt)) && DecodeValue(lt, part + rest, Default(lt)) == None
  }

  // ---------------------------------------------------------------- behind the first fields

  lemma {:induction false} BytesBehind(t: MessageType, slots: seq<Slot>, i: nat, n: nat) returns (rest: Bytes)
    requires MessageTyped(t, slots) && i < n <= |slots|
    ensures MessageBytes(t, slots, n) == MessageBytes(t, slots, i) + (FieldBytes(t, slots, i) + rest)
    decreases n
  {
    hide FieldBytes;
    if n == i + 1 {
      rest := [];
      assert FieldBytes(t, slots, i) + [] == FieldBytes(t, slots, i);
    } else {
      var before := BytesBehind(t, slots, i, n - 1);
      rest := before + FieldBytes(t, slots, n - 1);
      Sequences.Associates(FieldBytes(t, slots, i), before, FieldBytes(t, slots, n - 1));
      Sequences.Associates(MessageBytes(t, slots, i), FieldBytes(t, slots, i) + before, FieldBytes(t, slots, n - 1));
    }
  }

  lemma {:induction false} TaggedBehind(f: Field, items: seq<Value>, k: nat, n: nat) returns (rest: Bytes)
    requires ItemsTyped(f.ltype, items) && k < n <= |items|
    ensures Typed(f.ltype, items[k])
    ensures TaggedBytes(f, items[..n]) ==
            TaggedBytes(f, items[..k]) + (TagBytes(f.tag, WireType(f.ltype)) + ValueBytes(f.ltype, items[k]) + rest)
    decreases n
  {
    hide ValueBytes, TagBytes;
    assert Typed(f.ltype, items[k]) && Typed(f.ltype, items[n - 1]);
    var one := TagBytes(f.tag, WireType(f.ltype)) + ValueBytes(f.ltype, items[k]);
    var last := TagBytes(f.tag, WireType(f.ltype)) + ValueBytes(f.ltype, items[n - 1]);
    assert items[..n][..n - 1] == items[..n - 1];
    if n == k + 1 {
      rest := [];
      assert one + [] == one;
    } else {
      var before := TaggedBehind(f, items, k, n - 1);
      rest := before + last;
      Sequences.Associates(one, before, last);
      Sequences.Associates(TaggedBytes(f, items[..k]), one + before, last);
    }
  }

  // ---------------------------------------------------------------- where decoding stops

  lemma StopsAtSingle(t: MessageType, slots: seq<Slot>, i: nat, payload: Bytes, rest: Bytes)
    requires MessageTyped(t, slots) && i < |slots| && SlotTyped(t, slots, i) && slots[i].One? && IsWritten(t, slots, i)
    requires Refused(t.fields[i].ltype, payload, rest)
    requires ProgressOk(t, After(t, slots, i))
    ensures AtField(t, i, WireType(t.fields[i].ltype), payload + rest, After(t, slots, i)) == None
  {
    var found := AfterSingle(t, slots, i);
    SlotIsDefault(t, slots, i);
    assert SlotShape(t, i, found.slots[i]);
  }

  lemma StopsAtItem(t: MessageType, d: Progress, i: nat, items: seq<Value>, v: Value, payload: Bytes, rest: Bytes)
    requires AtArray(t, d, i) && !Packable(t.fields[i].ltype) && Refused(t.fields[i].ltype, payload, rest)
    requires ItemsShape(t.fields[i].ltype, items) && Shape(t.fields[i].ltype, v) && FitsArray(t.fields[i], |items| + 1)
    requires ProgressOk(t, Holding(t, d, i, items))
    ensures AtField(t, i, WireType(t.fields[i].ltype), payload + rest, Holding(t, d, i, items)) == None
  {
    assert ItemsShape(t.fields[i].ltype, [v]);
    var found := FoundArray(t, d, i, items, [v]);
    assert SlotShape(t, i, found.slots[i]);
  }

  // ---------------------------------------------------------------- the refusal travels up

  lemma {:induction false} ValueRefused(lt: LType, v: Value, rest: Bytes)
    requires Full(lt, v)
    ensures Refused(lt, ValueBytes(lt, v), rest)
    decreases lt, 3
  {
    DefaultHasShape(lt);
    if lt.Nested? {
      StringRoundTrip(MessageBytes(lt, v.slots, |lt.fields|), rest);
      NestedIsFull(lt, v);
      MessageRefused(lt, v.slots);
    } else {
      TextRoundTrip(lt.size, v.bytes, rest, Default(lt));
    }
  }

  lemma NestedIsFull(t: MessageType, v: Value)
    requires Full(t, v)
    ensures Written(t, v.slots) && !MessageDecodable(t, v.slots, true)
  {
  }

  lemma {:induction false} MessageRefused(t: MessageType, slots: seq<Slot>)
    requires Written(t, slots) && !MessageDecodable(t, slots, true)
    ensures MessageShape(t, Defaults(t)) && DecodeMessage(t, MessageBytes(t, slots, |slots|), Defaults(t)) == None
    decreases t, 2
  {
    hide DecodeFields, FieldBytes, FieldDecodable;
    DefaultHasShape(t);
    var i := FirstFull(t, slots, |slots|);
    var rest := BytesBehind(t, slots, i, |slots|);
    FieldsRoundTrip(t, slots, i, FieldBytes(t, slots, i) + rest);
    FieldRefused(t, slots, i, rest);
    assert After(t, slots, 0) == Progress(Defaults(t), {}, None, 0);
  }

  /** The first field that cannot be read back. */
  lemma {:induction false} FirstFull(t: MessageType, slots: seq<Slot>, n: nat) returns (i: nat)
    requires Written(t, slots) && n <= |slots| && exists j :: 0 <= j < n && !FieldDecodable(t, slots, j, true)
    ensures i < n && GoodUpTo(t, slots, i) && !FieldDecodable(t, slots, i, true)
  {
    if forall j :: 0 <= j < n - 1 ==> FieldDecodable(t, slots, j, true) {
      i := n - 1;
    } else {
      i := FirstFull(t, slots, n - 1);
    }
  }

  lemma {:induction false} FieldRefused(t: MessageType, slots: seq<Slot>, i: nat, rest: Bytes)
    requires Written(t, slots) && i < |slots| && !FieldDecodable(t, slots, i, true)
    ensures ProgressOk(t, After(t, slots, i))
    ensures DecodeFields(t, FieldBytes(t, slots, i) + rest, After(t, slots, i)) == None
    decreases t, 0
  {
    hide DecodeFields;
    AfterIsOk(t, slots, i);
    assert SlotTyped(t, slots, i) && FieldEncodable(t, slots, i) && FieldDecodable(t, slots, i, false) && FieldOk(t, i);
    var f := t.fields[i];
    if slots[i].Many? {
      ArrayRefused(t, slots, i, rest);
    } else {
      var tag, value := TagBytes(f.tag, WireType(f.ltype)), ValueBytes(f.ltype, slots[i].value);
      ValueRefused(f.ltype, slots[i].value, rest);
      Sequences.Associates(tag, value, rest);
      TagLeadsToField(t, i, WireType(f.ltype), value + rest, After(t, slots, i));
      StopsAtSingle(t, slots, i, value, rest);
    }
  }

  lemma PackableIsDecodable(lt: LType, items: seq<Value>)
    requires ItemsTyped(lt, items) && Packable(lt)
    ensures ItemsDecodable(lt, items, true)
  {
  }

  lemma {:induction false} FirstFullItem(lt: LType, items: seq<Value>, n: nat) returns (k: nat)
    requires DescriptorOk(lt) && ItemsTyped(lt, items) && ItemsEncodable(lt, items) && n <= |items|
    requires exists j :: 0 <= j < n && !Decodable(lt, items[j], true)
    ensures k < n && GoodItems(lt, items, k) && !Decodable(lt, items[k], true)
  {
    if forall j :: 0 <= j < n - 1 ==> Decodable(lt, items[j], true) {
      k := n - 1;
    } else {
      k := FirstFullItem(lt, items, n - 1);
    }
  }

  lemma {:induction false} ArrayRefused(t: MessageType, slots: seq<Slot>, i: nat, rest: Bytes)
    requires DescriptorOk(t) && MessageTyped(t, slots) && i < |slots| && SlotTyped(t, slots, i) && slots[i].Many?
    requires FieldEncodable(t, slots, i) && FieldDecodable(t, slots, i, false) &&
             !FieldDecodable(t, slots, i, true) && FieldOk(t, i)
    requires ProgressOk(t, After(t, slots, i))
    ensures DecodeFields(t, ArrayBytes(t.fields[i], slots[i].items) + rest, After(t, slots, i)) == None
    decreases t.fields[i].ltype, 5
  {
    hide DecodeFields, ValueBytes;
    var f, items, d := t.fields[i], slots[i].items, After(t, slots, i);
    if Packable(f.ltype) { PackableIsDecodable(f.ltype, items); }
    AtArrayField(t, slots, i);
    var n := |items|;
    var k := FirstFullItem(f.ltype, items, n);
    var one := TagBytes(f.tag, WireType(f.ltype)) + ValueBytes(f.ltype, items[k]);
    var behind := TaggedBehind(f, items, k, n);
    assert items[..n] == items;
    ItemsRoundTrip(t, d, i, items, k, one + behind + rest);
    Sequences.Associates(TaggedBytes(f, items[..k]), one + behind, rest);
    Sequences.Associates(one, behind, rest);
    ItemRefused(t, d, i, items, k, behind + rest);
  }

  lemma {:induction false} ItemRefused(t: MessageType, d: Progress, i: nat, items: seq<Value>, k: nat, rest: Bytes)
    requires DescriptorOk(t) && AtArray(t, d, i) && !Packable(t.fields[i].ltype) && k < |items|
    requires GoodItems(t.fields[i].ltype, items, k) && Full(t.fields[i].ltype, items[k]) &&
             FitsArray(t.fields[i], |items|)
    requires ProgressOk(t, Holding(t, d, i, NormalItems(t.fields[i].ltype, items)[..k]))
    ensures DecodeFields(t,
                         TagBytes(t.fields[i].tag, WireType(t.fields[i].ltype)) +
                           ValueBytes(t.fields[i].ltype, items[k]) + rest,
                         Holding(t, d, i, NormalItems(t.fields[i].ltype, items)[..k])) == None
    decreases t.fields[i].ltype, 4
  {
    hide DecodeFields, ValueBytes;
    var f := t.fields[i];
    var normal := NormalItems(f.ltype, items);
    NormalItemsHaveShape(f.ltype, items);
    ValueRefused(f.ltype, items[k], rest);
    Sequences.Associates(TagBytes(f.tag, WireType(f.ltype)), ValueBytes(f.ltype, items[k]), rest);
    TagLeadsToField(t, i, WireType(f.ltype), ValueBytes(f.ltype, items[k]) + rest, Holding(t, d, i, normal[..k]));
    StopsAtItem(t, d, i, normal[..k], normal[k], ValueBytes(f.ltype, items[k]), rest);
  }

  // ---------------------------------------------------------------- exactly

  /** What the encoder writes is read back exactly when every text written leaves room for its
      terminator, at any depth; otherwise decoding fails. */
  lemma DecodeUndoesEncodeExactly(t: MessageType, slots: seq<Slot>)
    requires Written(t, slots)
    ensures Decode(t, MessageBytes(t, slots, |slots|)) ==
            if MessageDecodable(t, slots, true) then Some(Normal(t, slots)) else None
  {
    if MessageDecodable(t, slots, true) {
      DecodeUndoesEncode(t, slots);
    } else {
      MessageRefused(t, slots);
    }
  }
}
