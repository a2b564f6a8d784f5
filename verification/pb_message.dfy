/** Whole messages: decoding what was encoded gives the message back. */
module PbMessage {
  import opened Coding
  import opened PbDecode
  import opened PbEncode
  import opened PbRoundTrip
  import opened PbTypes
  import opened PbWire
  import opened Wrappers
  import Sequences

  // ---------------------------------------------------------------- a field that is not an array

  lemma SlotIsDefault(t: MessageType, slots: seq<Slot>, i: nat)
    requires MessageTyped(t, slots) && i < |slots|
    ensures After(t, slots, i).slots[i] == DefaultSlot(t, i)
  {
  }

  /** A field that writes nothing is at its default already. */
  lemma NothingWritten(t: MessageType, slots: seq<Slot>, i: nat)
    requires MessageTyped(t, slots) && i < |slots| && FieldBytes(t, slots, i) == []
    ensures After(t, slots, i + 1) == After(t, slots, i)
  {
    assert SlotTyped(t, slots, i);
    if slots[i].Many? {
      NoItems(t.fields[i], slots[i].items);
    }
    assert NormalSlot(t, slots, i) == DefaultSlot(t, i);
    assert Part(t, slots, i + 1) == Part(t, slots, i);
  }

  lemma NoItems(f: Field, items: seq<Value>)
    requires ItemsTyped(f.ltype, items) && ArrayBytes(f, items) == []
    ensures items == []
  {
  }

  lemma SetsSlot(t: MessageType, slots: seq<Slot>, i: nat)
    requires MessageTyped(t, slots) && i < |slots|
    ensures Part(t, slots, i + 1) == Part(t, slots, i)[i := NormalSlot(t, slots, i)]
  {
  }

  /** Unsetting the other fields of a oneof changes nothing: none of them is set. */
  lemma NothingToClear(t: MessageType, slots: seq<Slot>, i: nat)
    requires MessageTyped(t, slots) && i < |slots| && SlotTyped(t, slots, i) && t.fields[i].htype.OneOf? && slots[i].has
    requires MessageShape(t, Part(t, slots, i))
    ensures ClearOthers(t, Part(t, slots, i), i) == Part(t, slots, i)
  {
    var part := Part(t, slots, i);
    forall k | 0 <= k < |slots| ensures Cleared(t, part, i, k) == part[k] {
      assert SlotTyped(t, slots, i) && SlotTyped(t, slots, k);
      if k < i {
        assert Exclusive(t.fields, slots, k, i);
      }
    }
  }

  lemma DecodesSingle(t: MessageType, i: nat, wt: nat, s: Bytes, found: Progress, v: Value, rest: Bytes)
    requires i < |t.fields| && ProgressOk(t, found) && found.slots[i] == DefaultSlot(t, i) && found.slots[i].One?
    requires !t.fields[i].htype.FixedCount? && Shape(t.fields[i].ltype, Default(t.fields[i].ltype))
    requires DecodeValue(t.fields[i].ltype, s, Default(t.fields[i].ltype)) == Some(Parsed(v, rest))
    ensures var slots := if t.fields[i].htype.OneOf? then ClearOthers(t, found.slots, i) else found.slots;
            && ProgressOk(t, found.(slots := slots[i := One(true, v)]))
            && DecodeField(t, i, wt, s, found) == Some(Parsed(found.(slots := slots[i := One(true, v)]), rest))
  {
    assert Shape(t.fields[i].ltype, v);
    assert SlotShape(t, i, found.slots[i]) && SlotShape(t, i, One(true, v));
  }

  /** The progress behind a single field, from the progress before it. */
  lemma AfterSingle(t: MessageType, slots: seq<Slot>, i: nat) returns (found: Progress)
    requires MessageTyped(t, slots) && i < |slots| && SlotTyped(t, slots, i) && slots[i].One? && IsWritten(t, slots, i)
    requires ProgressOk(t, After(t, slots, i))
    ensures ProgressOk(t, found) && found.slots == After(t, slots, i).slots &&
            Found(t, i, After(t, slots, i)) == Some(found)
    ensures After(t, slots, i + 1) ==
            found.(slots := found.slots[i := One(true, NormalValue(t.fields[i].ltype, slots[i].value))])
  {
    var d := After(t, slots, i);
    SetsSlot(t, slots, i);
    found := Found(t, i, d).value;
    assert found == d.(seen := Tracked(RequiredBefore(t.fields, i + 1)));
  }

  /** Where the decoder stands behind field i, once it has found its value. */
  lemma SingleFieldDone(t: MessageType, slots: seq<Slot>, i: nat, payload: Bytes, rest: Bytes)
    requires MessageTyped(t, slots) && i < |slots| && SlotTyped(t, slots, i) && slots[i].One? && IsWritten(t, slots, i)
    requires ReadsAs(t.fields[i].ltype, payload, NormalValue(t.fields[i].ltype, slots[i].value), rest)
    requires ProgressOk(t, After(t, slots, i)) && ProgressOk(t, After(t, slots, i + 1))
    ensures AtField(t, i, WireType(t.fields[i].ltype), payload + rest, After(t, slots, i)) ==
            DecodeFields(t, rest, After(t, slots, i + 1))
  {
    var found := AfterSingle(t, slots, i);
    SlotIsDefault(t, slots, i);
    DecodesSingle(t, i, WireType(t.fields[i].ltype), payload + rest, found,
                  NormalValue(t.fields[i].ltype, slots[i].value), rest);
    if t.fields[i].htype.OneOf? {
      NothingToClear(t, slots, i);
    }
  }

  // ---------------------------------------------------------------- arrays

  /** The progress when the first k values of array field i have been read. */
  function Filled(t: MessageType, slots: seq<Slot>, i: nat, k: nat): Progress
    requires MessageTyped(t, slots) && i < |slots| && SlotTyped(t, slots, i) && slots[i].Many? && k <= |slots[i].items|
  {
    var d := After(t, slots, i);
    if k == 0 then d else WithItems(t, d, i, NormalItems(t.fields[i].ltype, slots[i].items)[..k])
  }

  /** The progress with these values in array field i, found there for the first time. */
  function WithItems(t: MessageType, d: Progress, i: nat, items: seq<Value>): Progress
    requires i < |t.fields| == |d.slots| && DefaultSlot(t, i).Many?
    requires t.fields[i].htype.FixedCount? ==> |items| <= t.fields[i].htype.count
  {
    if t.fields[i].htype.FixedCount? then
      d.(slots := d.slots[i := Many(Overwritten(DefaultSlot(t, i).items, 0, items))], fixedField := Some(i),
         fixedCount := |items|)
    else d.(slots := d.slots[i := Many(items)])
  }

  lemma AllFilled(t: MessageType, slots: seq<Slot>, i: nat)
    requires MessageTyped(t, slots) && i < |slots| && SlotTyped(t, slots, i) && slots[i].Many?
    ensures Filled(t, slots, i, |slots[i].items|) == After(t, slots, i + 1)
  {
    var items := NormalItems(t.fields[i].ltype, slots[i].items);
    SetsSlot(t, slots, i);
    SlotIsDefault(t, slots, i);
    assert items[..|items|] == items;
    if items == [] {
      assert NormalSlot(t, slots, i) == DefaultSlot(t, i);
      assert Part(t, slots, i)[i := DefaultSlot(t, i)] == Part(t, slots, i);
    } else if t.fields[i].htype.FixedCount? {
      assert Overwritten(DefaultSlot(t, i).items, 0, items) == items;
    }
  }

  lemma WithItemsIsOk(t: MessageType, d: Progress, i: nat, items: seq<Value>)
    requires i < |t.fields| && ProgressOk(t, d) && DefaultSlot(t, i).Many? && ItemsShape(t.fields[i].ltype, items)
    requires t.fields[i].htype.FixedCount? ==> |items| <= t.fields[i].htype.count
    ensures ProgressOk(t, WithItems(t, d, i, items))
  {
    DefaultSlotHasShape(t, i);
    if t.fields[i].htype.FixedCount? {
      OverwrittenHasShape(t.fields[i].ltype, DefaultSlot(t, i).items, 0, items);
    }
  }

  /** An array of which the values `items` have been read, in a message otherwise at d. */
  function Holding(t: MessageType, d: Progress, i: nat, items: seq<Value>): Progress
    requires i < |t.fields| == |d.slots| && DefaultSlot(t, i).Many?
    requires t.fields[i].htype.FixedCount? ==> |items| <= t.fields[i].htype.count
  {
    if items == [] then d else WithItems(t, d, i, items)
  }

  ghost predicate AtArray(t: MessageType, d: Progress, i: nat) {
    && i < |t.fields| && ProgressOk(t, d) && FixedIsFull(t, d)
    && DefaultSlot(t, i).Many? && d.slots[i] == DefaultSlot(t, i)
    && (t.fields[i].htype.FixedCount? ==> d.fixedField != Some(i))
  }

  /** Finding a counted array and putting more values behind those there. */
  lemma AppendsToCounted(t: MessageType, d: Progress, i: nat, items: seq<Value>, more: seq<Value>)
    requires AtArray(t, d, i) && t.fields[i].htype.Repeated? && more != []
    requires ItemsShape(t.fields[i].ltype, items) && ItemsShape(t.fields[i].ltype, more)
    ensures var now := Holding(t, d, i, items);
            && ProgressOk(t, now) && now.slots[i] == Many(items) && Found(t, i, now) == Some(now)
            && Appended(t, i, now, more) == Holding(t, d, i, items + more)
  {
    WithItemsIsOk(t, d, i, items);
    assert DefaultSlot(t, i).items == [];
    assert d.slots[i := Many(items)][i := Many(items + more)] == d.slots[i := Many(items + more)];
  }

  /** The same for an array without a counter. */
  lemma AppendsToFixed(t: MessageType, d: Progress, i: nat, items: seq<Value>, more: seq<Value>)
    requires AtArray(t, d, i) && t.fields[i].htype.FixedCount? && more != []
    requires |items| + |more| <= t.fields[i].htype.count
    requires ItemsShape(t.fields[i].ltype, items) && ItemsShape(t.fields[i].ltype, more)
    ensures var now := Holding(t, d, i, items);
            var found := WithItems(t, d, i, items);
            && ProgressOk(t, now) && ProgressOk(t, found) && Found(t, i, now) == Some(found)
            && found.slots[i].Many? && found.fixedField == Some(i) && found.fixedCount == |items|
            && Appended(t, i, found, more) == Holding(t, d, i, items + more)
  {
    var base := DefaultSlot(t, i).items;
    WithItemsIsOk(t, d, i, items);
    if items == [] {
      assert Overwritten(base, 0, []) == base;
      assert d.slots[i := Many(base)] == d.slots;
    }
    OverwrittenTwice(base, items, more);
    var all := Many(Overwritten(base, 0, items + more));
    assert d.slots[i := Many(Overwritten(base, 0, items))][i := all] == d.slots[i := all];
  }

  lemma OverwrittenTwice(base: seq<Value>, items: seq<Value>, more: seq<Value>)
    requires |items| + |more| <= |base|
    ensures Overwritten(Overwritten(base, 0, items), |items|, more) == Overwritten(base, 0, items + more)
  {
  }

  predicate FitsArray(f: Field, n: nat) {
    match f.htype
    case Repeated(capacity) => n <= capacity
    case FixedCount(count) => n <= count
    case _ => false
  }

  /** The progress found at an array that holds `items`, with room for `more`. */
  lemma FoundArray(t: MessageType, d: Progress, i: nat, items: seq<Value>, more: seq<Value>) returns (found: Progress)
    requires AtArray(t, d, i) && more != [] && FitsArray(t.fields[i], |items| + |more|)
    requires ItemsShape(t.fields[i].ltype, items) && ItemsShape(t.fields[i].ltype, more)
    ensures FitsArray(t.fields[i], |items|) && ProgressOk(t, Holding(t, d, i, items)) && ProgressOk(t, found)
    ensures Found(t, i, Holding(t, d, i, items)) == Some(found) && found.slots[i].Many?
    ensures t.fields[i].htype.FixedCount? ==>
              found.fixedField == Some(i) && found.fixedCount + |more| <= t.fields[i].htype.count
    ensures Room(t, i, found) >= |more|
    ensures Appended(t, i, found, more) == Holding(t, d, i, items + more)
  {
    if t.fields[i].htype.Repeated? {
      AppendsToCounted(t, d, i, items, more);
      found := Holding(t, d, i, items);
    } else {
      AppendsToFixed(t, d, i, items, more);
      found := WithItems(t, d, i, items);
    }
  }

  lemma DecodesPackedField(t: MessageType, i: nat, s: Bytes, found: Progress, packed: Bytes, more: seq<Value>,
                           rest: Bytes)
    requires i < |t.fields| && ProgressOk(t, found) && found.slots[i].Many? && Packable(t.fields[i].ltype)
    requires t.fields[i].htype.FixedCount? ==>
               found.fixedField == Some(i) && found.fixedCount + |more| <= t.fields[i].htype.count
    requires TakeString(s) == Some(Parsed(packed, rest)) && ItemsShape(t.fields[i].ltype, more)
    requires DecodePacked(t.fields[i].ltype, packed, Room(t, i, found)) == Some(more)
    ensures DecodeField(t, i, WT_STRING, s, found) == Some(Parsed(Appended(t, i, found, more), rest))
  {
  }

  lemma DecodesItem(t: MessageType, i: nat, wt: nat, s: Bytes, found: Progress, v: Value, rest: Bytes)
    requires i < |t.fields| && ProgressOk(t, found) && found.slots[i].Many? && !Packable(t.fields[i].ltype)
    requires t.fields[i].htype.FixedCount? ==>
               found.fixedField == Some(i) && found.fixedCount + 1 <= t.fields[i].htype.count
    requires Room(t, i, found) > 0 && Shape(t.fields[i].ltype, Default(t.fields[i].ltype))
    requires DecodeValue(t.fields[i].ltype, s, Default(t.fields[i].ltype)) == Some(Parsed(v, rest))
    ensures ItemsShape(t.fields[i].ltype, [v])
    ensures DecodeField(t, i, wt, s, found) == Some(Parsed(Appended(t, i, found, [v]), rest))
  {
    assert Shape(t.fields[i].ltype, v);
  }

  ghost predicate PacksTo(lt: LType, packed: Bytes, room: nat, items: seq<Value>) {
    room >= |items| ==> DecodePacked(lt, packed, room) == Some(items)
  }

  /** A whole packed array. */
  lemma PackedArrayDone(t: MessageType, d: Progress, i: nat, items: seq<Value>, packed: Bytes, rest: Bytes)
    requires AtArray(t, d, i) && Packable(t.fields[i].ltype) && items != [] && FitsArray(t.fields[i], |items|)
    requires |packed| < TWO_32 && forall room :: PacksTo(t.fields[i].ltype, packed, room, items)
    requires ProgressOk(t, Holding(t, d, i, items))
    ensures AtField(t, i, WT_STRING, Prefixed(packed) + rest, d) == DecodeFields(t, rest, Holding(t, d, i, items))
  {
    var lt := t.fields[i].ltype;
    assert [] + items == items;
    NumbersHaveShape(lt, items);
    var found := FoundArray(t, d, i, [], items);
    StringRoundTrip(packed, rest);
    assert PacksTo(lt, packed, Room(t, i, found), items);
    DecodesPackedField(t, i, Prefixed(packed) + rest, found, packed, items, rest);
  }

  lemma NumbersHaveShape(lt: LType, items: seq<Value>)
    requires Packable(lt)
    ensures ItemsShape(lt, items)
  {
  }

  /** One more value of an array that is not packed. */
  lemma NextItemDone(t: MessageType, d: Progress, i: nat, items: seq<Value>, v: Value, payload: Bytes, rest: Bytes)
    requires AtArray(t, d, i) && !Packable(t.fields[i].ltype) && ReadsAs(t.fields[i].ltype, payload, v, rest)
    requires ItemsShape(t.fields[i].ltype, items) && FitsArray(t.fields[i], |items| + 1)
    requires ProgressOk(t, Holding(t, d, i, items)) && ProgressOk(t, Holding(t, d, i, items + [v]))
    ensures AtField(t, i, WireType(t.fields[i].ltype), payload + rest, Holding(t, d, i, items)) ==
            DecodeFields(t, rest, Holding(t, d, i, items + [v]))
  {
    assert ItemsShape(t.fields[i].ltype, [v]);
    var found := FoundArray(t, d, i, items, [v]);
    DecodesItem(t, i, WireType(t.fields[i].ltype), payload + rest, found, v, rest);
  }

  lemma HoldingIsOk(t: MessageType, d: Progress, i: nat, items: seq<Value>)
    requires AtArray(t, d, i) && ItemsShape(t.fields[i].ltype, items) && FitsArray(t.fields[i], |items|)
    ensures ProgressOk(t, Holding(t, d, i, items))
  {
    WithItemsIsOk(t, d, i, items);
  }

  // ---------------------------------------------------------------- all of it

  /** Every good value is read back, whatever follows it. */
  lemma {:induction false} ValueRoundTrip(lt: LType, v: Value, rest: Bytes)
    requires Good(lt, v)
    ensures ReadsAs(lt, ValueBytes(lt, v), NormalValue(lt, v), rest)
    decreases lt, 3
  {
    DefaultHasShape(lt);
    if lt.Nested? {
      var bytes := MessageBytes(lt, v.slots, |lt.fields|);
      StringRoundTrip(bytes, rest);
      NestedIsGood(lt, v);
      MessageRoundTrip(lt, v.slots);
    } else {
      ScalarRoundTrip(lt, v, rest, Default(lt));
    }
  }

  lemma NestedIsGood(t: MessageType, v: Value)
    requires Good(t, v)
    ensures GoodMessage(t, v.slots)
  {
    assert MessageDecodable(t, v.slots, true);
  }

  lemma {:induction false} MessageRoundTrip(t: MessageType, slots: seq<Slot>)
    requires GoodMessage(t, slots)
    ensures MessageShape(t, Defaults(t))
    ensures DecodeMessage(t, MessageBytes(t, slots, |slots|), Defaults(t)) == Some(Normal(t, slots))
    decreases t, 2
  {
    DefaultHasShape(t);
    var n := |slots|;
    FieldsRoundTrip(t, slots, n, []);
    AfterIsOk(t, slots, n);
    assert MessageBytes(t, slots, n) + [] == MessageBytes(t, slots, n);
    assert After(t, slots, 0) == Progress(Defaults(t), {}, None, 0);
    assert Part(t, slots, n) == Normal(t, slots);
  }

  lemma {:induction false} FieldsRoundTrip(t: MessageType, slots: seq<Slot>, n: nat, rest: Bytes)
    requires GoodUpTo(t, slots, n)
    ensures ProgressOk(t, After(t, slots, 0)) && ProgressOk(t, After(t, slots, n))
    ensures DecodeFields(t, MessageBytes(t, slots, n) + rest, After(t, slots, 0)) ==
            DecodeFields(t, rest, After(t, slots, n))
    decreases t, 1, n
  {
    hide DecodeFields, FieldBytes;
    AfterIsOk(t, slots, 0);
    AfterIsOk(t, slots, n);
    if n == 0 {
      assert [] + rest == rest;
    } else {
      var field := FieldBytes(t, slots, n - 1);
      FieldsRoundTrip(t, slots, n - 1, field + rest);
      FieldRoundTrip(t, slots, n - 1, rest);
      Sequences.Associates(MessageBytes(t, slots, n - 1), field, rest);
    }
  }

  lemma {:induction false} FieldRoundTrip(t: MessageType, slots: seq<Slot>, i: nat, rest: Bytes)
    requires i < |slots| && GoodUpTo(t, slots, i + 1)
    requires ProgressOk(t, After(t, slots, i)) && ProgressOk(t, After(t, slots, i + 1))
    ensures DecodeFields(t, FieldBytes(t, slots, i) + rest, After(t, slots, i)) ==
            DecodeFields(t, rest, After(t, slots, i + 1))
    decreases t, 0
  {
    assert SlotTyped(t, slots, i) && FieldEncodable(t, slots, i) && FieldDecodable(t, slots, i, true) && FieldOk(t, i);
    var f := t.fields[i];
    if FieldBytes(t, slots, i) == [] {
      NothingWritten(t, slots, i);
      assert [] + rest == rest;
    } else if slots[i].Many? {
      assert FieldBytes(t, slots, i) == ArrayBytes(f, slots[i].items);
      ArrayRoundTrip(t, slots, i, rest);
    } else {
      var tag, value := TagBytes(f.tag, WireType(f.ltype)), ValueBytes(f.ltype, slots[i].value);
      ValueRoundTrip(f.ltype, slots[i].value, rest);
      Sequences.Associates(tag, value, rest);
      TagLeadsToField(t, i, WireType(f.ltype), value + rest, After(t, slots, i));
      SingleFieldDone(t, slots, i, value, rest);
    }
  }

  lemma AtArrayField(t: MessageType, slots: seq<Slot>, i: nat)
    requires MessageTyped(t, slots) && i < |slots| && SlotTyped(t, slots, i) && slots[i].Many?
    ensures AtArray(t, After(t, slots, i), i)
    ensures FitsArray(t.fields[i], |slots[i].items|) ==>
              Holding(t, After(t, slots, i), i, NormalItems(t.fields[i].ltype, slots[i].items)) ==
                After(t, slots, i + 1)
  {
    AfterIsOk(t, slots, i);
    SlotIsDefault(t, slots, i);
    AllFilled(t, slots, i);
    var items := NormalItems(t.fields[i].ltype, slots[i].items);
    assert items[..|items|] == items;
  }

  lemma {:induction false} ArrayRoundTrip(t: MessageType, slots: seq<Slot>, i: nat, rest: Bytes)
    requires DescriptorOk(t) && MessageTyped(t, slots) && i < |slots| && SlotTyped(t, slots, i) && slots[i].Many?
    requires FieldEncodable(t, slots, i) && FieldDecodable(t, slots, i, true) && FieldOk(t, i) && slots[i].items != []
    requires ProgressOk(t, After(t, slots, i)) && ProgressOk(t, After(t, slots, i + 1))
    ensures DecodeFields(t, ArrayBytes(t.fields[i], slots[i].items) + rest, After(t, slots, i)) ==
            DecodeFields(t, rest, After(t, slots, i + 1))
    decreases t.fields[i].ltype, 5
  {
    var f, items, d := t.fields[i], slots[i].items, After(t, slots, i);
    AtArrayField(t, slots, i);
    if Packable(f.ltype) {
      var packed := PackedBytes(f.ltype, items);
      forall room: nat ensures PacksTo(f.ltype, packed, room, items) {
        if room >= |items| { PackedRoundTrip(f.ltype, items, room); }
      }
      assert NormalItems(f.ltype, items) == items;
      Sequences.Associates(TagBytes(f.tag, WT_STRING), Prefixed(packed), rest);
      TagLeadsToField(t, i, WT_STRING, Prefixed(packed) + rest, d);
      PackedArrayDone(t, d, i, items, packed, rest);
    } else {
      var n := |items|;
      ItemsRoundTrip(t, d, i, items, n, rest);
      assert items[..n] == items && NormalItems(f.ltype, items)[..n] == NormalItems(f.ltype, items);
    }
  }

  lemma {:induction false} ItemsRoundTrip(t: MessageType, d: Progress, i: nat, items: seq<Value>, k: nat, rest: Bytes)
    requires DescriptorOk(t) && AtArray(t, d, i) && !Packable(t.fields[i].ltype)
    requires k <= |items| && GoodItems(t.fields[i].ltype, items, k) && FitsArray(t.fields[i], |items|)
    ensures ProgressOk(t, Holding(t, d, i, NormalItems(t.fields[i].ltype, items)[..k]))
    ensures DecodeFields(t, TaggedBytes(t.fields[i], items[..k]) + rest, d) ==
            DecodeFields(t, rest, Holding(t, d, i, NormalItems(t.fields[i].ltype, items)[..k]))
    decreases t.fields[i].ltype, 4, k
  {
    hide ValueBytes, DescriptorOk, TagBytes, WireType, NormalValue, WithItems, Overwritten, MessageShape;
    hide DecodeFields;
    var f := t.fields[i];
    var normal := NormalItems(f.ltype, items);
    NormalItemsHaveShape(f.ltype, items);
    HoldingIsOk(t, d, i, normal[..k]);
    if k == 0 {
      assert items[..0] == [] && [] + rest == rest;
    } else {
      var one := TagBytes(f.tag, WireType(f.ltype)) + ValueBytes(f.ltype, items[k - 1]);
      ItemsRoundTrip(t, d, i, items, k - 1, one + rest);
      ValueRoundTrip(f.ltype, items[k - 1], rest);
      assert normal[..k - 1] + [normal[k - 1]] == normal[..k];
      TaggedItemDone(t, d, i, normal[..k - 1], normal[k - 1], ValueBytes(f.ltype, items[k - 1]), rest);
      assert items[..k][..k - 1] == items[..k - 1];
      Sequences.Associates(TaggedBytes(f, items[..k - 1]), one, rest);
    }
  }

  lemma TaggedItemDone(t: MessageType, d: Progress, i: nat, items: seq<Value>, v: Value, payload: Bytes, rest: Bytes)
    requires DescriptorOk(t) && AtArray(t, d, i) && !Packable(t.fields[i].ltype) &&
             ReadsAs(t.fields[i].ltype, payload, v, rest)
    requires ItemsShape(t.fields[i].ltype, items) && FitsArray(t.fields[i], |items| + 1)
    requires ProgressOk(t, Holding(t, d, i, items)) && ProgressOk(t, Holding(t, d, i, items + [v]))
    ensures DecodeFields(t, (TagBytes(t.fields[i].tag, WireType(t.fields[i].ltype)) + payload) + rest,
                         Holding(t, d, i, items)) ==
            DecodeFields(t, rest, Holding(t, d, i, items + [v]))
  {
    var f := t.fields[i];
    Sequences.Associates(TagBytes(f.tag, WireType(f.ltype)), payload, rest);
    TagLeadsToField(t, i, WireType(f.ltype), payload + rest, Holding(t, d, i, items));
    NextItemDone(t, d, i, items, v, payload, rest);
  }

  /** pb_decode undoes pb_encode: presence, counts, the choice of each oneof, values and nested
      messages come back; what was not written is at its default. */
  lemma DecodeUndoesEncode(t: MessageType, slots: seq<Slot>)
    requires GoodMessage(t, slots)
    ensures Decode(t, MessageBytes(t, slots, |slots|)) == Some(Normal(t, slots))
  {
    MessageRoundTrip(t, slots);
  }
}
