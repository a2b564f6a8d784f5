/** The order of fields on the wire (pb_decode.c): fields may come in any order, and of repeated
    occurrences the last one counts. */
module PbOrder {
  import opened Coding
  import opened PbDecode
  import opened PbEncode
  import opened PbRequired
  import opened PbRoundTrip
  import opened PbTypes
  import opened PbWire
  import Sequences

  /** A field with one value that is no message, and a value that can be read back. */
  ghost predicate IsSingle(t: MessageType, i: nat, v: Value) {
    && DescriptorOk(t) && i < |t.fields| && !IsArray(t.fields[i]) && !t.fields[i].ltype.Nested?
    && Good(t.fields[i].ltype, v)
  }

  /** The field as it is on the wire. */
  function OnWire(f: Field, v: Value): Bytes
    requires Typed(f.ltype, v)
  {
    TagBytes(f.tag, WireType(f.ltype)) + ValueBytes(f.ltype, v)
  }

  /** The message with this value in field i; the others of its oneof are unset. */
  function WithValue(t: MessageType, d: Progress, i: nat, v: Value): Progress
    requires i < |t.fields| && ProgressOk(t, d)
  {
    d.(slots := (if t.fields[i].htype.OneOf? then ClearOthers(t, d.slots, i) else d.slots)[i := One(true, v)],
       seen := if IsTracked(t, i) then d.seen + {RequiredBefore(t.fields, i)} else d.seen)
  }

  lemma WithValueIsOk(t: MessageType, d: Progress, i: nat, v: Value)
    requires i < |t.fields| && ProgressOk(t, d) && !IsArray(t.fields[i]) && Shape(t.fields[i].ltype, v)
    ensures ProgressOk(t, WithValue(t, d, i, v))
  {
    assert SlotShape(t, i, One(true, v));
  }

  /** Wherever it comes, a field is read, and its value takes the place of what was there. */
  lemma FieldIsSet(t: MessageType, i: nat, v: Value, rest: Bytes, d: Progress)
    requires IsSingle(t, i, v) && ProgressOk(t, d)
    ensures var now := WithValue(t, d, i, NormalValue(t.fields[i].ltype, v));
            ProgressOk(t, now) && DecodeFields(t, OnWire(t.fields[i], v) + rest, d) == DecodeFields(t, rest, now)
  {
    hide DecodeFields, ValueBytes, TagBytes, RequiredBefore, DescriptorOk, MessageShape, ClearOthers;
    var f := t.fields[i];
    NormalHasShape(f.ltype, v);
    WithValueIsOk(t, d, i, NormalValue(f.ltype, v));
    Sequences.Associates(TagBytes(f.tag, WireType(f.ltype)), ValueBytes(f.ltype, v), rest);
    TagLeadsToField(t, i, WireType(f.ltype), ValueBytes(f.ltype, v) + rest, d);
    HasSlotShape(t, i, d);
    DefaultHasShape(f.ltype);
    ScalarRoundTrip(f.ltype, v, rest, Under(f, d.slots[i]));
  }

  lemma HasSlotShape(t: MessageType, i: nat, d: Progress)
    requires i < |t.fields| && ProgressOk(t, d)
    ensures |d.slots| == |t.fields| && SlotShape(t, i, d.slots[i])
  {
  }

  predicate SameOneOf(t: MessageType, i: nat, j: nat)
    requires i < |t.fields| && j < |t.fields|
  {
    t.fields[i].htype.OneOf? && t.fields[i].htype == t.fields[j].htype
  }

  lemma ValuesCommute(t: MessageType, d: Progress, i: nat, v: Value, j: nat, w: Value)
    requires i < |t.fields| && j < |t.fields| && i != j && !SameOneOf(t, i, j) && ProgressOk(t, d)
    requires ProgressOk(t, WithValue(t, d, i, v)) && ProgressOk(t, WithValue(t, d, j, w))
    ensures WithValue(t, WithValue(t, d, i, v), j, w) == WithValue(t, WithValue(t, d, j, w), i, v)
  {
    hide RequiredBefore;
    var a, b := WithValue(t, WithValue(t, d, i, v), j, w), WithValue(t, WithValue(t, d, j, w), i, v);
    forall k | 0 <= k < |t.fields| ensures a.slots[k] == b.slots[k] {}
    assert a.slots == b.slots;
    assert a.seen == b.seen;
  }

  /** A later value of the field, or of its oneof, hides an earlier one. */
  lemma LaterHidesEarlier(t: MessageType, d: Progress, i: nat, v: Value, j: nat, w: Value)
    requires i < |t.fields| && j < |t.fields| && (i == j || SameOneOf(t, i, j)) && ProgressOk(t, d)
    requires ProgressOk(t, WithValue(t, d, i, v))
    ensures WithValue(t, WithValue(t, d, i, v), j, w) == WithValue(t, d, j, w)
  {
    hide RequiredBefore;
    var a, b := WithValue(t, WithValue(t, d, i, v), j, w), WithValue(t, d, j, w);
    forall k | 0 <= k < |t.fields| ensures a.slots[k] == b.slots[k] {}
    assert a.slots == b.slots;
  }

  /** Two fields that do not share a oneof may come in either order; two values of one field, or of one
      oneof, have the effect of the last. */
  lemma OrderOnWire(t: MessageType, i: nat, v: Value, j: nat, w: Value, rest: Bytes, d: Progress)
    requires IsSingle(t, i, v) && IsSingle(t, j, w) && ProgressOk(t, d)
    ensures var one, two := OnWire(t.fields[i], v), OnWire(t.fields[j], w);
            if i == j || SameOneOf(t, i, j) then
              DecodeFields(t, one + (two + rest), d) == DecodeFields(t, two + rest, d)
            else DecodeFields(t, one + (two + rest), d) == DecodeFields(t, two + (one + rest), d)
  {
    hide DecodeFields, OnWire, WithValue, DescriptorOk;
    var one, two := OnWire(t.fields[i], v), OnWire(t.fields[j], w);
    var x, y := NormalValue(t.fields[i].ltype, v), NormalValue(t.fields[j].ltype, w);
    FieldIsSet(t, i, v, two + rest, d);
    FieldIsSet(t, j, w, rest, WithValue(t, d, i, x));
    FieldIsSet(t, j, w, one + rest, d);
    FieldIsSet(t, j, w, rest, d);
    FieldIsSet(t, i, v, rest, WithValue(t, d, j, y));
    if i == j || SameOneOf(t, i, j) {
      LaterHidesEarlier(t, d, i, x, j, y);
    } else {
      ValuesCommute(t, d, i, x, j, y);
    }
  }
}
