/** Required fields of nanopb: what pb_decode_noinit checks at its end, said of the tags in the bytes
    (pb_decode.c). */
module PbRequired {
  import opened Coding
  import opened PbDecode
  import opened PbEncode
  import opened PbRoundTrip
  import opened PbTypes
  import opened PbWire
  import opened Wrappers
  import Sequences

  // ---------------------------------------------------------------- the tags of a message

  predicate IsArray(f: Field) {
    f.htype.Repeated? || f.htype.FixedCount?
  }

  /** The wire type by which the decoder takes the value of a field.  Only packed arrays are told from the
      wire type on the wire; otherwise the decoder follows the type of the field. */
  function TakenAs(f: Field, wt: nat): nat {
    if IsArray(f) && wt == WT_STRING && Packable(f.ltype) then WT_STRING else WireType(f.ltype)
  }

  /** What is left behind a value: known fields are as long as their type says, others as long as the
      wire type says. */
  function BehindValue(t: MessageType, tag: nat, wt: nat, s: Bytes): (r: Option<Bytes>)
    ensures r.Some? ==> |r.value| <= |s|
  {
    match FindField(t.fields, tag)
    case None => SkipField(wt, s)
    case Some(i) => SkipField(TakenAs(t.fields[i], wt), s)
  }

  /** The tags at the top level of the bytes, up to the end or a zero tag. */
  function TopTags(t: MessageType, s: Bytes): set<nat>
    decreases |s|
  {
    if s == [] then {}
    else
      match ReadVarint32(s)
      case None => {}
      case Some(p) =>
        if p.value == 0 then {}
        else
          match BehindValue(t, p.value / 8, p.value % 8, p.rest)
          case None => {p.value / 8}
          case Some(rest) => {p.value / 8} + TopTags(t, rest)
  }

  /** A required field that is tracked: one of the first 64. */
  predicate IsTracked(t: MessageType, i: nat) {
    i < |t.fields| && t.fields[i].htype.Required? && RequiredBefore(t.fields, i) < MAX_REQUIRED
  }

  // ---------------------------------------------------------------- decoding walks the same way

  lemma {:induction false} VarintIsSkipped(s: Bytes, shift: nat, bits: nat)
    ensures VarintAt(s, shift, bits).Some? ==> SkipVarint(s) == Some(VarintAt(s, shift, bits).value.rest)
  {
    if s != [] {
      VarintIsSkipped(s[1..], shift + 7, bits);
    }
  }

  lemma {:induction false} Varint32IsSkipped(s: Bytes, bitpos: nat, result: nat)
    ensures Varint32From(s, bitpos, result).Some? ==> SkipVarint(s) == Some(Varint32From(s, bitpos, result).value.rest)
  {
    hide Or, Bits32, NextBitpos;
    if s != [] {
      var now := if bitpos >= 32 then result else Or(result, Bits32(s[0], bitpos));
      Varint32IsSkipped(s[1..], NextBitpos(bitpos), now);
    }
  }

  lemma ReadIsSkipped(s: Bytes)
    ensures ReadVarint(s).Some? ==> SkipVarint(s) == Some(ReadVarint(s).value.rest)
    ensures ReadVarint32(s).Some? ==> SkipVarint(s) == Some(ReadVarint32(s).value.rest)
  {
    hide VarintAt, Varint32From;
    VarintIsSkipped(s, 0, 64);
    if s != [] && s[0] >= 128 { Varint32IsSkipped(s[1..], 7, s[0] - 128); }
  }

  /** A value that is decoded is as long as its type says. */
  lemma DecodedIsSkipped(lt: LType, s: Bytes, under: Value)
    requires Shape(lt, under) && DecodeValue(lt, s, under).Some?
    ensures SkipField(WireType(lt), s) == Some(DecodeValue(lt, s, under).value.rest)
  {
    hide ReadVarint, ReadVarint32, TakeString, DecodeMessage, FromString, FromInt, FromUInt, FromSInt, SkipVarint,
      Unfixed;
    ReadIsSkipped(s);
  }

  lemma FieldIsSkipped(t: MessageType, i: nat, wt: nat, s: Bytes, d: Progress)
    requires i < |t.fields| && ProgressOk(t, d) && (t.fields[i].htype.FixedCount? ==> d.fixedField == Some(i))
    requires DecodeField(t, i, wt, s, d).Some?
    ensures SkipField(TakenAs(t.fields[i], wt), s) == Some(DecodeField(t, i, wt, s, d).value.rest)
    ensures DecodeField(t, i, wt, s, d).value.value.seen == d.seen
  {
    hide DecodeValue, DecodePacked, TakeString;
    var f := t.fields[i];
    assert SlotShape(t, i, d.slots[i]);
    DefaultHasShape(f.ltype);
    if IsArray(f) && wt == WT_STRING && Packable(f.ltype) {
    } else {
      DecodedIsSkipped(f.ltype, s, Under(f, d.slots[i]));
    }
  }

  /** Field i is tracked under the index k, and its tag is among these. */
  ghost predicate SeenIn(t: MessageType, tags: set<nat>, k: nat, i: nat) {
    IsTracked(t, i) && RequiredBefore(t.fields, i) == k && t.fields[i].tag in tags
  }

  ghost predicate SeenAs(t: MessageType, tags: set<nat>, before: set<nat>, after: set<nat>) {
    forall k: nat :: k in after <==> k in before || exists i: nat :: SeenIn(t, tags, k, i)
  }

  lemma UnknownTag(t: MessageType, tags: set<nat>, tag: nat, before: set<nat>, after: set<nat>)
    requires FindField(t.fields, tag) == None && SeenAs(t, tags, before, after)
    ensures SeenAs(t, {tag} + tags, before, after)
  {
    hide RequiredBefore;
    forall k: nat, i: nat ensures SeenIn(t, {tag} + tags, k, i) <==> SeenIn(t, tags, k, i) {}
    forall k: nat ensures k in after <==> k in before || exists i: nat :: SeenIn(t, {tag} + tags, k, i) {}
  }

  lemma KnownTag(t: MessageType, tags: set<nat>, at: nat, d: Progress, after: set<nat>)
    requires DescriptorOk(t) && at < |t.fields| && ProgressOk(t, d) && Found(t, at, d).Some?
    requires SeenAs(t, tags, Found(t, at, d).value.seen, after)
    ensures SeenAs(t, {t.fields[at].tag} + tags, d.seen, after)
  {
    hide RequiredBefore, MessageShape, SeenAs;
    var all, found := {t.fields[at].tag} + tags, Found(t, at, d).value;
    forall k: nat, i: nat
      ensures SeenIn(t, all, k, i) <==>
                SeenIn(t, tags, k, i) || (i == at && IsTracked(t, at) && k == RequiredBefore(t.fields, at))
    {
    }
    assert found.seen == if IsTracked(t, at) then d.seen + {RequiredBefore(t.fields, at)} else d.seen;
    MoreSeen(t, tags, all, at, d.seen, found.seen, after);
  }

  lemma MoreSeen(t: MessageType, tags: set<nat>, all: set<nat>, at: nat, before: set<nat>, now: set<nat>,
                 after: set<nat>)
    requires at < |t.fields| && SeenAs(t, tags, now, after)
    requires now == if IsTracked(t, at) then before + {RequiredBefore(t.fields, at)} else before
    requires forall k: nat, i: nat ::
               SeenIn(t, all, k, i) <==>
                 SeenIn(t, tags, k, i) || (i == at && IsTracked(t, at) && k == RequiredBefore(t.fields, at))
    ensures SeenAs(t, all, before, after)
  {
    hide SeenIn, IsTracked, RequiredBefore;
    forall k: nat ensures k in after <==> k in before || exists i: nat :: SeenIn(t, all, k, i) {
      assert SeenIn(t, all, k, at) <==>
               SeenIn(t, tags, k, at) || (IsTracked(t, at) && k == RequiredBefore(t.fields, at));
      if i: nat :| SeenIn(t, tags, k, i) { assert SeenIn(t, all, k, i); }
      if i: nat :| SeenIn(t, all, k, i) { assert i != at ==> SeenIn(t, tags, k, i); }
    }
  }

  /** The required fields that a decoder has seen are those whose tags are there. */
  lemma {:induction false} SeenAreTags(t: MessageType, s: Bytes, d: Progress)
    requires DescriptorOk(t) && ProgressOk(t, d) && DecodeFields(t, s, d).Some?
    ensures SeenAs(t, TopTags(t, s), d.seen, DecodeFields(t, s, d).value.seen)
    decreases |s|
  {
    hide ReadVarint32, DecodeField, SkipField, DescriptorOk, RequiredBefore, SeenAs, Found;
    var after := DecodeFields(t, s, d).value.seen;
    if s == [] || ReadVarint32(s).value.value == 0 {
      NothingSeen(t, d.seen);
    } else {
      var p := ReadVarint32(s).value;
      var tag, wt := p.value / 8, p.value % 8;
      match FindField(t.fields, tag) {
        case None =>
          var rest := SkipField(wt, p.rest).value;
          SeenAreTags(t, rest, d);
          UnknownTag(t, TopTags(t, rest), tag, d.seen, after);
        case Some(i) =>
          var found := Found(t, i, d).value;
          FieldIsSkipped(t, i, wt, p.rest, found);
          var q := DecodeField(t, i, wt, p.rest, found).value;
          SeenAreTags(t, q.rest, q.value);
          KnownTag(t, TopTags(t, q.rest), i, d, after);
      }
    }
  }

  lemma NothingSeen(t: MessageType, seen: set<nat>)
    ensures SeenAs(t, {}, seen, seen)
  {
  }

  // ---------------------------------------------------------------- missing fields are refused

  lemma {:induction false} RequiredGrows(fields: seq<Field>, i: nat, j: nat)
    requires i < j <= |fields| && fields[i].htype.Required?
    ensures RequiredBefore(fields, i) < RequiredBefore(fields, j)
  {
    if i < j - 1 {
      RequiredGrows(fields, i, j - 1);
    }
  }

  /** Every index belongs to a required field. */
  lemma {:induction false} IndexHasField(fields: seq<Field>, n: nat, k: nat) returns (i: nat)
    requires n <= |fields| && k < RequiredBefore(fields, n)
    ensures i < n && fields[i].htype.Required? && RequiredBefore(fields, i) == k
  {
    if k < RequiredBefore(fields, n - 1) {
      i := IndexHasField(fields, n - 1, k);
    } else {
      i := n - 1;
    }
  }

  ghost predicate HasRequired(t: MessageType, tags: set<nat>) {
    forall i: nat :: IsTracked(t, i) ==> t.fields[i].tag in tags
  }

  lemma SeenMeansThere(t: MessageType, tags: set<nat>, d: Progress)
    requires ProgressOk(t, d) && SeenAs(t, tags, {}, d.seen)
    ensures RequiredSeen(t, d) <==> HasRequired(t, tags)
  {
    hide RequiredBefore, MessageShape;
    var n := |t.fields|;
    if RequiredSeen(t, d) {
      forall i: nat | IsTracked(t, i) ensures t.fields[i].tag in tags {
        var k := RequiredBefore(t.fields, i);
        RequiredGrows(t.fields, i, n);
        assert k in d.seen;
        var j: nat :| SeenIn(t, tags, k, j);
        if i < j { RequiredGrows(t.fields, i, j); }
        if j < i { RequiredGrows(t.fields, j, i); }
      }
    }
    if HasRequired(t, tags) {
      forall k: nat | k < RequiredBefore(t.fields, n) && k < MAX_REQUIRED ensures k in d.seen {
        var i := IndexHasField(t.fields, n, k);
        assert IsTracked(t, i) && SeenIn(t, tags, k, i);
      }
    }
  }

  /** A message is accepted exactly when its fields decode, the last fixed-count field is full, and each of
      the first 64 required fields has its tag in the bytes. */
  lemma AcceptedExactly(t: MessageType, s: Bytes, slots: seq<Slot>)
    requires DescriptorOk(t) && MessageShape(t, slots)
    ensures DecodeMessage(t, s, slots).Some? <==>
              var r := DecodeFields(t, s, Progress(slots, {}, None, 0));
              r.Some? && FixedIsFull(t, r.value) && HasRequired(t, TopTags(t, s))
  {
    hide DecodeFields, RequiredSeen, HasRequired, TopTags, SeenAs, DescriptorOk;
    var d := Progress(slots, {}, None, 0);
    if DecodeFields(t, s, d).Some? {
      SeenAreTags(t, s, d);
      SeenMeansThere(t, TopTags(t, s), DecodeFields(t, s, d).value);
    }
  }

  // ---------------------------------------------------------------- leaving a field out

  /** What the encoder would write without field i. */
  function BytesWithout(t: MessageType, slots: seq<Slot>, n: nat, i: nat): Bytes
    requires MessageTyped(t, slots) && n <= |slots|
  {
    if n == 0 then []
    else BytesWithout(t, slots, n - 1, i) + if n - 1 == i then [] else FieldBytes(t, slots, n - 1)
  }

  /** A value that was written is as long as its type says. */
  lemma ValueIsSkipped(lt: LType, v: Value, rest: Bytes)
    requires DescriptorOk(lt) && Typed(lt, v) && Decodable(lt, v, false)
    ensures SkipField(WireType(lt), ValueBytes(lt, v) + rest) == Some(rest)
  {
    hide MessageDecodable, MessageBytes, TakeString, SkipVarint, Varint, SlotTyped, FieldOk;
    match lt {
      case Bool => VarintSkipped(if v.b then 1 else 0, rest);
      case Int(size) =>
        WireRoundTrip(size, v.n);
        VarintSkipped(ToWire(v.n), rest);
      case UInt(_) => VarintSkipped(v.n, rest);
      case SInt(_) => VarintSkipped(ZigZag(v.n), rest);
      case Fixed32 => FixedSkipped(v.n, 4, rest);
      case Fixed64 => FixedSkipped(v.n, 8, rest);
      case Nested(fields) => StringRoundTrip(MessageBytes(lt, v.slots, |fields|), rest);
      case _ => StringRoundTrip(v.bytes, rest);
    }
  }

  lemma VarintSkipped(n: nat, rest: Bytes)
    ensures SkipVarint(Varint(n) + rest) == Some(rest)
  {
    VarintIsWhole(n);
    SkipsVarint(Varint(n), rest);
  }

  lemma {:induction false} VarintIsWhole(n: nat)
    ensures IsVarint(Varint(n))
  {
    if n >= 128 { VarintIsWhole(n / 128); }
  }

  lemma FixedSkipped(n: nat, width: nat, rest: Bytes)
    ensures Take(Fixed(n, width) + rest, width) == Some(Parsed(Fixed(n, width), rest))
  {
  }

  /** A tag with its value behind it adds the tag, and no other. */
  lemma TagAdds(t: MessageType, i: nat, wt: nat, payload: Bytes, rest: Bytes)
    requires DescriptorOk(t) && i < |t.fields| && wt < 8
    requires SkipField(TakenAs(t.fields[i], wt), payload + rest) == Some(rest)
    ensures TopTags(t, TagBytes(t.fields[i].tag, wt) + payload + rest) == {t.fields[i].tag} + TopTags(t, rest)
  {
    hide ReadVarint32, SkipField, TakenAs, TagBytes;
    var f := t.fields[i];
    assert FieldOk(t, i);
    Sequences.Associates(TagBytes(f.tag, wt), payload, rest);
    TagRoundTrip(f.tag, wt, payload + rest);
    FindsField(t.fields, i);
  }

  lemma {:induction false} TaggedAdds(t: MessageType, i: nat, items: seq<Value>, rest: Bytes)
    requires DescriptorOk(t) && i < |t.fields| && !Packable(t.fields[i].ltype)
    requires ItemsTyped(t.fields[i].ltype, items) && ItemsDecodable(t.fields[i].ltype, items, false)
    ensures TopTags(t, TaggedBytes(t.fields[i], items) + rest) <= {t.fields[i].tag} + TopTags(t, rest)
    decreases |items|
  {
    hide TopTags, TagBytes, ValueBytes, DescriptorOk, WireType, SkipField;
    var f := t.fields[i];
    if items == [] {
      assert [] + rest == rest;
    } else {
      var n := |items| - 1;
      var one := TagBytes(f.tag, WireType(f.ltype)) + ValueBytes(f.ltype, items[n]);
      TypeIsOk(t, i);
      ValueIsSkipped(f.ltype, items[n], rest);
      TagAdds(t, i, WireType(f.ltype), ValueBytes(f.ltype, items[n]), rest);
      TaggedAdds(t, i, items[..n], one + rest);
      Sequences.Associates(TaggedBytes(f, items[..n]), one, rest);
    }
  }

  lemma TypeIsOk(t: MessageType, i: nat)
    requires DescriptorOk(t) && i < |t.fields|
    ensures DescriptorOk(t.fields[i].ltype) &&
            (Packable(t.fields[i].ltype) ==> WireType(t.fields[i].ltype) != WT_STRING)
  {
    assert FieldOk(t, i);
  }

  /** A field adds no tag but its own. */
  lemma FieldAdds(t: MessageType, slots: seq<Slot>, i: nat, rest: Bytes)
    requires DescriptorOk(t) && MessageTyped(t, slots) && i < |slots| && FieldDecodable(t, slots, i, false)
    ensures TopTags(t, FieldBytes(t, slots, i) + rest) <= {t.fields[i].tag} + TopTags(t, rest)
  {
    hide TopTags, TagBytes, DescriptorOk, SkipField, MessageTyped, Decodable, ItemsDecodable;
    HasSlot(t, slots, i);
    var f := t.fields[i];
    TypeIsOk(t, i);
    if FieldBytes(t, slots, i) == [] {
      assert [] + rest == rest;
    } else if slots[i].Many? {
      assert FieldBytes(t, slots, i) == ArrayBytes(f, slots[i].items);
      if Packable(f.ltype) {
        var packed := PackedBytes(f.ltype, slots[i].items);
        StringSkipped(packed, rest);
        TagAdds(t, i, WT_STRING, Prefixed(packed), rest);
      } else {
        TaggedAdds(t, i, slots[i].items, rest);
      }
    } else {
      ValueIsSkipped(f.ltype, slots[i].value, rest);
      TagAdds(t, i, WireType(f.ltype), ValueBytes(f.ltype, slots[i].value), rest);
    }
  }

  lemma HasSlot(t: MessageType, slots: seq<Slot>, i: nat)
    requires MessageTyped(t, slots) && i < |slots|
    ensures |slots| == |t.fields| && SlotTyped(t, slots, i)
  {
  }

  lemma StringSkipped(s: Bytes, rest: Bytes)
    requires |s| < TWO_32
    ensures SkipField(WT_STRING, Prefixed(s) + rest) == Some(rest)
  {
    StringRoundTrip(s, rest);
  }

  lemma {:induction false} WithoutHasNoTag(t: MessageType, slots: seq<Slot>, n: nat, i: nat, rest: Bytes)
    requires Written(t, slots) && n <= |slots| && i < |slots| && t.fields[i].tag !in TopTags(t, rest)
    ensures t.fields[i].tag !in TopTags(t, BytesWithout(t, slots, n, i) + rest)
    decreases n
  {
    hide TopTags, FieldBytes, MessageEncodable;
    if n == 0 {
      assert [] + rest == rest;
    } else if n - 1 == i {
      assert BytesWithout(t, slots, n - 1, i) + [] == BytesWithout(t, slots, n - 1, i);
      WithoutHasNoTag(t, slots, n - 1, i, rest);
    } else {
      var one := FieldBytes(t, slots, n - 1);
      FieldAdds(t, slots, n - 1, rest);
      WithoutHasNoTag(t, slots, n - 1, i, one + rest);
      Sequences.Associates(BytesWithout(t, slots, n - 1, i), one, rest);
    }
  }

  /** Without any one of the first 64 required fields, what the encoder writes is refused. */
  lemma LeavingOutIsRefused(t: MessageType, slots: seq<Slot>, i: nat)
    requires Written(t, slots) && IsTracked(t, i)
    ensures Decode(t, BytesWithout(t, slots, |slots|, i)) == None
  {
    hide DecodeMessage, MessageEncodable, BytesWithout, DescriptorOk, MessageTyped, TopTags;
    WrittenIsTyped(t, slots);
    var s := BytesWithout(t, slots, |slots|, i);
    assert s + [] == s;
    EmptyHasNoTags(t);
    WithoutHasNoTag(t, slots, |slots|, i, []);
    DefaultHasShape(t);
    AcceptedExactly(t, s, Defaults(t));
  }

  lemma WrittenIsTyped(t: MessageType, slots: seq<Slot>)
    requires Written(t, slots)
    ensures DescriptorOk(t) && MessageTyped(t, slots) && |slots| == |t.fields|
  {
  }

  lemma EmptyHasNoTags(t: MessageType)
    ensures TopTags(t, []) == {}
  {
  }

  // ---------------------------------------------------------------- wire types

  /** The tags that a reader without a descriptor finds: every value is as long as its wire type says. */
  function PlainTags(s: Bytes): set<nat>
    decreases |s|
  {
    if s == [] then {}
    else
      match ReadVarint32(s)
      case None => {}
      case Some(p) =>
        if p.value == 0 then {}
        else
          match SkipField(p.value % 8, p.rest)
          case None => {p.value / 8}
          case Some(rest) => {p.value / 8} + PlainTags(rest)
  }

  /** Every known field comes with the wire type by which it is taken. */
  predicate WireTypesMatch(t: MessageType, s: Bytes)
    decreases |s|
  {
    if s == [] then true
    else
      match ReadVarint32(s)
      case None => true
      case Some(p) =>
        if p.value == 0 then true
        else
          && (FindField(t.fields, p.value / 8).Some? ==>
                TakenAs(t.fields[FindField(t.fields, p.value / 8).value], p.value % 8) == p.value % 8)
          && match SkipField(p.value % 8, p.rest) case None => true case Some(rest) => WireTypesMatch(t, rest)
  }

  lemma {:induction false} MatchingTagsArePlain(t: MessageType, s: Bytes)
    requires WireTypesMatch(t, s)
    ensures TopTags(t, s) == PlainTags(s)
    decreases |s|
  {
    hide ReadVarint32, SkipField;
    if s != [] && ReadVarint32(s).Some? && ReadVarint32(s).value.value != 0 {
      var p := ReadVarint32(s).value;
      var rest := SkipField(p.value % 8, p.rest);
      if rest.Some? { MatchingTagsArePlain(t, rest.value); }
    }
  }

  /** The decoder does not look at the wire type of a known field: here the first of two required fields
      says that it has four bytes and has one, so that a plain reader does not see the second. */
  lemma WireTypeIsNotChecked()
    ensures var t := Nested([Field(1, Required, UInt(4)), Field(2, Required, UInt(4))]);
            var s := [0x0D, 1, 0x10, 5];
            && Decode(t, s) == Some([One(true, Number(1)), One(true, Number(5))])
            && TopTags(t, s) == {1, 2} && PlainTags(s) == {1}
  {
    hide DecodeFields, DecodeField, TopTags, PlainTags, DecodeMessage;
    var t := Nested([Field(1, Required, UInt(4)), Field(2, Required, UInt(4))]);
    assert TagBytes(1, WT_32BIT) == [0x0D] && TagBytes(2, WT_VARINT) == [0x10];
    assert [0x0D, 1, 0x10, 5] == [0x0D] + [1] + [0x10, 5] && [0x10, 5] == [0x10] + [5] + [];
    BothAreDecoded(t);
    TwoAreOk(t);
    TagAdds(t, 0, WT_32BIT, [1], [0x10, 5]);
    TagAdds(t, 1, WT_VARINT, [5], []);
    EmptyHasNoTags(t);
    OneIsPlain();
  }

  lemma TwoAreOk(t: MessageType)
    requires t == Nested([Field(1, Required, UInt(4)), Field(2, Required, UInt(4))])
    ensures DescriptorOk(t)
    ensures SkipField(TakenAs(t.fields[0], WT_32BIT), [1] + [0x10, 5]) == Some([0x10, 5])
    ensures SkipField(TakenAs(t.fields[1], WT_VARINT), [5] + []) == Some([])
  {
    assert ([1] + [0x10, 5])[1..] == [0x10, 5] && ([5] + [])[1..] == [];
  }

  lemma OneIsPlain()
    ensures PlainTags([0x0D, 1, 0x10, 5]) == {1}
  {
    assert ReadVarint32([0x0D, 1, 0x10, 5]) == Some(Parsed(13, [0x0D, 1, 0x10, 5][1..]));
  }

  /** A small number in a required field is read, whatever the wire type. */
  lemma ReadsRequired(t: MessageType, i: nat, wt: nat, n: nat, rest: Bytes, d: Progress, now: Progress)
    requires DescriptorOk(t) && IsTracked(t, i) && t.fields[i].ltype == UInt(4) && wt < 8 && n < 128
    requires ProgressOk(t, d)
    requires now == d.(slots := d.slots[i := One(true, Number(n))], seen := d.seen + {RequiredBefore(t.fields, i)})
    ensures ProgressOk(t, now)
    ensures DecodeFields(t, TagBytes(t.fields[i].tag, wt) + ([n] + rest), d) == DecodeFields(t, rest, now)
  {
    hide DecodeFields, ReadVarint, RequiredBefore, TagBytes, DescriptorOk;
    TagLeadsToField(t, i, wt, [n] + rest, d);
    assert SlotShape(t, i, d.slots[i]) && SlotShape(t, i, One(true, Number(n)));
    UIntRoundTrip(4, n, rest, d.slots[i].value);
    assert Varint(n) == [n];
  }

  lemma BothAreDecoded(t: MessageType)
    requires t == Nested([Field(1, Required, UInt(4)), Field(2, Required, UInt(4))])
    ensures Decode(t, [0x0D, 1, 0x10, 5]) == Some([One(true, Number(1)), One(true, Number(5))])
  {
    hide DecodeFields;
    TwoAreOk(t);
    DefaultHasShape(t);
    var d := Progress(Defaults(t), {}, None, 0);
    assert RequiredBefore(t.fields, 0) == 0 && RequiredBefore(t.fields, 1) == 1 && RequiredBefore(t.fields, 2) == 2;
    var d1 := d.(slots := d.slots[0 := One(true, Number(1))], seen := {} + {0});
    var d2 := d1.(slots := d1.slots[1 := One(true, Number(5))], seen := {0} + {1});
    assert TagBytes(1, WT_32BIT) == [0x0D] && TagBytes(2, WT_VARINT) == [0x10];
    assert [0x0D, 1, 0x10, 5] == [0x0D] + ([1] + [0x10, 5]) && [0x10, 5] == [0x10] + ([5] + []);
    ReadsRequired(t, 0, WT_32BIT, 1, [0x10, 5], d, d1);
    ReadsRequired(t, 1, WT_VARINT, 5, [], d1, d2);
    NothingLeft(t, d2);
    assert d2.slots == [One(true, Number(1)), One(true, Number(5))];
  }

  lemma NothingLeft(t: MessageType, d: Progress)
    requires ProgressOk(t, d)
    ensures DecodeFields(t, [], d) == Some(d)
  {
  }
}
