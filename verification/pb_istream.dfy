/** pb_istream_t, the field iterator and the decoding functions over them (pb_decode.c, pb_common.c). */
module PbIStream {
  import opened Coding
  import opened PbDecode
  import opened PbTypes
  import opened PbWire
  import opened Wrappers

  // ---------------------------------------------------------------- the field iterator

  /** pb_field_iter_t over a descriptor with at least one field: it runs round and round, and counts
      the required fields before its position. */
  class FieldIter {
    const fields: seq<Field>
    var pos: nat
    var requiredIndex: nat

    ghost predicate Valid()
      reads this
    {
      pos < |fields| && requiredIndex == RequiredBefore(fields, pos)
    }

    /** pb_field_iter_begin. */
    constructor (fields: seq<Field>)
      requires fields != []
      ensures Valid() && this.fields == fields && pos == 0
    {
      this.fields, pos, requiredIndex := fields, 0, 0;
    }

    /** pb_field_iter_next: false when it has wrapped around. */
    method Next() returns (more: bool)
      requires Valid()
      modifies this
      ensures Valid() && pos == (if old(pos) + 1 == |fields| then 0 else old(pos) + 1) && more == (pos != 0)
    {
      if pos + 1 == |fields| {
        pos, requiredIndex := 0, 0;
        return false;
      }
      if fields[pos].htype.Required? {
        requiredIndex := requiredIndex + 1;
      }
      pos := pos + 1;
      return true;
    }

    /** pb_field_iter_find: from the current position all the way round. */
    method Find(tag: nat) returns (found: bool)
      requires Valid()
      modifies this
      ensures Valid() && found == FindField(fields, tag).Some?
      ensures found ==> fields[pos].tag == tag
    {
      var start := pos;
      ghost var wrapped := false;
      while true
        invariant Valid() && (if wrapped then pos < start else start <= pos)
        invariant forall k :: start <= k < (if wrapped then |fields| else pos) ==> fields[k].tag != tag
        invariant wrapped ==> forall k :: 0 <= k < pos ==> fields[k].tag != tag
        decreases !wrapped, |fields| - pos
      {
        if fields[pos].tag == tag {
          return true;
        }
        var more := Next();
        if pos == start {
          return false;
        }
        if !more {
          wrapped := true;
        }
      }
    }
  }

  /** With distinct tags the field found is the one that a search from the start finds. */
  lemma FoundIsUnique(t: MessageType, i: nat)
    requires DescriptorOk(t) && i < |t.fields|
    ensures FindField(t.fields, t.fields[i].tag) == Some(i)
  {
    var found := FindField(t.fields, t.fields[i].tag);
  }

  // ---------------------------------------------------------------- the stream

  /** What a decoding function that returns a value must have done, by its specification. */
  ghost predicate Reads<T>(r: Option<T>, spec: Option<Parsed<T>>, left: Bytes) {
    match spec
    case None => r == None
    case Some(p) => r == Some(p.value) && left == p.rest
  }

  class IStream {
    /** The bytes that are left. */
    var data: Bytes

    constructor (data: Bytes)
      ensures this.data == data
    {
      this.data := data;
    }

    /** pb_readbyte. */
    method ReadByte() returns (r: Option<byte>)
      modifies this
      ensures if old(data) == [] then r == None && data == [] else r == Some(old(data)[0]) && data == old(data)[1..]
    {
      if data == [] {
        return None;
      }
      r := Some(data[0]);
      data := data[1..];
    }

    /** pb_read. */
    method Read(n: nat) returns (r: Option<Bytes>)
      modifies this
      ensures Reads(r, Take(old(data), n), data)
      ensures r.None? ==> data == old(data)
    {
      if n == 0 {
        assert data[0..] == data;
        return Some([]);
      }
      if |data| < n {
        return None;
      }
      r := Some(data[..n]);
      data := data[n..];
    }

    /** pb_decode_varint32_eof. */
    method DecodeVarint32() returns (r: Option<nat>)
      modifies this
      ensures Reads(r, ReadVarint32(old(data)), data)
    {
      var first := ReadByte();
      if first.None? {
        return None;
      }
      if first.value < 128 {
        return Some(first.value);
      }
      var bitpos: nat, result: nat := 7, first.value - 128;
      while true
        invariant ReadVarint32(old(data)) == Varint32From(data, bitpos, result)
        decreases |data|
      {
        var b := ReadByte();
        if b.None? {
          return None;
        }
        if bitpos >= 32 {
          var signExtension := if bitpos < 63 then 0xFF else 0x01;
          if b.value % 128 != 0 && (result < 0x8000_0000 || b.value != signExtension) {
            return None;
          }
        } else {
          result := Or(result, Bits32(b.value, bitpos));
        }
        bitpos := NextBitpos(bitpos);
        if b.value < 128 {
          if bitpos == 35 && b.value >= 16 {
            return None;
          }
          return Some(result);
        }
      }
    }

    /** pb_decode_varint. */
    method DecodeVarint() returns (r: Option<nat>)
      modifies this
      ensures Reads(r, ReadVarint(old(data)), data)
    {
      var result: nat, bitpos: nat := 0, 0;
      GatherNone(data, 64);
      while true
        invariant ReadVarint(old(data)) == Gathered(result, data, bitpos, 64)
        decreases |data|
      {
        if bitpos >= 64 {
          return None;
        }
        ghost var before := data;
        var b := ReadByte();
        if b.None? {
          return None;
        }
        if b.value < 128 {
          return Some(result + Shifted(b.value % Pow2(64 - bitpos), bitpos));
        }
        GatherMore(result, before, bitpos, 64);
        result := result + Shifted(b.value - 128, bitpos);
        bitpos := bitpos + 7;
      }
    }

    /** pb_skip_varint. */
    method SkipOverVarint() returns (ok: bool)
      modifies this
      ensures match SkipVarint(old(data)) case None => !ok case Some(rest) => ok && data == rest
    {
      while true
        invariant SkipVarint(old(data)) == SkipVarint(data)
        decreases |data|
      {
        var b := ReadByte();
        if b.None? {
          return false;
        }
        if b.value < 128 {
          return true;
        }
      }
    }

    /** pb_skip_field. */
    method SkipOverField(wt: nat) returns (ok: bool)
      modifies this
      ensures match SkipField(wt, old(data)) case None => !ok case Some(rest) => ok && data == rest
    {
      if wt == WT_VARINT {
        ok := SkipOverVarint();
      } else if wt == WT_64BIT {
        var skipped := Read(8);
        ok := skipped.Some?;
      } else if wt == WT_STRING {
        var skipped := ReadString();
        ok := skipped.Some?;
      } else if wt == WT_32BIT {
        var skipped := Read(4);
        ok := skipped.Some?;
      } else {
        ok := false;
      }
    }

    /** A length and so many bytes: pb_skip_string, and the contents that pb_make_string_substream and
        the string decoders take. */
    method ReadString() returns (r: Option<Bytes>)
      modifies this
      ensures Reads(r, TakeString(old(data)), data)
    {
      var size := DecodeVarint32();
      if size.None? {
        return None;
      }
      r := Read(size.value);
    }

    /** PB_DECODERS: one value, on top of what is there. */
    method DecodeOne(lt: LType, under: Value) returns (r: Option<Value>)
      requires DescriptorOk(lt) && Shape(lt, under)
      modifies this
      ensures Reads(r, DecodeValue(lt, old(data), under), data)
      decreases lt, 5
    {
      match lt {
        case Bool =>
          var v := DecodeVarint32();
          r := if v.Some? then Some(Flag(v.value != 0)) else None;
        case Int(size) =>
          var v := DecodeVarint();
          r := if v.Some? then FromInt(size, v.value) else None;
        case UInt(size) =>
          var v := DecodeVarint();
          r := if v.Some? then FromUInt(size, v.value) else None;
        case SInt(size) =>
          var v := DecodeVarint();
          r := if v.Some? then FromSInt(size, v.value) else None;
        case Fixed32 =>
          var b := Read(4);
          r := if b.Some? then Some(Number(Unfixed(b.value))) else None;
        case Fixed64 =>
          var b := Read(8);
          r := if b.Some? then Some(Number(Unfixed(b.value))) else None;
        case Nested(_) =>
          var b := ReadString();
          if b.None? {
            return None;
          }
          var substream := new IStream(b.value);
          var slots := substream.DecodeNoInit(lt, under.slots);
          r := if slots.Some? then Some(Sub(slots.value)) else None;
        case ByteArray(_) =>
          var b := ReadString();
          r := if b.Some? then FromString(lt, b.value) else None;
        case Text(_) =>
          var b := ReadString();
          r := if b.Some? then FromString(lt, b.value) else None;
        case FixedBytes(_) =>
          var b := ReadString();
          r := if b.Some? then FromString(lt, b.value) else None;
      }
    }

    /** The loop of decode_static_field over a packed array's substream. */
    method DecodeArray(lt: LType, room: nat) returns (r: Option<seq<Value>>)
      requires DescriptorOk(lt)
      modifies this
      ensures r == DecodePacked(lt, old(data), room)
      decreases lt, 6
    {
      var items: seq<Value> := [];
      DefaultHasShape(lt);
      ghost var spec := DecodePacked(lt, data, room);
      PackedStart(lt, data, room);
      while data != [] && |items| < room
        invariant StillTo(lt, data, room, items, spec)
        decreases |data|
      {
        ghost var before := data;
        var v := DecodeOne(lt, Default(lt));
        if v.None? {
          return None;
        }
        PackedStep(lt, before, data, room, items, v.value, spec);
        items := items + [v.value];
      }
      if data != [] {
        return None;
      }
      PackedEnd(lt, room, items, spec);
      return Some(items);
    }

    /** decode_static_field. */
    method DecodeStaticField(t: MessageType, i: nat, wt: nat, d: Progress) returns (r: Option<Progress>)
      requires DescriptorOk(t) && i < |t.fields| && ProgressOk(t, d)
      requires t.fields[i].htype.FixedCount? ==> d.fixedField == Some(i)
      modifies this
      ensures Reads(r, DecodeField(t, i, wt, old(data), d), data)
      decreases t, 0
    {
      var f := t.fields[i];
      assert SlotShape(t, i, d.slots[i]) && FieldOk(t, i);
      DefaultHasShape(f.ltype);
      if d.slots[i].Many? && wt == WT_STRING && Packable(f.ltype) {
        var b := ReadString();
        if b.None? {
          return None;
        }
        var substream := new IStream(b.value);
        var more := substream.DecodeArray(f.ltype, Room(t, i, d));
        if more.None? {
          return None;
        }
        return Some(Appended(t, i, d, more.value));
      }
      if d.slots[i].Many? && Room(t, i, d) == 0 {
        return None;
      }
      var v := DecodeOne(f.ltype, Under(f, d.slots[i]));
      if v.None? {
        return None;
      }
      if d.slots[i].Many? {
        assert ItemsShape(f.ltype, [v.value]);
        return Some(Appended(t, i, d, [v.value]));
      }
      var slots := if f.htype.OneOf? then ClearOthers(t, d.slots, i) else d.slots;
      return Some(d.(slots := slots[i := One(true, v.value)]));
    }

    /** pb_decode_noinit. */
    method DecodeNoInit(t: MessageType, slots: seq<Slot>) returns (r: Option<seq<Slot>>)
      requires DescriptorOk(t) && MessageShape(t, slots)
      modifies this
      ensures r == DecodeMessage(t, old(data), slots)
      decreases t, 2
    {
      var d := Progress(slots, {}, None, 0);
      var iter: FieldIter? := null;
      if t.fields != [] {
        iter := new FieldIter(t.fields);
      }
      while data != []
        invariant iter == null <==> t.fields == []
        invariant iter != null ==> iter.Valid() && iter.fields == t.fields && fresh(iter)
        invariant ProgressOk(t, d)
        invariant DecodeFields(t, old(data), Progress(slots, {}, None, 0)) == DecodeFields(t, data, d)
        decreases |data|
      {
        ghost var before := data;
        var key := DecodeVarint32();
        if key.None? {
          return None;
        }
        if key.value == 0 {
          break;
        }
        var tag, wt := key.value / 8, key.value % 8;
        var known := false;
        if iter != null {
          known := iter.Find(tag);
        }
        if !known {
          var ok := SkipOverField(wt);
          if !ok {
            return None;
          }
        } else {
          FoundIsUnique(t, iter.pos);
          var found := Found(t, iter.pos, d);
          if found.None? {
            return None;
          }
          var now := DecodeStaticField(t, iter.pos, wt, found.value);
          if now.None? {
            return None;
          }
          d := now.value;
        }
      }
      assert DecodeFields(t, old(data), Progress(slots, {}, None, 0)) == Some(d);
      if !FixedIsFull(t, d) || !RequiredSeen(t, d) {
        return None;
      }
      return Some(d.slots);
    }
  }

  function Behind(items: seq<Value>, rest: Option<seq<Value>>): Option<seq<Value>> {
    match rest case None => None case Some(more) => Some(items + more)
  }

  /** With `items` read and `data` left, the whole is `spec`. */
  ghost predicate StillTo(lt: LType, data: Bytes, room: nat, items: seq<Value>, spec: Option<seq<Value>>) {
    |items| <= room && ItemsShape(lt, items) && spec == Behind(items, DecodePacked(lt, data, room - |items|))
  }

  lemma BehindNothing(rest: Option<seq<Value>>)
    ensures Behind([], rest) == rest
  {
    if rest.Some? {
      assert [] + rest.value == rest.value;
    }
  }

  function Prepend(v: Value, rest: Option<seq<Value>>): Option<seq<Value>> {
    match rest case None => None case Some(more) => Some([v] + more)
  }

  lemma BehindOneMore(items: seq<Value>, v: Value, rest: Option<seq<Value>>)
    ensures Behind(items, Prepend(v, rest)) == Behind(items + [v], rest)
  {
    match rest {
      case None =>
      case Some(more) => assert items + ([v] + more) == (items + [v]) + more;
    }
  }

  lemma DecodesOneMore(lt: LType, before: Bytes, after: Bytes, room: nat, v: Value)
    requires before != [] && room > 0 && Shape(lt, Default(lt)) &&
             DecodeValue(lt, before, Default(lt)) == Some(Parsed(v, after))
    ensures DecodePacked(lt, before, room) == Prepend(v, DecodePacked(lt, after, room - 1))
  {
  }

  lemma PackedStart(lt: LType, data: Bytes, room: nat)
    ensures StillTo(lt, data, room, [], DecodePacked(lt, data, room))
  {
    var none: seq<Value> := [];
    BehindNothing(DecodePacked(lt, data, room));
    assert room - |none| == room && ItemsShape(lt, none);
  }

  lemma PackedStep(lt: LType, before: Bytes, after: Bytes, room: nat, items: seq<Value>, v: Value,
                   spec: Option<seq<Value>>)
    requires before != [] && |items| < room && Shape(lt, Default(lt)) && Shape(lt, v)
    requires DecodeValue(lt, before, Default(lt)) == Some(Parsed(v, after))
    requires StillTo(lt, before, room, items, spec)
    ensures StillTo(lt, after, room, items + [v], spec)
  {
    DecodesOneMore(lt, before, after, room - |items|, v);
    BehindOneMore(items, v, DecodePacked(lt, after, room - |items| - 1));
    assert ItemsShape(lt, items + [v]);
  }

  lemma PackedEnd(lt: LType, room: nat, items: seq<Value>, spec: Option<seq<Value>>)
    requires StillTo(lt, [], room, items, spec)
    ensures spec == Some(items)
  {
    assert items + [] == items;
  }
}
