/** pb_ostream_t and the encoding functions over it (pb_encode.c).  A stream without a callback only
    counts; a submessage is first counted, then written into a substream of exactly that size. */
module PbOStream {
  import opened Coding
  import opened PbEncode
  import opened PbTypes
  import opened PbWire

  /** An encoding function succeeds exactly when its input is valid and the bytes fit; then it has
      written them, or counted them. */
  ghost predicate Outcome(ok: bool, valid: bool, bytes: Bytes, sizing: bool, max: nat,
                          out0: Bytes, written0: nat, out: Bytes, written: nat) {
    && ok == (valid && (sizing || written0 + |bytes| <= max))
    && (ok ==> written == written0 + |bytes| && out == if sizing then out0 else out0 + bytes)
    && (!sizing ==> written <= max)
  }

  lemma ThenOutcome(ok: bool, valid1: bool, bytes1: Bytes, valid2: bool, bytes2: Bytes, sizing: bool, max: nat,
                    out0: Bytes, written0: nat, out1: Bytes, written1: nat, out: Bytes, written: nat)
    requires Outcome(true, valid1, bytes1, sizing, max, out0, written0, out1, written1)
    requires Outcome(ok, valid2, bytes2, sizing, max, out1, written1, out, written)
    ensures Outcome(ok, valid1 && valid2, bytes1 + bytes2, sizing, max, out0, written0, out, written)
  {
    assert (out0 + bytes1) + bytes2 == out0 + (bytes1 + bytes2);
  }

  /** What fails on a part fails on the whole. */
  lemma FailedOutcome(valid1: bool, bytes1: Bytes, valid: bool, bytes: Bytes, sizing: bool, max: nat,
                      out0: Bytes, written0: nat, out: Bytes, written: nat)
    requires Outcome(false, valid1, bytes1, sizing, max, out0, written0, out, written)
    requires (valid ==> valid1) && |bytes1| <= |bytes|
    ensures Outcome(false, valid, bytes, sizing, max, out0, written0, out, written)
  {
  }

  class OStream {
    /** No callback: count only. */
    const sizing: bool
    const maxSize: nat
    var out: Bytes
    var bytesWritten: nat

    ghost predicate Valid()
      reads this
    {
      !sizing ==> bytesWritten <= maxSize
    }

    ghost predicate Emits(ok: bool, valid: bool, bytes: Bytes, out0: Bytes, written0: nat)
      reads this
    {
      Outcome(ok, valid, bytes, sizing, maxSize, out0, written0, out, bytesWritten)
    }

    /** PB_OSTREAM_SIZING. */
    constructor Sizing()
      ensures Valid() && sizing && bytesWritten == 0 && out == []
    {
      sizing, maxSize, out, bytesWritten := true, 0, [], 0;
    }

    /** pb_ostream_from_buffer, or the substream of a submessage. */
    constructor Writing(out: Bytes, maxSize: nat)
      ensures Valid() && !sizing && bytesWritten == 0 && this.out == out && this.maxSize == maxSize
    {
      sizing, this.maxSize, this.out, bytesWritten := false, maxSize, out, 0;
    }

    /** pb_write. */
    method Write(buf: Bytes) returns (ok: bool)
      requires Valid()
      modifies this
      ensures Valid() && Emits(ok, true, buf, old(out), old(bytesWritten))
    {
      if |buf| > 0 && !sizing {
        if bytesWritten + |buf| > maxSize {
          return false;
        }
        out := out + buf;
      }
      bytesWritten := bytesWritten + |buf|;
      return true;
    }

    /** pb_encode_varint. */
    method EncodeVarint(v: nat) returns (ok: bool)
      requires Valid()
      modifies this
      ensures Valid() && Emits(ok, true, Varint(v), old(out), old(bytesWritten))
    {
      if v <= 0x7F {
        ok := Write([v]);
        return;
      }
      var buffer: Bytes := [];
      var value: nat := v;
      while value > 0
        invariant unchanged(this)
        invariant value == 0 ==> EndsMarked(buffer, Varint(v))
        invariant value > 0 ==> buffer + Varint(value) == Varint(v)
        decreases value
      {
        if value >= 128 {
          MoreVarint(buffer, value);
        } else {
          LastVarint(buffer, value);
        }
        buffer := buffer + [128 + value % 128];
        value := value / 128;
      }
      var last := |buffer| - 1;
      buffer := buffer[last := buffer[last] - 128];
      ok := Write(buffer);
    }

    /** pb_encode_svarint. */
    method EncodeSVarint(n: int) returns (ok: bool)
      requires Valid() && -TWO_64 <= 2 * n < TWO_64
      modifies this
      ensures Valid() && Emits(ok, true, Varint(ZigZag(n)), old(out), old(bytesWritten))
    {
      // The source shifts left in 64 bits and inverts: 2^64 - 1 - (2n mod 2^64) for a negative n.
      var zigzagged := if n < 0 then TWO_64 - 1 - (2 * n + TWO_64) else 2 * n;
      ok := EncodeVarint(zigzagged);
    }

    /** pb_encode_tag. */
    method EncodeTag(wt: nat, tag: nat) returns (ok: bool)
      requires Valid()
      modifies this
      ensures Valid() && Emits(ok, true, TagBytes(tag, wt), old(out), old(bytesWritten))
    {
      ok := EncodeVarint(8 * tag + wt);
    }

    /** pb_encode_string. */
    method EncodeString(s: Bytes) returns (ok: bool)
      requires Valid()
      modifies this
      ensures Valid() && Emits(ok, true, Prefixed(s), old(out), old(bytesWritten))
    {
      ok := EncodeVarint(|s|);
      if !ok {
        FailedOutcome(true, Varint(|s|), true, Prefixed(s), sizing, maxSize, old(out), old(bytesWritten), out,
                      bytesWritten);
        return;
      }
      ghost var out1, written1 := out, bytesWritten;
      ok := Write(s);
      ThenOutcome(ok, true, Varint(|s|), true, s, sizing, maxSize, old(out), old(bytesWritten), out1, written1, out,
                  bytesWritten);
    }

    /** PB_ENCODERS: the encoder of one value. */
    method EncodeValue(lt: LType, v: Value) returns (ok: bool)
      requires Valid() && Typed(lt, v)
      modifies this
      ensures Valid() && Emits(ok, Encodable(lt, v), ValueBytes(lt, v), old(out), old(bytesWritten))
      decreases lt, 3
    {
      match lt {
        case Bool =>
          ok := EncodeVarint(if v.b then 1 else 0);
        case Int(size) =>
          WireRoundTrip(size, v.n);
          ok := EncodeVarint(ToWire(v.n));
        case UInt(_) =>
          ok := EncodeVarint(v.n);
        case SInt(_) =>
          ok := EncodeSVarint(v.n);
        case Fixed32 =>
          ok := Write(Fixed(v.n, 4));
        case Fixed64 =>
          ok := Write(Fixed(v.n, 8));
        case ByteArray(capacity) =>
          if |v.bytes| > capacity {
            return false;
          }
          ok := EncodeString(v.bytes);
        case Nested(fields) =>
          ok := EncodeSubmessage(lt, v.slots);
        case Text(_) =>
          ok := EncodeString(v.bytes);
        case FixedBytes(_) =>
          ok := EncodeString(v.bytes);
      }
    }

    /** pb_encode_submessage: the size of the first pass is the size of the second. */
    method EncodeSubmessage(t: MessageType, slots: seq<Slot>) returns (ok: bool)
      requires Valid() && MessageTyped(t, slots)
      modifies this
      ensures Valid()
      ensures Emits(ok, MessageEncodable(t, slots, |slots|), Prefixed(MessageBytes(t, slots, |slots|)), old(out),
                    old(bytesWritten))
      decreases t, 2
    {
      ghost var bytes, valid := MessageBytes(t, slots, |slots|), MessageEncodable(t, slots, |slots|);
      var substream := new OStream.Sizing();
      ok := substream.Encode(t, slots);
      if !ok {
        return;
      }
      var size := substream.bytesWritten;
      ok := EncodeVarint(size);
      if !ok {
        FailedOutcome(true, Varint(size), valid, Prefixed(bytes), sizing, maxSize, old(out), old(bytesWritten), out,
                      bytesWritten);
        return;
      }
      ghost var out1, written1 := out, bytesWritten;
      if sizing {
        bytesWritten := bytesWritten + size;
        ThenOutcome(true, true, Varint(size), valid, bytes, sizing, maxSize, old(out), old(bytesWritten), out1,
                    written1, out, bytesWritten);
        return;
      }
      if bytesWritten + size > maxSize {
        return false;
      }
      var writer := new OStream.Writing(out, size);
      ok := writer.Encode(t, slots);
      bytesWritten := bytesWritten + writer.bytesWritten;
      out := writer.out;
      // "submsg size changed" cannot happen.
      assert ok && writer.bytesWritten == size;
      ThenOutcome(true, true, Varint(size), valid, bytes, sizing, maxSize, old(out), old(bytesWritten), out1,
                  written1, out, bytesWritten);
    }

    /** The loop of encode_array over the values of a packed array, also used to find their size. */
    method EncodePacked(lt: LType, items: seq<Value>) returns (ok: bool)
      requires Valid() && ItemsTyped(lt, items)
      modifies this
      ensures Valid() && Emits(ok, ItemsEncodable(lt, items), PackedBytes(lt, items), old(out), old(bytesWritten))
      decreases lt, 4
    {
      ok := true;
      assert items[..0] == [] && items[..|items|] == items;
      for i := 0 to |items|
        invariant Valid() && ok
        invariant Emits(true, ItemsEncodable(lt, items[..i]), PackedBytes(lt, items[..i]), old(out), old(bytesWritten))
      {
        ghost var out1, written1 := out, bytesWritten;
        ok := EncodeValue(lt, items[i]);
        PackedSnoc(lt, items, i);
        ThenOutcome(ok, ItemsEncodable(lt, items[..i]), PackedBytes(lt, items[..i]), Encodable(lt, items[i]),
                    ValueBytes(lt, items[i]),
                    sizing, maxSize, old(out), old(bytesWritten), out1, written1, out, bytesWritten);
        if !ok {
          PackedPrefix(lt, items, i + 1);
          FailedOutcome(ItemsEncodable(lt, items[..i + 1]), PackedBytes(lt, items[..i + 1]), ItemsEncodable(lt, items),
                        PackedBytes(lt, items), sizing, maxSize, old(out), old(bytesWritten), out, bytesWritten);
          return;
        }
      }
    }

    /** The tag and the value of one field. */
    method EncodeTagged(f: Field, v: Value) returns (ok: bool)
      requires Valid() && Typed(f.ltype, v)
      modifies this
      ensures Valid()
      ensures Emits(ok, Encodable(f.ltype, v), TagBytes(f.tag, WireType(f.ltype)) + ValueBytes(f.ltype, v), old(out),
                    old(bytesWritten))
      decreases f.ltype, 4
    {
      ghost var tag, value, valid := TagBytes(f.tag, WireType(f.ltype)), ValueBytes(f.ltype, v), Encodable(f.ltype, v);
      ok := EncodeTag(WireType(f.ltype), f.tag);
      if !ok {
        FailedOutcome(true, tag, valid, tag + value, sizing, maxSize, old(out), old(bytesWritten), out, bytesWritten);
        return;
      }
      ghost var out1, written1 := out, bytesWritten;
      ok := EncodeValue(f.ltype, v);
      ThenOutcome(ok, true, tag, valid, value, sizing, maxSize, old(out), old(bytesWritten), out1, written1, out,
                  bytesWritten);
    }

    /** The loop of encode_array over values that cannot be packed. */
    method EncodeUnpacked(f: Field, items: seq<Value>) returns (ok: bool)
      requires Valid() && ItemsTyped(f.ltype, items)
      modifies this
      ensures Valid() && Emits(ok, ItemsEncodable(f.ltype, items), TaggedBytes(f, items), old(out), old(bytesWritten))
      decreases f.ltype, 5
    {
      hide ValueBytes, TagBytes, Encodable;
      ok := true;
      assert items[..0] == [] && items[..|items|] == items;
      for i := 0 to |items|
        invariant Valid() && ok
        invariant Emits(true, ItemsEncodable(f.ltype, items[..i]), TaggedBytes(f, items[..i]), old(out),
                        old(bytesWritten))
      {
        ghost var out1, written1 := out, bytesWritten;
        ok := EncodeTagged(f, items[i]);
        TaggedSnoc(f, items, i);
        ThenOutcome(ok, ItemsEncodable(f.ltype, items[..i]), TaggedBytes(f, items[..i]), Encodable(f.ltype, items[i]),
                    TagBytes(f.tag, WireType(f.ltype)) + ValueBytes(f.ltype, items[i]),
                    sizing, maxSize, old(out), old(bytesWritten), out1, written1, out, bytesWritten);
        if !ok {
          TaggedPrefix(f, items, i + 1);
          FailedOutcome(ItemsEncodable(f.ltype, items[..i + 1]), TaggedBytes(f, items[..i + 1]),
                        ItemsEncodable(f.ltype, items),
                        TaggedBytes(f, items), sizing, maxSize, old(out), old(bytesWritten), out, bytesWritten);
          return;
        }
      }
    }

    /** The size of a packed array: fixed types need no counting pass. */
    static method PackedSize(lt: LType, items: seq<Value>) returns (size: nat)
      requires Packable(lt) && ItemsTyped(lt, items)
      ensures size == |PackedBytes(lt, items)|
      decreases lt, 5
    {
      if lt.Fixed32? {
        size := 4 * |items|;
        FixedPackedSize(lt, items);
      } else if lt.Fixed64? {
        size := 8 * |items|;
        FixedPackedSize(lt, items);
      } else {
        var sizestream := new OStream.Sizing();
        var ok := sizestream.EncodePacked(lt, items);
        PackablesEncode(lt, items);
        size := sizestream.bytesWritten;
      }
    }

    /** encode_array. */
    method EncodeArray(f: Field, capacity: nat, items: seq<Value>) returns (ok: bool)
      requires Valid() && ItemsTyped(f.ltype, items)
      modifies this
      ensures Valid()
      ensures Emits(ok, |items| <= capacity && ItemsEncodable(f.ltype, items), ArrayBytes(f, items), old(out),
                    old(bytesWritten))
      decreases f.ltype, 6
    {
      if |items| == 0 {
        return true;
      }
      if |items| > capacity {
        return false;
      }
      if !Packable(f.ltype) {
        ok := EncodeUnpacked(f, items);
        return;
      }
      ghost var packed, tag := PackedBytes(f.ltype, items), TagBytes(f.tag, WT_STRING);
      PackablesEncode(f.ltype, items);
      ok := EncodeTag(WT_STRING, f.tag);
      if !ok {
        FailedOutcome(true, tag, true, tag + Prefixed(packed), sizing, maxSize, old(out), old(bytesWritten), out,
                      bytesWritten);
        return;
      }
      ghost var out1, written1 := out, bytesWritten;
      var size := PackedSize(f.ltype, items);
      ok := EncodeVarint(size);
      if !ok {
        FailedOutcome(true, Varint(size), true, Prefixed(packed), sizing, maxSize, out1, written1, out, bytesWritten);
        ThenOutcome(false, true, tag, true, Prefixed(packed), sizing, maxSize, old(out), old(bytesWritten), out1,
                    written1, out, bytesWritten);
        return;
      }
      ghost var out2, written2 := out, bytesWritten;
      if sizing {
        bytesWritten := bytesWritten + size;
      } else {
        ok := EncodePacked(f.ltype, items);
      }
      ThenOutcome(ok, true, Varint(size), true, packed, sizing, maxSize, out1, written1, out2, written2, out,
                  bytesWritten);
      ThenOutcome(ok, true, tag, true, Prefixed(packed), sizing, maxSize, old(out), old(bytesWritten), out1, written1,
                  out, bytesWritten);
    }

    /** encode_field and encode_basic_field. */
    method EncodeField(t: MessageType, slots: seq<Slot>, i: nat) returns (ok: bool)
      requires Valid() && MessageTyped(t, slots) && i < |slots|
      modifies this
      ensures Valid() && Emits(ok, FieldEncodable(t, slots, i), FieldBytes(t, slots, i), old(out), old(bytesWritten))
      decreases t, 0
    {
      assert SlotTyped(t, slots, i);
      var f := t.fields[i];
      ok := true;
      match f.htype {
        case Required =>
          ok := EncodeTagged(f, slots[i].value);
        case Optional =>
          if slots[i].has {
            ok := EncodeTagged(f, slots[i].value);
          }
        case Singular =>
          if !IsZero(f.ltype, slots[i].value) {
            ok := EncodeTagged(f, slots[i].value);
          }
        case Repeated(capacity) =>
          ok := EncodeArray(f, capacity, slots[i].items);
        case FixedCount(count) =>
          ok := EncodeArray(f, count, slots[i].items);
        case OneOf(_) =>
          if slots[i].has {
            ok := EncodeTagged(f, slots[i].value);
          }
      }
    }

    /** pb_encode: all fields in order. */
    method Encode(t: MessageType, slots: seq<Slot>) returns (ok: bool)
      requires Valid() && MessageTyped(t, slots)
      modifies this
      ensures Valid()
      ensures Emits(ok, MessageEncodable(t, slots, |slots|), MessageBytes(t, slots, |slots|), old(out),
                    old(bytesWritten))
      decreases t, 1
    {
      ok := true;
      for i := 0 to |slots|
        invariant Valid() && ok
        invariant Emits(true, MessageEncodable(t, slots, i), MessageBytes(t, slots, i), old(out), old(bytesWritten))
      {
        ghost var out1, written1 := out, bytesWritten;
        ok := EncodeField(t, slots, i);
        ThenOutcome(ok, MessageEncodable(t, slots, i), MessageBytes(t, slots, i), FieldEncodable(t, slots, i),
                    FieldBytes(t, slots, i),
                    sizing, maxSize, old(out), old(bytesWritten), out1, written1, out, bytesWritten);
        if !ok {
          MessagePrefix(t, slots, i + 1);
          FailedOutcome(MessageEncodable(t, slots, i + 1), MessageBytes(t, slots, i + 1),
                        MessageEncodable(t, slots, |slots|),
                        MessageBytes(t, slots, |slots|), sizing, maxSize, old(out), old(bytesWritten), out,
                          bytesWritten);
          return;
        }
      }
    }

    /** pb_get_encoded_size: the counting pass counts exactly what a writing pass writes. */
    static method GetEncodedSize(t: MessageType, slots: seq<Slot>) returns (ok: bool, size: nat)
      requires MessageTyped(t, slots)
      ensures ok == MessageEncodable(t, slots, |slots|)
      ensures ok ==> size == |MessageBytes(t, slots, |slots|)|
    {
      var stream := new OStream.Sizing();
      ok := stream.Encode(t, slots);
      size := stream.bytesWritten;
    }
  }

  /** The bytes of a varint, but the last one also has its top bit set. */
  ghost predicate EndsMarked(buffer: Bytes, v: Bytes) {
    buffer != [] && buffer[|buffer| - 1] >= 128 && buffer[|buffer| - 1 := buffer[|buffer| - 1] - 128] == v
  }

  lemma MoreVarint(buffer: Bytes, value: nat)
    requires value >= 128
    ensures buffer + Varint(value) == (buffer + [128 + value % 128]) + Varint(value / 128)
  {
  }

  lemma LastVarint(buffer: Bytes, value: nat)
    requires value < 128
    ensures EndsMarked(buffer + [128 + value % 128], buffer + Varint(value))
  {
  }

  lemma PackedSnoc(lt: LType, items: seq<Value>, i: nat)
    requires ItemsTyped(lt, items) && i < |items|
    ensures PackedBytes(lt, items[..i + 1]) == PackedBytes(lt, items[..i]) + ValueBytes(lt, items[i])
    ensures ItemsEncodable(lt, items[..i + 1]) == (ItemsEncodable(lt, items[..i]) && Encodable(lt, items[i]))
  {
    assert items[..i + 1][..i] == items[..i];
    EncodableSnoc(lt, items, i);
  }

  lemma EncodableSnoc(lt: LType, items: seq<Value>, i: nat)
    requires ItemsTyped(lt, items) && i < |items|
    ensures ItemsEncodable(lt, items[..i + 1]) == (ItemsEncodable(lt, items[..i]) && Encodable(lt, items[i]))
  {
    assert items[..i + 1][i] == items[i];
    assert forall k :: 0 <= k < i ==> items[..i][k] == items[..i + 1][k];
  }

  lemma {:induction false} PackedPrefix(lt: LType, items: seq<Value>, n: nat)
    requires ItemsTyped(lt, items) && n <= |items|
    ensures |PackedBytes(lt, items[..n])| <= |PackedBytes(lt, items)|
    ensures ItemsEncodable(lt, items) ==> ItemsEncodable(lt, items[..n])
    decreases |items| - n
  {
    if n == |items| {
      assert items[..n] == items;
    } else {
      PackedSnoc(lt, items, n);
      PackedPrefix(lt, items, n + 1);
    }
  }

  lemma TaggedSnoc(f: Field, items: seq<Value>, i: nat)
    requires ItemsTyped(f.ltype, items) && i < |items|
    ensures TaggedBytes(f, items[..i + 1]) ==
            TaggedBytes(f, items[..i]) + (TagBytes(f.tag, WireType(f.ltype)) + ValueBytes(f.ltype, items[i]))
    ensures ItemsEncodable(f.ltype, items[..i + 1]) ==
            (ItemsEncodable(f.ltype, items[..i]) && Encodable(f.ltype, items[i]))
  {
    PackedSnoc(f.ltype, items, i);
    assert items[..i + 1][..i] == items[..i];
    assert items[..i + 1][i] == items[i];
  }

  lemma {:induction false} TaggedPrefix(f: Field, items: seq<Value>, n: nat)
    requires ItemsTyped(f.ltype, items) && n <= |items|
    ensures |TaggedBytes(f, items[..n])| <= |TaggedBytes(f, items)|
    ensures ItemsEncodable(f.ltype, items) ==> ItemsEncodable(f.ltype, items[..n])
    decreases |items| - n
  {
    if n == |items| {
      assert items[..n] == items;
    } else {
      TaggedSnoc(f, items, n);
      TaggedPrefix(f, items, n + 1);
    }
  }

  lemma {:induction false} MessagePrefix(t: MessageType, slots: seq<Slot>, n: nat)
    requires MessageTyped(t, slots) && n <= |slots|
    ensures |MessageBytes(t, slots, n)| <= |MessageBytes(t, slots, |slots|)|
    ensures MessageEncodable(t, slots, |slots|) ==> MessageEncodable(t, slots, n)
    decreases |slots| - n
  {
    if n < |slots| {
      MessagePrefix(t, slots, n + 1);
    }
  }

  /** Numbers and flags are always within bounds. */
  lemma PackablesEncode(lt: LType, items: seq<Value>)
    requires Packable(lt) && ItemsTyped(lt, items)
    ensures ItemsEncodable(lt, items)
  {
  }

  lemma {:induction false} FixedPackedSize(lt: LType, items: seq<Value>)
    requires (lt.Fixed32? || lt.Fixed64?) && ItemsTyped(lt, items)
    ensures |PackedBytes(lt, items)| == (if lt.Fixed32? then 4 else 8) * |items|
  {
    if items != [] {
      assert Typed(lt, items[|items| - 1]);
      FixedPackedSize(lt, items[..|items| - 1]);
    }
  }
}
