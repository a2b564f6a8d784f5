/** What the decoder refuses (pb_decode.c): values that do not fit their fields, and more values than an
    array has room for.  Nothing is cut to size, except numbers to 32 bits in small signed fields. */
module PbRefused {
  import opened Coding
  import opened PbDecode
  import opened PbEncode
  import opened PbRoundTrip
  import opened PbTypes
  import opened PbWire
  import opened Wrappers
  import Sequences

  lemma UnsignedReadsExactly(size: nat, n: nat, rest: Bytes, under: Value)
    requires n < TWO_64
    ensures DecodeValue(UInt(size), Varint(n) + rest, under) ==
            if n < Range(size) then Some(Parsed(Number(n), rest)) else None
  {
    hide ReadVarint, Varint;
    ReadVarintRoundTrip(n, rest);
  }

  lemma ZigZagReadsExactly(size: nat, n: int, rest: Bytes, under: Value)
    requires ZigZag(n) < TWO_64
    ensures DecodeValue(SInt(size), Varint(ZigZag(n)) + rest, under) ==
            if 0 <= 2 * n + Range(size) < 2 * Range(size) then Some(Parsed(Number(n), rest)) else None
  {
    hide ReadVarint, Varint, ZigZag, UnZigZag;
    ZigZagRoundTrip(n);
    ReadVarintRoundTrip(ZigZag(n), rest);
  }

  /** The number that a signed field is offered: all of it in eight bytes, else its low 32 bits. */
  function Offered(size: nat, n: int): int {
    if size == 8 then n else Signed(ToWire(n) % TWO_32, TWO_32)
  }

  lemma SignedReadsExactly(size: nat, n: int, rest: Bytes, under: Value)
    requires 0 <= 2 * n + TWO_64 < 2 * TWO_64
    ensures DecodeValue(Int(size), Varint(ToWire(n)) + rest, under) ==
            if 0 <= 2 * Offered(size, n) + Range(size) < 2 * Range(size)
            then Some(Parsed(Number(Offered(size, n)), rest)) else None
  {
    hide ReadVarint, Varint;
    ReadVarintRoundTrip(ToWire(n), rest);
  }

  /** Bytes and texts are taken whole or refused; a text ends at its first zero. */
  lemma StringReadsExactly(lt: LType, s: Bytes, rest: Bytes, under: Value)
    requires (lt.ByteArray? || lt.Text? || lt.FixedBytes?) && |s| < TWO_32
    ensures var fits := match lt
                        case ByteArray(capacity) => |s| <= capacity && |s| <= SIZE_MAX
                        case Text(size) => |s| < size
                        case FixedBytes(size) => |s| <= SIZE_MAX && (s == [] || |s| == size)
                        case _ => false;
            DecodeValue(lt, Prefixed(s) + rest, under).Some? <==> fits
    ensures var taken := if lt.Text? then UpToNul(s) else if lt.FixedBytes? && s == [] then Zeros(lt.size) else s;
            var r := DecodeValue(lt, Prefixed(s) + rest, under);
            r.Some? ==> r.value == Parsed(Blob(taken), rest)
  {
    hide TakeString, UpToNul, Zeros;
    StringRoundTrip(s, rest);
  }

  lemma {:induction false} OverflowIsRefused(lt: LType, parts: seq<Bytes>, items: seq<Value>, room: nat)
    requires |parts| == |items| > room && forall k, rest :: 0 <= k < |parts| ==> ReadsAs(lt, parts[k], items[k], rest)
    requires forall k :: 0 <= k < |parts| ==> parts[k] != []
    ensures DecodePacked(lt, Sequences.Flatten(parts), room) == None
    decreases room
  {
    hide Sequences.Flatten, DecodeValue;
    var rest := Sequences.Flatten(parts[1..]);
    Sequences.FlattenFront(parts);
    assert ReadsAs(lt, parts[0], items[0], rest);
    if room > 0 {
      OverflowIsRefused(lt, parts[1..], items[1..], room - 1);
    }
  }

  /** A packed array is read if there is room for all its values, and refused otherwise. */
  lemma PackedReadsExactly(lt: LType, items: seq<Value>, room: nat)
    requires Packable(lt) && ItemsTyped(lt, items)
    ensures DecodePacked(lt, PackedBytes(lt, items), room) == if |items| <= room then Some(items) else None
  {
    hide DecodePacked, ValueBytes, DecodeValue;
    if |items| <= room {
      PackedRoundTrip(lt, items, room);
    } else {
      PackedIsFlat(lt, items);
      forall k, rest | 0 <= k < |items| ensures ReadsAs(lt, Encodings(lt, items)[k], items[k], rest) {
        NumberRoundTrip(lt, items[k], rest, Default(lt));
      }
      forall k | 0 <= k < |items| ensures Encodings(lt, items)[k] != [] {
        NumberHasBytes(lt, items[k]);
      }
      OverflowIsRefused(lt, Encodings(lt, items), items, room);
    }
  }

  lemma NumberHasBytes(lt: LType, v: Value)
    requires Packable(lt) && Typed(lt, v)
    ensures ValueBytes(lt, v) != []
  {
  }
}
