/** Wire types, varints and integers of nanopb (pb_encode.c, pb_decode.c); the format is that of the
    Protocol Buffers Encoding document, sections "Base 128 Varints", "Message Structure" and
    "Signed Integers". */
module PbWire {
  import opened Coding
  import opened PbTypes
  import opened Wrappers

  const WT_VARINT := 0
  const WT_64BIT := 1
  const WT_STRING := 2
  const WT_32BIT := 5

  /** pb_encode_tag_for_field. */
  function WireType(lt: LType): (wt: nat)
    ensures wt <= 5
  {
    match lt
    case Bool => WT_VARINT
    case Int(_) => WT_VARINT
    case UInt(_) => WT_VARINT
    case SInt(_) => WT_VARINT
    case Fixed32 => WT_32BIT
    case Fixed64 => WT_64BIT
    case _ => WT_STRING
  }

  /** PB_LTYPE_LAST_PACKABLE. */
  predicate Packable(lt: LType) {
    lt.Bool? || lt.Int? || lt.UInt? || lt.SInt? || lt.Fixed32? || lt.Fixed64?
  }

  /** pb_encode_tag. */
  function TagBytes(tag: nat, wt: nat): Bytes {
    Varint(8 * tag + wt)
  }

  // ---------------------------------------------------------------- integers

  /** A signed value in 64-bit two's complement. */
  function ToWire(n: int): int {
    if n < 0 then n + TWO_64 else n
  }

  function Signed(v: nat, range: nat): int {
    if 2 * v < range then v else v - range
  }

  /** pb_dec_varint: fields of up to 32 bits are cut to 32 bits first, then the value must fit. */
  function FromWire(size: nat, v: nat): Option<int> {
    var n := if size == 8 then Signed(v, TWO_64) else Signed(v % TWO_32, TWO_32);
    if 0 <= 2 * n + Range(size) < 2 * Range(size) then Some(n) else None
  }

  lemma WireRoundTrip(size: nat, n: int)
    requires Typed(Int(size), Number(n))
    ensures 0 <= ToWire(n) < TWO_64 && FromWire(size, ToWire(n)) == Some(n)
  {
    if size != 8 {
      LowWord(n);
    }
  }

  lemma LowWord(n: int)
    requires -TWO_32 <= 2 * n < TWO_32
    ensures 0 <= ToWire(n) && Signed(ToWire(n) % TWO_32, TWO_32) == n
  {
  }

  /** pb_encode_svarint: small magnitudes to small numbers. */
  function ZigZag(n: int): nat {
    if n < 0 then -2 * n - 1 else 2 * n
  }

  /** pb_decode_svarint. */
  function UnZigZag(v: nat): int {
    if v % 2 == 1 then -(v / 2) - 1 else v / 2
  }

  lemma ZigZagRoundTrip(n: int)
    ensures UnZigZag(ZigZag(n)) == n
    ensures 0 <= 2 * n + TWO_64 < 2 * TWO_64 <==> ZigZag(n) < TWO_64
  {
  }

  lemma PowersAre()
    ensures Pow2(32) == TWO_32 && Pow2(64) == TWO_64
  {
    Pow2Step(8);
    assert Pow2(8) == 0x100;
    Pow2Step(16);
    assert Pow2(16) == 0x1_0000;
    Pow2Step(24);
    Pow2Step(32);
    assert Pow2(32) == TWO_32;
    Pow2Step(40);
    Pow2Step(48);
    assert Pow2(48) == 0x1_0000_0000_0000;
    Pow2Step(56);
    Pow2Step(64);
  }

  // ---------------------------------------------------------------- varints

  /** pb_decode_varint, 64 bits. */
  function ReadVarint(s: Bytes): (r: Option<Parsed<nat>>)
    ensures r.Some? ==> |r.value.rest| < |s|
  {
    GetVarint(s, 64)
  }

  /** Bitwise or. */
  function Or(a: nat, b: nat): nat {
    if a == 0 then b
    else if b == 0 then a
    else 2 * Or(a / 2, b / 2) + if a % 2 == 1 || b % 2 == 1 then 1 else 0
  }

  /** Seven bits of a byte shifted into 32 bits. */
  function Bits32(b: byte, bitpos: nat): nat {
    Shifted(b % 128, bitpos) % TWO_32
  }

  /** The bit position is a uint_fast8_t. */
  function NextBitpos(bitpos: nat): nat {
    (bitpos + 7) % 256
  }

  /** The loop of pb_decode_varint32_eof: above 32 bits only zeros or a sign extension may follow. */
  function Varint32From(s: Bytes, bitpos: nat, result: nat): (r: Option<Parsed<nat>>)
    ensures r.Some? ==> |r.value.rest| < |s|
  {
    if s == [] then None
    else
      var b := s[0];
      var sign := if bitpos < 63 then 0xFF else 0x01;
      if bitpos >= 32 && b % 128 != 0 && (result < 0x8000_0000 || b != sign) then None
      else
        var now := if bitpos >= 32 then result else Or(result, Bits32(b, bitpos));
        if b >= 128 then Varint32From(s[1..], NextBitpos(bitpos), now)
        else if bitpos == 28 && b >= 16 then None
        else Some(Parsed(now, s[1..]))
  }

  /** pb_decode_varint32. */
  function ReadVarint32(s: Bytes): (r: Option<Parsed<nat>>)
    ensures r.Some? ==> |r.value.rest| < |s|
  {
    if s == [] then None
    else if s[0] < 128 then Some(Parsed(s[0], s[1..]))
    else Varint32From(s[1..], 7, s[0] - 128)
  }

  /** A varint of at least one byte: all but the last have the top bit set. */
  predicate IsVarint(v: Bytes) {
    v != [] && (if |v| == 1 then v[0] < 128 else v[0] >= 128 && IsVarint(v[1..]))
  }

  function VarintValue(v: Bytes): nat
    requires IsVarint(v)
  {
    if |v| == 1 then v[0] else v[0] - 128 + 128 * VarintValue(v[1..])
  }

  lemma {:induction false} VarintIs(n: nat)
    ensures IsVarint(Varint(n)) && VarintValue(Varint(n)) == n
  {
    if n >= 128 {
      VarintIs(n / 128);
      var tail := Varint(n / 128);
      assert Varint(n)[1..] == tail;
    }
  }

  /** With its first byte at bitpos, the bytes fit 32 bits. */
  predicate Fits32(v: Bytes, bitpos: nat)
    requires v != []
  {
    bitpos + 7 * (|v| - 1) < 28 || (bitpos + 7 * (|v| - 1) == 28 && v[|v| - 1] < 16)
  }

  lemma LowBits(low: nat, high: nat, bitpos: nat)
    ensures Shifted(low + 128 * high, bitpos) == Shifted(low, bitpos) + Shifted(high, bitpos + 7)
  {
    ShiftedAdds(low, 128 * high, bitpos);
    ShiftedSeven(high, bitpos);
  }

  lemma {:induction false} ShiftedIsTimes(n: nat, k: nat)
    ensures Shifted(n, k) == n * Pow2(k)
    decreases k
  {
    if k > 0 { ShiftedIsTimes(2 * n, k - 1); }
  }

  /** Bits put in above a result are added to it. */
  lemma {:induction false} OrIsPlus(a: nat, b: nat, k: nat)
    requires a < Pow2(k)
    ensures Or(a, b * Pow2(k)) == a + b * Pow2(k)
    decreases k
  {
    if k > 0 && a > 0 && b > 0 {
      var y := b * Pow2(k - 1);
      assert b * Pow2(k) == 2 * y && y > 0;
      OrIsPlus(a / 2, b, k - 1);
    }
  }

  lemma PowersOfSeven()
    ensures Pow2(0) == 1 && Pow2(7) == 0x80 && Pow2(14) == 0x4000 && Pow2(21) == 0x20_0000 && Pow2(28) == 0x1000_0000
  {
    Pow2Seven(0);
    Pow2Seven(7);
    Pow2Seven(14);
    Pow2Seven(21);
  }

  /** A bit position of one of the first five bytes. */
  predicate IsEarly(bitpos: nat) {
    bitpos == 0 || bitpos == 7 || bitpos == 14 || bitpos == 21 || bitpos == 28
  }

  /** At the fifth byte only four bits fit. */
  lemma FourBitsFit(low: nat)
    requires low < 128
    ensures low * 0x1000_0000 % TWO_32 == low % 16 * 0x1000_0000 < TWO_32
  {
    var high := low / 16;
    assert low * 0x1000_0000 == high * TWO_32 + low % 16 * 0x1000_0000;
  }

  lemma EarlyBits(low: nat, bitpos: nat)
    requires IsEarly(bitpos) && low < 128
    ensures Shifted(low, bitpos) % TWO_32 == (if bitpos < 28 then low else low % 16) * Pow2(bitpos) < TWO_32
    ensures bitpos < 28 || low < 16 ==> Shifted(low, bitpos) < TWO_32
  {
    ShiftedIsTimes(low, bitpos);
    PowersOfSeven();
    hide Shifted, Pow2;
    if bitpos == 28 {
      FourBitsFit(low);
    }
  }

  /** A step of the first five bytes. */
  lemma Varint32Adds(b: byte, bitpos: nat, result: nat)
    requires IsEarly(bitpos) && result < Pow2(bitpos)
    ensures Or(result, Bits32(b, bitpos)) == result + Bits32(b, bitpos) < TWO_32
    ensures bitpos < 28 || b % 128 < 16 ==> Bits32(b, bitpos) == Shifted(b % 128, bitpos)
    ensures bitpos < 28 ==> result + Bits32(b, bitpos) < Pow2(bitpos + 7)
  {
    hide Shifted, Pow2, Or;
    var low: nat := b % 128;
    EarlyBits(low, bitpos);
    OrIsPlus(result, if bitpos < 28 then low else low % 16, bitpos);
    PowersOfSeven();
  }

  lemma Varint32Step(s: Bytes, bitpos: nat, result: nat)
    requires s != [] && s[0] >= 128 && bitpos < 28 && IsEarly(bitpos) && result < Pow2(bitpos)
    ensures result + Shifted(s[0] - 128, bitpos) < Pow2(bitpos + 7)
    ensures Varint32From(s, bitpos, result) == Varint32From(s[1..], bitpos + 7, result + Shifted(s[0] - 128, bitpos))
  {
    hide Or, Bits32, Pow2, Shifted;
    Varint32Adds(s[0], bitpos, result);
  }

  lemma Varint32Last(s: Bytes, bitpos: nat, result: nat)
    requires s != [] && ((bitpos < 28 && s[0] < 128) || (bitpos == 28 && s[0] < 16)) && IsEarly(bitpos) &&
             result < Pow2(bitpos)
    ensures Varint32From(s, bitpos, result) == Some(Parsed(result + Shifted(s[0], bitpos), s[1..]))
  {
    hide Or, Bits32, Pow2, Shifted;
    Varint32Adds(s[0], bitpos, result);
  }

  lemma {:induction false} Varint32FromReads(v: Bytes, rest: Bytes, bitpos: nat, result: nat)
    requires IsVarint(v) && Fits32(v, bitpos) && IsEarly(bitpos) && result < Pow2(bitpos)
    ensures Varint32From(v + rest, bitpos, result) == Some(Parsed(result + Shifted(VarintValue(v), bitpos), rest))
    decreases |v|
  {
    hide Varint32From, Pow2, Shifted;
    if |v| == 1 {
      assert (v + rest)[1..] == rest;
      Varint32Last(v + rest, bitpos, result);
    } else {
      var low: nat, high := v[0] - 128, VarintValue(v[1..]);
      var now, all := result + Shifted(low, bitpos), VarintValue(v);
      assert (v + rest)[1..] == v[1..] + rest;
      assert now + Shifted(high, bitpos + 7) == result + Shifted(all, bitpos) by { LowBits(low, high, bitpos); }
      Varint32Step(v + rest, bitpos, result);
      Varint32FromReads(v[1..], rest, bitpos + 7, now);
    }
  }

  lemma ReadsVarint32(v: Bytes, rest: Bytes)
    requires IsVarint(v) && Fits32(v, 0)
    ensures ReadVarint32(v + rest) == Some(Parsed(VarintValue(v), rest))
  {
    hide Varint32From, Pow2;
    if |v| == 1 {
      assert (v + rest)[1..] == rest;
    } else {
      assert (v + rest)[1..] == v[1..] + rest;
      PowersOfSeven();
      Varint32FromReads(v[1..], rest, 7, v[0] - 128);
      ShiftedSeven(VarintValue(v[1..]), 0);
    }
  }

  /** A 32-bit value is written in at most five bytes, the fifth below 16. */
  lemma Varint32Fits(n: nat)
    requires n < TWO_32
    ensures Fits32(Varint(n), 0)
  {
    SevenAndSeven(n);
    FourteenAndSeven(n);
    TwentyOneAndSeven(n);
    UnrolledFrom(n, n / 0x80, n / 0x4000, n / 0x20_0000, n / 0x1000_0000);
  }

  lemma Varint32RoundTrip(n: nat, rest: Bytes)
    requires n < TWO_32
    ensures ReadVarint32(Varint(n) + rest) == Some(Parsed(n, rest))
  {
    Varint32Fits(n);
    VarintIs(n);
    ReadsVarint32(Varint(n), rest);
  }

  // ---------------------------------------------------------------- how far 32 bits are read

  lemma SameLowWord(a: nat, b: nat, c: nat)
    requires a % TWO_32 == b % TWO_32
    ensures (a + c) % TWO_32 == (b + c) % TWO_32
  {
  }

  lemma MultipleHasNoLowWord(n: nat)
    ensures n * TWO_32 % TWO_32 == 0
  {
  }

  /** Above 32 bits nothing of the low word is left. */
  lemma HighIsLost(n: nat, k: nat)
    requires k >= 32
    ensures Shifted(n, k) % TWO_32 == 0
  {
    hide Pow2, Shifted;
    ShiftedIsTimes(n, k);
    PowersMultiply(k - 32, 32);
    PowersAre();
    assert n * (Pow2(k - 32) * TWO_32) == (n * Pow2(k - 32)) * TWO_32;
    MultipleHasNoLowWord(n * Pow2(k - 32));
  }

  lemma {:induction false} PowersMultiply(a: nat, b: nat)
    ensures Pow2(a) * Pow2(b) == Pow2(a + b)
    decreases b
  {
    if b > 0 { PowersMultiply(a, b - 1); }
  }

  /** The bits gathered so far, for a bit position that has not wrapped. */
  predicate IsGathered(bitpos: nat, result: nat) {
    if bitpos < 32 then IsEarly(bitpos) && result < Pow2(bitpos) else result < TWO_32
  }

  function Gather32(b: byte, bitpos: nat, result: nat): nat {
    if bitpos >= 32 then result else Or(result, Bits32(b, bitpos))
  }

  lemma GatherStep(b: byte, bitpos: nat, result: nat)
    requires IsGathered(bitpos, result)
    ensures IsGathered(bitpos + 7, Gather32(b, bitpos, result)) && Gather32(b, bitpos, result) < TWO_32
    ensures Gather32(b, bitpos, result) == (result + Shifted(b % 128, bitpos)) % TWO_32
  {
    hide Or, Pow2, Shifted;
    PowersOfSeven();
    if bitpos < 32 {
      Varint32Adds(b, bitpos, result);
      EarlyBits(b % 128, bitpos);
      SameLowWord(Shifted(b % 128, bitpos), Bits32(b, bitpos), result);
    } else {
      HighIsLost(b % 128, bitpos);
    }
  }

  lemma {:induction false} Varint32FromIsLowWord(v: Bytes, rest: Bytes, bitpos: nat, result: nat)
    requires IsVarint(v) && IsGathered(bitpos, result) && bitpos + 7 * (|v| - 1) < 256
    ensures match Varint32From(v + rest, bitpos, result)
            case None => true
            case Some(p) => p.rest == rest && p.value == (result + Shifted(VarintValue(v), bitpos)) % TWO_32
    decreases |v|
  {
    hide Or, Pow2, Shifted, Bits32, IsGathered;
    var now := Gather32(v[0], bitpos, result);
    GatherStep(v[0], bitpos, result);
    assert (v + rest)[1..] == v[1..] + rest;
    if |v| > 1 {
      var low: nat, high := v[0] - 128, VarintValue(v[1..]);
      LowBits(low, high, bitpos);
      SameLowWord(now, result + Shifted(low, bitpos), Shifted(high, bitpos + 7));
      Varint32FromIsLowWord(v[1..], rest, bitpos + 7, now);
    }
  }

  /** A varint of up to 37 bytes that the 32-bit decoder accepts gives the low 32 bits of its value. */
  lemma Varint32IsLowWord(v: Bytes, rest: Bytes)
    requires IsVarint(v) && |v| <= 37
    ensures match ReadVarint32(v + rest)
            case None => true
            case Some(p) => p.rest == rest && p.value == VarintValue(v) % TWO_32
  {
    hide Varint32From, Pow2, Shifted, VarintValue, IsVarint, IsGathered;
    ValueSplits(v);
    if |v| > 1 {
      SevenGathered(v[0]);
      ReadsOn(v, rest);
      Varint32FromIsLowWord(v[1..], rest, 7, v[0] - 128);
    } else {
      ReadsOne(v[0], rest);
      assert v == [v[0]];
    }
  }

  lemma SevenGathered(b: byte)
    requires b >= 128
    ensures IsGathered(7, b - 128)
  {
    PowersOfSeven();
  }

  lemma ReadsOne(b: byte, rest: Bytes)
    requires b < 128
    ensures ReadVarint32([b] + rest) == Some(Parsed(b, rest))
  {
    assert ([b] + rest)[1..] == rest;
  }

  lemma ReadsOn(v: Bytes, rest: Bytes)
    requires v != [] && v[0] >= 128
    ensures ReadVarint32(v + rest) == Varint32From(v[1..] + rest, 7, v[0] - 128)
  {
    hide Varint32From;
    assert (v + rest)[1..] == v[1..] + rest;
  }

  lemma ValueSplits(v: Bytes)
    requires IsVarint(v)
    ensures v != [] && (if |v| == 1 then v[0] < 128 else v[0] >= 128 && IsVarint(v[1..]))
    ensures VarintValue(v) == if |v| == 1 then v[0] else v[0] - 128 + Shifted(VarintValue(v[1..]), 7)
    ensures |v| == 1 ==> VarintValue(v) % TWO_32 == v[0]
  {
    hide Shifted;
    if |v| > 1 {
      ShiftedSeven(VarintValue(v[1..]), 0);
      ShiftedNone(128 * VarintValue(v[1..]));
    }
  }

  lemma ShiftedNone(n: nat)
    ensures Shifted(n, 0) == n
  {
  }

  /** Bytes that add nothing, but move the bit position on. */
  function Padding(n: nat): Bytes {
    if n == 0 then [] else [0x80] + Padding(n - 1)
  }

  function BitposAfter(n: nat, bitpos: nat): nat {
    if n == 0 then bitpos else BitposAfter(n - 1, NextBitpos(bitpos))
  }

  lemma {:induction false} PaddingMovesOn(n: nat, bitpos: nat, last: byte)
    ensures Varint32From(Padding(n) + [last], bitpos, 0) == Varint32From([last], BitposAfter(n, bitpos), 0)
  {
    if n == 0 {
      assert Padding(0) + [last] == [last];
    } else {
      assert (Padding(n) + [last])[1..] == Padding(n - 1) + [last];
      assert Shifted(0, bitpos) == 0 by { ShiftedIsTimes(0, bitpos); }
      PaddingMovesOn(n - 1, NextBitpos(bitpos), last);
    }
  }

  lemma {:induction false} BitposIs(n: nat, bitpos: nat)
    requires bitpos < 256
    ensures BitposAfter(n, bitpos) == (bitpos + 7 * n) % 256
  {
    if n > 0 {
      BitposIs(n - 1, NextBitpos(bitpos));
      WrapAdds(bitpos + 7, 7 * (n - 1));
    }
  }

  lemma WrapAdds(a: nat, b: nat)
    ensures (a % 256 + b) % 256 == (a + b) % 256
  {
  }

  lemma {:induction false} PaddedValue(n: nat, last: byte)
    requires last < 128
    ensures IsVarint(Padding(n) + [last]) && VarintValue(Padding(n) + [last]) == Shifted(last, 7 * n)
  {
    if n > 0 {
      PaddedValue(n - 1, last);
      var v := Padding(n) + [last];
      assert v[1..] == Padding(n - 1) + [last];
      LowBits(0, VarintValue(v[1..]), 0);
      ShiftedIsTimes(last, 7 * (n - 1));
      ShiftedIsTimes(last, 7 * n);
      Pow2Seven(7 * (n - 1));
    }
  }

  /** With 38 bytes the bit position has wrapped around: a value whose low word is 0 is read as 8. */
  lemma Varint32Wraps()
    ensures var v := Padding(37) + [1]; |v| == 38 && IsVarint(v) && VarintValue(v) % TWO_32 == 0
    ensures ReadVarint32(Padding(37) + [1]) == Some(Parsed(8, []))
  {
    hide Varint32From, VarintValue, Shifted, BitposAfter, Padding, IsVarint;
    var v := Padding(37) + [1];
    PaddingLength(37);
    PaddedValue(37, 1);
    HighIsLost(1, 259);
    PaddingSplits(37);
    assert v == [0x80] + (Padding(36) + [1]);
    PaddingMovesOn(36, 7, 1);
    BitposIs(36, 7);
    OneAtThree();
  }

  lemma PaddingSplits(n: nat)
    requires n > 0
    ensures Padding(n) == [0x80] + Padding(n - 1)
  {
  }

  lemma OneAtThree()
    ensures Varint32From([1], 3, 0) == Some(Parsed(8, []))
  {
    assert Shifted(1, 3) == Shifted(2, 2) == Shifted(4, 1) == Shifted(8, 0) == 8;
  }

  lemma {:induction false} PaddingLength(n: nat)
    ensures |Padding(n)| == n
  {
    if n > 0 { PaddingLength(n - 1); }
  }

  lemma ReadVarintRoundTrip(n: nat, rest: Bytes)
    requires n < TWO_64
    ensures ReadVarint(Varint(n) + rest) == Some(Parsed(n, rest))
  {
    PowersAre();
    VarintRoundTrip(n, rest, 64);
  }

  /** pb_decode_tag gives back the field number and the wire type. */
  lemma TagRoundTrip(tag: nat, wt: nat, rest: Bytes)
    requires 0 < tag && wt < 8 && 8 * tag + wt < TWO_32
    ensures ReadVarint32(TagBytes(tag, wt) + rest) == Some(Parsed(8 * tag + wt, rest))
    ensures (8 * tag + wt) / 8 == tag && (8 * tag + wt) % 8 == wt && 8 * tag + wt != 0
  {
    Varint32RoundTrip(8 * tag + wt, rest);
  }
}
