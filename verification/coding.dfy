/** Fixed-width and variable-length integers, and length-prefixed strings (util/coding.h, util/coding.cc). */
module Coding {
  import opened Wrappers

  type byte = x: int | 0 <= x < 256

  type Bytes = seq<byte>

  function Zeros(n: nat): (s: Bytes)
    ensures |s| == n
  {
    seq(n, _ => 0)
  }

  /** A decoded value and the input left after it. */
  datatype Parsed<+T> = Parsed(value: T, rest: Bytes)

  function Pow2(n: nat): (p: nat)
    ensures p >= 1
  {
    if n == 0 then 1 else 2 * Pow2(n - 1)
  }

  // ---------------------------------------------------------------- fixed width

  /** The low `width` bytes of n, little end first (EncodeFixed32 and EncodeFixed64 write 4 and 8). */
  function Fixed(n: nat, width: nat): (s: Bytes)
    ensures |s| == width
  {
    if width == 0 then [] else [n % 256] + Fixed(n / 256, width - 1)
  }

  /** DecodeFixed32 and DecodeFixed64 on the first bytes. */
  function Unfixed(s: Bytes): nat {
    if s == [] then 0 else s[0] + 256 * Unfixed(s[1..])
  }

  lemma {:induction false} FixedRoundTrip(n: nat, width: nat)
    requires n < Pow2(8 * width)
    ensures Unfixed(Fixed(n, width)) == n
  {
    if width > 0 {
      Pow2Step(8 * width);
      FixedRoundTrip(n / 256, width - 1);
    }
  }

  lemma ByteSplit(low: byte, high: nat)
    ensures (low + 256 * high) % 256 == low && (low + 256 * high) / 256 == high
  {
  }

  lemma {:induction false} UnfixedRoundTrip(s: Bytes)
    ensures Fixed(Unfixed(s), |s|) == s
  {
    if s != [] {
      ByteSplit(s[0], Unfixed(s[1..]));
      UnfixedRoundTrip(s[1..]);
    }
  }

  lemma Pow2Step(n: nat)
    requires n >= 8
    ensures Pow2(n) == 256 * Pow2(n - 8)
  {
    assert Pow2(n - 1) == 2 * Pow2(n - 2);
    assert Pow2(n - 3) == 2 * Pow2(n - 4);
    assert Pow2(n - 5) == 2 * Pow2(n - 6);
    assert Pow2(n - 7) == 2 * Pow2(n - 8);
    assert Pow2(n - 2) == 2 * Pow2(n - 3);
    assert Pow2(n - 4) == 2 * Pow2(n - 5);
    assert Pow2(n - 6) == 2 * Pow2(n - 7);
  }

  // ---------------------------------------------------------------- varints

  /** Seven bits a byte, low bits first; every byte but the last has the top bit set. */
  function Varint(n: nat): (s: Bytes)
    ensures s != []
  {
    if n < 128 then [n] else [128 + n % 128] + Varint(n / 128)
  }

  /** EncodeVarint64: the loop. */
  method EncodeVarint64(v: nat) returns (s: Bytes)
    requires v < Pow2(64)
    ensures s == Varint(v)
  {
    s := [];
    var rest := v;
    while rest >= 128
      invariant s + Varint(rest) == Varint(v)
    {
      assert s + ([128 + rest % 128] + Varint(rest / 128)) == (s + [128 + rest % 128]) + Varint(rest / 128);
      s := s + [128 + rest % 128];
      rest := rest / 128;
    }
    s := s + [rest];
  }

  /** EncodeVarint32: unrolled, one branch for each length. */
  method EncodeVarint32(v: nat) returns (s: Bytes)
    requires v < 0x1_0000_0000
    ensures s == Varint(v) && 1 <= |s| <= 5
  {
    var v7, v14, v21, v28 := v / 0x80, v / 0x4000, v / 0x20_0000, v / 0x1000_0000;
    SevenAndSeven(v);
    FourteenAndSeven(v);
    TwentyOneAndSeven(v);
    UnrolledFrom(v, v7, v14, v21, v28);
    if v < 0x80 {
      s := [v];
    } else if v < 0x4000 {
      s := [128 + v % 128, v7];
    } else if v < 0x20_0000 {
      s := [128 + v % 128, 128 + v7 % 128, v14];
    } else if v < 0x1000_0000 {
      s := [128 + v % 128, 128 + v7 % 128, 128 + v14 % 128, v21];
    } else {
      s := [128 + v % 128, 128 + v7 % 128, 128 + v14 % 128, 128 + v21 % 128, v28];
    }
  }

  lemma SevenAndSeven(v: nat)
    ensures v / 128 / 128 == v / 0x4000
  {
  }

  lemma FourteenAndSeven(v: nat)
    ensures v / 0x4000 / 128 == v / 0x20_0000
  {
  }

  lemma TwentyOneAndSeven(v: nat)
    ensures v / 0x20_0000 / 128 == v / 0x1000_0000
  {
  }

  lemma UnrolledFrom(v: nat, v1: nat, v2: nat, v3: nat, v4: nat)
    requires v1 == v / 128 && v2 == v1 / 128 && v3 == v2 / 128 && v4 == v3 / 128 && v4 < 128
    ensures v < 0x80 ==> Varint(v) == [v]
    ensures 0x80 <= v < 0x4000 ==> Varint(v) == [128 + v % 128, v1]
    ensures 0x4000 <= v < 0x20_0000 ==> Varint(v) == [128 + v % 128, 128 + v1 % 128, v2]
    ensures 0x20_0000 <= v < 0x1000_0000 ==> Varint(v) == [128 + v % 128, 128 + v1 % 128, 128 + v2 % 128, v3]
    ensures 0x1000_0000 <= v ==> Varint(v) == [128 + v % 128, 128 + v1 % 128, 128 + v2 % 128, 128 + v3 % 128, v4]
  {
    assert Varint(v4) == [v4];
    var s3 := Varint(v3);
    var s2 := Varint(v2);
    var s1 := Varint(v1);
    assert s3 == if v3 < 128 then [v3] else [128 + v3 % 128, v4];
    assert s2 == if v2 < 128 then [v2] else [128 + v2 % 128] + s3;
    assert s1 == if v1 < 128 then [v1] else [128 + v1 % 128] + s2;
    assert Varint(v) == if v < 128 then [v] else [128 + v % 128] + s1;
  }

  /** What the bytes from a given shift on stand for, in units of that shift, for a value of `bits`
      bits; bits shifted out at the top are lost.  None when no byte ends it in time. */
  function VarintAt(s: Bytes, shift: nat, bits: nat): (r: Option<Parsed<nat>>)
    ensures r.Some? ==> |r.value.rest| < |s|
  {
    if shift >= bits || s == [] then None
    else if s[0] >= 128 then
      match VarintAt(s[1..], shift + 7, bits)
      case None => None
      case Some(p) => Some(Parsed(s[0] - 128 + 128 * p.value, p.rest))
    else Some(Parsed(s[0] % Pow2(bits - shift), s[1..]))
  }

  /** GetVarint32 (bits 32) and GetVarint64 (bits 64). */
  function GetVarint(s: Bytes, bits: nat): (r: Option<Parsed<nat>>)
    ensures r.Some? ==> |r.value.rest| < |s|
  {
    VarintAt(s, 0, bits)
  }

  /** `value << shift`. */
  function Shifted(value: nat, shift: nat): nat
    decreases shift
  {
    if shift == 0 then value else Shifted(2 * value, shift - 1)
  }

  lemma {:induction false} ShiftedAdds(a: nat, b: nat, shift: nat)
    ensures Shifted(a + b, shift) == Shifted(a, shift) + Shifted(b, shift)
    decreases shift
  {
    if shift > 0 { ShiftedAdds(2 * a, 2 * b, shift - 1); }
  }

  lemma ShiftedSeven(value: nat, shift: nat)
    ensures Shifted(128 * value, shift) == Shifted(value, shift + 7)
  {
    assert Shifted(value, shift + 7) == Shifted(2 * value, shift + 6) == Shifted(4 * value, shift + 5);
    assert Shifted(4 * value, shift + 5) == Shifted(8 * value, shift + 4) == Shifted(16 * value, shift + 3);
    assert Shifted(16 * value, shift + 3) == Shifted(32 * value, shift + 2) == Shifted(64 * value, shift + 1);
  }

  /** What a decoder that has gathered `result` below `shift` will return. */
  ghost function Gathered(result: nat, s: Bytes, shift: nat, bits: nat): Option<Parsed<nat>> {
    match VarintAt(s, shift, bits)
    case None => None
    case Some(q) => Some(Parsed(result + Shifted(q.value, shift), q.rest))
  }

  lemma GatherMore(result: nat, s: Bytes, shift: nat, bits: nat)
    requires shift < bits && s != [] && s[0] >= 128
    ensures Gathered(result, s, shift, bits) == Gathered(result + Shifted(s[0] - 128, shift), s[1..], shift + 7, bits)
  {
    match VarintAt(s[1..], shift + 7, bits) {
      case None =>
      case Some(q) =>
        ShiftedAdds(s[0] - 128, 128 * q.value, shift);
        ShiftedSeven(q.value, shift);
    }
  }

  lemma GatherNone(s: Bytes, bits: nat)
    ensures Gathered(0, s, 0, bits) == GetVarint(s, bits)
  {
  }

  /** GetVarint32PtrFallback and GetVarint64Ptr: the loop. */
  method GetVarintPtr(s: Bytes, bits: nat) returns (r: Option<Parsed<nat>>)
    requires bits == 32 || bits == 64
    ensures r == GetVarint(s, bits)
  {
    var result: nat, shift: nat, p: nat := 0, 0, 0;
    GatherNone(s, bits);
    assert s[0..] == s;
    while shift < bits && p < |s|
      invariant p <= |s|
      invariant GetVarint(s, bits) == Gathered(result, s[p..], shift, bits)
    {
      var b := s[p];
      assert s[p..][1..] == s[p + 1..];
      if b < 128 {
        return Some(Parsed(result + Shifted(b % Pow2(bits - shift), shift), s[p + 1..]));
      }
      GatherMore(result, s[p..], shift, bits);
      result := result + Shifted(b - 128, shift);
      p, shift := p + 1, shift + 7;
    }
    return None;
  }

  lemma Pow2Seven(n: nat)
    ensures Pow2(n + 7) == 128 * Pow2(n)
  {
    assert Pow2(n + 7) == 2 * Pow2(n + 6) && Pow2(n + 6) == 2 * Pow2(n + 5) && Pow2(n + 5) == 2 * Pow2(n + 4);
    assert Pow2(n + 4) == 2 * Pow2(n + 3) && Pow2(n + 3) == 2 * Pow2(n + 2) && Pow2(n + 2) == 2 * Pow2(n + 1);
  }

  lemma {:induction false} VarintAtRoundTrip(n: nat, rest: Bytes, shift: nat, bits: nat)
    requires shift < bits && n < Pow2(bits - shift)
    ensures VarintAt(Varint(n) + rest, shift, bits) == Some(Parsed(n, rest))
  {
    var s := Varint(n) + rest;
    if n < 128 {
      assert s[1..] == rest;
      SmallMod(n, Pow2(bits - shift));
    } else {
      assert s[1..] == Varint(n / 128) + rest;
      SevenFewer(n, bits - shift);
      VarintAtRoundTrip(n / 128, rest, shift + 7, bits);
    }
  }

  lemma SmallMod(n: nat, m: nat)
    requires n < m
    ensures n % m == n
  {
  }

  lemma SevenFewer(n: nat, k: nat)
    requires 128 <= n < Pow2(k)
    ensures k > 7 && n / 128 < Pow2(k - 7)
  {
    Pow2Seven(0);
    if k <= 7 { Pow2Monotone(k, 7); } else { Pow2Seven(k - 7); }
  }

  lemma {:induction false} Pow2Monotone(m: nat, n: nat)
    requires m <= n
    ensures Pow2(m) <= Pow2(n)
  {
    if m < n { Pow2Monotone(m, n - 1); }
  }

  /** Every value that fits is read back, with the bytes behind it untouched. */
  lemma VarintRoundTrip(n: nat, rest: Bytes, bits: nat)
    requires 0 < bits && n < Pow2(bits)
    ensures GetVarint(Varint(n) + rest, bits) == Some(Parsed(n, rest))
  {
    VarintAtRoundTrip(n, rest, 0, bits);
  }

  /** Whatever is read fits the width. */
  lemma {:induction false} VarintAtFits(s: Bytes, shift: nat, bits: nat)
    requires shift < bits && VarintAt(s, shift, bits).Some?
    ensures VarintAt(s, shift, bits).value.value < Pow2(bits - shift)
  {
    if s[0] >= 128 {
      VarintAtFits(s[1..], shift + 7, bits);
      Pow2Seven(bits - shift - 7);
    }
  }

  /** VarintLength. */
  method VarintLength(v: nat) returns (len: nat)
    ensures len == |Varint(v)|
  {
    len := 1;
    var rest := v;
    while rest >= 128
      invariant len + |Varint(rest)| == |Varint(v)| + 1
    {
      rest := rest / 128;
      len := len + 1;
    }
  }

  // ---------------------------------------------------------------- length-prefixed strings

  /** PutLengthPrefixedSlice. */
  function Prefixed(s: Bytes): Bytes {
    Varint(|s|) + s
  }

  /** GetLengthPrefixedSlice. */
  function GetPrefixed(s: Bytes): (r: Option<Parsed<Bytes>>)
    ensures r.Some? ==> |r.value.rest| < |s|
  {
    match GetVarint(s, 32)
    case None => None
    case Some(p) => if p.value <= |p.rest| then Some(Parsed(p.rest[..p.value], p.rest[p.value..])) else None
  }

  lemma PrefixedRoundTrip(s: Bytes, rest: Bytes)
    requires |s| < Pow2(32)
    ensures GetPrefixed(Prefixed(s) + rest) == Some(Parsed(s, rest))
  {
    VarintRoundTrip(|s|, s + rest, 32);
    assert Prefixed(s) + rest == Varint(|s|) + (s + rest);
    assert (s + rest)[..|s|] == s && (s + rest)[|s|..] == rest;
  }
}
