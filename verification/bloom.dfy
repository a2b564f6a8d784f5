/** The Bloom filter (util/bloom.cc).  The hash function is arbitrary. */
module Bloom {
  import opened Coding

  const WORD := 0x1_0000_0000

  type Word = n: int | 0 <= n < WORD witness 0

  /** BloomHash. */
  type HashFunction = Bytes -> Word

  // ---------------------------------------------------------------- bits of a byte array

  /** n & (1 << i). */
  predicate HasBit(n: nat, i: nat)
    decreases i
  {
    if i == 0 then n % 2 == 1 else HasBit(n / 2, i - 1)
  }

  /** n | (1 << i). */
  function WithBit(n: nat, i: nat): nat
    decreases i
  {
    if i == 0 then n / 2 * 2 + 1 else 2 * WithBit(n / 2, i - 1) + n % 2
  }

  lemma {:induction false} WithBitFits(n: nat, i: nat, width: nat)
    requires i < width && n < Pow2(width)
    ensures WithBit(n, i) < Pow2(width)
    decreases i
  {
    var half := Pow2(width - 1);
    HalfFits(n, half);
    if i > 0 {
      WithBitFits(n / 2, i - 1, width - 1);
      DoubleFits(WithBit(n / 2, i - 1), n % 2, half);
    } else {
      DoubleFits(n / 2, 1, half);
    }
  }

  lemma HalfFits(n: nat, half: nat)
    requires n < 2 * half
    ensures n / 2 < half
  {
  }

  lemma DoubleFits(n: nat, bit: nat, half: nat)
    requires n < half && bit < 2
    ensures 2 * n + bit < 2 * half
  {
  }

  lemma {:induction false} WithBitAdds(n: nat, i: nat, j: nat)
    ensures HasBit(WithBit(n, i), j) <==> j == i || HasBit(n, j)
    decreases i
  {
    if i > 0 {
      assert WithBit(n, i) / 2 == WithBit(n / 2, i - 1) && WithBit(n, i) % 2 == n % 2;
      if j > 0 { WithBitAdds(n / 2, i - 1, j - 1); }
    } else {
      assert WithBit(n, i) / 2 == n / 2;
    }
  }

  predicate BitAt(a: Bytes, p: nat)
    requires p / 8 < |a|
  {
    HasBit(a[p / 8], p % 8)
  }

  function SetBit(a: Bytes, p: nat): (r: Bytes)
    requires p / 8 < |a|
    ensures |r| == |a|
  {
    ByteIsPower();
    WithBitFits(a[p / 8], p % 8, 8);
    a[p / 8 := WithBit(a[p / 8], p % 8)]
  }

  lemma ByteIsPower()
    ensures Pow2(8) == 256
  {
    Pow2Step(8);
  }

  lemma SetBitAdds(a: Bytes, p: nat, q: nat)
    requires p / 8 < |a| && q / 8 < |a|
    ensures BitAt(SetBit(a, p), q) <==> q == p || BitAt(a, q)
  {
    WithBitAdds(a[p / 8], p % 8, q % 8);
  }

  // ---------------------------------------------------------------- probes

  /** h % bits. */
  function Probe(h: Word, bits: nat): (p: nat)
    requires bits > 0
    ensures p < bits
  {
    h % bits
  }

  function Plus(h: Word, delta: Word): Word {
    if h + delta < WORD then h + delta else h + delta - WORD
  }

  /** Rotate right by 17 bits. */
  function Delta(h: Word): Word {
    h / 0x2_0000 + h % 0x2_0000 * 0x8000
  }

  /** The hash value of probe j. */
  function Nth(h: Word, delta: Word, j: nat): Word {
    if j == 0 then h else Plus(Nth(h, delta, j - 1), delta)
  }

  /** All k probes of a key hit. */
  predicate Marked(hash: HashFunction, key: Bytes, a: Bytes, k: nat) {
    a != [] && forall j :: 0 <= j < k ==> Hit(hash, key, a, j)
  }

  predicate Hit(hash: HashFunction, key: Bytes, a: Bytes, j: nat) {
    var p := Probe(Nth(hash(key), Delta(hash(key)), j), if a == [] then 1 else 8 * |a|);
    p / 8 < |a| && BitAt(a, p)
  }

  lemma SetBitKeeps(hash: HashFunction, key: Bytes, a: Bytes, k: nat, p: nat)
    requires Marked(hash, key, a, k) && p / 8 < |a|
    ensures Marked(hash, key, SetBit(a, p), k)
  {
    forall j | 0 <= j < k ensures Hit(hash, key, SetBit(a, p), j) {
      assert Hit(hash, key, a, j);
      SetBitAdds(a, p, Probe(Nth(hash(key), Delta(hash(key)), j), 8 * |a|));
    }
  }

  lemma SetBitHits(hash: HashFunction, key: Bytes, a: Bytes, k: nat)
    requires Marked(hash, key, a, k)
    ensures var p := Probe(Nth(hash(key), Delta(hash(key)), k), 8 * |a|);
            p / 8 < |a| && Marked(hash, key, SetBit(a, p), k + 1)
  {
    var p := Probe(Nth(hash(key), Delta(hash(key)), k), 8 * |a|);
    SetBitKeeps(hash, key, a, k, p);
    SetBitAdds(a, p, p);
  }

  // ---------------------------------------------------------------- the filter

  /** k_: kept between 1 and 30. */
  function Probes(k: int): (r: byte)
    ensures 1 <= r <= 30
  {
    if k < 1 then 1 else if k > 30 then 30 else k
  }

  /** The array with the first k probes of the key set. */
  function Marks(hash: HashFunction, key: Bytes, a: Bytes, k: nat): (r: Bytes)
    requires a != []
    ensures |r| == |a|
  {
    if k == 0 then a else SetBit(Marks(hash, key, a, k - 1), Probe(Nth(hash(key), Delta(hash(key)), k - 1), 8 * |a|))
  }

  function AllMarks(hash: HashFunction, keys: seq<Bytes>, a: Bytes, k: nat): (r: Bytes)
    requires a != []
    ensures |r| == |a|
  {
    if keys == [] then a else Marks(hash, keys[|keys| - 1], AllMarks(hash, keys[..|keys| - 1], a, k), k)
  }

  /** At least 64 bits, in whole bytes. */
  function ByteCount(bitsPerKey: nat, n: nat): (bytes: nat)
    ensures bytes >= 8
  {
    var bits := n * bitsPerKey;
    ((if bits < 64 then 64 else bits) + 7) / 8
  }

  /** The filter for these keys: a bit array and the number of probes; `rounded` is bits per key times
      ln 2, rounded down. */
  function Filter(hash: HashFunction, bitsPerKey: nat, rounded: int, keys: seq<Bytes>): Bytes {
    var zeros: Bytes := seq(ByteCount(bitsPerKey, |keys|), _ => 0);
    AllMarks(hash, keys, zeros, Probes(rounded)) + [Probes(rounded)]
  }

  lemma {:induction false} MarksMark(hash: HashFunction, key: Bytes, a: Bytes, k: nat)
    requires a != []
    ensures Marked(hash, key, Marks(hash, key, a, k), k)
  {
    if k > 0 {
      MarksMark(hash, key, a, k - 1);
      SetBitHits(hash, key, Marks(hash, key, a, k - 1), k - 1);
    }
  }

  lemma {:induction false} MarksKeep(hash: HashFunction, key: Bytes, a: Bytes, k: nat, other: Bytes, n: nat)
    requires Marked(hash, other, a, n)
    ensures Marked(hash, other, Marks(hash, key, a, k), n)
  {
    if k > 0 {
      MarksKeep(hash, key, a, k - 1, other, n);
      SetBitKeeps(hash, other, Marks(hash, key, a, k - 1), n, Probe(Nth(hash(key), Delta(hash(key)), k - 1), 8 * |a|));
    }
  }

  lemma {:induction false} AllMarksMark(hash: HashFunction, keys: seq<Bytes>, a: Bytes, k: nat, i: nat)
    requires a != [] && i < |keys|
    ensures Marked(hash, keys[i], AllMarks(hash, keys, a, k), k)
  {
    var n := |keys| - 1;
    if i < n {
      AllMarksMark(hash, keys[..n], a, k, i);
      MarksKeep(hash, keys[n], AllMarks(hash, keys[..n], a, k), k, keys[i], k);
    } else {
      MarksMark(hash, keys[n], AllMarks(hash, keys[..n], a, k), k);
    }
  }

  /** The filter goes behind what dst holds. */
  method CreateFilter(hash: HashFunction, bitsPerKey: nat, rounded: int, keys: seq<Bytes>, dst: Bytes)
    returns (r: Bytes)
    ensures r == dst + Filter(hash, bitsPerKey, rounded, keys)
  {
    var k := Probes(rounded);
    var bits := |keys| * bitsPerKey;
    if bits < 64 {
      bits := 64;
    }
    var bytes := (bits + 7) / 8;
    var zeros: Bytes := seq(bytes, _ => 0);
    var a := zeros;
    for i := 0 to |keys|
      invariant |a| == bytes && a == AllMarks(hash, keys[..i], zeros, k)
    {
      assert keys[..i + 1][..i] == keys[..i];
      a := MarkKey(hash, keys[i], a, k);
    }
    assert keys[..|keys|] == keys;
    r := dst + (a + [k]);
  }

  /** The inner loop: double hashing. */
  method MarkKey(hash: HashFunction, key: Bytes, marks: Bytes, k: nat) returns (a: Bytes)
    requires marks != []
    ensures a == Marks(hash, key, marks, k)
  {
    a := marks;
    var bits := 8 * |marks|;
    var h := hash(key);
    var delta := Delta(h);
    for j := 0 to k
      invariant |a| == |marks| && h == Nth(hash(key), delta, j) && a == Marks(hash, key, marks, j)
    {
      a := SetBit(a, Probe(h, bits));
      h := Plus(h, delta);
    }
  }

  /** Whether the filter lets the key pass, for any bytes at all. */
  predicate Passes(hash: HashFunction, key: Bytes, filter: Bytes) {
    |filter| >= 2 &&
      (filter[|filter| - 1] > 30 || Marked(hash, key, filter[..|filter| - 1], filter[|filter| - 1]))
  }

  method KeyMayMatch(hash: HashFunction, key: Bytes, filter: Bytes) returns (match': bool)
    ensures match' == Passes(hash, key, filter)
  {
    var len := |filter|;
    if len < 2 {
      return false;
    }
    var marks, bits := filter[..len - 1], (len - 1) * 8;
    var k := filter[len - 1];
    if k > 30 {
      return true;
    }
    var h := hash(key);
    var delta := Delta(h);
    for j := 0 to k
      invariant h == Nth(hash(key), delta, j)
      invariant Marked(hash, key, marks, j)
    {
      var bitpos := Probe(h, bits);
      if !BitAt(marks, bitpos) {
        assert !Hit(hash, key, marks, j);
        return false;
      }
      assert Hit(hash, key, marks, j);
      h := Plus(h, delta);
    }
    return true;
  }

  /** No false negatives: every key that a filter was made for passes. */
  lemma MadeForPasses(hash: HashFunction, bitsPerKey: nat, rounded: int, keys: seq<Bytes>, key: Bytes)
    requires key in keys
    ensures Passes(hash, key, Filter(hash, bitsPerKey, rounded, keys))
  {
    var i :| 0 <= i < |keys| && keys[i] == key;
    var zeros: Bytes := seq(ByteCount(bitsPerKey, |keys|), _ => 0);
    AllMarksMark(hash, keys, zeros, Probes(rounded), i);
    var filter := Filter(hash, bitsPerKey, rounded, keys);
    assert filter[..|filter| - 1] == AllMarks(hash, keys, zeros, Probes(rounded));
  }
}
