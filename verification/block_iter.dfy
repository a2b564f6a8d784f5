/** Reading a sorted block (table/block.cc): an iterator over the bytes that the builder wrote. */
module BlockIter {
  import opened BlockFormat
  import opened Coding
  import opened Wrappers

  // ---------------------------------------------------------------- one entry

  /** The three lengths of an entry, and how many bytes they take. */
  datatype Header = Header(shared: nat, nonShared: nat, valueLength: nat, length: nat)

  /** Three varints one behind the other. */
  function ReadLengths(s: Bytes): Option<Parsed<(nat, nat, nat)>> {
    match GetVarint(s, 32)
    case None => None
    case Some(a) =>
      match GetVarint(a.rest, 32)
      case None => None
      case Some(b) =>
        match GetVarint(b.rest, 32)
        case None => None
        case Some(c) => Some(Parsed((a.value, b.value, c.value), c.rest))
  }

  /** DecodeEntry on the bytes up to the limit. */
  function DecodeEntry(s: Bytes): Option<Header> {
    if |s| < 3 then None
    else if s[0] < 128 && s[1] < 128 && s[2] < 128 then Checked(s, Header(s[0], s[1], s[2], 3))
    else
      match ReadLengths(s)
      case None => None
      case Some(p) =>
        if |p.rest| <= |s| then Checked(s, Header(p.value.0, p.value.1, p.value.2, |s| - |p.rest|)) else None
  }

  function Checked(s: Bytes, h: Header): Option<Header> {
    if |s| < h.length + h.nonShared + h.valueLength then None else Some(h)
  }

  lemma OneByteVarint(n: nat, rest: Bytes)
    ensures (Varint(n) + rest)[0] < 128 ==> n < 128 && Varint(n) == [n]
  {
  }

  const LIMIT := 0x1_0000_0000

  lemma DecodesShort(shared: nat, nonShared: nat, valueLength: nat, tail: Bytes)
    requires nonShared + valueLength <= |tail|
    requires var s := Varint(shared) + (Varint(nonShared) + (Varint(valueLength) + tail));
             |s| >= 3 && s[0] < 128 && s[1] < 128 && s[2] < 128
    ensures var s := Varint(shared) + (Varint(nonShared) + (Varint(valueLength) + tail));
            DecodeEntry(s) == Some(Header(shared, nonShared, valueLength, 3))
    ensures |Varint(shared)| == |Varint(nonShared)| == |Varint(valueLength)| == 1
  {
    var c := Varint(valueLength) + tail;
    var b := Varint(nonShared) + c;
    OneByteVarint(shared, b);
    assert (Varint(shared) + b)[1] == b[0];
    OneByteVarint(nonShared, c);
    assert (Varint(shared) + b)[2] == c[0];
    OneByteVarint(valueLength, tail);
  }

  lemma ReadsLengths(x: nat, y: nat, z: nat, tail: Bytes)
    requires x < LIMIT && y < LIMIT && z < LIMIT
    ensures ReadLengths(Varint(x) + (Varint(y) + (Varint(z) + tail))) == Some(Parsed((x, y, z), tail))
  {
    LimitIsPower();
    VarintRoundTrip(x, Varint(y) + (Varint(z) + tail), 32);
    VarintRoundTrip(y, Varint(z) + tail, 32);
    VarintRoundTrip(z, tail, 32);
  }

  lemma LongPath(s: Bytes, x: nat, y: nat, z: nat, tail: Bytes)
    requires |s| >= 3 && !(s[0] < 128 && s[1] < 128 && s[2] < 128)
    requires ReadLengths(s) == Some(Parsed((x, y, z), tail)) && |tail| <= |s| && y + z <= |tail|
    ensures DecodeEntry(s) == Some(Header(x, y, z, |s| - |tail|))
  {
  }

  /** The three lengths, whichever path reads them. */
  lemma DecodesLengths(a: Bytes, b: Bytes, c: Bytes, x: nat, y: nat, z: nat, tail: Bytes)
    requires a == Varint(x) && b == Varint(y) && c == Varint(z)
    requires y + z <= |tail| && x < LIMIT && y < LIMIT && z < LIMIT
    ensures DecodeEntry(a + (b + (c + tail))) == Some(Header(x, y, z, |a| + |b| + |c|))
  {
    var s := a + (b + (c + tail));
    if s[0] < 128 && s[1] < 128 && s[2] < 128 {
      DecodesShort(x, y, z, tail);
    } else {
      ReadsLengths(x, y, z, tail);
      LongPath(s, x, y, z, tail);
    }
  }

  /** The bytes of the three lengths. */
  function HeadLength(shared: nat, e: Pair): nat
    requires shared <= |e.key|
  {
    |Varint(shared)| + |Varint(|e.key| - shared)| + |Varint(|e.value|)|
  }

  /** The lengths and the two strings behind them. */
  lemma DecodesEntry(shared: nat, e: Pair, rest: Bytes)
    requires shared <= |e.key| < LIMIT && |e.value| < LIMIT
    ensures DecodeEntry(EntryBytes(shared, e) + rest) ==
            Some(Header(shared, |e.key| - shared, |e.value|, HeadLength(shared, e)))
  {
    hide DecodeEntry, Varint;
    var a, b, c := Varint(shared), Varint(|e.key| - shared), Varint(|e.value|);
    EntryRegroups(a, b, c, e.key[shared..], e.value, rest);
    DecodesLengths(a, b, c, shared, |e.key| - shared, |e.value|, e.key[shared..] + e.value + rest);
  }

  lemma EntryRegroups(a: Bytes, b: Bytes, c: Bytes, key: Bytes, value: Bytes, rest: Bytes)
    ensures (a + b + c + key + value) + rest == a + (b + (c + (key + value + rest)))
  {
  }

  lemma LimitIsPower()
    ensures Pow2(32) == LIMIT
  {
    Pow2Step(32);
    Pow2Step(24);
    Pow2Step(16);
    Pow2Step(8);
  }

  // ---------------------------------------------------------------- the layout of a block

  /** Where entries start (and the last one ends), how much of each key is shared, and which entries
      are restart points. */
  datatype Layout = Layout(offsets: seq<nat>, shares: seq<nat>, starts: seq<nat>)

  ghost predicate InOrder(s: seq<nat>, i: int, j: int) {
    0 <= i < j < |s| ==> s[i] < s[j]
  }

  /** The header at entry i, with the rest of its key and its value behind it. */
  ghost predicate EntryReads(data: Bytes, restarts: nat, l: Layout, entries: seq<Pair>, i: int) {
    0 <= i < |entries| && |l.offsets| == |entries| + 1 && |l.shares| == |entries| ==>
      var p, e := l.offsets[i], entries[i];
      && p < restarts <= |data|
      && DecodeEntry(data[p..restarts]).Some?
      && var h := DecodeEntry(data[p..restarts]).value;
         && h.shared == l.shares[i] <= |e.key|
         && p + h.length + h.nonShared + h.valueLength == l.offsets[i + 1] <= restarts
         && data[p + h.length..p + h.length + h.nonShared] == e.key[h.shared..]
         && data[p + h.length + h.nonShared..p + h.length + h.nonShared + h.valueLength] == e.value
  }

  ghost predicate ShareOk(l: Layout, entries: seq<Pair>, i: int) {
    0 < i < |entries| == |l.shares| ==>
      l.shares[i] <= |entries[i - 1].key| && l.shares[i] <= |entries[i].key| &&
      entries[i - 1].key[..l.shares[i]] == entries[i].key[..l.shares[i]]
  }

  /** The number at place k of the restart array, and the entry it leads to. */
  ghost predicate StartReads(data: Bytes, restarts: nat, l: Layout, entries: seq<Pair>, k: int) {
    0 <= k < |l.starts| && |l.offsets| == |entries| + 1 && |l.shares| == |entries| ==>
      && restarts + 4 * k + 4 <= |data|
      && l.starts[k] <= |entries|
      && Unfixed(data[restarts + 4 * k..restarts + 4 * k + 4]) == l.offsets[l.starts[k]]
      && (l.starts[k] < |entries| ==> l.shares[l.starts[k]] == 0)
      && (entries != [] ==> l.starts[k] < |entries|)
  }

  ghost predicate LayoutOk(data: Bytes, restarts: nat, l: Layout, entries: seq<Pair>) {
    && |l.offsets| == |entries| + 1 && |l.shares| == |entries| && l.starts != [] && l.starts[0] == 0
    && l.offsets[|entries|] == restarts
    && (forall i, j :: InOrder(l.offsets, i, j))
    && (forall i, j :: InOrder(l.starts, i, j))
    && (forall i :: EntryReads(data, restarts, l, entries, i))
    && (forall i :: ShareOk(l, entries, i))
    && (forall k :: StartReads(data, restarts, l, entries, k))
  }

  // ---------------------------------------------------------------- the iterator

  /** The comparator: a strict order on keys, of which only transitivity matters here. */
  type Less = (Bytes, Bytes) -> bool

  ghost predicate Transitive(less: Less) {
    forall a, b, c :: less(a, b) && less(b, c) ==> less(a, c)
  }

  ghost predicate Ascending(less: Less, entries: seq<Pair>) {
    forall i, j :: 0 <= i < j < |entries| ==> less(entries[i].key, entries[j].key)
  }

  /** Position i is the first whose key is not before the target; |entries| if there is none. */
  ghost predicate IsBound(less: Less, entries: seq<Pair>, target: Bytes, i: nat) {
    && i <= |entries|
    && (forall j :: 0 <= j < i ==> less(entries[j].key, target))
    && (i < |entries| ==> !less(entries[i].key, target))
  }

  class Iter {
    const data: Bytes
    /** Offset of the restart array. */
    const restarts: nat
    const numRestarts: nat
    ghost const layout: Layout
    ghost const entries: seq<Pair>

    var current: nat
    var restartIndex: nat
    var key: Bytes
    var valueAt: nat
    var valueLength: nat
    /** The entry at `current`, or |entries|. */
    ghost var at: nat

    ghost predicate BlockOk()
      reads this
    {
      LayoutOk(data, restarts, layout, entries) && numRestarts == |layout.starts|
    }

    /** The restart point in whose range entry i is looked for. */
    ghost predicate InRange(i: nat)
      reads this
    {
      && restartIndex < numRestarts == |layout.starts| && layout.starts[restartIndex] <= i
      && (restartIndex + 1 < numRestarts ==> i <= layout.starts[restartIndex + 1])
    }

    ghost predicate Valid()
      reads this
    {
      && BlockOk()
      && at <= |entries|
      && (if at == |entries| then current == restarts else
            && current == layout.offsets[at]
            && key == entries[at].key
            && valueAt + valueLength == layout.offsets[at + 1] <= |data|
            && data[valueAt..valueAt + valueLength] == entries[at].value
            && InRange(at))
    }

    /** ParseNextKey can go on with entry j. */
    ghost predicate Before(j: nat)
      reads this
    {
      && BlockOk() && j <= |entries|
      && valueAt + valueLength == layout.offsets[j]
      && restartIndex < numRestarts && layout.starts[restartIndex] <= j
      && (j < |entries| ==>
            && layout.shares[j] <= |key| && layout.shares[j] <= |entries[j].key|
            && key[..layout.shares[j]] == entries[j].key[..layout.shares[j]])
    }

    constructor (data: Bytes, restarts: nat, numRestarts: nat, ghost layout: Layout, ghost entries: seq<Pair>)
      requires LayoutOk(data, restarts, layout, entries) && numRestarts == |layout.starts|
      ensures Valid() && at == |entries| && this.entries == entries && this.layout == layout
    {
      this.data, this.restarts, this.numRestarts, this.layout, this.entries :=
        data, restarts, numRestarts, layout, entries;
      current, restartIndex, key, valueAt, valueLength, at := restarts, numRestarts, [], 0, 0, |entries|;
    }

    /** Block::Iter::Valid. */
    predicate IsValid()
      reads this
    {
      current < restarts
    }

    lemma ValidMeansAtEntry()
      requires Valid()
      ensures IsValid() <==> at < |entries|
    {
      assert InOrder(layout.offsets, at, |entries|);
    }

    method Current() returns (e: Pair)
      requires Valid() && IsValid()
      ensures at < |entries| && e == entries[at]
    {
      e := Pair(key, data[valueAt..valueAt + valueLength]);
    }

    method GetRestartPoint(index: nat) returns (offset: nat)
      requires BlockOk() && index < numRestarts
      ensures layout.starts[index] <= |entries| && offset == layout.offsets[layout.starts[index]]
    {
      assert StartReads(data, restarts, layout, entries, index);
      offset := Unfixed(data[restarts + 4 * index..restarts + 4 * index + 4]);
    }

    method SeekToRestartPoint(index: nat)
      requires BlockOk() && index < numRestarts
      modifies this
      ensures Before(layout.starts[index]) && restartIndex == index
    {
      assert StartReads(data, restarts, layout, entries, index);
      key := [];
      restartIndex := index;
      valueAt := GetRestartPoint(index);
      valueLength := 0;
    }

    method ParseNextKey(ghost j: nat) returns (more: bool)
      requires Before(j)
      modifies this
      ensures Valid() && at == j && more == (j < |entries|)
    {
      current := valueAt + valueLength;
      at := j;
      if current >= restarts {
        assert EntryReads(data, restarts, layout, entries, j);
        current := restarts;
        restartIndex := numRestarts;
        return false;
      }
      assert EntryReads(data, restarts, layout, entries, j);
      // The source reports corruption when there is no entry here, or its key shares too much.
      var h := DecodeEntry(data[current..restarts]).value;
      KeyRejoinsAt(key, entries[j].key, h.shared);
      key := key[..h.shared] + data[current + h.length..current + h.length + h.nonShared];
      valueAt := current + h.length + h.nonShared;
      valueLength := h.valueLength;
      FindRange(j);
      return true;
    }

    /** The end of ParseNextKey: move on to the restart point in whose range the entry is. */
    method FindRange(ghost j: nat)
      requires BlockOk() && j < |entries| && current == layout.offsets[j]
      requires restartIndex < numRestarts && layout.starts[restartIndex] <= j
      modifies this`restartIndex
      ensures InRange(j)
    {
      while true
        invariant restartIndex < numRestarts && layout.starts[restartIndex] <= j
        decreases numRestarts - restartIndex
      {
        if restartIndex + 1 >= numRestarts {
          break;
        }
        var next := GetRestartPoint(restartIndex + 1);
        SameOrder(layout, entries, data, restarts, layout.starts[restartIndex + 1], j);
        if next >= current {
          break;
        }
        restartIndex := restartIndex + 1;
      }
    }

    method Next()
      requires Valid() && IsValid()
      modifies this
      ensures Valid() && at == old(at) + 1
    {
      assert ShareOk(layout, entries, at + 1);
      var _ := ParseNextKey(at + 1);
    }

    method Prev()
      requires Valid() && IsValid()
      modifies this
      ensures Valid() && at == if old(at) > 0 then old(at) - 1 else |entries|
    {
      var original := current;
      ghost var i := at;
      while true
        invariant BlockOk() && InRange(i) && current == original == layout.offsets[i] && at == i < |entries|
        decreases restartIndex
      {
        var start := GetRestartPoint(restartIndex);
        SameOrder(layout, entries, data, restarts, layout.starts[restartIndex], i);
        if start < original {
          break;
        }
        if restartIndex == 0 {
          current := restarts;
          restartIndex := numRestarts;
          at := |entries|;
          return;
        }
        assert InOrder(layout.starts, restartIndex - 1, restartIndex);
        restartIndex := restartIndex - 1;
      }
      SeekToRestartPoint(restartIndex);
      ScanTo(original, i, layout.starts[restartIndex]);
    }

    /** The end of Prev: parse on until the entry ends where the original one starts. */
    method ScanTo(original: nat, ghost i: nat, ghost from: nat)
      requires Before(from) && from < i < |entries| && original == layout.offsets[i]
      modifies this
      ensures Valid() && at == i - 1
    {
      hide EntryReads;
      ghost var j := from;
      while true
        invariant j < i && Before(j)
        decreases i - j
      {
        var more := ParseNextKey(j);
        SameOrder(layout, entries, data, restarts, j + 1, i);
        if !more || valueAt + valueLength >= original {
          break;
        }
        assert ShareOk(layout, entries, j + 1);
        j := j + 1;
      }
    }

    method SeekToFirst()
      requires Valid()
      modifies this
      ensures Valid() && at == 0
    {
      SeekToRestartPoint(0);
      var _ := ParseNextKey(0);
    }

    method SeekToLast()
      requires Valid()
      modifies this
      ensures Valid() && at == if entries == [] then 0 else |entries| - 1
    {
      assert StartReads(data, restarts, layout, entries, numRestarts - 1);
      SeekToRestartPoint(numRestarts - 1);
      ghost var j := layout.starts[numRestarts - 1];
      while true
        invariant Before(j) && (entries != [] ==> j < |entries|)
        decreases |entries| - j
      {
        var more := ParseNextKey(j);
        if !more {
          break;
        }
        SameOrder(layout, entries, data, restarts, j + 1, |entries|);
        if valueAt + valueLength >= restarts {
          break;
        }
        assert ShareOk(layout, entries, j + 1);
        j := j + 1;
      }
    }

    /** The key stored whole at a restart point. */
    method RestartKey(index: nat) returns (k: Bytes)
      requires BlockOk() && index < numRestarts && entries != []
      ensures layout.starts[index] < |entries| && k == entries[layout.starts[index]].key
    {
      assert StartReads(data, restarts, layout, entries, index);
      assert EntryReads(data, restarts, layout, entries, layout.starts[index]);
      var offset := GetRestartPoint(index);
      var h := DecodeEntry(data[offset..restarts]).value;
      k := data[offset + h.length..offset + h.length + h.nonShared];
    }

    /** The binary search of Seek: the last restart point whose key is before the target, or the first. */
    method FindRestart(less: Less, target: Bytes) returns (left: nat)
      requires Valid()
      ensures left < numRestarts && (left > 0 ==> KeyBefore(less, layout.starts[left], target))
    {
      left := 0;
      var right := numRestarts - 1;
      while left < right
        invariant 0 <= left <= right < numRestarts
        invariant left > 0 ==> KeyBefore(less, layout.starts[left], target)
      {
        var mid := (left + right + 1) / 2;
        NotEmpty(layout, entries, data, restarts);
        var midKey := RestartKey(mid);
        if less(midKey, target) {
          left := mid;
        } else {
          right := mid - 1;
        }
      }
    }

    ghost predicate KeyBefore(less: Less, i: nat, target: Bytes) {
      i < |entries| && less(entries[i].key, target)
    }

    method Seek(less: Less, target: Bytes)
      requires Valid() && Transitive(less) && Ascending(less, entries)
      modifies this
      ensures Valid() && IsBound(less, entries, target, at)
    {
      var left := FindRestart(less, target);
      ghost var from := layout.starts[left];
      EarlierAreBefore(less, entries, from, target);
      SeekToRestartPoint(left);
      ScanForward(less, target, from);
    }

    /** The linear search of Seek. */
    method ScanForward(less: Less, target: Bytes, ghost from: nat)
      requires Before(from) && forall k :: 0 <= k < from && k < |entries| ==> less(entries[k].key, target)
      modifies this
      ensures Valid() && IsBound(less, entries, target, at)
    {
      ghost var j := from;
      while true
        invariant Before(j) && forall k :: 0 <= k < j && k < |entries| ==> less(entries[k].key, target)
        decreases |entries| - j
      {
        var more := ParseNextKey(j);
        if !more {
          return;
        }
        if !less(key, target) {
          return;
        }
        assert ShareOk(layout, entries, j + 1);
        j := j + 1;
      }
    }
  }

  /** What is before an entry before the target is before the target. */
  lemma EarlierAreBefore(less: Less, entries: seq<Pair>, from: nat, target: Bytes)
    requires Transitive(less) && Ascending(less, entries)
    requires from > 0 ==> from < |entries| && less(entries[from].key, target)
    ensures forall k :: 0 <= k < from && k < |entries| ==> less(entries[k].key, target)
  {
  }

  lemma KeyRejoinsAt(key: Bytes, whole: Bytes, shared: nat)
    requires shared <= |key| && shared <= |whole| && key[..shared] == whole[..shared]
    ensures key[..shared] + whole[shared..] == whole
  {
  }

  /** Offsets order entries. */
  lemma SameOrder(l: Layout, entries: seq<Pair>, data: Bytes, restarts: nat, i: nat, j: nat)
    requires LayoutOk(data, restarts, l, entries) && i <= |entries| && j <= |entries|
    ensures l.offsets[i] < l.offsets[j] <==> i < j
  {
    assert InOrder(l.offsets, i, j) && InOrder(l.offsets, j, i);
  }

  /** A block with two restart points has entries. */
  lemma NotEmpty(l: Layout, entries: seq<Pair>, data: Bytes, restarts: nat)
    requires LayoutOk(data, restarts, l, entries)
    ensures |l.starts| > 1 ==> entries != []
  {
    assert InOrder(l.starts, 0, 1) && StartReads(data, restarts, l, entries, 1);
  }
}
