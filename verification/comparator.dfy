/** Byte-wise order of keys, the shortened keys of an index, and the same for internal keys
    (util/comparator.cc, db/dbformat.cc). */
module Comparators {
  import opened BlockFormat
  import opened Coding

  /** Slice::compare < 0: memcmp, then length. */
  predicate BytesLess(a: Bytes, b: Bytes) {
    b != [] && (a == [] || a[0] < b[0] || (a[0] == b[0] && BytesLess(a[1..], b[1..])))
  }

  lemma {:induction false} BytesTrichotomy(a: Bytes, b: Bytes)
    ensures BytesLess(a, b) || a == b || BytesLess(b, a)
    ensures !(BytesLess(a, b) && BytesLess(b, a)) && !BytesLess(a, a)
  {
    if a != [] && b != [] {
      BytesTrichotomy(a[1..], b[1..]);
      assert a == [a[0]] + a[1..] && b == [b[0]] + b[1..];
    }
    BytesIrreflexive(a);
  }

  lemma {:induction false} BytesIrreflexive(a: Bytes)
    ensures !BytesLess(a, a)
  {
    if a != [] { BytesIrreflexive(a[1..]); }
  }

  lemma {:induction false} BytesTransitive(a: Bytes, b: Bytes, c: Bytes)
    requires BytesLess(a, b) && BytesLess(b, c)
    ensures BytesLess(a, c)
  {
    if a != [] && b[0] == a[0] && c[0] == b[0] { BytesTransitive(a[1..], b[1..], c[1..]); }
  }

  /** What follows the same bytes decides. */
  lemma {:induction false} SamePrefix(p: Bytes, a: Bytes, b: Bytes)
    ensures BytesLess(p + a, p + b) <==> BytesLess(a, b)
  {
    if p == [] {
      assert p + a == a && p + b == b;
    } else {
      assert (p + a)[1..] == p[1..] + a && (p + b)[1..] == p[1..] + b;
      SamePrefix(p[1..], a, b);
    }
  }

  // ---------------------------------------------------------------- bytewise

  function Separator(start: Bytes, limit: Bytes): Bytes {
    var n := CommonPrefix(start, limit);
    if n < |start| && n < |limit| && start[n] < 0xFF && start[n] + 1 < limit[n]
    then start[..n] + [start[n] + 1]
    else start
  }

  lemma BumpedIsGreater(s: Bytes, n: nat, b: int)
    requires n < |s| && s[n] < b < 256
    ensures BytesLess(s, s[..n] + [b])
  {
    assert s == s[..n] + s[n..];
    SamePrefix(s[..n], s[n..], [b]);
  }

  lemma BumpedIsSmaller(s: Bytes, n: nat, b: int, limit: Bytes)
    requires n < |s| && n < |limit| && s[..n] == limit[..n] && 0 <= b < limit[n]
    ensures BytesLess(s[..n] + [b], limit)
  {
    assert limit == limit[..n] + limit[n..];
    SamePrefix(s[..n], [b], limit[n..]);
  }

  /** What an index may use to tell two blocks apart: not before the last key of one, before the first of
      the other, and no longer than the last key. */
  lemma SeparatorSeparates(start: Bytes, limit: Bytes)
    ensures var r := Separator(start, limit);
            && |r| <= |start| && (r == start || BytesLess(start, r))
            && (BytesLess(start, limit) || r != start ==> BytesLess(r, limit))
  {
    var n := CommonPrefix(start, limit);
    if n < |start| && n < |limit| && start[n] < 0xFF && start[n] + 1 < limit[n] {
      BumpedIsGreater(start, n, start[n] + 1);
      BumpedIsSmaller(start, n, start[n] + 1, limit);
    }
  }

  method FindShortestSeparator(start: Bytes, limit: Bytes) returns (r: Bytes)
    ensures r == Separator(start, limit)
  {
    r := start;
    var minLength := if |start| < |limit| then |start| else |limit|;
    var diffIndex := 0;
    while diffIndex < minLength && r[diffIndex] == limit[diffIndex]
      invariant diffIndex <= minLength
      invariant start[..diffIndex] == limit[..diffIndex]
    {
      diffIndex := diffIndex + 1;
    }
    PrefixIsCommon(start, limit, diffIndex);
    if diffIndex >= minLength {
      // one is a prefix of the other
    } else {
      var diffByte := r[diffIndex];
      if diffByte < 0xFF && diffByte + 1 < limit[diffIndex] {
        r := r[diffIndex := r[diffIndex] + 1];
        r := r[..diffIndex + 1];
        BumpedIsSmaller(start, diffIndex, start[diffIndex] + 1, limit);
        assert r == start[..diffIndex] + [start[diffIndex] + 1];
        assert BytesLess(r, limit);
      }
    }
  }

  function Successor(key: Bytes): Bytes {
    if key == [] then [] else if key[0] != 0xFF then [key[0] + 1] else [0xFF] + Successor(key[1..])
  }

  /** A short key that is not before this one. */
  lemma {:induction false} SuccessorSucceeds(key: Bytes)
    ensures |Successor(key)| <= |key| && (Successor(key) == key || BytesLess(key, Successor(key)))
  {
    if key != [] && key[0] == 0xFF {
      SuccessorSucceeds(key[1..]);
      assert key == [0xFF] + key[1..];
      assert Successor(key)[1..] == Successor(key[1..]);
    }
  }

  lemma SuccessorBehind(prefix: Bytes, key: Bytes, i: nat)
    requires i < |key| && key[i] == 0xFF
    ensures prefix + key[..i] + Successor(key[i..]) == prefix + key[..i + 1] + Successor(key[i + 1..])
  {
    assert key[i..][1..] == key[i + 1..];
    assert key[..i + 1] == key[..i] + [0xFF];
  }

  method FindShortSuccessor(key: Bytes) returns (r: Bytes)
    ensures r == Successor(key)
  {
    r := key;
    for i := 0 to |key|
      invariant r == key && Successor(key) == key[..i] + Successor(key[i..])
    {
      if r[i] != 0xFF {
        r := r[i := r[i] + 1];
        r := r[..i + 1];
        assert r == key[..i] + [key[i] + 1];
        return;
      }
      SuccessorBehind([], key, i);
    }
    assert key == key[..|key|] + [];
  }

  // ---------------------------------------------------------------- internal keys

  /** ExtractUserKey; an internal key has at least the eight bytes of its tag. */
  function UserKey(key: Bytes): Bytes {
    if |key| >= 8 then key[..|key| - 8] else []
  }

  /** Sequence number and type. */
  function Tag(key: Bytes): nat {
    if |key| >= 8 then Unfixed(key[|key| - 8..]) else 0
  }

  /** PackSequenceAndType(kMaxSequenceNumber, kValueTypeForSeek). */
  const SEEK_TAG := 0xFF_FFFF_FFFF_FFFF * 256 + 1

  /** InternalKeyComparator::Compare < 0. */
  predicate KeyLess(a: Bytes, b: Bytes) {
    BytesLess(UserKey(a), UserKey(b)) || (UserKey(a) == UserKey(b) && Tag(a) > Tag(b))
  }

  lemma KeyTransitive(a: Bytes, b: Bytes, c: Bytes)
    requires KeyLess(a, b) && KeyLess(b, c)
    ensures KeyLess(a, c)
  {
    if BytesLess(UserKey(a), UserKey(b)) && BytesLess(UserKey(b), UserKey(c)) {
      BytesTransitive(UserKey(a), UserKey(b), UserKey(c));
    }
  }

  /** Not before, and before, make before. */
  lemma KeyNotBefore(a: Bytes, b: Bytes, c: Bytes)
    requires !KeyLess(b, a) && KeyLess(b, c)
    ensures KeyLess(a, c)
  {
    BytesTrichotomy(UserKey(a), UserKey(b));
    if BytesLess(UserKey(a), UserKey(b)) && BytesLess(UserKey(b), UserKey(c)) {
      BytesTransitive(UserKey(a), UserKey(b), UserKey(c));
    }
  }

  lemma KeyIrreflexive(a: Bytes)
    ensures !KeyLess(a, a)
  {
    BytesTrichotomy(UserKey(a), UserKey(a));
  }

  function Tagged(user: Bytes): (key: Bytes)
    ensures |key| == |user| + 8 && UserKey(key) == user
  {
    user + Fixed(SEEK_TAG, 8)
  }

  function KeySeparator(start: Bytes, limit: Bytes): Bytes {
    var user := Separator(UserKey(start), UserKey(limit));
    if |user| < |UserKey(start)| && BytesLess(UserKey(start), user) then Tagged(user) else start
  }

  function KeySuccessor(key: Bytes): Bytes {
    var user := Successor(UserKey(key));
    if |user| < |UserKey(key)| && BytesLess(UserKey(key), user) then Tagged(user) else key
  }

  method FindShortestKeySeparator(start: Bytes, limit: Bytes) returns (r: Bytes)
    requires |start| >= 8 && |limit| >= 8
    ensures r == KeySeparator(start, limit)
  {
    var userStart, userLimit := UserKey(start), UserKey(limit);
    var tmp := FindShortestSeparator(userStart, userLimit);
    r := start;
    if |tmp| < |userStart| && BytesLess(userStart, tmp) {
      tmp := tmp + Fixed(SEEK_TAG, 8);
      r := tmp;
    }
  }

  method FindShortKeySuccessor(key: Bytes) returns (r: Bytes)
    requires |key| >= 8
    ensures r == KeySuccessor(key)
  {
    var userKey := UserKey(key);
    var tmp := FindShortSuccessor(userKey);
    r := key;
    if |tmp| < |userKey| && BytesLess(userKey, tmp) {
      tmp := tmp + Fixed(SEEK_TAG, 8);
      r := tmp;
    }
  }

  /** The separator is not before the last key of the block, and before the first key of the next; when it
      is shortened, its user key is before that of the next block, so that no version of one user key is
      split from the others. */
  lemma KeySeparatorSeparates(start: Bytes, limit: Bytes)
    requires KeyLess(start, limit)
    ensures var r := KeySeparator(start, limit);
            && !KeyLess(r, start) && KeyLess(r, limit)
            && (r == start || BytesLess(UserKey(r), UserKey(limit)))
  {
    SeparatorSeparates(UserKey(start), UserKey(limit));
    KeyIrreflexive(start);
    BytesTrichotomy(UserKey(start), Separator(UserKey(start), UserKey(limit)));
  }

  lemma KeySuccessorSucceeds(key: Bytes)
    ensures !KeyLess(KeySuccessor(key), key)
  {
    SuccessorSucceeds(UserKey(key));
    KeyIrreflexive(key);
    BytesTrichotomy(UserKey(key), Successor(UserKey(key)));
  }
}
