/** The skip list under the memtable (db/skiplist.h).  Nodes are numbered in the order of their allocation;
    node 0 is the head.  Level by level the list is a set of nodes, and a pointer must lead to the next
    node of its level. */
module SkipLists {

  /** Any countable order on keys embeds in this one. */
  type Key = real

  const NIL := -1
  const HEAD := 0
  const MAX_HEIGHT := 12

  datatype List = List(keys: seq<Key>, next: seq<seq<int>>, maxHeight: int)

  /** Node y comes after node x. */
  predicate After(l: List, x: int, y: int) {
    0 <= x < |l.keys| && 0 < y < |l.keys| && (x == HEAD || l.keys[x] < l.keys[y])
  }

  ghost predicate NextInOrder(l: List, x: int, y: int, z: int) {
    After(l, x, z) ==> z == y || After(l, y, z)
  }

  /** Of the nodes of a level, y is the first after x. */
  ghost predicate IsNext(l: List, level: set<int>, x: int, y: int) {
    if y == NIL then forall z :: z in level ==> !After(l, x, z)
    else y in level && After(l, x, y) && forall z :: z in level ==> NextInOrder(l, x, y, z)
  }

  ghost predicate LinkOk(l: List, levels: seq<set<int>>, i: int, x: int) {
    0 <= i < |levels| && (x == HEAD || x in levels[i]) && 0 <= x < |l.next| ==>
      i < |l.next[x]| && IsNext(l, levels[i], x, l.next[x][i])
  }

  ghost predicate KeysDiffer(l: List, nodes: set<int>, x: int, y: int) {
    x in nodes && y in nodes && 0 <= x < |l.keys| && 0 <= y < |l.keys| && x != y ==> l.keys[x] != l.keys[y]
  }

  ghost predicate LevelOk(l: List, levels: seq<set<int>>, i: int) {
    0 <= i < |levels| ==>
      && (forall x :: x in levels[i] ==> 0 < x < |l.keys|)
      && (i + 1 < |levels| ==> levels[i + 1] <= levels[i])
      && (i >= l.maxHeight ==> levels[i] == {})
  }

  /** Every level is sorted, part of the level below it, and linked. */
  ghost predicate Legal(l: List, levels: seq<set<int>>) {
    && |levels| == MAX_HEIGHT && 1 <= l.maxHeight <= MAX_HEIGHT
    && 1 <= |l.keys| == |l.next|
    && (forall i :: LevelOk(l, levels, i))
    && (forall x, y :: KeysDiffer(l, levels[0], x, y))
    && (forall i, x :: LinkOk(l, levels, i, x))
  }

  function SetNext(l: List, x: int, i: int, y: int): List
    requires 0 <= x < |l.next| && 0 <= i < |l.next[x]|
  {
    l.(next := l.next[x := l.next[x][i := y]])
  }

  function NewNode(l: List, key: Key, height: nat): List {
    l.(keys := l.keys + [key], next := l.next + [seq(height, _ => NIL)])
  }

  /** The head alone. */
  function Empty(): List {
    List([0.0], [seq(MAX_HEIGHT, _ => NIL)], 1)
  }

  lemma EmptyIsLegal()
    ensures Legal(Empty(), seq(MAX_HEIGHT, _ => {}))
  {
  }

  // ---------------------------------------------------------------- every store of an insertion

  lemma SameOrder(l: List, m: List, level: set<int>, x: int, y: int)
    requires l.keys == m.keys
    ensures IsNext(l, level, x, y) == IsNext(m, level, x, y)
  {
    forall z ensures NextInOrder(l, x, y, z) == NextInOrder(m, x, y, z) {}
    if y == NIL || (y in level && After(l, x, y)) {
      if IsNext(l, level, x, y) { assert IsNext(m, level, x, y); }
    }
  }

  lemma RaiseHeight(l: List, levels: seq<set<int>>, height: int)
    requires Legal(l, levels) && l.maxHeight <= height <= MAX_HEIGHT
    ensures Legal(l.(maxHeight := height), levels)
  {
    var m := l.(maxHeight := height);
    forall i ensures LevelOk(m, levels, i) {
      assert LevelOk(l, levels, i);
    }
    forall x, y ensures KeysDiffer(m, levels[0], x, y) {
      assert KeysDiffer(l, levels[0], x, y);
    }
    forall i, x ensures LinkOk(m, levels, i, x) {
      assert LinkOk(l, levels, i, x);
      if 0 <= i < |levels| && 0 <= x < |l.next| && i < |l.next[x]| { SameOrder(l, m, levels[i], x, l.next[x][i]); }
    }
  }

  /** A node that no level has is not seen. */
  lemma NodeIsUnseen(l: List, levels: seq<set<int>>, key: Key, height: nat)
    requires Legal(l, levels)
    ensures Legal(NewNode(l, key, height), levels)
    ensures forall i :: 0 <= i < MAX_HEIGHT ==> |l.keys| !in levels[i]
  {
    var m := NewNode(l, key, height);
    forall i ensures LevelOk(m, levels, i) {
      assert LevelOk(l, levels, i);
    }
    assert LevelOk(l, levels, 0);
    forall x, y ensures KeysDiffer(m, levels[0], x, y) {
      assert KeysDiffer(l, levels[0], x, y);
    }
    forall i, x ensures LinkOk(m, levels, i, x) {
      assert LinkOk(l, levels, i, x) && LevelOk(l, levels, i);
      if 0 <= i < |levels| && (x == HEAD || x in levels[i]) && 0 <= x < |l.next| {
        NextAmongOld(l, m, levels[i], x, l.next[x][i]);
      }
    }
    forall i | 0 <= i < MAX_HEIGHT ensures |l.keys| !in levels[i] {
      assert LevelOk(l, levels, i);
    }
  }

  lemma NextAmongOld(l: List, m: List, level: set<int>, x: int, y: int)
    requires l.keys <= m.keys && 0 <= x < |l.keys| && forall z :: z in level ==> 0 < z < |l.keys|
    requires IsNext(l, level, x, y)
    ensures IsNext(m, level, x, y)
  {
    forall z | z in level && y != NIL ensures NextInOrder(m, x, y, z) {
      assert NextInOrder(l, x, y, z);
    }
  }

  /** A pointer of a node that its level does not have yet is not seen. */
  lemma PlainStore(l: List, levels: seq<set<int>>, x: int, i: nat, y: int)
    requires Legal(l, levels) && 0 < x < |l.next| && i < |l.next[x]| && (i < MAX_HEIGHT ==> x !in levels[i])
    ensures Legal(SetNext(l, x, i, y), levels)
  {
    var m := SetNext(l, x, i, y);
    forall j ensures LevelOk(m, levels, j) {
      assert LevelOk(l, levels, j);
    }
    forall a, b ensures KeysDiffer(m, levels[0], a, b) {
      assert KeysDiffer(l, levels[0], a, b);
    }
    forall j, a ensures LinkOk(m, levels, j, a) {
      assert LinkOk(l, levels, j, a);
      if 0 <= j < |levels| && (a == HEAD || a in levels[j]) && 0 <= a < |l.next| {
        SameOrder(l, m, levels[j], a, l.next[a][j]);
      }
    }
  }

  /** Where a new node belongs in a level: behind p, before the node that p points to. */
  ghost predicate Fits(l: List, levels: seq<set<int>>, i: int, p: int, x: int) {
    && 0 <= i < |levels| && 0 <= p < |l.next| && i < |l.next[p]| && (p == HEAD || p in levels[i])
    && After(l, p, x) && (l.next[p][i] == NIL || After(l, x, l.next[p][i]))
  }

  /** Once the pointer from p is stored, the level has the new node. */
  lemma PublishStore(l: List, levels: seq<set<int>>, i: nat, p: int, x: int)
    requires Legal(l, levels) && i < l.maxHeight && Fits(l, levels, i, p, x)
    requires 0 < x < |l.next| && i < |l.next[x]| && l.next[x][i] == l.next[p][i]
    requires x !in levels[i] && (i > 0 ==> x in levels[i - 1])
    requires i == 0 ==> forall y :: y in levels[0] ==> 0 <= y < |l.keys| && l.keys[y] != l.keys[x]
    ensures Legal(SetNext(l, p, i, x), levels[i := levels[i] + {x}])
  {
    var m, t := SetNext(l, p, i, x), levels[i := levels[i] + {x}];
    forall j ensures LevelOk(m, t, j) {
      assert LevelOk(l, levels, j) && LevelOk(l, levels, i);
    }
    forall a, b ensures KeysDiffer(m, t[0], a, b) {
      assert KeysDiffer(l, levels[0], a, b);
    }
    forall j, a ensures LinkOk(m, t, j, a) {
      assert LinkOk(l, levels, j, a);
      if 0 <= j < |levels| && (a == HEAD || a in t[j]) && 0 <= a < |l.next| {
        if j == i {
          PublishLink(l, levels, i, p, x, a);
        } else {
          SameOrder(l, m, levels[j], a, l.next[a][j]);
        }
      }
    }
  }

  lemma PublishLink(l: List, levels: seq<set<int>>, i: nat, p: int, x: int, a: int)
    requires Legal(l, levels) && Fits(l, levels, i, p, x) && 0 < x < |l.next| && i < |l.next[x]| &&
             l.next[x][i] == l.next[p][i]
    requires x !in levels[i] && 0 <= a < |l.next| && (a == HEAD || a in levels[i] || a == x)
    ensures LinkOk(SetNext(l, p, i, x), levels[i := levels[i] + {x}], i, a)
  {
    var m, level := SetNext(l, p, i, x), levels[i];
    assert LinkOk(l, levels, i, p) && LinkOk(l, levels, i, a) && LevelOk(l, levels, i) && LevelOk(l, levels, 0);
    NextOfOld(l, level, p, x, l.next[p][i]);
    if a != p && a != x {
      Between(l, levels, i, p, x, a);
      NextOfOther(l, level, x, a, l.next[a][i]);
      SameOrder(l, m, level + {x}, a, l.next[a][i]);
    } else if a == p {
      SameOrder(l, m, level + {x}, p, x);
    } else {
      SameOrder(l, m, level + {x}, x, l.next[p][i]);
    }
  }

  /** x comes between p and what was next. */
  lemma NextOfOld(l: List, level: set<int>, p: int, x: int, y: int)
    requires IsNext(l, level, p, y) && After(l, p, x) && (y == NIL || After(l, x, y)) && x > 0
    ensures IsNext(l, level + {x}, p, x) && IsNext(l, level + {x}, x, y)
  {
    forall z | z in level + {x} ensures NextInOrder(l, p, x, z) && (y != NIL ==> NextInOrder(l, x, y, z)) {
      if z in level && y != NIL { assert NextInOrder(l, p, y, z); }
    }
  }

  /** No other node has x right behind it. */
  lemma Between(l: List, levels: seq<set<int>>, i: nat, p: int, x: int, a: int)
    requires Legal(l, levels) && Fits(l, levels, i, p, x) && x !in levels[i] && a != p && a != x
    requires 0 <= a < |l.next| && (a == HEAD || a in levels[i])
    ensures i < |l.next[a]| && (After(l, a, x) ==> l.next[a][i] != NIL && After(l, l.next[a][i], x))
  {
    assert LinkOk(l, levels, i, p) && LinkOk(l, levels, i, a) && LevelOk(l, levels, i);
    LowerHas(l, levels, i, a);
    LowerHas(l, levels, i, p);
    assert KeysDiffer(l, levels[0], a, p);
    // if a came behind p, it would be what p points to, or behind that
    assert NextInOrder(l, p, l.next[p][i], a);
    if After(l, a, x) {
      assert After(l, a, p);
      assert NextInOrder(l, a, l.next[a][i], p);
    }
  }

  lemma {:induction false} LowerHas(l: List, levels: seq<set<int>>, i: nat, a: int)
    requires Legal(l, levels) && i < |levels|
    ensures a in levels[i] ==> a in levels[0]
  {
    if i > 0 {
      assert LevelOk(l, levels, i - 1);
      LowerHas(l, levels, i - 1, a);
    }
  }

  lemma NextOfOther(l: List, level: set<int>, x: int, a: int, y: int)
    requires IsNext(l, level, a, y) && (After(l, a, x) ==> y != NIL && After(l, y, x))
    ensures IsNext(l, level + {x}, a, y)
  {
    forall z | z in level + {x} && y != NIL ensures NextInOrder(l, a, y, z) {
      if z in level { assert NextInOrder(l, a, y, z); }
    }
  }

  // ---------------------------------------------------------------- searching

  /** Node y is the first of these that is not before the key. */
  ghost predicate IsBound(l: List, nodes: set<int>, key: Key, y: int) {
    if y == NIL then forall z :: z in nodes && 0 < z < |l.keys| ==> l.keys[z] < key
    else y in nodes && 0 < y < |l.keys| && l.keys[y] >= key
         && forall z :: z in nodes && 0 < z < |l.keys| && l.keys[z] >= key ==> z == y || After(l, y, z)
  }

  /** Node x is the last of these that is before the key, or the head. */
  ghost predicate IsLastBefore(l: List, nodes: set<int>, key: Key, x: int) {
    && BeforeKey(l, key, x) && (x == HEAD || x in nodes)
    && forall z :: z in nodes && 0 < z < |l.keys| && l.keys[z] < key ==> z == x || After(l, z, x)
  }

  predicate BeforeKey(l: List, key: Key, x: int) {
    0 <= x < |l.keys| && (x == HEAD || l.keys[x] < key)
  }

  /** The end of a search in one level: x is before the key and the node behind it is not. */
  ghost predicate Brackets(l: List, levels: seq<set<int>>, i: int, key: Key, x: int) {
    && 0 <= i < |levels| && (x == HEAD || x in levels[i]) && BeforeKey(l, key, x)
    && 0 <= x < |l.next| && i < |l.next[x]| && !BeforeKey(l, key, l.next[x][i])
  }

  lemma BracketIsBound(l: List, levels: seq<set<int>>, i: int, key: Key, x: int)
    requires Legal(l, levels) && Brackets(l, levels, i, key, x)
    ensures IsBound(l, levels[i], key, l.next[x][i]) && IsLastBefore(l, levels[i], key, x)
  {
    var y := l.next[x][i];
    assert LinkOk(l, levels, i, x) && LevelOk(l, levels, i);
    forall z | z in levels[i] && l.keys[z] >= key ensures y != NIL && (z == y || After(l, y, z)) {
      assert NextInOrder(l, x, y, z);
    }
    forall z | z in levels[i] && l.keys[z] < key ensures z == x || After(l, z, x) {
      assert NextInOrder(l, x, y, z);
      LowerHas(l, levels, i, z);
      LowerHas(l, levels, i, x);
      assert KeysDiffer(l, levels[0], z, x);
    }
  }

  /** The nodes behind x: what is left of a search. */
  ghost function Behind(l: List, x: int): set<int> {
    set y | 0 < y < |l.keys| && After(l, x, y)
  }

  lemma BehindShrinks(l: List, x: int, y: int)
    requires After(l, x, y)
    ensures Behind(l, y) < Behind(l, x)
  {
    assert y in Behind(l, x) && y !in Behind(l, y);
  }

  // ---------------------------------------------------------------- one level of an insertion

  /** Node x, which is to be inserted, is in the levels below i and in no other. */
  ghost predicate Inserting(l: List, levels: seq<set<int>>, x: int, height: int, i: int) {
    && |levels| == MAX_HEIGHT && 0 < x < |l.keys| == |l.next| && |l.next[x]| == height <= l.maxHeight &&
       0 <= i <= height
    && (forall j :: 0 <= j < |levels| ==> (x in levels[j] <==> j < i))
    && (forall y :: y in levels[0] && y != x && 0 <= y < |l.keys| ==> l.keys[y] != l.keys[x])
  }

  lemma BracketFits(l: List, levels: seq<set<int>>, i: nat, p: int, x: int)
    requires Legal(l, levels) && 0 < x < |l.keys| && Brackets(l, levels, i, l.keys[x], p)
    requires forall y :: y in levels[0] && y != x && 0 <= y < |l.keys| ==> l.keys[y] != l.keys[x]
    requires x !in levels[i]
    ensures Fits(l, levels, i, p, x) && p != x
  {
    assert LinkOk(l, levels, i, p) && LevelOk(l, levels, i);
    LowerHas(l, levels, i, l.next[p][i]);
  }

  /** The store to the new node changes nothing that a reader sees. */
  lemma HalfStep(l: List, levels: seq<set<int>>, i: nat, p: int, x: int, height: int)
    requires Legal(l, levels) && Inserting(l, levels, x, height, i) && i < height
    requires Brackets(l, levels, i, l.keys[x], p)
    ensures var m := SetNext(l, x, i, l.next[p][i]);
            && Legal(m, levels) && Inserting(m, levels, x, height, i) && Brackets(m, levels, i, m.keys[x], p)
            && m.next[x][i] == m.next[p][i]
  {
    BracketFits(l, levels, i, p, x);
    PlainStore(l, levels, x, i, l.next[p][i]);
  }

  /** The store that publishes the new node adds it to the level and nothing else. */
  lemma PublishStep(l: List, levels: seq<set<int>>, i: nat, p: int, x: int, height: int)
    requires Legal(l, levels) && Inserting(l, levels, x, height, i) && i < height
    requires Brackets(l, levels, i, l.keys[x], p) && l.next[x][i] == l.next[p][i]
    ensures var m, t := SetNext(l, p, i, x), levels[i := levels[i] + {x}];
            Legal(m, t) && Inserting(m, t, x, height, i + 1)
  {
    BracketFits(l, levels, i, p, x);
    assert LevelOk(l, levels, 0);
    PublishStore(l, levels, i, p, x);
  }

  /** A store in one level leaves the searches of the levels above as they are. */
  lemma StoreKeepsBracket(l: List, levels: seq<set<int>>, n: int, i: nat, y: int, t: seq<set<int>>, j: int, key: Key,
                          q: int)
    requires 0 <= n < |l.next| && i < |l.next[n]| && i < j < |levels| == |t| && levels[j] == t[j]
    requires Brackets(l, levels, j, key, q)
    ensures Brackets(SetNext(l, n, i, y), t, j, key, q)
  {
  }

  /** The node has joined the first n levels, and nothing else has changed. */
  ghost predicate LinkedUpTo(before: seq<set<int>>, after: seq<set<int>>, x: int, n: nat) {
    && |after| == |before|
    && forall j :: 0 <= j < |before| ==> after[j] == before[j] + if j < n then {x} else {}
  }

  class SkipList {
    var keys: seq<Key>
    var next: seq<seq<int>>
    var maxHeight: int
    /** The nodes of each level. */
    ghost var levels: seq<set<int>>

    function Nodes(): List
      reads this
    {
      List(keys, next, maxHeight)
    }

    ghost predicate Valid()
      reads this
    {
      Legal(Nodes(), levels)
    }

    /** The keys in the list. */
    ghost function Contents(): set<Key>
      reads this
      requires Valid()
    {
      KeysOf(Nodes(), levels[0])
    }

    constructor ()
      ensures Valid() && levels[0] == {} && Contents() == {}
    {
      keys, next, maxHeight := [0.0], [seq(MAX_HEIGHT, _ => NIL)], 1;
      levels := seq(MAX_HEIGHT, _ => {});
      new;
      EmptyIsLegal();
    }

    /** The first node not before the key; on the way down, the last one before it in every level. */
    method FindGreaterOrEqual(key: Key, prev: array?<int>) returns (node: int)
      requires Valid() && (prev != null ==> prev.Length == MAX_HEIGHT)
      modifies if prev == null then {} else {prev}
      ensures IsBound(Nodes(), levels[0], key, node)
      ensures prev != null ==> forall i :: 0 <= i < maxHeight ==> Brackets(Nodes(), levels, i, key, prev[i])
    {
      var x, level := HEAD, maxHeight - 1;
      while true
        invariant 0 <= level < maxHeight && (x == HEAD || x in levels[level]) && BeforeKey(Nodes(), key, x)
        invariant prev != null ==> forall i :: level < i < maxHeight ==> Brackets(Nodes(), levels, i, key, prev[i])
        decreases level, Behind(Nodes(), x)
      {
        assert LinkOk(Nodes(), levels, level, x) && LevelOk(Nodes(), levels, level);
        var y := next[x][level];
        if BeforeKey(Nodes(), key, y) {
          BehindShrinks(Nodes(), x, y);
          x := y;
        } else {
          assert Brackets(Nodes(), levels, level, key, x);
          if prev != null {
            prev[level] := x;
          }
          if level == 0 {
            BracketIsBound(Nodes(), levels, 0, key, x);
            return y;
          }
          assert LevelOk(Nodes(), levels, level - 1);
          level := level - 1;
        }
      }
    }

    method FindLessThan(key: Key) returns (x: int)
      requires Valid()
      ensures IsLastBefore(Nodes(), levels[0], key, x)
    {
      var level := maxHeight - 1;
      x := HEAD;
      while true
        invariant 0 <= level < maxHeight && (x == HEAD || x in levels[level]) && BeforeKey(Nodes(), key, x)
        decreases level, Behind(Nodes(), x)
      {
        assert LinkOk(Nodes(), levels, level, x) && LevelOk(Nodes(), levels, level);
        var y := next[x][level];
        if y == NIL || keys[y] >= key {
          if level == 0 {
            assert Brackets(Nodes(), levels, 0, key, x);
            BracketIsBound(Nodes(), levels, 0, key, x);
            return;
          }
          assert LevelOk(Nodes(), levels, level - 1);
          level := level - 1;
        } else {
          BehindShrinks(Nodes(), x, y);
          x := y;
        }
      }
    }

    /** The last node of all, or the head. */
    method FindLast() returns (x: int)
      requires Valid()
      ensures IsLast(Nodes(), levels[0], x)
    {
      var level := maxHeight - 1;
      x := HEAD;
      while true
        invariant 0 <= level < maxHeight && (x == HEAD || x in levels[level])
        decreases level, Behind(Nodes(), x)
      {
        assert LinkOk(Nodes(), levels, level, x) && LevelOk(Nodes(), levels, level);
        var y := next[x][level];
        if y == NIL {
          if level == 0 {
            NilIsLast(Nodes(), levels, x);
            return;
          }
          assert LevelOk(Nodes(), levels, level - 1);
          level := level - 1;
        } else {
          BehindShrinks(Nodes(), x, y);
          x := y;
        }
      }
    }

    method Contains(key: Key) returns (found: bool)
      requires Valid()
      ensures found <==> key in Contents()
    {
      var x := FindGreaterOrEqual(key, null);
      found := x != NIL && keys[x] == key;
      BoundDecides(Nodes(), levels, key, x);
    }

    /** The height is what RandomHeight drew. */
    method Insert(key: Key, height: nat)
      requires Valid() && key !in Contents() && 1 <= height <= MAX_HEIGHT
      modifies this
      ensures Valid() && Contents() == old(Contents()) + {key}
      ensures levels[0] == old(levels)[0] + {|old(keys)|} && keys == old(keys) + [key]
      ensures LinkedUpTo(old(levels), levels, |old(keys)|, height)
    {
      var prev := new int[MAX_HEIGHT];
      var _ := FindGreaterOrEqual(key, prev);
      assert forall x :: x in levels[0] && 0 < x < |keys| ==> keys[x] in Contents();
      RaiseTo(height, key, prev);
      var x := |keys|;
      NodeIsUnseen(Nodes(), levels, key, height);
      NewNodeKeeps(Nodes(), levels, key, height, prev[..]);
      keys := keys + [key];
      next := next + [seq(height, _ => NIL)];
      ghost var was := levels;
      LinkIn(x, height, prev);
      ContentsGrow(Nodes(), was[0], x);
    }

    /** The part of Insert for a node higher than all before it. */
    method RaiseTo(height: nat, key: Key, prev: array<int>)
      requires Valid() && prev.Length == MAX_HEIGHT && 1 <= height <= MAX_HEIGHT
      requires forall j :: 0 <= j < maxHeight ==> Brackets(Nodes(), levels, j, key, prev[j])
      modifies this`maxHeight, prev
      ensures Valid() && height <= maxHeight
      ensures forall j :: 0 <= j < height ==> Brackets(Nodes(), levels, j, key, prev[j])
    {
      if height > maxHeight {
        for i := maxHeight to height
          invariant unchanged(this)
          invariant forall j :: 0 <= j < maxHeight ==> prev[j] == old(prev[j])
          invariant forall j :: maxHeight <= j < i ==> prev[j] == HEAD
        {
          prev[i] := HEAD;
        }
        RaiseHeight(Nodes(), levels, height);
        EmptyLevels(Nodes(), levels, key);
        ghost var was := Nodes();
        maxHeight := height;
        forall j | 0 <= j < height ensures Brackets(Nodes(), levels, j, key, prev[j]) {
          assert Brackets(was, levels, j, key, prev[j]);
        }
      }
    }

    /** The loop of Insert. */
    method LinkIn(x: int, height: nat, prev: array<int>)
      requires Valid() && Inserting(Nodes(), levels, x, height, 0) && prev.Length == MAX_HEIGHT && 1 <= height
      requires forall j :: 0 <= j < height ==> Brackets(Nodes(), levels, j, keys[x], prev[j])
      modifies this`next, this`levels
      ensures Valid() && levels[0] == old(levels)[0] + {x} && LinkedUpTo(old(levels), levels, x, height)
    {
      for i := 0 to height
        invariant Valid() && Inserting(Nodes(), levels, x, height, i)
        invariant forall j :: i <= j < height ==> Brackets(Nodes(), levels, j, keys[x], prev[j])
        invariant levels[0] == old(levels)[0] + if i == 0 then {} else {x}
        invariant LinkedUpTo(old(levels), levels, x, i)
      {
        LinkLevel(x, height, prev, i);
      }
    }

    method LinkLevel(x: int, height: nat, prev: array<int>, i: nat)
      requires Valid() && Inserting(Nodes(), levels, x, height, i) && prev.Length == MAX_HEIGHT && i < height
      requires forall j :: i <= j < height ==> Brackets(Nodes(), levels, j, keys[x], prev[j])
      modifies this`next, this`levels
      ensures Valid() && Inserting(Nodes(), levels, x, height, i + 1)
      ensures forall j :: i < j < height ==> Brackets(Nodes(), levels, j, keys[x], prev[j])
      ensures levels == old(levels)[i := old(levels)[i] + {x}]
    {
      var p := prev[i];
      ghost var l0 := Nodes();
      HalfStep(l0, levels, i, p, x, height);
      next := next[x := next[x][i := next[p][i]]];
      ghost var l1 := Nodes();
      assert l1 == SetNext(l0, x, i, l0.next[p][i]);
      assert Valid();
      PublishStep(l1, levels, i, p, x, height);
      next := next[p := next[p][i := x]];
      assert Nodes() == SetNext(l1, p, i, x);
      ghost var t := levels[i := levels[i] + {x}];
      forall j | i < j < height ensures Brackets(Nodes(), t, j, keys[x], prev[j]) {
        StoreKeepsBracket(l0, levels, x, i, l0.next[p][i], levels, j, keys[x], prev[j]);
        StoreKeepsBracket(l1, levels, p, i, x, t, j, keys[x], prev[j]);
      }
      levels := t;
    }
  }

  ghost function KeysOf(l: List, nodes: set<int>): set<Key> {
    set x | x in nodes && 0 < x < |l.keys| :: l.keys[x]
  }

  ghost predicate IsLast(l: List, nodes: set<int>, x: int) {
    (if x == HEAD then nodes == {} else x in nodes) && forall z :: z in nodes ==> z == x || After(l, z, x)
  }

  lemma NilIsLast(l: List, levels: seq<set<int>>, x: int)
    requires Legal(l, levels) && 0 <= x < |l.next| && 0 < |l.next[x]| && l.next[x][0] == NIL &&
             (x == HEAD || x in levels[0])
    ensures IsLast(l, levels[0], x)
  {
    assert LinkOk(l, levels, 0, x) && LevelOk(l, levels, 0);
    forall z | z in levels[0] ensures z == x || After(l, z, x) {
      assert KeysDiffer(l, levels[0], z, x);
    }
    if x == HEAD {
      forall z ensures z !in levels[0] {
        assert z in levels[0] ==> After(l, HEAD, z);
      }
    }
  }

  lemma BoundDecides(l: List, levels: seq<set<int>>, key: Key, x: int)
    requires Legal(l, levels) && IsBound(l, levels[0], key, x)
    ensures key in KeysOf(l, levels[0]) <==> x != NIL && l.keys[x] == key
  {
    assert LevelOk(l, levels, 0);
  }

  lemma ContentsGrow(l: List, nodes: set<int>, x: int)
    requires 0 < x < |l.keys|
    ensures KeysOf(l, nodes + {x}) == KeysOf(l, nodes) + {l.keys[x]}
  {
  }

  /** In a level above the height of the list the head points to nothing. */
  lemma EmptyLevels(l: List, levels: seq<set<int>>, key: Key)
    requires Legal(l, levels)
    ensures forall j :: l.maxHeight <= j < MAX_HEIGHT ==> Brackets(l, levels, j, key, HEAD)
  {
    forall j | l.maxHeight <= j < MAX_HEIGHT ensures Brackets(l, levels, j, key, HEAD) {
      assert LinkOk(l, levels, j, HEAD) && LevelOk(l, levels, j);
    }
  }

  lemma NewNodeKeeps(l: List, levels: seq<set<int>>, key: Key, height: nat, prev: seq<int>)
    requires Legal(l, levels) && height <= l.maxHeight && |prev| == MAX_HEIGHT
    requires forall x :: x in levels[0] && 0 < x < |l.keys| ==> l.keys[x] != key
    requires forall j :: 0 <= j < height ==> Brackets(l, levels, j, key, prev[j])
    ensures Inserting(NewNode(l, key, height), levels, |l.keys|, height, 0)
    ensures forall j :: 0 <= j < height ==> Brackets(NewNode(l, key, height), levels, j, key, prev[j])
  {
    NodeIsUnseen(l, levels, key, height);
    assert LevelOk(l, levels, 0);
    forall j | 0 <= j < height ensures Brackets(NewNode(l, key, height), levels, j, key, prev[j]) {
      assert Brackets(l, levels, j, key, prev[j]) && LinkOk(l, levels, j, prev[j]);
    }
  }

  // ---------------------------------------------------------------- iteration

  class Iterator {
    const list: SkipList
    var node: int

    ghost predicate Positioned()
      reads this, list
    {
      list.Valid() && (node == NIL || node in list.levels[0])
    }

    constructor (list: SkipList)
      requires list.Valid()
      ensures this.list == list && node == NIL && Positioned()
    {
      this.list, node := list, NIL;
    }

    predicate Valid()
      reads this
    {
      node != NIL
    }

    method Next()
      requires Positioned() && Valid()
      modifies this
      ensures Positioned() && IsNext(list.Nodes(), list.levels[0], old(node), node)
    {
      assert LinkOk(list.Nodes(), list.levels, 0, node) && LevelOk(list.Nodes(), list.levels, 0);
      node := list.next[node][0];
    }

    /** The node before; NIL stands for the head. */
    method Prev()
      requires Positioned() && Valid()
      modifies this
      ensures Positioned() && 0 < old(node) < |list.keys|
      ensures IsLastBefore(list.Nodes(), list.levels[0], list.keys[old(node)], if node == NIL then HEAD else node)
    {
      assert LevelOk(list.Nodes(), list.levels, 0);
      node := list.FindLessThan(list.keys[node]);
      if node == HEAD {
        node := NIL;
      }
    }

    method Seek(target: Key)
      requires Positioned()
      modifies this
      ensures Positioned() && IsBound(list.Nodes(), list.levels[0], target, node)
    {
      node := list.FindGreaterOrEqual(target, null);
    }

    method SeekToFirst()
      requires Positioned()
      modifies this
      ensures Positioned() && IsNext(list.Nodes(), list.levels[0], HEAD, node)
    {
      assert LinkOk(list.Nodes(), list.levels, 0, HEAD) && LevelOk(list.Nodes(), list.levels, 0);
      node := list.next[HEAD][0];
    }

    method SeekToLast()
      requires Positioned()
      modifies this
      ensures Positioned() && IsLast(list.Nodes(), list.levels[0], if node == NIL then HEAD else node)
    {
      assert LevelOk(list.Nodes(), list.levels, 0);
      node := list.FindLast();
      if node == HEAD {
        node := NIL;
      }
    }
  }

  /** Going back after going forward leads back. */
  lemma PrevUndoesNext(l: List, levels: seq<set<int>>, x: int, y: int, w: int)
    requires Legal(l, levels) && x in levels[0] && y in levels[0] && IsNext(l, levels[0], x, y)
    requires 0 < y < |l.keys| && IsLastBefore(l, levels[0], l.keys[y], w)
    ensures w == x
  {
    assert LevelOk(l, levels, 0) && NextInOrder(l, x, y, w);
  }
}
