/** The merging iterator (table/merger.cc): one cursor over the sorted merge of several cursors. */
module Merging {
  import opened DbFormat
  import opened Wrappers
  import opened Cursors
  import Lookup

  // ---------------------------------------------------------------- the merge

  ghost predicate ChildSorted(children: seq<seq<Entry>>, c: int) {
    0 <= c < |children| ==> Ascending(children[c])
  }

  ghost predicate KeysApart(children: seq<seq<Entry>>, c: int, d: int) {
    forall i, j :: In(children, c, i) && In(children, d, j) ==> children[c][i].key != children[d][j].key
  }

  /** Each child is sorted, and no key is in two children. */
  ghost predicate ChildrenOk(children: seq<seq<Entry>>) {
    && (forall c :: ChildSorted(children, c))
    && forall c, d :: c != d ==> KeysApart(children, c, d)
  }

  predicate In(children: seq<seq<Entry>>, c: int, j: int) {
    0 <= c < |children| && 0 <= j < |children[c]|
  }

  function Merge(a: seq<Entry>, b: seq<Entry>): seq<Entry> {
    if a == [] then b
    else if b == [] then a
    else if Less(a[0].key, b[0].key) then [a[0]] + Merge(a[1..], b)
    else [b[0]] + Merge(a, b[1..])
  }

  function MergeAll(children: seq<seq<Entry>>): seq<Entry> {
    if children == [] then []
    else Merge(MergeAll(children[..|children| - 1]), children[|children| - 1])
  }

  lemma {:induction false} MergeHas(a: seq<Entry>, b: seq<Entry>, e: Entry)
    ensures e in Merge(a, b) <==> e in a || e in b
  {
    if a != [] && b != [] {
      if Less(a[0].key, b[0].key) {
        MergeHas(a[1..], b, e);
      } else {
        MergeHas(a, b[1..], e);
      }
    }
  }

  lemma {:induction false} MergeAscends(a: seq<Entry>, b: seq<Entry>)
    requires Ascending(a) && Ascending(b)
    requires forall i, j :: 0 <= i < |a| && 0 <= j < |b| ==> a[i].key != b[j].key
    ensures Ascending(Merge(a, b))
  {
    if a != [] && b != [] {
      var first, rest := a[0], Merge(a[1..], b);
      if Less(a[0].key, b[0].key) {
        MergeAscends(a[1..], b);
      } else {
        first, rest := b[0], Merge(a, b[1..]);
        MergeAscends(a, b[1..]);
      }
      forall k | 0 <= k < |rest| ensures Less(first.key, rest[k].key) {
        MergeHas(a[1..], b, rest[k]);
        MergeHas(a, b[1..], rest[k]);
        HeadIsLeast(a, b, rest[k]);
      }
    }
  }

  lemma HeadIsLeast(a: seq<Entry>, b: seq<Entry>, e: Entry)
    requires Ascending(a) && Ascending(b) && a != [] && b != [] && a[0].key != b[0].key
    ensures Less(a[0].key, b[0].key) && (e in a[1..] || e in b) ==> Less(a[0].key, e.key)
    ensures !Less(a[0].key, b[0].key) && (e in a || e in b[1..]) ==> Less(b[0].key, e.key)
  {
    CompareIsTotalOrder(a[0].key, b[0].key, e.key);
    CompareIsTotalOrder(b[0].key, a[0].key, e.key);
  }

  lemma {:induction false} MergeAllHas(children: seq<seq<Entry>>, e: Entry)
    ensures e in MergeAll(children) <==> exists c :: 0 <= c < |children| && e in children[c]
  {
    if children != [] {
      var front := children[..|children| - 1];
      MergeAllHas(front, e);
      MergeHas(MergeAll(front), children[|children| - 1], e);
      assert forall c :: 0 <= c < |front| ==> front[c] == children[c];
      if c :| 0 <= c < |children| && e in children[c] {
        assert c < |front| ==> e in front[c];
      }
    }
  }

  lemma FrontOk(children: seq<seq<Entry>>)
    requires ChildrenOk(children) && children != []
    ensures ChildrenOk(children[..|children| - 1])
  {
    var front := children[..|children| - 1];
    forall c ensures ChildSorted(front, c) { assert ChildSorted(children, c); }
    forall c, d | c != d ensures KeysApart(front, c, d) {
      assert KeysApart(children, c, d);
      assert forall i :: In(front, c, i) ==> In(children, c, i);
      assert forall j :: In(front, d, j) ==> In(children, d, j);
    }
  }

  lemma {:induction false} MergeAllAscends(children: seq<seq<Entry>>)
    requires ChildrenOk(children)
    ensures Ascending(MergeAll(children))
  {
    if children != [] {
      var n := |children| - 1;
      var front, last := children[..n], children[n];
      FrontOk(children);
      MergeAllAscends(front);
      forall i, j | 0 <= i < |MergeAll(front)| && 0 <= j < |last| ensures MergeAll(front)[i].key != last[j].key {
        MergeAllHas(front, MergeAll(front)[i]);
        var c :| 0 <= c < |front| && MergeAll(front)[i] in front[c];
        var k :| 0 <= k < |front[c]| && front[c][k] == MergeAll(front)[i];
        assert KeysApart(children, c, n) && In(children, c, k) && In(children, n, j);
      }
      assert ChildSorted(children, n);
      MergeAscends(MergeAll(front), last);
    }
  }

  // ---------------------------------------------------------------- ranks

  function IndexOf(merged: seq<Entry>, e: Entry): (i: nat)
    requires e in merged
    ensures i < |merged| && merged[i] == e
  {
    if merged[0] == e then 0 else 1 + IndexOf(merged[1..], e)
  }

  /** The place of a child's entry in the merge. */
  ghost function Rank(children: seq<seq<Entry>>, c: int, j: int): int
    requires In(children, c, j)
  {
    var e := children[c][j];
    if e in MergeAll(children) then IndexOf(MergeAll(children), e) else -1
  }

  lemma RankIsPlace(children: seq<seq<Entry>>, c: int, j: int)
    requires ChildrenOk(children) && In(children, c, j)
    ensures 0 <= Rank(children, c, j) < |MergeAll(children)|
    ensures MergeAll(children)[Rank(children, c, j)] == children[c][j]
  {
    MergeAllHas(children, children[c][j]);
    assert children[c][j] in children[c];
  }

  /** Ranks order entries as their keys do, and differ for different entries. */
  lemma RankOrders(children: seq<seq<Entry>>, c: int, j: int, d: int, i: int)
    requires ChildrenOk(children) && In(children, c, j) && In(children, d, i)
    ensures Less(children[c][j].key, children[d][i].key) <==> Rank(children, c, j) < Rank(children, d, i)
    ensures Rank(children, c, j) == Rank(children, d, i) ==> c == d && j == i
  {
    RankIsPlace(children, c, j);
    RankIsPlace(children, d, i);
    MergeAllAscends(children);
    CompareIsTotalOrder(children[c][j].key, children[d][i].key, children[c][j].key);
    assert c != d ==> KeysApart(children, c, d);
    assert ChildSorted(children, c);
  }

  lemma EveryRankIsTaken(children: seq<seq<Entry>>, m: nat) returns (c: int, j: int)
    requires ChildrenOk(children) && m < |MergeAll(children)|
    ensures In(children, c, j) && Rank(children, c, j) == m
  {
    var merged := MergeAll(children);
    MergeAllHas(children, merged[m]);
    c :| 0 <= c < |children| && merged[m] in children[c];
    j :| 0 <= j < |children[c]| && children[c][j] == merged[m];
    MergeAllAscends(children);
    RankIsPlace(children, c, j);
  }

  // ---------------------------------------------------------------- where the children stand

  ghost predicate Placed(children: seq<seq<Entry>>, pos: seq<int>) {
    |pos| == |children| && forall c :: 0 <= c < |children| ==> -1 <= pos[c] <= |children[c]|
  }

  predicate ChildValid(children: seq<seq<Entry>>, pos: seq<int>, c: int)
    requires |pos| == |children|
  {
    In(children, c, if 0 <= c < |pos| then pos[c] else -1)
  }

  /** Child c stands at its first entry of rank n or more. */
  ghost predicate AheadAt(children: seq<seq<Entry>>, p: int, c: int, n: int) {
    0 <= p && forall j :: In(children, c, j) ==> (j < p <==> Rank(children, c, j) < n)
  }

  /** Child c stands at its last entry of rank n or less. */
  ghost predicate BehindAt(children: seq<seq<Entry>>, p: int, c: int, n: int) {
    (0 <= c < |children| ==> p < |children[c]|) && forall j :: In(children, c, j) ==>
        (j <= p <==> Rank(children, c, j) <= n)
  }

  ghost predicate AllAhead(children: seq<seq<Entry>>, pos: seq<int>, n: int)
    requires Placed(children, pos)
  {
    forall c :: 0 <= c < |children| ==> AheadAt(children, pos[c], c, n)
  }

  ghost predicate AllBehind(children: seq<seq<Entry>>, pos: seq<int>, n: int)
    requires Placed(children, pos)
  {
    forall c :: 0 <= c < |children| ==> BehindAt(children, pos[c], c, n)
  }

  /** A child sought to the key of rank n stands at its first entry of rank n or more. */
  lemma SeekIsAhead(children: seq<seq<Entry>>, c: int, d: int, i: int)
    requires ChildrenOk(children) && 0 <= c < |children| && In(children, d, i)
    ensures AheadAt(children, Lookup.LowerBound(children[c], children[d][i].key), c, Rank(children, d, i))
  {
    var key := children[d][i].key;
    forall j | In(children, c, j)
      ensures j < Lookup.LowerBound(children[c], key) <==> Rank(children, c, j) < Rank(children, d, i)
    {
      assert ChildSorted(children, c);
      LowerBoundSplits(children[c], key, j);
      RankOrders(children, c, j, d, i);
    }
  }

  /** A child sought to any key stands at its first entry at or after the merge's lower bound. */
  lemma SeekTargetIsAhead(children: seq<seq<Entry>>, c: int, target: InternalKey)
    requires ChildrenOk(children) && 0 <= c < |children|
    ensures AheadAt(children, Lookup.LowerBound(children[c], target), c, Lookup.LowerBound(MergeAll(children), target))
  {
    var merged := MergeAll(children);
    MergeAllAscends(children);
    forall j | In(children, c, j)
      ensures j < Lookup.LowerBound(children[c], target) <==> Rank(children, c, j) < Lookup.LowerBound(merged, target)
    {
      RankIsPlace(children, c, j);
      assert ChildSorted(children, c);
      LowerBoundSplits(children[c], target, j);
      LowerBoundSplits(merged, target, Rank(children, c, j));
    }
  }

  /** Another child is never at the shown entry, so before it and not after it are the same. */
  lemma OtherChildSkips(children: seq<seq<Entry>>, c: int, p: int, d: int, i: int)
    requires ChildrenOk(children) && 0 <= c < |children| && In(children, d, i) && c != d
    ensures AheadAt(children, p, c, Rank(children, d, i)) ==> AheadAt(children, p, c, Rank(children, d, i) + 1)
    ensures AheadAt(children, p, c, Rank(children, d, i)) && p <= |children[c]| ==>
              BehindAt(children, p - 1, c, Rank(children, d, i) - 1)
    ensures BehindAt(children, p, c, Rank(children, d, i)) ==> BehindAt(children, p, c, Rank(children, d, i) - 1)
  {
    forall j | In(children, c, j) ensures Rank(children, c, j) != Rank(children, d, i) {
      RankOrders(children, c, j, d, i);
    }
  }

  /** Seeking another child to the shown key never finds that key there. */
  lemma OtherChildLacksKey(children: seq<seq<Entry>>, c: int, d: int, i: int)
    requires ChildrenOk(children) && 0 <= c < |children| && In(children, d, i) && c != d
    ensures var q := Lookup.LowerBound(children[c], children[d][i].key);
            && AheadAt(children, q, c, Rank(children, d, i))
            && (q < |children[c]| ==> Compare(children[d][i].key, children[c][q].key) != 0)
  {
    var key := children[d][i].key;
    SeekIsAhead(children, c, d, i);
    var q := Lookup.LowerBound(children[c], key);
    if q < |children[c]| {
      assert KeysApart(children, c, d) && In(children, c, q) && In(children, d, i);
      CompareIsTotalOrder(key, children[c][q].key, key);
    }
  }

  /** Seeking another child to the shown key and stepping back leaves it before that key. */
  lemma OtherChildStepsBack(children: seq<seq<Entry>>, c: int, d: int, i: int)
    requires ChildrenOk(children) && 0 <= c < |children| && In(children, d, i) && c != d
    ensures BehindAt(children, Lookup.LowerBound(children[c], children[d][i].key) - 1, c, Rank(children, d, i) - 1)
  {
    SeekIsAhead(children, c, d, i);
    OtherChildSkips(children, c, Lookup.LowerBound(children[c], children[d][i].key), d, i);
  }

  // ---------------------------------------------------------------- the iterator

  class MergingIterator {
    const children: seq<seq<Entry>>
    /** The position of every child; outside its entries when the child is not valid. */
    var pos: seq<int>
    var current: Option<nat>
    var forward: bool

    ghost predicate Valid()
      reads this
    {
      && ChildrenOk(children)
      && Placed(children, pos)
      && (current.Some? ==>
            && ChildValid(children, pos, current.value)
            && var n := Rank(children, current.value, pos[current.value]);
               if forward then AllAhead(children, pos, n) else AllBehind(children, pos, n))
    }

    /** Where a plain cursor over the merge would stand. */
    ghost function Shown(): (at: Cursor)
      requires Valid()
      reads this
      ensures On(MergeAll(children), at)
    {
      if current.Some? then
        RankIsPlace(children, current.value, pos[current.value]);
        Some(Rank(children, current.value, pos[current.value]))
      else None
    }

    constructor (children: seq<seq<Entry>>)
      requires ChildrenOk(children)
      ensures Valid() && Shown() == None && this.children == children
    {
      this.children := children;
      pos := seq(|children|, _ => -1);
      current, forward := None, true;
    }

    method Current() returns (e: Entry)
      requires Valid() && current.Some?
      ensures e == MergeAll(children)[Shown().value]
    {
      e := children[current.value][pos[current.value]];
      RankIsPlace(children, current.value, pos[current.value]);
    }

    method FindSmallest(ghost n: nat)
      requires ChildrenOk(children) && Placed(children, pos) && AllAhead(children, pos, n) && forward
      modifies this`current
      ensures Valid() && Shown() == At(MergeAll(children), n)
    {
      var smallest: Option<nat> := None;
      for i := 0 to |children|
        invariant smallest.Some? ==> smallest.value < i && ChildValid(children, pos, smallest.value)
        invariant forall c :: 0 <= c < i && ChildValid(children, pos, c) ==>
                    smallest.Some? && Rank(children, smallest.value, pos[smallest.value]) <= Rank(children, c, pos[c])
      {
        if ChildValid(children, pos, i) {
          if smallest.Some? {
            RankOrders(children, i, pos[i], smallest.value, pos[smallest.value]);
          }
          if smallest.None? || Less(children[i][pos[i]].key, children[smallest.value][pos[smallest.value]].key) {
            smallest := Some(i);
          }
        }
      }
      current := smallest;
      SmallestHasRank(children, pos, n, current);
    }

    method FindLargest(ghost n: int)
      requires ChildrenOk(children) && Placed(children, pos) && AllBehind(children, pos, n) && !forward
      requires n < |MergeAll(children)|
      modifies this`current
      ensures Valid() && Shown() == At(MergeAll(children), n)
    {
      var largest: Option<nat> := None;
      for i := |children| downto 0
        invariant largest.Some? ==> i <= largest.value < |children| && ChildValid(children, pos, largest.value)
        invariant forall c :: i <= c < |children| && ChildValid(children, pos, c) ==>
                    largest.Some? && Rank(children, largest.value, pos[largest.value]) >= Rank(children, c, pos[c])
      {
        if ChildValid(children, pos, i) {
          if largest.Some? {
            RankOrders(children, largest.value, pos[largest.value], i, pos[i]);
          }
          if largest.None? || Less(children[largest.value][pos[largest.value]].key, children[i][pos[i]].key) {
            largest := Some(i);
          }
        }
      }
      current := largest;
      LargestHasRank(children, pos, n, current);
    }

    method SeekToFirst()
      requires Valid()
      modifies this
      ensures Valid() && Shown() == At(MergeAll(children), 0)
    {
      pos := seq(|children|, _ => 0);
      forward := true;
      forall c, j | In(children, c, j) ensures Rank(children, c, j) >= 0 { RankIsPlace(children, c, j); }
      FindSmallest(0);
    }

    method SeekToLast()
      requires Valid()
      modifies this
      ensures Valid() && Shown() == At(MergeAll(children), |MergeAll(children)| - 1)
    {
      pos := seq(|children|, c requires 0 <= c < |children| => |children[c]| - 1);
      forward := false;
      forall c, j | In(children, c, j) ensures Rank(children, c, j) <= |MergeAll(children)| - 1 {
        RankIsPlace(children, c, j);
      }
      FindLargest(|MergeAll(children)| - 1);
    }

    method Seek(target: InternalKey)
      requires Valid()
      modifies this
      ensures Valid() && Shown() == At(MergeAll(children), Lookup.LowerBound(MergeAll(children), target))
    {
      pos := seq(|children|, c requires 0 <= c < |children| => Lookup.LowerBound(children[c], target));
      forward := true;
      forall c | 0 <= c < |children|
        ensures AheadAt(children, pos[c], c, Lookup.LowerBound(MergeAll(children), target))
      {
        SeekTargetIsAhead(children, c, target);
      }
      FindSmallest(Lookup.LowerBound(MergeAll(children), target));
    }

    /** The direction switch of Next: every other child is put after the shown key. */
    method PutOthersAfter()
      requires Valid() && current.Some?
      modifies this`pos
      ensures Placed(children, pos) && pos[current.value] == old(pos)[current.value]
      ensures forall c :: 0 <= c < |children| && c != current.value ==>
                AheadAt(children, pos[c], c, Rank(children, current.value, old(pos)[current.value]))
    {
      var cur := current.value;
      var p := pos[cur];
      var key := children[cur][p].key;
      for i := 0 to |children|
        invariant Placed(children, pos) && pos[cur] == p
        invariant forall c :: 0 <= c < i && c != cur ==> AheadAt(children, pos[c], c, Rank(children, cur, p))
      {
        if i != cur {
          var q := Lookup.LowerBound(children[i], key);
          OtherChildLacksKey(children, i, cur, p);
          if q < |children[i]| && Compare(key, children[i][q].key) == 0 {
            q := q + 1;
          }
          pos := pos[i := q];
        }
      }
    }

    /** The direction switch of Prev: every other child is put before the shown key. */
    method PutOthersBefore()
      requires Valid() && current.Some?
      modifies this`pos
      ensures Placed(children, pos) && pos[current.value] == old(pos)[current.value]
      ensures forall c :: 0 <= c < |children| && c != current.value ==>
                BehindAt(children, pos[c], c, Rank(children, current.value, old(pos)[current.value]) - 1)
    {
      var cur := current.value;
      var p := pos[cur];
      var key := children[cur][p].key;
      for i := 0 to |children|
        invariant Placed(children, pos) && pos[cur] == p
        invariant forall c :: 0 <= c < i && c != cur ==> BehindAt(children, pos[c], c, Rank(children, cur, p) - 1)
      {
        if i != cur {
          var q := Lookup.LowerBound(children[i], key);
          OtherChildStepsBack(children, i, cur, p);
          if q < |children[i]| {
            q := q - 1;
          } else {
            q := |children[i]| - 1;
          }
          pos := pos[i := q];
        }
      }
    }

    method Next()
      requires Valid() && current.Some?
      modifies this
      ensures Valid() && Shown() == At(MergeAll(children), old(Shown()).value + 1)
    {
      var cur := current.value;
      var p := pos[cur];
      ghost var n := Rank(children, cur, p);
      RankIsPlace(children, cur, p);
      if !forward {
        PutOthersAfter();
        forward := true;
      }
      AllStepForward(children, pos, cur, p);
      pos := pos[cur := p + 1];
      FindSmallest(n + 1);
    }

    method Prev()
      requires Valid() && current.Some?
      modifies this
      ensures Valid() && Shown() == At(MergeAll(children), old(Shown()).value - 1)
    {
      var cur := current.value;
      var p := pos[cur];
      ghost var n := Rank(children, cur, p);
      RankIsPlace(children, cur, p);
      if forward {
        PutOthersBefore();
        forward := false;
      } else {
        OthersStayBehind(children, pos, cur, p);
      }
      AllStepBack(children, pos, cur, p);
      pos := pos[cur := p - 1];
      FindLargest(n - 1);
    }

    method Perform(move: Move)
      requires Valid()
      modifies this
      ensures Valid() && Shown() == Moved(MergeAll(children), old(Shown()), move)
    {
      match move {
        case SeekTo(target) => Seek(target);
        case ToFirst => SeekToFirst();
        case ToLast => SeekToLast();
        case Forward => if current.Some? { Next(); }
        case Back => if current.Some? { Prev(); }
      }
    }

    /** Any run of moves, with reversals, shows what a plain cursor over the merge shows. */
    method Run(moves: seq<Move>)
      requires Valid()
      modifies this
      ensures Valid() && Shown() == MovedAll(MergeAll(children), old(Shown()), moves)
    {
      for i := 0 to |moves|
        invariant Valid() && Shown() == MovedAll(MergeAll(children), old(Shown()), moves[..i])
      {
        assert moves[..i + 1][..i] == moves[..i];
        Perform(moves[i]);
      }
      assert moves[..|moves|] == moves;
    }
  }

  lemma StepForward(children: seq<seq<Entry>>, c: int, p: int)
    requires ChildrenOk(children) && In(children, c, p)
    ensures AheadAt(children, p + 1, c, Rank(children, c, p) + 1)
  {
    assert ChildSorted(children, c);
    forall j | In(children, c, j) ensures j < p + 1 <==> Rank(children, c, j) < Rank(children, c, p) + 1 {
      RankOrders(children, c, j, c, p);
      RankOrders(children, c, p, c, j);
      CompareIsTotalOrder(children[c][j].key, children[c][p].key, children[c][j].key);
    }
  }

  lemma AllStepForward(children: seq<seq<Entry>>, pos: seq<int>, cur: int, p: int)
    requires ChildrenOk(children) && Placed(children, pos) && In(children, cur, p)
    requires forall c :: 0 <= c < |children| && c != cur ==> AheadAt(children, pos[c], c, Rank(children, cur, p))
    ensures AllAhead(children, pos[cur := p + 1], Rank(children, cur, p) + 1)
  {
    forall c | 0 <= c < |children| && c != cur ensures AheadAt(children, pos[c], c, Rank(children, cur, p) + 1) {
      OtherChildSkips(children, c, pos[c], cur, p);
    }
    StepForward(children, cur, p);
  }

  lemma OthersStayBehind(children: seq<seq<Entry>>, pos: seq<int>, cur: int, p: int)
    requires ChildrenOk(children) && Placed(children, pos) && In(children, cur, p)
    requires AllBehind(children, pos, Rank(children, cur, p))
    ensures forall c :: 0 <= c < |children| && c != cur ==> BehindAt(children, pos[c], c, Rank(children, cur, p) - 1)
  {
    forall c | 0 <= c < |children| && c != cur ensures BehindAt(children, pos[c], c, Rank(children, cur, p) - 1) {
      OtherChildSkips(children, c, pos[c], cur, p);
    }
  }

  lemma StepBack(children: seq<seq<Entry>>, c: int, p: int)
    requires ChildrenOk(children) && In(children, c, p)
    ensures BehindAt(children, p - 1, c, Rank(children, c, p) - 1)
  {
    assert ChildSorted(children, c);
    forall j | In(children, c, j) ensures j <= p - 1 <==> Rank(children, c, j) <= Rank(children, c, p) - 1 {
      RankOrders(children, c, j, c, p);
      RankOrders(children, c, p, c, j);
      CompareIsTotalOrder(children[c][j].key, children[c][p].key, children[c][j].key);
    }
  }

  lemma AllStepBack(children: seq<seq<Entry>>, pos: seq<int>, cur: int, p: int)
    requires ChildrenOk(children) && Placed(children, pos) && In(children, cur, p)
    requires forall c :: 0 <= c < |children| && c != cur ==> BehindAt(children, pos[c], c, Rank(children, cur, p) - 1)
    ensures AllBehind(children, pos[cur := p - 1], Rank(children, cur, p) - 1)
  {
    StepBack(children, cur, p);
  }

  lemma SmallestHasRank(children: seq<seq<Entry>>, pos: seq<int>, n: nat, smallest: Option<nat>)
    requires ChildrenOk(children) && Placed(children, pos) && AllAhead(children, pos, n)
    requires smallest.Some? ==> ChildValid(children, pos, smallest.value)
    requires forall c :: 0 <= c < |children| && ChildValid(children, pos, c) ==>
               smallest.Some? && Rank(children, smallest.value, pos[smallest.value]) <= Rank(children, c, pos[c])
    ensures smallest.Some? <==> n < |MergeAll(children)|
    ensures smallest.Some? ==> Rank(children, smallest.value, pos[smallest.value]) == n
  {
    if smallest.Some? {
      RankIsPlace(children, smallest.value, pos[smallest.value]);
      assert AheadAt(children, pos[smallest.value], smallest.value, n);
    }
    if n < |MergeAll(children)| {
      var c := SomeChildAhead(children, pos, n);
    }
  }

  lemma SomeChildAhead(children: seq<seq<Entry>>, pos: seq<int>, n: nat) returns (c: int)
    requires ChildrenOk(children) && Placed(children, pos) && AllAhead(children, pos, n) && n < |MergeAll(children)|
    ensures 0 <= c < |children| && ChildValid(children, pos, c) && Rank(children, c, pos[c]) == n
  {
    var j;
    c, j := EveryRankIsTaken(children, n);
    assert AheadAt(children, pos[c], c, n);
    RankOrders(children, c, j, c, pos[c]);
    StepBack(children, c, pos[c]);
  }

  lemma SomeChildBehind(children: seq<seq<Entry>>, pos: seq<int>, n: nat) returns (c: int)
    requires ChildrenOk(children) && Placed(children, pos) && AllBehind(children, pos, n) && n < |MergeAll(children)|
    ensures 0 <= c < |children| && ChildValid(children, pos, c) && Rank(children, c, pos[c]) == n
  {
    var j;
    c, j := EveryRankIsTaken(children, n);
    assert BehindAt(children, pos[c], c, n);
    RankOrders(children, c, j, c, pos[c]);
    StepForward(children, c, pos[c]);
  }

  lemma LargestHasRank(children: seq<seq<Entry>>, pos: seq<int>, n: int, largest: Option<nat>)
    requires ChildrenOk(children) && Placed(children, pos) && AllBehind(children, pos, n) && n < |MergeAll(children)|
    requires largest.Some? ==> ChildValid(children, pos, largest.value)
    requires forall c :: 0 <= c < |children| && ChildValid(children, pos, c) ==>
               largest.Some? && Rank(children, largest.value, pos[largest.value]) >= Rank(children, c, pos[c])
    ensures largest.Some? <==> n >= 0
    ensures largest.Some? ==> Rank(children, largest.value, pos[largest.value]) == n
  {
    if largest.Some? {
      RankIsPlace(children, largest.value, pos[largest.value]);
      assert BehindAt(children, pos[largest.value], largest.value, n);
    }
    if n >= 0 {
      var c := SomeChildBehind(children, pos, n);
    }
  }
}
