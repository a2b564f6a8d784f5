/** Readers of a skip list while a writer inserts (db/skiplist.h): every load and every store is a step. */
module SkipListReaders {
  import opened SkipLists

  /** Where the one writer is in Insert.  `prev` is what its search found; `i` levels have the new node, and
      `half` says that its pointer in level i is stored, but not yet the one that leads to it. */
  datatype Writer =
    | Quiet
    | Found(key: Key, height: nat, prev: seq<int>)
    | Raised(key: Key, height: nat, prev: seq<int>)
    | Linking(node: int, height: nat, prev: seq<int>, i: nat, half: bool)

  /** FindGreaterOrEqual (for Seek and Contains), FindLessThan (for Prev) and FindLast (for SeekToLast). */
  datatype Search = GreaterOrEqual(key: Key) | LessThan(key: Key) | Last

  /** A search: `seen` are the nodes that the list had when it began; for a finished one, `upto` those it
      had at the last load. */
  datatype Reader =
    | Away
    | Searching(goal: Search, x: int, level: int, seen: set<int>)
    | Done(goal: Search, result: int, seen: set<int>, upto: set<int>)

  datatype State = State(list: List, levels: seq<set<int>>, writer: Writer, readers: seq<Reader>)

  datatype Step =
    | Begin(key: Key, height: nat, prev: seq<int>)
    | Raise
    | Allocate
    | StoreInNode
    | Publish
    | Finish
    | Start(reader: nat, target: Search, from: int)
    | Load(reader: nat)

  /** Only the writer stores, so its own search meets a list at rest. */
  ghost predicate Enabled(s: State, a: Step)
    requires Legal(s.list, s.levels)
  {
    match a
    case Begin(key, height, prev) =>
      && s.writer == Quiet && 1 <= height <= MAX_HEIGHT && |prev| == MAX_HEIGHT
      && key !in KeysOf(s.list, s.levels[0])
      && (forall j :: 0 <= j < s.list.maxHeight ==> Brackets(s.list, s.levels, j, key, prev[j]))
    case Raise => s.writer.Found?
    case Allocate => s.writer.Raised?
    case StoreInNode => s.writer.Linking? && s.writer.i < s.writer.height && !s.writer.half
    case Publish => s.writer.Linking? && s.writer.i < s.writer.height && s.writer.half
    case Finish => s.writer.Linking? && s.writer.i == s.writer.height
    // the height may be an old one
    case Start(r, target, from) => r < |s.readers| && 0 <= from < s.list.maxHeight
    case Load(r) => r < |s.readers| && s.readers[r].Searching?
  }

  /** prev[i] for the levels that the list did not have. */
  function Filled(prev: seq<int>, from: int, height: nat): seq<int> {
    seq(|prev|, j requires 0 <= j < |prev| => if from <= j < height then HEAD else prev[j])
  }

  ghost function Apply(s: State, a: Step): State
    requires Inv(s) && Enabled(s, a)
  {
    var w := s.writer;
    match a
    case Begin(key, height, prev) => s.(writer := Found(key, height, prev))
    case Raise =>
      if w.height > s.list.maxHeight then
        s.(list := s.list.(maxHeight := w.height),
           writer := Raised(w.key, w.height, Filled(w.prev, s.list.maxHeight, w.height)))
      else s.(writer := Raised(w.key, w.height, w.prev))
    case Allocate => s.(list := NewNode(s.list, w.key, w.height),
                        writer := Linking(|s.list.keys|, w.height, w.prev, 0, false))
    case StoreInNode =>
      assert Brackets(s.list, s.levels, w.i, s.list.keys[w.node], w.prev[w.i]);
      s.(list := SetNext(s.list, w.node, w.i, s.list.next[w.prev[w.i]][w.i]), writer := w.(half := true))
    case Publish =>
      assert Brackets(s.list, s.levels, w.i, s.list.keys[w.node], w.prev[w.i]);
      s.(list := SetNext(s.list, w.prev[w.i], w.i, w.node), levels := s.levels[w.i := s.levels[w.i] + {w.node}],
         writer := w.(i := w.i + 1, half := false))
    case Finish => s.(writer := Quiet)
    case Start(r, target, from) => s.(readers := s.readers[r := Searching(target, HEAD, from, s.levels[0])])
    case Load(r) =>
      assert ReaderOk(s.list, s.levels, s.readers[r]) && LinkOk(s.list, s.levels, s.readers[r].level, s.readers[r].x);
      s.(readers := s.readers[r := Loaded(s.list, s.levels[0], s.readers[r])])
  }

  /** Whether a search goes on past node y. */
  predicate GoesPast(l: List, goal: Search, y: int) {
    match goal
    case GreaterOrEqual(key) => BeforeKey(l, key, y)
    case LessThan(key) => BeforeKey(l, key, y)
    case Last => y != NIL
  }

  /** One turn of the loop of a search: load the next pointer and decide. */
  function Loaded(l: List, nodes: set<int>, r: Reader): Reader
    requires r.Searching? && 0 <= r.x < |l.next| && 0 <= r.level < |l.next[r.x]|
  {
    var next := l.next[r.x][r.level];
    if GoesPast(l, r.goal, next) then r.(x := next)
    else if r.level == 0 then Done(r.goal, if r.goal.GreaterOrEqual? then next else r.x, r.seen, nodes)
    else r.(level := r.level - 1)
  }

  /** What a search looks for, among these nodes. */
  ghost predicate Answers(l: List, nodes: set<int>, goal: Search, x: int) {
    match goal
    case GreaterOrEqual(key) => IsBound(l, nodes, key, x)
    case LessThan(key) => IsLastBefore(l, nodes, key, x)
    case Last => IsLast(l, nodes, x)
  }

  // ---------------------------------------------------------------- the invariant

  ghost predicate WriterOk(l: List, levels: seq<set<int>>, w: Writer)
    requires Legal(l, levels)
  {
    match w
    case Quiet => true
    case Found(key, height, prev) =>
      && 1 <= height <= MAX_HEIGHT && |prev| == MAX_HEIGHT && key !in KeysOf(l, levels[0])
      && (forall j :: 0 <= j < l.maxHeight ==> Brackets(l, levels, j, key, prev[j]))
    case Raised(key, height, prev) =>
      && 1 <= height <= l.maxHeight && |prev| == MAX_HEIGHT && key !in KeysOf(l, levels[0])
      && (forall j :: 0 <= j < height ==> Brackets(l, levels, j, key, prev[j]))
    case Linking(node, height, prev, i, half) =>
      && Inserting(l, levels, node, height, i) && |prev| == MAX_HEIGHT
      && (forall j :: i <= j < height ==> Brackets(l, levels, j, l.keys[node], prev[j]))
      && (half && i < height ==> l.next[node][i] == l.next[prev[i]][i])
  }

  ghost predicate ReaderOk(l: List, levels: seq<set<int>>, r: Reader) {
    match r
    case Away => true
    case Searching(goal, x, level, seen) =>
      && 0 <= level < |levels| && (x == HEAD || x in levels[level]) && 0 <= x < |l.keys|
      && GoesPast(l, goal, x) && seen <= levels[0]
    case Done(goal, result, seen, upto) =>
      && seen <= upto && levels != [] && upto <= levels[0] && Answers(l, upto, goal, result)
      && forall z :: z in upto ==> 0 < z < |l.keys|
  }

  ghost predicate Inv(s: State) {
    && Legal(s.list, s.levels) && WriterOk(s.list, s.levels, s.writer)
    && (forall r :: 0 <= r < |s.readers| ==> ReaderOk(s.list, s.levels, s.readers[r]))
  }

  function Initial(n: nat): State {
    State(Empty(), seq(MAX_HEIGHT, _ => {}), Quiet, seq(n, _ => Away))
  }

  lemma InitialOk(n: nat)
    ensures Inv(Initial(n))
  {
    EmptyIsLegal();
  }

  /** What a store may do to a reader: nodes and levels only grow. */
  ghost predicate Grows(l: List, levels: seq<set<int>>, m: List, t: seq<set<int>>) {
    l.keys <= m.keys && |levels| == |t| && forall i :: 0 <= i < |levels| ==> levels[i] <= t[i]
  }

  lemma BoundStays(l: List, m: List, nodes: set<int>, key: Key, y: int)
    requires l.keys <= m.keys && (forall z :: z in nodes ==> 0 < z < |l.keys|) && IsBound(l, nodes, key, y)
    ensures IsBound(m, nodes, key, y)
  {
    if y != NIL {
      forall z | z in nodes && 0 < z < |m.keys| && m.keys[z] >= key ensures z == y || After(m, y, z) {
        assert z == y || After(l, y, z);
      }
    }
  }

  lemma LastStays(l: List, m: List, nodes: set<int>, x: int)
    requires l.keys <= m.keys && (forall z :: z in nodes ==> 0 < z < |l.keys|)
    ensures forall key :: IsLastBefore(l, nodes, key, x) ==> IsLastBefore(m, nodes, key, x)
    ensures IsLast(l, nodes, x) ==> IsLast(m, nodes, x)
  {
    forall key | IsLastBefore(l, nodes, key, x) ensures IsLastBefore(m, nodes, key, x) {
      forall z | z in nodes && 0 < z < |m.keys| && m.keys[z] < key ensures z == x || After(m, z, x) {
        assert z == x || After(l, z, x);
      }
    }
    if IsLast(l, nodes, x) {
      forall z | z in nodes ensures z == x || After(m, z, x) {
        assert z == x || After(l, z, x);
      }
    }
  }

  lemma AnswerStays(l: List, m: List, nodes: set<int>, goal: Search, x: int)
    requires l.keys <= m.keys && (forall z :: z in nodes ==> 0 < z < |l.keys|) && Answers(l, nodes, goal, x)
    ensures Answers(m, nodes, goal, x)
  {
    if goal.GreaterOrEqual? {
      BoundStays(l, m, nodes, goal.key, x);
    } else {
      LastStays(l, m, nodes, x);
    }
  }

  lemma ReadersStay(s: State, m: List, t: seq<set<int>>)
    requires Inv(s) && Grows(s.list, s.levels, m, t)
    ensures forall r :: 0 <= r < |s.readers| ==> ReaderOk(m, t, s.readers[r])
  {
    forall r | 0 <= r < |s.readers| ensures ReaderOk(m, t, s.readers[r]) {
      var reader := s.readers[r];
      if reader.Done? { AnswerStays(s.list, m, reader.upto, reader.goal, reader.result); }
    }
  }

  lemma RaiseKeeps(s: State)
    requires Inv(s) && Enabled(s, Raise)
    ensures Inv(Apply(s, Raise))
  {
    var w, t := s.writer, Apply(s, Raise);
    if w.height > s.list.maxHeight {
      RaiseHeight(s.list, s.levels, w.height);
      EmptyLevels(s.list, s.levels, w.key);
      forall j | 0 <= j < w.height ensures Brackets(t.list, t.levels, j, w.key, t.writer.prev[j]) {
        assert Brackets(s.list, s.levels, j, w.key, t.writer.prev[j]);
      }
    }
    ReadersStay(s, t.list, t.levels);
  }

  lemma AllocateKeeps(s: State)
    requires Inv(s) && Enabled(s, Allocate)
    ensures Inv(Apply(s, Allocate))
  {
    var w := s.writer;
    NodeIsUnseen(s.list, s.levels, w.key, w.height);
    assert forall x :: x in s.levels[0] && 0 < x < |s.list.keys| ==> s.list.keys[x] in KeysOf(s.list, s.levels[0]);
    NewNodeKeeps(s.list, s.levels, w.key, w.height, w.prev);
    ReadersStay(s, NewNode(s.list, w.key, w.height), s.levels);
  }

  lemma StoreKeeps(s: State)
    requires Inv(s) && Enabled(s, StoreInNode)
    ensures Inv(Apply(s, StoreInNode))
  {
    var w, l := s.writer, s.list;
    var p := w.prev[w.i];
    assert Brackets(l, s.levels, w.i, l.keys[w.node], p);
    HalfStep(l, s.levels, w.i, p, w.node, w.height);
    forall j | w.i < j < w.height ensures Brackets(Apply(s, StoreInNode).list, s.levels, j, l.keys[w.node], w.prev[j]) {
      StoreKeepsBracket(l, s.levels, w.node, w.i, l.next[p][w.i], s.levels, j, l.keys[w.node], w.prev[j]);
    }
    ReadersStay(s, Apply(s, StoreInNode).list, s.levels);
  }

  lemma PublishKeeps(s: State)
    requires Inv(s) && Enabled(s, Publish)
    ensures Inv(Apply(s, Publish))
  {
    var w, l, t := s.writer, s.list, Apply(s, Publish);
    var p := w.prev[w.i];
    assert Brackets(l, s.levels, w.i, l.keys[w.node], p);
    PublishStep(l, s.levels, w.i, p, w.node, w.height);
    forall j | w.i < j < w.height ensures Brackets(t.list, t.levels, j, l.keys[w.node], w.prev[j]) {
      StoreKeepsBracket(l, s.levels, p, w.i, w.node, t.levels, j, l.keys[w.node], w.prev[j]);
    }
    ReadersStay(s, t.list, t.levels);
  }

  lemma LoadKeeps(s: State, r: nat)
    requires Inv(s) && Enabled(s, Load(r))
    ensures Inv(Apply(s, Load(r)))
  {
    var reader, l := s.readers[r], s.list;
    assert ReaderOk(l, s.levels, reader) && LinkOk(l, s.levels, reader.level, reader.x);
    var next := l.next[reader.x][reader.level];
    if !GoesPast(l, reader.goal, next) {
      if reader.level == 0 {
        if reader.goal.Last? {
          NilIsLast(l, s.levels, reader.x);
        } else {
          BracketIsBound(l, s.levels, 0, reader.goal.key, reader.x);
        }
        assert LevelOk(l, s.levels, 0);
      } else {
        assert LevelOk(l, s.levels, reader.level - 1);
      }
    }
  }

  /** Every store leaves a legal list, and every reader where it may be. */
  lemma StepKeeps(s: State, a: Step)
    requires Inv(s) && Enabled(s, a)
    ensures Inv(Apply(s, a))
  {
    match a
    case Begin(key, height, prev) =>
    case Raise => RaiseKeeps(s);
    case Allocate => AllocateKeeps(s);
    case StoreInNode => StoreKeeps(s);
    case Publish => PublishKeeps(s);
    case Finish =>
    case Start(r, target, from) => assert LevelOk(s.list, s.levels, 0);
    case Load(r) => LoadKeeps(s, r);
  }

  /** The keys in the list, as a reader would find them. */
  ghost function Contents(s: State): set<Key>
    requires s.levels != []
  {
    KeysOf(s.list, s.levels[0])
  }

  /** A step leaves the keys as they are or adds the one that is being inserted, with the store to level 0. */
  lemma StepAddsOneKey(s: State, a: Step)
    requires Inv(s) && Enabled(s, a)
    ensures if a == Publish && s.writer.i == 0
            then Contents(Apply(s, a)) == Contents(s) + {s.list.keys[s.writer.node]} &&
              s.list.keys[s.writer.node] !in Contents(s)
            else Contents(Apply(s, a)) == Contents(s)
  {
    assert LevelOk(s.list, s.levels, 0);
  }

  // ---------------------------------------------------------------- whole runs

  /** The state after a run of the writer and n readers; a step that cannot be taken is not taken. */
  ghost function AfterRun(n: nat, steps: seq<Step>): (s: State)
    ensures Inv(s) && |s.readers| == n
  {
    if steps == [] then InitialOk(n); Initial(n) else
      var k := |steps| - 1;
      var before := AfterRun(n, steps[..k]);
      if Enabled(before, steps[k]) then
        StepKeeps(before, steps[k]);
        Apply(before, steps[k])
      else before
  }

  /** What the list held before step k. */
  ghost function NodesAt(n: nat, steps: seq<Step>, k: nat): set<int>
    requires k <= |steps|
  {
    AfterRun(n, steps[..k]).levels[0]
  }

  ghost predicate Remembers(reader: Reader, began: set<int>, ended: set<int>) {
    match reader
    case Away => true
    case Searching(_, x, level, seen) => seen == began
    case Done(_, result, seen, upto) => seen == began && upto == ended
  }

  /** What a step does to what a reader remembers. */
  lemma StepRemembers(s: State, a: Step, r: nat, began: set<int>, ended: set<int>)
    requires Inv(s) && Enabled(s, a) && r < |s.readers| && Remembers(s.readers[r], began, ended)
    ensures r < |Apply(s, a).readers| &&
            (Apply(s, a).readers[r].Away? <==> s.readers[r].Away? && !(a.Start? && a.reader == r))
    ensures r < |Apply(s, a).readers|
    ensures Remembers(Apply(s, a).readers[r], if a.Start? && a.reader == r then s.levels[0] else began,
                      if (a.Start? || a.Load?) && a.reader == r then s.levels[0] else ended)
  {
  }

  lemma NodesAtLonger(n: nat, steps: seq<Step>, k: nat)
    requires steps != [] && k < |steps|
    ensures NodesAt(n, steps[..|steps| - 1], k) == NodesAt(n, steps, k)
  {
    assert steps[..|steps| - 1][..k] == steps[..k];
  }

  /** When the search of a reader began, and when it loaded its last pointer. */
  lemma {:induction false} WhenItSearched(n: nat, steps: seq<Step>, r: nat) returns (began: nat, ended: nat)
    requires r < n
    ensures began <= ended <= |steps|
    ensures Remembers(AfterRun(n, steps).readers[r], NodesAt(n, steps, began), NodesAt(n, steps, ended))
    ensures AfterRun(n, steps).readers[r].Away? || (began < |steps| && steps[began].Start? && steps[began].reader == r)
  {
    began, ended := 0, 0;
    if steps != [] {
      var k := |steps| - 1;
      var before, a := AfterRun(n, steps[..k]), steps[k];
      began, ended := WhenItSearched(n, steps[..k], r);
      NodesAtLonger(n, steps, began);
      NodesAtLonger(n, steps, ended);
      if Enabled(before, a) {
        StepRemembers(before, a, r, NodesAt(n, steps, began), NodesAt(n, steps, ended));
        if (a.Start? || a.Load?) && a.reader == r {
          began, ended := if a.Start? then k else began, k;
        }
      }
    }
  }

  /** The search could have given a better answer with node z. */
  predicate Missed(l: List, goal: Search, x: int, z: int) {
    0 < z < |l.keys| &&
    match goal
    case GreaterOrEqual(key) => l.keys[z] >= key && !(0 < x < |l.keys| && l.keys[x] <= l.keys[z])
    case LessThan(key) => l.keys[z] < key && !(0 < x < |l.keys| && l.keys[x] >= l.keys[z])
    case Last => !(0 < x < |l.keys| && l.keys[x] >= l.keys[z])
  }

  /** A search that ran while the writer inserted answers as if it had run in one moment: its result is
      what it looks for among the nodes that the list held at some moment after it began.  So it misses
      no node that was there when it began. */
  lemma SearchIsAtomic(n: nat, steps: seq<Step>, r: nat) returns (began: nat, ended: nat)
    requires r < n && AfterRun(n, steps).readers[r].Done?
    ensures began <= ended <= |steps| && NodesAt(n, steps, began) <= NodesAt(n, steps, ended)
    ensures began < |steps| && steps[began].Start? && steps[began].reader == r
    ensures var s, d := AfterRun(n, steps), AfterRun(n, steps).readers[r];
            && Answers(s.list, NodesAt(n, steps, ended), d.goal, d.result)
            && forall z :: z in NodesAt(n, steps, began) ==> !Missed(s.list, d.goal, d.result, z)
  {
    began, ended := WhenItSearched(n, steps, r);
    var s := AfterRun(n, steps);
    assert ReaderOk(s.list, s.levels, s.readers[r]);
  }
}
