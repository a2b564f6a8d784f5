/** Where a compaction ends one output table and starts the next (Compaction::ShouldStopBefore and the
    two calls of FinishCompactionOutputFile in DBImpl::DoCompactionWork), as a property of the merged
    input and the tables. */
module CutRule {
  import opened DbFormat
  import opened Versions
  import Inputs = CompactionInputs
  import Sequences

  /** What decides about cuts: the grandparents, the bytes of them an output may overlap, and which
      tables have reached the size limit. */
  datatype Rule = Rule(grandparents: seq<File>, limit: nat, full: seq<Entry> -> bool)

  /** The grandparents in front that end before the key. */
  function PassedBy(files: seq<File>, key: InternalKey): (n: nat)
    ensures n <= |files| && (forall i :: 0 <= i < n ==> Less(files[i].largest, key))
    ensures n < |files| ==> !Less(files[n].largest, key)
  {
    if files == [] || !Less(files[0].largest, key) then 0 else PassedBy(files[1..], key) + 1
  }

  /** The bytes of the grandparents passed on the way from one key to another. */
  function BytesBetween(files: seq<File>, from: InternalKey, to: InternalKey): nat {
    var a, b := PassedBy(files, from), PassedBy(files, to);
    if a <= b then Inputs.TotalFileSize(files[a..b]) else 0
  }

  /** More than the limit has been passed since the last stop, or since the first key. */
  ghost predicate StopsAt(r: Rule, input: seq<Entry>, n: nat)
    requires n < |input|
    decreases n, 1
  {
    BytesBetween(r.grandparents, input[LastStop(r, input, n)].key, input[n].key) > r.limit
  }

  ghost function LastStop(r: Rule, input: seq<Entry>, n: nat): (s: nat)
    requires n <= |input|
    ensures s <= n && (n > 0 ==> s < n)
    decreases n, 0
  {
    if n <= 1 then 0 else if StopsAt(r, input, n - 1) then n - 1 else LastStop(r, input, n - 1)
  }

  /** A stop behind the one key and at or before the other; dropped entries count as well. */
  ghost predicate StopBetween(r: Rule, input: seq<Entry>, lo: InternalKey, hi: InternalKey) {
    exists n :: 0 <= n < |input| && StopsAt(r, input, n) &&
                Precedes(lo, input[n].key) && !Precedes(hi, input[n].key)
  }

  /** Nothing inside the table ended it. */
  ghost predicate Uncut(r: Rule, input: seq<Entry>, table: seq<Entry>) {
    && table != []
    && (forall k :: 0 < k < |table| ==> !r.full(table[..k]))
    && !StopBetween(r, input, table[0].key, table[|table| - 1].key)
  }

  /** Why the table ends before the entry: it is full, or a stop came in between. */
  ghost predicate EndsBefore(r: Rule, input: seq<Entry>, table: seq<Entry>, next: Entry)
    requires table != []
  {
    r.full(table) || StopBetween(r, input, table[|table| - 1].key, next.key)
  }

  ghost predicate CutBetween(r: Rule, input: seq<Entry>, outputs: seq<seq<Entry>>, i: nat) {
    i + 1 < |outputs| && outputs[i] != [] && outputs[i + 1] != [] ==>
      EndsBefore(r, input, outputs[i], outputs[i + 1][0])
  }

  /** The tables end where the rule says, and nowhere else. */
  ghost predicate AreCut(r: Rule, input: seq<Entry>, outputs: seq<seq<Entry>>) {
    && (forall o :: o in outputs ==> Uncut(r, input, o))
    && (forall i: nat :: CutBetween(r, input, outputs, i))
  }

  lemma CutSnoc(r: Rule, input: seq<Entry>, outputs: seq<seq<Entry>>, table: seq<Entry>)
    requires AreCut(r, input, outputs) && Uncut(r, input, table)
    requires outputs != [] ==> outputs[|outputs| - 1] != [] && EndsBefore(r, input, outputs[|outputs| - 1], table[0])
    ensures AreCut(r, input, outputs + [table])
  {
    hide Uncut, EndsBefore;
    var more := outputs + [table];
    forall i: nat ensures CutBetween(r, input, more, i) {
      assert CutBetween(r, input, outputs, i);
    }
  }

  lemma CutRest(r: Rule, input: seq<Entry>, outputs: seq<seq<Entry>>)
    requires AreCut(r, input, outputs) && outputs != []
    ensures AreCut(r, input, outputs[1..])
  {
    hide Uncut, EndsBefore;
    forall i: nat ensures CutBetween(r, input, outputs[1..], i) {
      assert CutBetween(r, input, outputs, i + 1);
    }
  }

  lemma FlattenNotEmpty(r: Rule, input: seq<Entry>, outputs: seq<seq<Entry>>)
    requires AreCut(r, input, outputs) && outputs != []
    ensures outputs[0] != [] && Sequences.Flatten(outputs) == outputs[0] + Sequences.Flatten(outputs[1..])
  {
    hide EndsBefore, Sequences.Flatten;
    Sequences.FlattenFront(outputs);
    assert Uncut(r, input, outputs[0]);
  }

  /** Nothing ends a table before its last entry. */
  lemma NotEndedInside(r: Rule, input: seq<Entry>, table: seq<Entry>, n: nat)
    requires Uncut(r, input, table) && Sorted(table) && 0 < n < |table|
    ensures !EndsBefore(r, input, table[..n], table[n])
  {
    hide StopsAt;
    var lo, hi := table[n - 1].key, table[n].key;
    forall m | 0 <= m < |input| && StopsAt(r, input, m) && Precedes(lo, input[m].key)
      ensures Precedes(hi, input[m].key)
    {
      assert n == 1 || Precedes(table[0].key, lo);
      assert n == |table| - 1 || Precedes(hi, table[|table| - 1].key);
    }
  }

  /** So a first table is no proper beginning of another. */
  lemma FirstTablesAgree(r: Rule, input: seq<Entry>, a: seq<seq<Entry>>, b: seq<seq<Entry>>)
    requires AreCut(r, input, a) && AreCut(r, input, b) && a != [] && b != []
    requires Sequences.Flatten(a) == Sequences.Flatten(b) && Sorted(Sequences.Flatten(b))
    ensures |a[0]| >= |b[0]|
  {
    hide Uncut, EndsBefore, Sequences.Flatten;
    FlattenNotEmpty(r, input, a);
    FlattenNotEmpty(r, input, b);
    assert Uncut(r, input, b[0]);
    var all, n := Sequences.Flatten(b), |a[0]|;
    Sequences.FlattenNone<Entry>();
    assert |a| == 1 ==> a[1..] == [];
    if n < |b[0]| {
      assert a[0] == all[..n] == b[0][..n];
      CutRest(r, input, a);
      FlattenNotEmpty(r, input, a[1..]);
      assert a[1][0] == all[n] == b[0][n];
      assert forall i :: 0 <= i < |b[0]| ==> b[0][i] == all[i];
      assert CutBetween(r, input, a, 0);
      NotEndedInside(r, input, b[0], n);
    }
  }

  /** The rule leaves no choice: the same entries are cut in one way only. */
  lemma {:induction false} CutsAreUnique(r: Rule, input: seq<Entry>, a: seq<seq<Entry>>, b: seq<seq<Entry>>)
    requires AreCut(r, input, a) && AreCut(r, input, b)
    requires Sequences.Flatten(a) == Sequences.Flatten(b) && Sorted(Sequences.Flatten(a))
    ensures a == b
  {
    hide AreCut, Sequences.Flatten;
    if a != [] { FlattenNotEmpty(r, input, a); }
    if b != [] { FlattenNotEmpty(r, input, b); }
    if a == [] || b == [] {
      assert Sequences.Flatten<Entry>([]) == [] by { Sequences.FlattenNone<Entry>(); }
    } else {
      FirstTablesAgree(r, input, a, b);
      FirstTablesAgree(r, input, b, a);
      var all := Sequences.Flatten(a);
      var n := |a[0]|;
      assert a[0] == all[..n] == b[0];
      assert Sequences.Flatten(a[1..]) == all[n..] == Sequences.Flatten(b[1..]);
      CutRest(r, input, a);
      CutRest(r, input, b);
      CutsAreUnique(r, input, a[1..], b[1..]);
      assert a == [a[0]] + a[1..] && b == [b[0]] + b[1..];
    }
  }

  // ---------------------------------------------------------------- the moving cursor

  lemma TotalOfParts(files: seq<File>, a: nat, b: nat, c: nat)
    requires a <= b <= c <= |files|
    ensures Inputs.TotalFileSize(files[a..c]) == Inputs.TotalFileSize(files[a..b]) + Inputs.TotalFileSize(files[b..c])
    decreases b - a
  {
    if a < b {
      TotalOfParts(files, a + 1, b, c);
      assert files[a..c][1..] == files[a + 1..c] && files[a..b][1..] == files[a + 1..b];
    } else {
      assert files[a..b] == [];
    }
  }

  lemma {:induction false} PassedIs(files: seq<File>, key: InternalKey, index: nat)
    requires index <= |files| && forall i :: 0 <= i < index ==> Less(files[i].largest, key)
    requires index < |files| ==> !Less(files[index].largest, key)
    ensures index == PassedBy(files, key)
  {
    if index > 0 {
      PassedIs(files[1..], key, index - 1);
    }
  }

  /** The cursor stands behind the files passed: those before it end before an earlier key. */
  lemma CursorPasses(files: seq<File>, from: InternalKey, to: InternalKey, index: nat)
    requires Less(from, to) && PassedBy(files, from) <= index <= |files|
    requires forall i :: PassedBy(files, from) <= i < index ==> Less(files[i].largest, to)
    requires index < |files| ==> !Less(files[index].largest, to)
    ensures index == PassedBy(files, to)
  {
    forall i | 0 <= i < index ensures Less(files[i].largest, to) {}
    PassedIs(files, to, index);
  }

  lemma {:induction false} PassedGrows(files: seq<File>, from: InternalKey, to: InternalKey)
    requires from == to || Less(from, to)
    ensures PassedBy(files, from) <= PassedBy(files, to)
  {
    if files != [] {
      PassedGrows(files[1..], from, to);
    }
  }

  /** Moving the cursor from the previous key to this one completes the bytes since the last stop. */
  lemma BytesAreExact(r: Rule, input: seq<Entry>, n: nat, index: nat)
    requires Sorted(input) && 0 < n < |input|
    requires var first := PassedBy(r.grandparents, input[n - 1].key);
             && first <= index <= |r.grandparents|
             && forall i :: first <= i < index ==> Less(r.grandparents[i].largest, input[n].key)
    requires index < |r.grandparents| ==> !Less(r.grandparents[index].largest, input[n].key)
    ensures index == PassedBy(r.grandparents, input[n].key)
    ensures var since := input[LastStop(r, input, n)].key;
            BytesBetween(r.grandparents, since, input[n].key) ==
              BytesBetween(r.grandparents, since, input[n - 1].key) +
              Inputs.TotalFileSize(r.grandparents[PassedBy(r.grandparents, input[n - 1].key)..index])
  {
    hide StopsAt;
    var s := LastStop(r, input, n);
    assert Precedes(input[n - 1].key, input[n].key);
    assert s == n - 1 || Precedes(input[s].key, input[n - 1].key);
    CursorPasses(r.grandparents, input[n - 1].key, input[n].key, index);
    PassedGrows(r.grandparents, input[s].key, input[n - 1].key);
    TotalOfParts(r.grandparents, PassedBy(r.grandparents, input[s].key),
                 PassedBy(r.grandparents, input[n - 1].key), index);
  }

  // ---------------------------------------------------------------- tables in the making

  ghost predicate StopSoFar(r: Rule, input: seq<Entry>, seen: nat, lo: InternalKey) {
    exists m :: 0 <= m < |input| && m < seen && StopsAt(r, input, m) && Precedes(lo, input[m].key)
  }

  /** The finished tables and the one being built, made of the first n entries, when the first `seen`
      entries have been tried for stops. */
  ghost predicate Growing(r: Rule, input: seq<Entry>, outputs: seq<seq<Entry>>, builder: seq<Entry>, n: nat,
                          seen: nat)
  {
    && n <= seen <= n + 1 && seen <= |input|
    && AreCut(r, input, outputs)
    && (builder != [] ==> StillOpen(r, input, builder, n, seen))
    && (outputs != [] ==> LastEnded(r, input, outputs[|outputs| - 1], builder, seen))
  }

  ghost predicate StillOpen(r: Rule, input: seq<Entry>, builder: seq<Entry>, n: nat, seen: nat)
    requires builder != []
  {
    && (forall k :: 0 < k <= |builder| ==> !r.full(builder[..k]))
    && !StopSoFar(r, input, seen, builder[0].key)
    && exists j :: 0 <= j < |input| && j < n && input[j] == builder[|builder| - 1]
  }

  ghost predicate LastEnded(r: Rule, input: seq<Entry>, table: seq<Entry>, builder: seq<Entry>, seen: nat) {
    && table != []
    && if builder == [] then r.full(table) || StopSoFar(r, input, seen, table[|table| - 1].key)
       else EndsBefore(r, input, table, builder[0])
  }

  /** A table without a stop between its first entry and the last entry tried has none inside. */
  lemma NoStopInside(r: Rule, input: seq<Entry>, table: seq<Entry>, j: nat, seen: nat)
    requires Sorted(input) && table != [] && j < |input| && input[j] == table[|table| - 1] && j < seen
    requires !StopSoFar(r, input, seen, table[0].key)
    ensures !StopBetween(r, input, table[0].key, table[|table| - 1].key)
  {
    hide StopsAt;
    forall m | 0 <= m < |input| && StopsAt(r, input, m) && Precedes(table[0].key, input[m].key)
      ensures Precedes(table[|table| - 1].key, input[m].key)
    {
      assert m >= seen;
    }
  }

  lemma NothingBuilt(r: Rule, input: seq<Entry>)
    ensures Growing(r, input, [], [], 0, 0)
  {
  }

  /** No stop here, or no table that it could end. */
  lemma PassesStop(r: Rule, input: seq<Entry>, outputs: seq<seq<Entry>>, builder: seq<Entry>, n: nat)
    requires Growing(r, input, outputs, builder, n, n) && n < |input|
    requires builder == [] || !StopsAt(r, input, n)
    ensures Growing(r, input, outputs, builder, n, n + 1)
  {
    hide StopsAt, AreCut, EndsBefore;
  }

  lemma StopFinishes(r: Rule, input: seq<Entry>, outputs: seq<seq<Entry>>, builder: seq<Entry>, n: nat)
    requires Sorted(input) && Growing(r, input, outputs, builder, n, n) && n < |input|
    requires builder != [] && StopsAt(r, input, n)
    ensures Growing(r, input, outputs + [builder], [], n, n + 1)
  {
    hide StopsAt, AreCut, EndsBefore, StopBetween;
    var j :| 0 <= j < |input| && j < n && input[j] == builder[|builder| - 1];
    NoStopInside(r, input, builder, j, n);
    CutSnoc(r, input, outputs, builder);
  }

  lemma Skips(r: Rule, input: seq<Entry>, outputs: seq<seq<Entry>>, builder: seq<Entry>, n: nat)
    requires Growing(r, input, outputs, builder, n, n + 1)
    ensures Growing(r, input, outputs, builder, n + 1, n + 1)
  {
    hide StopsAt, AreCut, EndsBefore;
  }

  /** The entry ends the wait for a first entry of the next table. */
  lemma EndsBeforeFirst(r: Rule, input: seq<Entry>, table: seq<Entry>, n: nat)
    requires Sorted(input) && n < |input| && LastEnded(r, input, table, [], n + 1)
    ensures EndsBefore(r, input, table, input[n])
  {
    hide StopsAt;
    if !r.full(table) {
      var m :| 0 <= m < |input| && m < n + 1 && StopsAt(r, input, m) &&
        Precedes(table[|table| - 1].key, input[m].key);
      assert !Precedes(input[n].key, input[m].key);
    }
  }

  lemma NoStopBehindLast(r: Rule, input: seq<Entry>, n: nat)
    requires Sorted(input) && n < |input|
    ensures !StopSoFar(r, input, n + 1, input[n].key)
  {
    hide StopsAt;
    forall m | 0 <= m < |input| && m < n + 1 ensures !Precedes(input[n].key, input[m].key) {
      assert m == n || Precedes(input[m].key, input[n].key);
    }
  }

  lemma AddsEntry(r: Rule, input: seq<Entry>, outputs: seq<seq<Entry>>, builder: seq<Entry>, n: nat)
    requires Sorted(input) && Growing(r, input, outputs, builder, n, n + 1)
    ensures var more := builder + [input[n]];
            if r.full(more) then Growing(r, input, outputs + [more], [], n + 1, n + 1)
            else Growing(r, input, outputs, more, n + 1, n + 1)
  {
    hide StopsAt, AreCut, EndsBefore, StopBetween;
    var more := builder + [input[n]];
    forall k | 0 < k < |more| ensures !r.full(more[..k]) {
      assert more[..k] == builder[..k];
    }
    assert more[..|more|] == more;
    NoStopBehindLast(r, input, n);
    if outputs != [] {
      var last := outputs[|outputs| - 1];
      if builder == [] { EndsBeforeFirst(r, input, last, n); }
      assert EndsBefore(r, input, last, more[0]);
    }
    if r.full(more) {
      NoStopInside(r, input, more, n, n + 1);
      CutSnoc(r, input, outputs, more);
    } else {
      assert input[n] == more[|more| - 1];
      assert StillOpen(r, input, more, n + 1, n + 1);
    }
  }

  lemma LastTable(r: Rule, input: seq<Entry>, outputs: seq<seq<Entry>>, builder: seq<Entry>)
    requires Sorted(input) && Growing(r, input, outputs, builder, |input|, |input|)
    ensures AreCut(r, input, if builder == [] then outputs else outputs + [builder])
  {
    hide StopsAt, AreCut, EndsBefore, StopBetween;
    if builder != [] {
      var j :| 0 <= j < |input| && j < |input| && input[j] == builder[|builder| - 1];
      NoStopInside(r, input, builder, j, |input|);
      CutSnoc(r, input, outputs, builder);
    }
  }
}
