/** Where a compaction must have cut its outputs so that they fit around the files that stay at
    level+1 (DBImpl::FinishCompactionOutputFile, DBImpl::InstallCompactionResults). */
module OutputCuts {
  import opened DbFormat
  import opened Versions
  import opened CompactionInputs
  import opened Tree
  import opened CompactionInstall
  import Sequences

  /** The staying file `g` falls between kept entries n-1 and n. */
  predicate FallsBetween(g: File, kept: seq<Entry>, n: int) {
    0 < n < |kept| && Precedes(kept[n - 1].key, g.smallest) && Precedes(g.largest, kept[n].key)
  }

  /** Some table ends after the first n kept entries. */
  ghost predicate CutAt(outputs: seq<seq<Entry>>, n: int) {
    exists k :: 0 <= k <= |outputs| && |Sequences.Flatten(outputs[..k])| == n
  }

  /** The tables are cut wherever `g` falls between two kept entries. */
  ghost predicate CutAround(g: File, kept: seq<Entry>, outputs: seq<seq<Entry>>) {
    forall n :: FallsBetween(g, kept, n) ==> CutAt(outputs, n)
  }

  ghost predicate EntriesBeside(g: File, kept: seq<Entry>) {
    forall i :: 0 <= i < |kept| ==> Precedes(kept[i].key, g.smallest) || Precedes(g.largest, kept[i].key)
  }

  /** Between an entry before `g` and one behind it, two neighbours have `g` between them. */
  lemma {:induction false} NeighboursAround(g: File, kept: seq<Entry>, lo: nat, hi: nat) returns (n: nat)
    requires EntriesBeside(g, kept) && lo < hi < |kept|
    requires Precedes(kept[lo].key, g.smallest) && Precedes(g.largest, kept[hi].key)
    ensures lo < n <= hi && FallsBetween(g, kept, n)
    decreases hi - lo
  {
    if Precedes(g.largest, kept[lo + 1].key) {
      n := lo + 1;
    } else {
      n := NeighboursAround(g, kept, lo + 1, hi);
    }
  }

  /** No cut falls inside a table. */
  lemma NoCutInside(outputs: seq<seq<Entry>>, k: nat, n: int)
    requires k < |outputs| && forall o :: o in outputs ==> o != []
    requires |Sequences.Flatten(outputs[..k])| < n < |Sequences.Flatten(outputs[..k + 1])|
    ensures !CutAt(outputs, n)
  {
    assert forall i :: 0 <= i < |outputs| ==> outputs[i] in outputs;
    forall j | 0 <= j <= |outputs| ensures |Sequences.Flatten(outputs[..j])| != n {
      if j <= k {
        Sequences.FlattenGrows(outputs, j, k);
      } else {
        Sequences.FlattenGrows(outputs, k + 1, j);
      }
    }
  }

  /** The table that holds kept entry i. */
  lemma {:induction false} TableOf(outputs: seq<seq<Entry>>, m: nat, i: nat) returns (k: nat)
    requires m <= |outputs| && i < |Sequences.Flatten(outputs[..m])|
    ensures k < m && |Sequences.Flatten(outputs[..k])| <= i < |Sequences.Flatten(outputs[..k + 1])|
  {
    assert outputs[..m][..m - 1] == outputs[..m - 1];
    if i < |Sequences.Flatten(outputs[..m - 1])| {
      k := TableOf(outputs, m - 1, i);
    } else {
      k := m - 1;
    }
  }

  lemma CutsKeepTableBeside(g: File, kept: seq<Entry>, outputs: seq<seq<Entry>>, k: nat, o: File)
    requires kept == Sequences.Flatten(outputs) && EntriesBeside(g, kept) && CutAround(g, kept, outputs)
    requires k < |outputs| && forall t :: t in outputs ==> t != []
    requires FileOk(o) && o.entries == outputs[k]
    ensures Disjoint(g, o)
  {
    hide Sequences.Flatten;
    Sequences.FlattenAt(outputs, k);
    var at := |Sequences.Flatten(outputs[..k])|;
    var last := at + |outputs[k]| - 1;
    assert kept[at] == o.entries[0] && kept[last] == o.entries[|outputs[k]| - 1];
    if Precedes(kept[at].key, g.smallest) && Precedes(g.largest, kept[last].key) && at < last {
      var n := NeighboursAround(g, kept, at, last);
      NoCutInside(outputs, k, n);
    }
  }

  lemma TableBesideHasCuts(g: File, kept: seq<Entry>, outputs: seq<seq<Entry>>, n: int)
    requires kept == Sequences.Flatten(outputs) && Sorted(kept) && FileOk(g)
    requires FallsBetween(g, kept, n)
    requires forall k, o :: 0 <= k < |outputs| && FileOk(o) && o.entries == outputs[k] ==> Disjoint(g, o)
    requires forall t :: t in outputs ==> t != []
    ensures CutAt(outputs, n)
  {
    hide FileOk, Sorted, Disjoint, Precedes, Sequences.Flatten;
    assert outputs[..|outputs|] == outputs;
    var k := TableOf(outputs, |outputs|, n - 1);
    Sequences.FlattenAt(outputs, k);
    var at, table := |Sequences.Flatten(outputs[..k])|, outputs[k];
    SpanningTable(g, kept, n, at, table);
    assert table in outputs && MakeFile(0, 0, table).entries == outputs[k];
    assert |Sequences.Flatten(outputs[..k + 1])| == n;
  }

  /** A table that holds the entry before `g` but not `g`'s whole range ends right there. */
  lemma SpanningTable(g: File, kept: seq<Entry>, n: nat, at: nat, table: seq<Entry>)
    requires Sorted(kept) && FileOk(g) && FallsBetween(g, kept, n)
    requires at < n <= at + |table| <= |kept| && kept[at..at + |table|] == table
    ensures FileOk(MakeFile(0, 0, table))
    ensures Disjoint(g, MakeFile(0, 0, table)) ==> n == at + |table|
  {
    var last := at + |table| - 1;
    assert table[0] == kept[at] && table[|table| - 1] == kept[last];
    forall i, j | 0 <= i < j < |table| ensures Precedes(table[i].key, table[j].key) {
      assert table[i] == kept[at + i] && table[j] == kept[at + j];
    }
    FileBoundsOrdered(g);
    assert at < n - 1 ==> Precedes(kept[at].key, kept[n - 1].key);
    assert n < last ==> Precedes(kept[n].key, kept[last].key);
  }

  /** The tables fit around a staying file exactly when they are cut wherever it falls between two
      kept entries. */
  lemma FitsExactlyWhenCut(g: File, outputs: seq<seq<Entry>>, first: nat, size: seq<Entry> -> nat)
    requires forall t :: t in outputs ==> t != []
    requires var kept := Sequences.Flatten(outputs); FileOk(g) && Sorted(kept) && EntriesBeside(g, kept)
    ensures (forall o :: o in OutputFiles(outputs, first, size) ==> Disjoint(g, o))
            <==> CutAround(g, Sequences.Flatten(outputs), outputs)
  {
    hide FileOk, Sorted, Disjoint, Precedes, FallsBetween, Sequences.Flatten;
    var kept, files := Sequences.Flatten(outputs), OutputFiles(outputs, first, size);
    OutputFilesOk(outputs, first, size);
    forall k | 0 <= k < |outputs| ensures files[k] in files && files[k].entries == outputs[k] && FileOk(files[k]) {
      assert files[k] == OutputFile(outputs, first, size, k);
    }
    if CutAround(g, kept, outputs) {
      forall k | 0 <= k < |files| ensures Disjoint(g, files[k]) {
        CutsKeepTableBeside(g, kept, outputs, k, files[k]);
      }
    }
    if forall o :: o in files ==> Disjoint(g, o) {
      forall k, o | 0 <= k < |outputs| && FileOk(o) && o.entries == outputs[k] ensures Disjoint(g, o) {
        assert files[k].entries == o.entries && FileOk(files[k]);
        SameEntriesSameBounds(g, files[k], o);
      }
      forall n | FallsBetween(g, kept, n) ensures CutAt(outputs, n) {
        TableBesideHasCuts(g, kept, outputs, n);
      }
    }
  }

  lemma SameEntriesSameBounds(g: File, o: File, p: File)
    requires FileOk(o) && FileOk(p) && o.entries == p.entries && Disjoint(g, o)
    ensures Disjoint(g, p)
  {
  }
}
