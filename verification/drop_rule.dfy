/** The compactions of Database drop no more than Lifecycle lets a compaction drop. */
module DropRule {
  import opened CompactionInputs
  import opened CompactionInstall
  import opened Database
  import opened DbFormat
  import opened Snapshots
  import opened Tree
  import opened Versions
  import History
  import Lookup
  import Loop = CompactionLoop

  /** A dropped marker of a base-level key leaves nothing older of its key behind. */
  lemma MarkerIsObsolete(db: DB, c: Running, kept: set<Entry>, e: Entry)
    requires Lookup.ReadPathOk(db.mem, db.imm, db.version) && RunningOk(db.version, c) && BelowClosed(c)
    requires Loop.IsKeptSet(EntriesOf(Inputs(c)), kept, c.smallestSnapshot, c.base.files, c.level)
    requires e in EntriesOf(Inputs(c)) && Loop.ObsoleteMarker(e, c.smallestSnapshot, c.base.files, c.level)
    ensures History.Obsolete(RestOfVersion(db.version, c.level, AsSet(c.in0), AsSet(c.in1)) + kept, e)
  {
    hide Lookup.ReadPathOk, RunningOk, BelowClosed, Loop.IsBaseLevel, EntriesOf, RestOfVersion;
    var rest, input := RestOfVersion(db.version, c.level, AsSet(c.in0), AsSet(c.in1)), EntriesOf(Inputs(c));
    forall o | o in rest + kept && o.key.user == e.key.user ensures e.key.sequence <= o.key.sequence {
      if o in rest {
        assert o in Outside(db, c);
        OutsideIsNewer(db, c, e, o);
      } else {
        assert !Loop.Superseded(input, o, c.smallestSnapshot);
      }
    }
  }

  /** What an install leaves out of its inputs is superseded there or an obsolete marker, as long as the
      inputs of the next level end between user keys. */
  lemma InstallMayDrop(db: DB, merged: seq<Entry>, outputs: seq<seq<Entry>>, size: seq<Entry> -> nat, after: DB)
    requires DBOk(db) && Guarded(db) && Install(db, merged, outputs, size, after)
    ensures var c := db.running.value;
            History.MayDrop(RestOfVersion(db.version, c.level, AsSet(c.in0), AsSet(c.in1)), EntriesOf(Inputs(c)),
                            EntriesOf(AsSet(OutputFiles(outputs, db.nextFile, size))))
  {
    hide Lookup.ReadPathOk, Bounds, RunningOk, BelowClosed, IsMerged, EntriesOf, RestOfVersion, OutputFiles,
      Loop.ObsoleteMarker,
      Inputs, Loop.Kept;
    var c := db.running.value;
    var input, kept := EntriesOf(Inputs(c)), EntriesOf(AsSet(OutputFiles(outputs, db.nextFile, size)));
    InstalledEntries(c, merged, outputs, db.nextFile, size);
    forall e | e in input && e !in kept
      ensures History.Superseded(input, e) ||
              History.Obsolete(RestOfVersion(db.version, c.level, AsSet(c.in0), AsSet(c.in1)) + kept, e)
    {
      if Loop.ObsoleteMarker(e, c.smallestSnapshot, c.base.files, c.level) {
        MarkerIsObsolete(db, c, kept, e);
      }
    }
  }
}
