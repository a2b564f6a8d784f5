/** Writes listed in the order of their sequence numbers, and the map such a list stands for. */
module Listings {
  import opened DatabaseMap
  import opened DbFormat
  import opened History
  import opened Snapshots
  import opened Wrappers
  import Database

  /** The writes in the order of their sequence numbers. */
  ghost predicate IsListing(entries: seq<Entry>, data: set<Entry>) {
    && Elements(entries) == data
    && forall i, j :: 0 <= i < j < |entries| ==> entries[i].key.sequence < entries[j].key.sequence
  }

  function UpdatesOf(entries: seq<Entry>): (updates: seq<Database.Update>)
    ensures |updates| == |entries|
  {
    seq(|entries|,
        i requires 0 <= i < |entries| => Database.Update(entries[i].key.user, entries[i].key.kind, entries[i].value))
  }

  /** The last write of a list. */
  lemma {:induction false} LastWrite(entries: seq<Entry>, user: UserKey) returns (i: int)
    ensures LastUpdate(UpdatesOf(entries), user).None? ==> !HasUser(Elements(entries), user)
    ensures LastUpdate(UpdatesOf(entries), user).Some? ==>
              0 <= i < |entries| && entries[i].key.user == user &&
                LastUpdate(UpdatesOf(entries), user).value == UpdatesOf(entries)[i]
              && forall j :: i < j < |entries| ==> entries[j].key.user != user
  {
    var updates := UpdatesOf(entries);
    i := LastUpdateAt(updates, user);
    forall j | 0 <= j < |entries| ensures updates[j].user == entries[j].key.user {
    }
  }

  /** A listed set of writes reads as the map of the list. */
  lemma ListingReads(entries: seq<Entry>, data: set<Entry>, user: UserKey)
    requires IsListing(entries, data)
    ensures Read(data, user, MAX_SEQUENCE) == MapGet(Applied(UpdatesOf(entries)), user)
  {
    hide Read, Applied, MapGet, LastUpdate, UpdatesOf;
    var updates := UpdatesOf(entries);
    AppliedShowsLast(updates, user);
    var i := LastWrite(entries, user);
    if LastUpdate(updates, user).Some? {
      forall o | o in data && o.key.user == user ensures o.key.sequence <= entries[i].key.sequence {
        var j :| 0 <= j < |entries| && entries[j] == o;
      }
      ListingCoherent(entries, data);
      assert entries[i] in data;
      assert IsNewest(data, user, MAX_SEQUENCE, entries[i]);
      NewestIs(data, user, MAX_SEQUENCE, entries[i]);
      UpdateAt(entries, i);
    } else {
      NothingVisible(data, user, MAX_SEQUENCE);
    }
  }

  lemma UpdateAt(entries: seq<Entry>, i: nat)
    requires i < |entries|
    ensures UpdatesOf(entries)[i] == Database.Update(entries[i].key.user, entries[i].key.kind, entries[i].value)
  {
  }

  lemma ListingCoherent(entries: seq<Entry>, data: set<Entry>)
    requires IsListing(entries, data)
    ensures Coherent(data)
  {
    forall a, b | a in data && b in data && a.key.sequence == b.key.sequence ensures a == b {
      var i :| 0 <= i < |entries| && entries[i] == a;
      var j :| 0 <= j < |entries| && entries[j] == b;
    }
  }

  /** Writes with distinct numbers can be listed. */
  lemma {:induction false} ListingExists(data: set<Entry>) returns (entries: seq<Entry>)
    requires Numbered(data)
    ensures IsListing(entries, data)
    decreases data
  {
    if data == {} {
      entries := [];
    } else {
      var e :| e in data;
      var top := NewestOfAll(data, e);
      var rest := data - {top};
      var before := ListingExists(rest);
      assert Elements([top]) == {top};
      forall x | x in rest ensures x.key.sequence < top.key.sequence {
      }
      ListingGrows(before, rest, [top]);
      entries := before + [top];
      assert data == rest + {top};
    }
  }

  lemma {:induction false} NewestOfAll(data: set<Entry>, e: Entry) returns (top: Entry)
    requires e in data
    ensures top in data && forall o :: o in data ==> o.key.sequence <= top.key.sequence
    decreases MAX_SEQUENCE - e.key.sequence
  {
    if forall o :: o in data ==> o.key.sequence <= e.key.sequence {
      top := e;
    } else {
      var o :| o in data && e.key.sequence < o.key.sequence;
      top := NewestOfAll(data, o);
    }
  }

  /** Newer writes are listed behind. */
  lemma ListingGrows(entries: seq<Entry>, data: set<Entry>, more: seq<Entry>)
    requires IsListing(entries, data) && IsListing(more, Elements(more)) && Before(data, Elements(more))
    ensures IsListing(entries + more, data + Elements(more))
  {
    forall i, j | 0 <= i < j < |entries + more|
      ensures (entries + more)[i].key.sequence < (entries + more)[j].key.sequence
    {
      if i < |entries| <= j {
        assert entries[i] in data && more[j - |entries|] in Elements(more);
      }
    }
  }

  /** How many of the listed writes belong to the part. */
  function Within(entries: seq<Entry>, part: set<Entry>): (k: nat)
    ensures k <= |entries|
  {
    if entries == [] || entries[0] !in part then 0 else 1 + Within(entries[1..], part)
  }

  lemma {:induction false} WithinIsLast(entries: seq<Entry>, part: set<Entry>)
    ensures var k := Within(entries, part);
            (forall i :: 0 <= i < k ==> entries[i] in part) && (k < |entries| ==> entries[k] !in part)
  {
    if entries != [] && entries[0] in part {
      WithinIsLast(entries[1..], part);
    }
  }

  lemma EarlierIsPart(entries: seq<Entry>, whole: set<Entry>, part: set<Entry>, k: nat, i: nat)
    requires IsListing(entries, whole) && IsPrefix(part, whole) && k <= i < |entries| && entries[i] in part
    ensures entries[k] in part
  {
    assert entries[k] in whole;
  }

  /** A prefix in the order of writing is a prefix of the list. */
  lemma PrefixIsListed(entries: seq<Entry>, whole: set<Entry>, part: set<Entry>) returns (k: nat)
    requires IsListing(entries, whole) && IsPrefix(part, whole)
    ensures k <= |entries| && IsListing(entries[..k], part)
  {
    k := Within(entries, part);
    WithinIsLast(entries, part);
    forall e | e in part ensures e in entries[..k] {
      assert e in whole;
      var i :| 0 <= i < |entries| && entries[i] == e;
      if k <= i {
        EarlierIsPart(entries, whole, part, k, i);
      }
    }
  }
}
