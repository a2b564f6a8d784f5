/** Which stores show what a history of writes says: every key at its newest write, where a key whose
    newest write is a deletion may be absent altogether. */
module History {
  import opened DbFormat
  import opened Wrappers

  /** All of `a` was written before all of `b`. */
  ghost predicate Before(a: set<Entry>, b: set<Entry>) {
    forall x, y :: x in a && y in b ==> x.key.sequence < y.key.sequence
  }

  /** A sequence number names one write. */
  ghost predicate Numbered(data: set<Entry>) {
    forall x, y :: x in data && y in data && x.key.sequence == y.key.sequence ==> x == y
  }

  /** Nothing of the whole is missing before something that is there. */
  ghost predicate IsPrefix(part: set<Entry>, whole: set<Entry>) {
    part <= whole && forall a, b :: a in part && b in whole && b.key.sequence < a.key.sequence ==> b in part
  }

  /** `e` is the newest write of its key. */
  ghost predicate IsTop(data: set<Entry>, e: Entry) {
    e in data && forall o :: o in data && o.key.user == e.key.user ==> o.key.sequence <= e.key.sequence
  }

  ghost predicate HasUser(data: set<Entry>, user: UserKey) {
    exists o :: o in data && o.key.user == user
  }

  /** The store holds only writes of the history, and the newest of every key, except that a key whose
      newest write is a deletion may be gone. */
  ghost predicate Faithful(store: set<Entry>, history: set<Entry>) {
    && store <= history
    && forall e :: IsTop(history, e) ==> e in store || (e.key.kind.Deletion? && !HasUser(store, e.key.user))
  }

  /** Some of these writes are in the store, and the others are newer than the history without them. */
  ghost predicate Newer(store: set<Entry>, history: set<Entry>, more: set<Entry>) {
    forall p, q :: p in more && q in history && q !in more ==> q.key.sequence < p.key.sequence || p in store
  }

  /** Newer writes go into the store. */
  lemma AddNewer(store: set<Entry>, history: set<Entry>, more: set<Entry>)
    requires Faithful(store, history) && Newer(store, history, more)
    ensures Faithful(store + more, history + more)
  {
    forall e | IsTop(history + more, e)
      ensures e in store + more || (e.key.kind.Deletion? && !HasUser(store + more, e.key.user))
    {
      if e !in more && e !in store {
        assert IsTop(history, e);
        forall o | o in more ensures o.key.user != e.key.user {
          assert o in history + more;
        }
      }
    }
  }

  lemma AddLater(store: set<Entry>, history: set<Entry>, more: set<Entry>)
    requires Faithful(store, history) && Before(history, more)
    ensures Faithful(store + more, history + more)
  {
    AddNewer(store, history, more);
  }

  /** What a compaction may leave out of its inputs: a write with a newer write of its key among the
      inputs, and a deletion behind which nothing older of its key is left. */
  ghost predicate MayDrop(rest: set<Entry>, input: set<Entry>, kept: set<Entry>) {
    && kept <= input
    && forall e :: e in input && e !in kept ==> Superseded(input, e) || Obsolete(rest + kept, e)
  }

  ghost predicate Superseded(input: set<Entry>, e: Entry) {
    exists o :: o in input && o.key.user == e.key.user && e.key.sequence < o.key.sequence
  }

  ghost predicate Obsolete(left: set<Entry>, e: Entry) {
    e.key.kind.Deletion? && forall o :: o in left && o.key.user == e.key.user ==> e.key.sequence <= o.key.sequence
  }

  /** Leaving out what may be dropped keeps a store faithful. */
  lemma DropKeepsFaithful(rest: set<Entry>, input: set<Entry>, kept: set<Entry>, history: set<Entry>)
    requires Faithful(rest + input, history) && MayDrop(rest, input, kept) && Numbered(history)
    ensures Faithful(rest + kept, history)
  {
    forall e | IsTop(history, e)
      ensures e in rest + kept || (e.key.kind.Deletion? && !HasUser(rest + kept, e.key.user))
    {
      if e in rest + input {
        if e !in rest + kept {
          NothingLeft(rest, input, kept, history, e);
        }
      } else {
        forall o | o in rest + kept ensures o.key.user != e.key.user {
          assert o in rest + input;
        }
      }
    }
  }

  lemma NothingLeft(rest: set<Entry>, input: set<Entry>, kept: set<Entry>, history: set<Entry>, e: Entry)
    requires rest + input <= history && MayDrop(rest, input, kept) && Numbered(history)
    requires IsTop(history, e) && e in input && e !in rest + kept
    ensures e.key.kind.Deletion? && !HasUser(rest + kept, e.key.user)
  {
    assert !Superseded(input, e);
    forall o | o in rest + kept ensures o.key.user != e.key.user {
      assert o in history;
    }
  }

  /** Every key has a newest write. */
  lemma {:induction false} TopExists(data: set<Entry>, e: Entry) returns (top: Entry)
    requires e in data
    ensures IsTop(data, top) && top.key.user == e.key.user && e.key.sequence <= top.key.sequence
    decreases MAX_SEQUENCE - e.key.sequence
  {
    if IsTop(data, e) {
      top := e;
    } else {
      var o :| o in data && o.key.user == e.key.user && e.key.sequence < o.key.sequence;
      top := TopExists(data, o);
    }
  }

  /** Reads of a faithful store are reads of the history. */
  lemma FaithfulReads(store: set<Entry>, history: set<Entry>, user: UserKey)
    requires Faithful(store, history) && Numbered(history)
    ensures Read(store, user, MAX_SEQUENCE) == Read(history, user, MAX_SEQUENCE)
  {
    if HasUser(history, user) {
      var w :| w in history && w.key.user == user;
      var e := TopExists(history, w);
      assert IsNewest(history, user, MAX_SEQUENCE, e);
      NewestIs(history, user, MAX_SEQUENCE, e);
      if e in store {
        assert IsNewest(store, user, MAX_SEQUENCE, e);
        NewestIs(store, user, MAX_SEQUENCE, e);
      } else {
        NothingVisible(store, user, MAX_SEQUENCE);
      }
    } else {
      NothingVisible(history, user, MAX_SEQUENCE);
      NothingVisible(store, user, MAX_SEQUENCE);
    }
  }

  /** Every write of the history is in the store or covered there: by a write of its key at least as
      new, or by a deletion at least as new that left nothing of the key behind. */
  ghost predicate Covered(store: set<Entry>, history: set<Entry>, w: Entry) {
    || (exists o :: o in store && o.key.user == w.key.user && w.key.sequence <= o.key.sequence)
    || (!HasUser(store, w.key.user) &&
        exists d :: IsTop(history, d) && d.key.user == w.key.user && d.key.kind.Deletion?)
  }

  lemma FaithfulCovers(store: set<Entry>, history: set<Entry>, w: Entry)
    requires Faithful(store, history) && w in history
    ensures Covered(store, history, w)
  {
    var top := TopExists(history, w);
  }
}
