/** Crashes and the map together: after any run with crashes an open database reads as the map of the
    writes that are left, in the order of their sequence numbers, and a crash that loses only the ends
    of logs leaves a prefix of what was written, with everything that was durable in it. */
module CrashMap {
  import opened DbFormat
  import opened History
  import opened Lifecycle
  import opened LifecycleRuns
  import opened LifecycleSteps
  import opened Listings
  import opened Wrappers
  import DatabaseMap

  // ---------------------------------------------------------------- runs

  /** The order in which a run wrote what is left of its writes: an answered write goes to the end, and
      a crash cuts somewhere, perhaps behind a write that was logged without an answer. */
  ghost predicate TaleStep(s: State, a: Action, before: seq<Entry>, after: seq<Entry>) {
    match a
    case InsertMem => s.inFlight.Some? && after == before + s.inFlight.value
    case Crash(_, _) => exists more, k :: IsCutTale(s, before, more, k, after)
    case _ => after == before
  }

  ghost predicate IsCutTale(s: State, before: seq<Entry>, more: seq<Entry>, k: nat, after: seq<Entry>) {
    && IsListing(more, s.unanswered) && k <= |before + more| && after == (before + more)[..k]
    && Durable(s) <= Elements(after)
  }

  ghost predicate IsTale(states: seq<State>, actions: seq<Action>, tales: seq<seq<Entry>>) {
    && |tales| == |states| == |actions| + 1 && tales[0] == []
    && forall i {:trigger actions[i]} :: 0 <= i < |actions| ==> TaleStep(states[i], actions[i], tales[i], tales[i + 1])
  }

  /** Every crash loses only the ends of logs with nothing behind them. */
  ghost predicate CrashesLoseTails(states: seq<State>, actions: seq<Action>) {
    |states| > |actions| && forall i :: 0 <= i < |actions| && actions[i].Crash? ==>
        LosesTailOnly(states[i], actions[i].left)
  }

  lemma SavingKeepsHistory(s: State, a: Action)
    requires Enabled(s, a) && (a.LogFlush? || a.FinishRecovery?)
    ensures Apply(s, a).history == s.history
  {
    hide Installed, Imm, TableEntries;
  }

  lemma HistoryStays(s: State, a: Action)
    requires Enabled(s, a) && Guard(s, a) && !a.InsertMem? && !a.Crash?
    ensures Apply(s, a).history == s.history
  {
    hide Apply, Enabled, Guard;
    if a.LogFlush? || a.FinishRecovery? {
      SavingKeepsHistory(s, a);
    } else {
      HistoryGrows(s, a);
    }
  }

  lemma AnswerIsListed(s: State, before: seq<Entry>)
    requires CountersOk(s) && Enabled(s, InsertMem) && IsListing(before, s.history)
    ensures IsListing(before + s.inFlight.value, Apply(s, InsertMem).history)
  {
    var r := s.inFlight.value;
    assert IsListing(r, Elements(r));
    ListingGrows(before, s.history, r);
  }

  /** Writes logged without an answer are newer than the history. */
  lemma UnansweredAreLast(s: State)
    requires DiskOk(s) && CountersOk(s)
    ensures Before(s.history, s.unanswered) && Numbered(s.unanswered)
  {
    hide TableEntries, LogsOrdered, FlushedFirst, Faithful;
  }

  lemma DurableIsHistory(s: State)
    ensures Durable(s) <= s.history
  {
  }

  lemma CrashIsListed(s: State, left: map<Number, Log>, torn: bool, before: seq<Entry>) returns (after: seq<Entry>)
    requires Inv(s) && Enabled(s, Crash(left, torn)) && LosesTailOnly(s, left) && IsListing(before, s.history)
    ensures TaleStep(s, Crash(left, torn), before, after) && IsListing(after, Apply(s, Crash(left, torn)).history)
  {
    hide Apply, Enabled, LosesTailOnly, Durable, FilesOk, DiskOk, MemoryOk, CountersOk, RecoveryOk, IsListing, IsPrefix;
    UnansweredAreLast(s);
    var more := ListingExists(s.unanswered);
    assert Elements(more) == s.unanswered by { ListingHas(more, s.unanswered); }
    ListingGrows(before, s.history, more);
    CrashLeavesPrefixExactly(s, left, torn);
    var t := Apply(s, Crash(left, torn));
    var k := PrefixIsListed(before + more, s.history + s.unanswered, t.history);
    after := (before + more)[..k];
    StepKeepsDurable(s, Crash(left, torn));
    DurableIsHistory(t);
    assert Elements(after) == t.history by { ListingHas(after, t.history); }
    assert IsCutTale(s, before, more, k, after);
  }

  lemma ListingHas(entries: seq<Entry>, data: set<Entry>)
    requires IsListing(entries, data)
    ensures Elements(entries) == data
  {
  }

  lemma NextTale(s: State, a: Action, before: seq<Entry>) returns (after: seq<Entry>)
    requires Inv(s) && Enabled(s, a) && Guard(s, a) && IsListing(before, s.history)
    requires a.Crash? ==> LosesTailOnly(s, a.left)
    ensures TaleStep(s, a, before, after) && IsListing(after, Apply(s, a).history)
  {
    hide Apply, FilesOk, DiskOk, MemoryOk, CountersOk, RecoveryOk, IsListing, LosesTailOnly, Guard;
    match a {
      case InsertMem =>
        AnswerIsListed(s, before);
        after := before + s.inFlight.value;
      case Crash(left, torn) => after := CrashIsListed(s, left, torn, before);
      case _ =>
        HistoryStays(s, a);
        after := before;
    }
  }

  ghost predicate ListsAll(states: seq<State>, tales: seq<seq<Entry>>) {
    |tales| <= |states| && forall i :: 0 <= i < |tales| ==> IsListing(tales[i], states[i].history)
  }

  lemma {:induction false} TaleUpTo(states: seq<State>, actions: seq<Action>, n: nat) returns (tales: seq<seq<Entry>>)
    requires IsRun(states, actions) && CrashesLoseTails(states, actions) && n <= |actions|
    ensures |tales| == n + 1 && tales[0] == [] && ListsAll(states, tales)
    ensures forall i {:trigger actions[i]} :: 0 <= i < n ==> TaleStep(states[i], actions[i], tales[i], tales[i + 1])
  {
    hide Inv, Enabled, Guard, Apply, TaleStep, LosesTailOnly;
    if n == 0 {
      tales := [[]];
    } else {
      var before := TaleUpTo(states, actions, n - 1);
      RunKeeps(states, actions, n - 1);
      assert IsStep(states[n - 1], actions[n - 1], states[n]);
      var next := NextTale(states[n - 1], actions[n - 1], before[n - 1]);
      tales := before + [next];
    }
  }

  /** Any run with crashes that lose only tails tells of one list of writes, which answers extend and
      crashes cut behind everything durable, and whenever the database is open it reads as the map of
      that list. */
  lemma RunReadsAsTale(states: seq<State>, actions: seq<Action>) returns (tales: seq<seq<Entry>>)
    requires IsRun(states, actions) && CrashesLoseTails(states, actions)
    ensures IsTale(states, actions, tales)
    ensures forall i, user :: 0 <= i < |states| && Open(states[i]) ==>
              Read(Contents(states[i]), user, MAX_SEQUENCE) ==
                DatabaseMap.MapGet(DatabaseMap.Applied(UpdatesOf(tales[i])), user)
  {
    hide IsStep, TaleStep, Contents, Open, IsListing, UpdatesOf;
    tales := TaleUpTo(states, actions, |actions|);
    forall i: nat, user | i < |states| && Open(states[i])
      ensures Read(Contents(states[i]), user, MAX_SEQUENCE) ==
              DatabaseMap.MapGet(DatabaseMap.Applied(UpdatesOf(tales[i])), user)
    {
      OpenReadsAreHistory(states, actions, i, user);
      ListingReads(tales[i], states[i].history, user);
    }
  }

  /** Whatever the crashes took away, an open database reads as the map of what is left, in order. */
  lemma OpenReadsAsMap(states: seq<State>, actions: seq<Action>, i: nat) returns (entries: seq<Entry>)
    requires IsRun(states, actions) && i < |states| && Open(states[i])
    ensures IsListing(entries, states[i].history)
    ensures forall user :: Read(Contents(states[i]), user, MAX_SEQUENCE) ==
                           DatabaseMap.MapGet(DatabaseMap.Applied(UpdatesOf(entries)), user)
  {
    hide IsStep, Contents, IsListing, UpdatesOf, Inv, Numbered, Faithful;
    RunKeeps(states, actions, i);
    ContentsAreFaithful(states[i]);
    entries := ListingExists(states[i].history);
    forall user
      ensures Read(Contents(states[i]), user, MAX_SEQUENCE) ==
              DatabaseMap.MapGet(DatabaseMap.Applied(UpdatesOf(entries)), user)
    {
      OpenReadsAreHistory(states, actions, i, user);
      ListingReads(entries, states[i].history, user);
    }
  }
}
