/** Progress of group commit: some writer can always go on, and every step but an arrival brings every
    waiting writer nearer to leaving, so that none waits for ever. */
module WriteProgress {
  import opened WriteQueue

  /** Where a writer stands: how many are in front of it, how far the running commit has to go, and how
      many entries it has still to insert.  Compared in this order. */
  datatype Rank = Rank(place: nat, phase: nat, entries: nat)

  predicate Nearer(a: Rank, b: Rank) {
    || a.place < b.place
    || (a.place == b.place && (a.phase < b.phase || (a.phase == b.phase && a.entries < b.entries)))
  }

  function PlaceOf(ids: seq<Id>, id: Id): (p: nat)
    ensures p <= |ids| && (id in ids <==> p < |ids|) && (p < |ids| ==> ids[p] == id)
  {
    if ids == [] then 0 else if ids[0] == id then 0 else 1 + PlaceOf(ids[1..], id)
  }

  function PhaseRank(phase: Phase): nat {
    match phase
    case Idle => 4
    case Committing(_, _, stage) =>
      match stage
      case Prepared => 3
      case Logged => 2
      case Inserting(_) => 1
      case Failed(_, _) => 0
  }

  function EntriesLeft(phase: Phase): nat {
    if phase.Committing? && phase.stage.Inserting? && phase.stage.inserted <= |phase.record.ops|
    then |phase.record.ops| - phase.stage.inserted else 0
  }

  function RankOf(s: State, id: Id): Rank {
    Rank(PlaceOf(s.waiting, id), PhaseRank(s.phase), EntriesLeft(s.phase))
  }

  /** While anyone waits, a writer that is already there can take a step. */
  lemma SomeoneCanGoOn(s: State) returns (a: Action)
    requires Inv(s) && s.waiting != []
    ensures !a.Enter? && Enabled(s, a)
  {
    if s.phase.Idle? {
      a := Lead(false);
    } else {
      match s.phase.stage {
        case Prepared => a := AddRecord(true, true);
        case Logged =>
          if s.requests[s.waiting[0]].sync { a := Sync(true); }
          else if s.phase.record.ops == [] { a := Finish; }
          else { a := Insert; }
        case Inserting(k) => if k < |s.phase.record.ops| { a := Insert; } else { a := Finish; }
        case Failed(_, _) => a := Finish;
      }
    }
  }

  lemma {:induction false} PlaceAhead(ids: seq<Id>, n: nat, id: Id)
    requires n <= |ids| && id in ids[n..] && id !in ids[..n]
    ensures PlaceOf(ids[n..], id) + n == PlaceOf(ids, id)
  {
    if n > 0 {
      assert ids[0] in ids[..n];
      assert ids[n..] == ids[1..][n - 1..];
      forall e | e in ids[1..][..n - 1] ensures e in ids[..n] {
        var k :| 0 <= k < n - 1 && ids[1..][..n - 1][k] == e;
        assert ids[..n][k + 1] == e;
      }
      PlaceAhead(ids[1..], n - 1, id);
    }
  }

  lemma {:induction false} DistinctAt(ids: seq<Id>, i: nat, j: nat)
    requires Distinct(ids) && i < j < |ids|
    ensures ids[i] != ids[j]
  {
    if j < |ids| - 1 {
      DistinctAt(ids[..|ids| - 1], i, j);
    } else {
      assert ids[i] in ids[..j];
    }
  }

  lemma WaitingIsDistinct(s: State, i: nat, j: nat)
    requires Inv(s) && i < j < |s.waiting|
    ensures s.waiting[i] != s.waiting[j]
  {
    hide Distinct, MembersOf, PastOk, CommitOk, Known, ErrorsStick, Departures;
    BehindIsDistinct(MembersOf(s.history), s.waiting, i, j);
  }

  lemma BehindIsDistinct(front: seq<Id>, ids: seq<Id>, i: nat, j: nat)
    requires Distinct(front + ids) && i < j < |ids|
    ensures ids[i] != ids[j]
  {
    DistinctAt(front + ids, |front| + i, |front| + j);
  }

  /** Those behind the n that leave come n places forward. */
  lemma PopBringsForward(s: State, n: nat, id: Id)
    requires Inv(s) && 1 <= n <= |s.waiting| && id in s.waiting[n..]
    ensures PlaceOf(s.waiting[n..], id) + n == PlaceOf(s.waiting, id)
  {
    if id in s.waiting[..n] {
      var i :| 0 <= i < n && s.waiting[i] == id;
      var j :| 0 <= j < |s.waiting| - n && s.waiting[n..][j] == id;
      WaitingIsDistinct(s, i, n + j);
    } else {
      PlaceAhead(s.waiting, n, id);
    }
  }

  lemma {:induction false} PlaceStays(ids: seq<Id>, more: Id, id: Id)
    requires id in ids
    ensures PlaceOf(ids + [more], id) == PlaceOf(ids, id)
  {
    assert (ids + [more])[0] == ids[0] && (ids + [more])[1..] == ids[1..] + [more];
    if ids[0] != id {
      PlaceStays(ids[1..], more, id);
    }
  }

  /** Every step but an arrival lets a writer leave or brings it nearer; an arrival does not hold it up. */
  lemma StepBringsNearer(s: State, a: Action, id: Id)
    requires Inv(s) && Enabled(s, a) && id in s.waiting
    ensures var t := Apply(s, a);
            if a.Enter? then id in t.waiting && RankOf(t, id) == RankOf(s, id)
            else id !in t.waiting || Nearer(RankOf(t, id), RankOf(s, id))
  {
    match a {
      case Enter(other, _) => PlaceStays(s.waiting, other, id);
      case Lead(room) => if Alone(s, room) && id in s.waiting[1..] { PopBringsForward(s, 1, id); }
      case Finish => if id in s.waiting[s.phase.n..] { PopBringsForward(s, s.phase.n, id); }
      case _ =>
    }
  }

  // ---------------------------------------------------------------- whole runs

  ghost predicate Waits(states: seq<State>, i: nat, j: nat, id: Id) {
    j < |states| && forall k :: i <= k <= j ==> id in states[k].waiting
  }

  /** As long as a writer waits, arrivals leave its rank alone and every other step lowers it. */
  lemma {:induction false} WaitingBringsNearer(states: seq<State>, actions: seq<Action>, i: nat, j: nat, id: Id)
    requires IsRun(states, actions) && i <= j && Waits(states, i, j, id)
    ensures if forall k {:trigger actions[k]} :: i <= k < j ==>
              actions[k].Enter? then RankOf(states[j], id) == RankOf(states[i], id)
            else Nearer(RankOf(states[j], id), RankOf(states[i], id))
  {
    hide Inv, Enabled, Apply, RankOf;
    if i < j {
      WaitingBringsNearer(states, actions, i, j - 1, id);
      RunKeeps(states, actions, j - 1);
      assert Legal(states[j - 1], actions[j - 1]);
      StepBringsNearer(states[j - 1], actions[j - 1], id);
    }
  }

  /** Steps of the writers that are there, from s on. */
  ghost predicate GoesOn(s: State, states: seq<State>, actions: seq<Action>) {
    && |states| == |actions| + 1 && states[0] == s
    && forall i {:trigger actions[i]} :: 0 <= i < |actions| ==>
         !actions[i].Enter? && Legal(states[i], actions[i]) && states[i + 1] == Apply(states[i], actions[i])
  }

  /** Every waiting writer leaves, by steps of those that are there alone. */
  lemma {:induction false} EveryoneLeaves(s: State, id: Id) returns (states: seq<State>, actions: seq<Action>)
    requires Inv(s) && id in s.waiting
    ensures GoesOn(s, states, actions) && id !in states[|actions|].waiting
    decreases RankOf(s, id).place, RankOf(s, id).phase, RankOf(s, id).entries
  {
    hide Enabled, Apply, RankOf, PastOk, QueueOk;
    var a := SomeoneCanGoOn(s);
    StepBringsNearer(s, a, id);
    StepKeeps(s, a);
    InvIsLegal(s, a);
    var t := Apply(s, a);
    if id in t.waiting {
      var more, steps := EveryoneLeaves(t, id);
      states, actions := [s] + more, [a] + steps;
      forall i | 0 <= i < |actions|
        ensures !actions[i].Enter? && Legal(states[i], actions[i]) && states[i + 1] == Apply(states[i], actions[i])
      {
        if i > 0 { assert steps[i - 1] == actions[i]; }
      }
    } else {
      states, actions := [s, t], [a];
    }
  }

  lemma InvIsLegal(s: State, a: Action)
    requires Inv(s) && Enabled(s, a)
    ensures Legal(s, a)
  {
  }
}
