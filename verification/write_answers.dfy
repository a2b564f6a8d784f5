/** What writers are told: an error exactly when a step of their own group failed, or when there was no
    room for their own write (DBImpl::Write). */
module WriteAnswers {
  import opened WriteQueue

  /** The writers whose write fails with this step. */
  function HitBy(s: State, a: Action): set<Id> {
    match a
    case Lead(room) => if !room && s.waiting != [] then {s.waiting[0]} else {}
    case AddRecord(ok, _) => if ok then {} else Running(s)
    case Sync(ok) => if ok then {} else Running(s)
    case _ => {}
  }

  /** The writers that the running commit writes for. */
  function Running(s: State): set<Id> {
    if s.phase.Committing? then set k | 0 <= k < s.phase.n && k < |s.waiting| :: s.waiting[k] else {}
  }

  /** The writers hit by one of the first i steps. */
  ghost function HitIn(states: seq<State>, actions: seq<Action>, i: nat): set<Id>
    requires i <= |actions| < |states|
  {
    if i == 0 then {} else HitIn(states, actions, i - 1) + HitBy(states[i - 1], actions[i - 1])
  }

  /** Those who left with an error are the ones hit; of those who wait, only a failed group is. */
  ghost predicate Answers(s: State, hit: set<Id>) {
    && (forall d :: 0 <= d < |s.left| ==> (s.left[d].status.Error? <==> s.left[d].id in hit))
    && (forall k :: 0 <= k < |s.waiting| ==> (s.waiting[k] in hit <==> InFailed(s.phase, k)))
    && (forall id :: id in hit ==> id in s.arrived)
  }

  predicate InFailed(phase: Phase, k: int) {
    phase.Committing? && phase.stage.Failed? && k < phase.n
  }

  lemma {:induction false} DistinctApart(ids: seq<Id>, i: nat, j: nat)
    requires Distinct(ids) && i < j < |ids|
    ensures ids[i] != ids[j]
  {
    var n := |ids| - 1;
    if j < n {
      DistinctApart(ids[..n], i, j);
    } else {
      assert ids[i] in ids[..n];
    }
  }

  /** Nobody waits twice, or waits after leaving. */
  ghost predicate Once(s: State) {
    && (forall i, j :: 0 <= i < j < |s.waiting| ==> s.waiting[i] != s.waiting[j])
    && (forall d, k :: 0 <= d < |s.left| && 0 <= k < |s.waiting| ==> s.left[d].id != s.waiting[k])
    && (forall d :: 0 <= d < |s.left| ==> s.left[d].id in s.arrived)
    && (forall k :: 0 <= k < |s.waiting| ==> s.waiting[k] in s.arrived)
    && (forall id :: id in s.arrived ==> id in s.requests)
  }

  lemma InvOnce(s: State)
    requires Inv(s)
    ensures Once(s)
  {
    hide MembersOf, Departures, PastOk, CommitOk;
    MembersLeft(s.history);
    var gone := Ids(s.left);
    assert s.arrived == gone + s.waiting;
    forall i, j | 0 <= i < j < |s.waiting| ensures s.waiting[i] != s.waiting[j] {
      DistinctApart(s.arrived, |gone| + i, |gone| + j);
    }
    forall d, k | 0 <= d < |s.left| && 0 <= k < |s.waiting| ensures s.left[d].id != s.waiting[k] {
      DistinctApart(s.arrived, d, |gone| + k);
    }
    forall d | 0 <= d < |s.left| ensures s.left[d].id in s.arrived {
      assert s.arrived[d] == s.left[d].id;
    }
  }

  lemma PopAnswers(s: State, n: nat, g: WriteQueue.Group, hit: set<Id>, more: set<Id>)
    requires Answers(s, hit) && Once(s) && 1 <= n <= |s.waiting|
    requires forall k :: 0 <= k < |s.waiting| ==> (s.waiting[k] in hit + more <==> k < n && g.status.Error?)
    requires forall id :: id in more ==> exists k :: 0 <= k < |s.waiting| && s.waiting[k] == id
    ensures Answers(Pop(s, n, g), hit + more)
  {
    var t := Pop(s, n, g);
    forall d | 0 <= d < |t.left| ensures t.left[d].status.Error? <==> t.left[d].id in hit + more {
      if d >= |s.left| { assert t.left[d] == Departure(s.waiting[d - |s.left|], g.status); }
    }
    forall k | 0 <= k < |t.waiting| ensures t.waiting[k] !in hit + more {
      assert t.waiting[k] == s.waiting[n + k];
    }
  }

  lemma StepAnswers(s: State, a: Action, hit: set<Id>)
    requires Inv(s) && Enabled(s, a) && Answers(s, hit)
    ensures Answers(Apply(s, a), hit + HitBy(s, a))
  {
    hide PastOk, QueueOk, Distinct, CommitOk;
    InvOnce(s);
    InvBounds(s);
    match a {
      case Enter(id, _) => EnterAnswers(s, a, hit);
      case Lead(room) => LeadAnswers(s, room, hit);
      case Finish => FinishAnswers(s, hit);
      case _ => InGroupAnswers(s, a, hit);
    }
  }

  lemma InvBounds(s: State)
    requires Inv(s)
    ensures Known(s.requests, s.waiting) && (s.phase.Committing? ==> 1 <= s.phase.n <= |s.waiting|)
  {
  }

  lemma EnterAnswers(s: State, a: Action, hit: set<Id>)
    requires Known(s.requests, s.waiting) && Enabled(s, a) && a.Enter? && Once(s) && Answers(s, hit)
    requires s.phase.Committing? ==> s.phase.n <= |s.waiting|
    ensures Answers(Apply(s, a), hit + HitBy(s, a))
  {
    var t := Apply(s, a);
    forall k | 0 <= k < |t.waiting| ensures t.waiting[k] in hit <==> InFailed(t.phase, k) {
      if k < |s.waiting| { assert t.waiting[k] == s.waiting[k]; }
    }
    assert hit + HitBy(s, a) == hit;
  }

  lemma LeadAnswers(s: State, room: bool, hit: set<Id>)
    requires Known(s.requests, s.waiting) && Enabled(s, Lead(room)) && Once(s) && Answers(s, hit)
    ensures Answers(Apply(s, Lead(room)), hit + HitBy(s, Lead(room)))
  {
    hide GroupLength;
    if Alone(s, room) {
      var g := WriteQueue.Group(s.waiting[..1], false, Record(0, []), if room then Ok else Error, false, false);
      PopAnswers(s, 1, g, hit, HitBy(s, Lead(room)));
    } else {
      assert hit + HitBy(s, Lead(room)) == hit;
    }
  }

  lemma FinishAnswers(s: State, hit: set<Id>)
    requires Known(s.requests, s.waiting) && Enabled(s, Finish) && Once(s) && Answers(s, hit)
    requires 1 <= s.phase.n <= |s.waiting|
    ensures Answers(Apply(s, Finish), hit + HitBy(s, Finish))
  {
    var failed := s.phase.stage.Failed?;
    var g := WriteQueue.Group(s.waiting[..s.phase.n], true, s.phase.record, if failed then Error else Ok,
                              InLog(s.phase.stage), failed && s.phase.stage.syncError);
    PopAnswers(s, s.phase.n, g, hit, {});
  }

  lemma InGroupAnswers(s: State, a: Action, hit: set<Id>)
    requires Known(s.requests, s.waiting) && Enabled(s, a) && Once(s) && Answers(s, hit)
    requires a.AddRecord? || a.Sync? || a.Insert?
    requires s.phase.Committing? ==> 1 <= s.phase.n <= |s.waiting|
    ensures Answers(Apply(s, a), hit + HitBy(s, a))
  {
    var t := Apply(s, a);
    forall k | 0 <= k < |t.waiting| ensures t.waiting[k] in hit + HitBy(s, a) <==> InFailed(t.phase, k) {
      assert t.waiting[k] == s.waiting[k];
    }
  }

  lemma {:induction false} RunAnswers(states: seq<State>, actions: seq<Action>, i: nat)
    requires IsRun(states, actions) && i < |states|
    ensures Answers(states[i], HitIn(states, actions, i))
  {
    hide Apply, Enabled, Inv, Answers;
    if i == 0 {
      NoneHit();
    } else {
      RunAnswers(states, actions, i - 1);
      RunKeeps(states, actions, i - 1);
      assert Legal(states[i - 1], actions[i - 1]);
      StepAnswers(states[i - 1], actions[i - 1], HitIn(states, actions, i - 1));
    }
  }

  lemma NoneHit()
    ensures Answers(START, {})
  {
  }

  /** In every run a writer that left was told Ok if and only if none of its steps failed: there was room
      for it, and the append and the sync of its group succeeded. */
  lemma ErrorHasCause(states: seq<State>, actions: seq<Action>, i: nat, d: nat)
    requires IsRun(states, actions) && i < |states| && d < |states[i].left|
    ensures states[i].left[d].status.Error? <==>
              exists j :: 0 <= j < i && states[i].left[d].id in HitBy(states[j], actions[j])
  {
    hide HitBy, IsRun;
    RunAnswers(states, actions, i);
    RunLengths(states, actions);
    HitSomewhere(states, actions, i, states[i].left[d].id);
  }

  lemma RunLengths(states: seq<State>, actions: seq<Action>)
    requires IsRun(states, actions)
    ensures |states| == |actions| + 1
  {
  }

  lemma {:induction false} HitSomewhere(states: seq<State>, actions: seq<Action>, i: nat, id: Id)
    requires i <= |actions| < |states|
    ensures id in HitIn(states, actions, i) <==> exists j :: 0 <= j < i && id in HitBy(states[j], actions[j])
  {
    hide HitBy;
    if i > 0 {
      HitSomewhere(states, actions, i - 1, id);
    }
  }
}
