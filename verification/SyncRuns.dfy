/** What the events of a run of the benchmark's rounds decide: the master's verdict, and which rounds are run. */
module SyncRuns {
  import opened Counting
  import opened Options
  import opened Sync

  // ---- What happened in the present round ----

  predicate Reports(e: Event) {
    e.Finish? && (e.throws || e.error.Some?)
  }

  function Message(e: Event): string
    requires Reports(e)
  {
    if e.throws then INTERNAL_ERROR else e.error.value
  }

  /** Event `j` happened in the round of state `i`. */
  predicate InRound(states: seq<State>, events: seq<Event>, i: nat, j: int) {
    0 <= j < i < |states| && j < |events| && states[j].round == states[i].round
  }

  /** Worker `t` reported this message in the round of state `i`. */
  ghost predicate Told(states: seq<State>, events: seq<Event>, i: nat, t: nat, message: string) {
    exists j :: InRound(states, events, i, j) && Reports(events[j]) && events[j].w == t && Message(events[j]) == message
  }

  /** Worker `t` finished in the round of state `i`. */
  ghost predicate HasFinished(states: seq<State>, events: seq<Event>, i: nat, t: nat) {
    exists j :: InRound(states, events, i, j) && events[j].Finish? && events[j].w == t
  }

  /** The report of `t` is stored, or about to be. */
  predicate Noted(s: State, t: nat) {
    t in s.errors || (t < |s.pcs| && s.pcs[t].StoreError?)
  }

  /** What is stored or about to be was reported, and what was reported is stored or about to be. */
  ghost predicate Faithful(states: seq<State>, events: seq<Event>, i: nat)
    requires i < |states|
  {
    var s := states[i];
    && (forall t :: t in s.errors ==> Told(states, events, i, t, s.errors[t]))
    && (forall t: nat :: t < |s.pcs| && s.pcs[t].StoreError? ==> Told(states, events, i, t, s.pcs[t].error))
    && (forall j :: InRound(states, events, i, j) && Reports(events[j]) ==> Noted(s, events[j].w))
  }

  /** Worker `t` has yet to finish in the present round, or there was none. */
  predicate Before(s: State, t: nat)
    requires t < |s.pcs|
  {
    || s.round == 0
    || (s.status == Wait && s.pcs[t].Spin?)
    || s.pcs[t].Arrive? || s.pcs[t].Reset? || s.pcs[t].Launch? || s.pcs[t].AwaitRun? || s.pcs[t].Work?
  }

  ghost predicate Punctual(states: seq<State>, events: seq<Event>, i: nat)
    requires i < |states|
  {
    && (states[i].master.Blocked? || states[i].master.Woken? ==> states[i].round > 0)
    && forall t: nat :: t < |states[i].pcs| ==> (HasFinished(states, events, i, t) <==> !Before(states[i], t))
  }

  lemma RoundStep(s: State, e: Event)
    requires Sized(s) && Enabled(s, e)
    ensures s.round <= Step(s, e).round && |Step(s, e).pcs| == |s.pcs|
  {
  }

  lemma {:induction false} RoundsGrow(states: seq<State>, events: seq<Event>, j: nat, i: nat)
    requires IsRun(states, events) && j <= i < |states|
    ensures states[j].round <= states[i].round && |states[i].pcs| == |states[j].pcs|
  {
    hide Step;
    if j < i {
      RoundsGrow(states, events, j, i - 1);
      assert Sized(states[i - 1]) && Enabled(states[i - 1], events[i - 1]);
      RoundStep(states[i - 1], events[i - 1]);
    }
  }

  /** A new round begins with nothing told. */
  lemma NewRound(states: seq<State>, events: seq<Event>, i: nat)
    requires IsRun(states, events) && 0 < i < |states| && states[i].round != states[i - 1].round
    ensures forall j :: !InRound(states, events, i, j)
  {
    forall j
      ensures !InRound(states, events, i, j)
    {
      if 0 <= j < i {
        RoundsGrow(states, events, j, i - 1);
        RoundsGrow(states, events, i - 1, i);
      }
    }
  }

  /** Otherwise the round has one more event. */
  lemma SameRound(states: seq<State>, events: seq<Event>, i: nat)
    requires IsRun(states, events) && 0 < i < |states| && states[i].round == states[i - 1].round
    ensures forall j :: InRound(states, events, i, j) <==> InRound(states, events, i - 1, j) || j == i - 1
    ensures forall t, m :: Told(states, events, i - 1, t, m) ==> Told(states, events, i, t, m)
    ensures forall t :: HasFinished(states, events, i, t) <==>
                          HasFinished(states, events, i - 1, t) || (events[i - 1].Finish? && events[i - 1].w == t)
  {
    assert forall j :: InRound(states, events, i, j) <==> InRound(states, events, i - 1, j) || j == i - 1;
    hide InRound;
    forall t, m | Told(states, events, i - 1, t, m)
      ensures Told(states, events, i, t, m)
    {
      var j :| InRound(states, events, i - 1, j) && Reports(events[j]) && events[j].w == t && Message(events[j]) == m;
      assert InRound(states, events, i, j);
    }
    forall t
      ensures HasFinished(states, events, i, t) <==>
              HasFinished(states, events, i - 1, t) || (events[i - 1].Finish? && events[i - 1].w == t)
    {
      assert InRound(states, events, i, i - 1);
    }
  }

  /** What a worker's step may presume about the others and the status. */
  predicate Occasion(s: State, t: nat)
    requires t < |s.pcs|
  {
    match s.pcs[t]
    case Launch => Others(s, t, Arrived)
    case StoreAbort(_) => s.status == Run || s.status == Abort
    case Depart(_) => s.status == Run || s.status == Abort
    case Close(v, _) => (s.status == Run || s.status == Abort) && (v == Done || v == Fail) && Others(s, t, AtHome)
    case Raise(_) => s.status == Done || s.status == Fail
    case _ => true
  }

  lemma HasOccasion(s: State, t: nat, leader: Option<nat>)
    requires Inv(s, leader) && t < |s.pcs|
    ensures Occasion(s, t)
  {
    if s.pcs[t].StoreAbort? || s.pcs[t].Depart? {
      Working(s, t, leader);
    } else if s.pcs[t].Launch? || s.pcs[t].Close? || s.pcs[t].Raise? {
      assert leader == Some(t);
    }
  }

  lemma MoverBefore(s: State, t: nat)
    requires Sized(s) && t < |s.pcs| && Occasion(s, t) && s.round > 0
    ensures |WorkerStep(s, t).pcs| == |s.pcs|
    ensures Before(WorkerStep(s, t), t) <==> Before(s, t)
  {
  }

  lemma OthersBefore(s: State, t: nat, u: nat)
    requires Sized(s) && t < |s.pcs| && u < |s.pcs| && u != t && Occasion(s, t)
    ensures Before(WorkerStep(s, t), u) <==> Before(s, u)
  {
    if s.pcs[t].Launch? {
      assert Arrived(s.pcs[u]);
    } else if s.pcs[t].Close? {
      assert AtHome(s.pcs[u]);
    }
  }

  /** Within a round only finishing takes a worker from before to after. */
  lemma BeforeStep(s: State, e: Event, s': State, leader: Option<nat>)
    requires Inv(s, leader) && Enabled(s, e) && s' == Step(s, e) && s'.round == s.round
    requires s.master.Blocked? ==> s.round > 0
    ensures |s'.pcs| == |s.pcs|
    ensures forall u: nat :: u < |s.pcs| ==> (Before(s', u) <==> Before(s, u) && !(e.Finish? && e.w == u))
  {
    if e.Finish? {
      Working(s, e.w, leader);
    } else if e.Worker? {
      HasOccasion(s, e.t, leader);
      hide Inv, Occasion, WorkerStep, Before;
      if s.round > 0 {
        MoverBefore(s, e.t);
      } else {
        StillFirst(s, e.t);
      }
      forall u: nat | u < |s.pcs| && u != e.t
        ensures Before(s', u) <==> Before(s, u)
      {
        OthersBefore(s, e.t, u);
      }
    }
  }

  lemma StillFirst(s: State, t: nat)
    requires Sized(s) && t < |s.pcs| && s.round == 0
    ensures |WorkerStep(s, t).pcs| == |s.pcs| && Before(WorkerStep(s, t), t) && Before(s, t)
  {
  }

  lemma RoundBegins(s: State, leader: Option<nat>)
    requires Inv(s, leader) && MasterStep(s).round != s.round
    ensures MasterStep(s).round > 0 && forall u: nat :: u < |s.pcs| ==> Before(MasterStep(s), u)
  {
    forall u: nat | u < |s.pcs|
      ensures s.pcs[u] == Spin
    {
      assert ErrorsOk(s, u) && AtHome(s.pcs[u]);
    }
  }

  lemma {:induction false} RunPunctual(states: seq<State>, events: seq<Event>, i: nat)
    requires IsRun(states, events) && i < |states|
    ensures Punctual(states, events, i)
  {
    if i > 0 {
      RunPunctual(states, events, i - 1);
      var leader := RunInv(states, events, i - 1);
      var s, s' := states[i - 1], states[i];
      assert Sized(s) && s' == Step(s, events[i - 1]);
      if s'.round != s.round {
        NewRound(states, events, i);
        RoundBegins(s, leader);
      } else {
        BeforeStep(s, events[i - 1], s', leader);
        SameRound(states, events, i);
      }
    }
  }

  /** What a step stores is what a worker had to report. */
  ghost predicate Notes(s: State, e: Event, s': State) {
    && |s'.pcs| == |s.pcs|
    && (forall t :: t in s'.errors ==>
          || (t in s.errors && s'.errors[t] == s.errors[t])
          || (t < |s.pcs| && s.pcs[t].StoreError? && s'.errors[t] == s.pcs[t].error))
    && (forall t: nat :: t < |s.pcs| && s'.pcs[t].StoreError? ==>
          || (s.pcs[t].StoreError? && s'.pcs[t].error == s.pcs[t].error)
          || (Reports(e) && e.w == t && s'.pcs[t].error == Message(e)))
    && (forall t :: Noted(s, t) ==> Noted(s', t))
    && (Reports(e) ==> Noted(s', e.w))
  }

  lemma MasterNotes(s: State)
    requires Sized(s) && MasterStep(s).round == s.round
    ensures Notes(s, MasterNext, MasterStep(s))
  {
  }

  lemma WorkerNotes(s: State, t: nat)
    requires Sized(s) && t < |s.pcs|
    ensures Notes(s, Worker(t), WorkerStep(s, t))
  {
    var s' := WorkerStep(s, t);
    if s.pcs[t].StoreError? {
      assert s'.errors == s.errors[t := s.pcs[t].error];
    } else {
      WorkerLeavesErrors(s, t);
      hide WorkerStep;
    }
  }

  lemma WorkerLeavesErrors(s: State, t: nat)
    requires Sized(s) && t < |s.pcs| && !s.pcs[t].StoreError?
    ensures var s' := WorkerStep(s, t);
            && s'.errors == s.errors && |s'.pcs| == |s.pcs| && !s'.pcs[t].StoreError?
            && forall u :: 0 <= u < |s.pcs| && u != t ==> s'.pcs[u] == s.pcs[u]
  {
  }

  lemma FinishNotes(s: State, t: nat, error: Option<string>, throws: bool)
    requires Sized(s) && t < |s.pcs| && s.pcs[t].Work?
    ensures Notes(s, Finish(t, error, throws), FinishStep(s, t, error, throws))
  {
  }

  lemma NotedStep(s: State, e: Event, s': State)
    requires Sized(s) && Enabled(s, e) && s' == Step(s, e) && s'.round == s.round
    ensures Notes(s, e, s')
  {
    hide Notes, MasterStep, WorkerStep, FinishStep;
    match e
    case MasterNext => MasterNotes(s);
    case Worker(t) => WorkerNotes(s, t);
    case Finish(t, error, throws) => FinishNotes(s, t, error, throws);
  }

  lemma FaithfulStep(states: seq<State>, events: seq<Event>, i: nat)
    requires IsRun(states, events) && 0 < i < |states| && states[i].round == states[i - 1].round
    requires Faithful(states, events, i - 1) && Notes(states[i - 1], events[i - 1], states[i])
    ensures Faithful(states, events, i)
  {
    assert |states| == |events| + 1;
    hide IsRun, Noted;
    var s, s', e := states[i - 1], states[i], events[i - 1];
    SameRound(states, events, i);
    if Reports(e) {
      ToldNow(states, events, i);
    }
    hide Told, InRound, Reports;
    forall j | InRound(states, events, i, j) && Reports(events[j])
      ensures Noted(s', events[j].w)
    {
      if j != i - 1 {
        assert InRound(states, events, i - 1, j);
      }
    }
  }

  lemma ToldNow(states: seq<State>, events: seq<Event>, i: nat)
    requires 0 < i < |states| == |events| + 1 && states[i].round == states[i - 1].round && Reports(events[i - 1])
    ensures Told(states, events, i, events[i - 1].w, Message(events[i - 1]))
  {
    assert InRound(states, events, i, i - 1);
  }

  lemma {:induction false} RunFaithful(states: seq<State>, events: seq<Event>, i: nat)
    requires IsRun(states, events) && i < |states|
    ensures Faithful(states, events, i)
  {
    hide Faithful;
    if i == 0 {
      NothingTold(states, events);
    } else {
      RunFaithful(states, events, i - 1);
      var s, s', e := states[i - 1], states[i], events[i - 1];
      assert Sized(s) && Enabled(s, e) && s' == Step(s, e);
      if s'.round != s.round {
        var leader := RunInv(states, events, i - 1);
        NewRound(states, events, i);
        NewlyFaithful(states, events, i, leader);
      } else {
        NotedStep(s, e, s');
        FaithfulStep(states, events, i);
      }
    }
  }

  lemma NothingTold(states: seq<State>, events: seq<Event>)
    requires IsRun(states, events)
    ensures Faithful(states, events, 0)
  {
  }

  lemma NewlyFaithful(states: seq<State>, events: seq<Event>, i: nat, leader: Option<nat>)
    requires 0 < i < |states| && Inv(states[i - 1], leader) && i <= |events| && Enabled(states[i - 1], events[i - 1])
    requires states[i] == Step(states[i - 1], events[i - 1]) && states[i].round != states[i - 1].round
    requires forall j :: !InRound(states, events, i, j)
    ensures Faithful(states, events, i)
  {
    RoundBegins(states[i - 1], leader);
    assert states[i].errors == map[];
  }

  // ---- The verdict ----

  /** When all are home, the errors stored are the reports of the round. */
  lemma StoredIsReported(states: seq<State>, events: seq<Event>, i: nat)
    requires i < |states| && Faithful(states, events, i)
    requires forall t :: 0 <= t < |states[i].pcs| ==> AtHome(states[i].pcs[t])
    requires states[i].errors != map[] ==>
               exists t :: t in states[i].errors && states[i].errmsg == Some(states[i].errors[t])
    ensures states[i].errors != map[] <==> exists j :: InRound(states, events, i, j) && Reports(events[j])
    ensures states[i].errors != map[] ==>
              exists j :: InRound(states, events, i, j) && Reports(events[j])
                          && states[i].errmsg == Some(Message(events[j]))
  {
    var s := states[i];
    if s.errors != map[] {
      var t :| t in s.errors && s.errmsg == Some(s.errors[t]);
      assert Told(states, events, i, t, s.errors[t]);
    }
    if j :| InRound(states, events, i, j) && Reports(events[j]) {
      assert Noted(s, events[j].w);
    }
  }

  /** When master_wait reads the status, each worker has finished since the round began. The status is `Fail` if and
      only if some worker's workload returned an error or threw, and then the message is that error, or the text for
      exceptions, of one of those. */
  lemma VerdictOnEvents(states: seq<State>, events: seq<Event>, i: nat)
    requires IsRun(states, events) && i < |states| && states[i].master.Woken?
    ensures states[i].status == Fail <==> exists j :: InRound(states, events, i, j) && Reports(events[j])
    ensures states[i].status == Fail || states[i].status == Done
    ensures states[i].status == Fail ==>
              exists j :: InRound(states, events, i, j) && Reports(events[j])
                          && states[i].errmsg == Some(Message(events[j]))
    ensures forall t: nat :: t < |states[i].pcs| ==> HasFinished(states, events, i, t)
  {
    Verdict(states, events, i);
    hide IsRun, InRound, Reports, Faithful;
    RunFaithful(states, events, i);
    StoredIsReported(states, events, i);
    RunPunctual(states, events, i);
  }

  /** Nobody finishes twice in a round. */
  lemma FinishesOnce(states: seq<State>, events: seq<Event>, i: nat, j: nat, k: nat)
    requires IsRun(states, events) && i < |states| && InRound(states, events, i, j) && InRound(states, events, i, k)
    requires events[j].Finish? && events[k].Finish? && events[j].w == events[k].w
    ensures j == k
  {
    var first, last := if j < k then j else k, if j < k then k else j;
    if first < last {
      assert Sized(states[last]) && Enabled(states[last], events[last]);
      assert InRound(states, events, last, first);
      assert HasFinished(states, events, last, events[last].w);
      RunPunctual(states, events, last);
    }
  }

  // ---- Which rounds are run ----

  /** The master reads `Fail`. */
  predicate Fails(states: seq<State>, events: seq<Event>, k: nat) {
    k < |states| && k < |events| && states[k].master.Woken? && states[k].status == Fail && events[k].MasterNext?
  }

  ghost predicate FailedBefore(states: seq<State>, events: seq<Event>, i: nat) {
    exists k :: 0 <= k < i && Fails(states, events, k)
  }

  ghost predicate OnPlan(states: seq<State>, events: seq<Event>, i: nat)
    requires i < |states|
  {
    var s := states[i];
    match s.master
    case Ready(failed) => failed <==> FailedBefore(states, events, i)
    case Joined => s.round == s.rounds || FailedBefore(states, events, i)
    case _ => !FailedBefore(states, events, i)
  }

  lemma OneMoreEvent(states: seq<State>, events: seq<Event>, i: nat)
    requires 0 < i
    ensures FailedBefore(states, events, i) <==> FailedBefore(states, events, i - 1) || Fails(states, events, i - 1)
  {
    if FailedBefore(states, events, i - 1) {
      var k :| 0 <= k < i - 1 && Fails(states, events, k);
      assert 0 <= k < i && Fails(states, events, k);
    }
  }

  lemma WorkersLeaveMaster(s: State, e: Event)
    requires Sized(s) && Enabled(s, e) && !e.MasterNext?
    ensures Step(s, e).master == s.master && Step(s, e).round == s.round && Step(s, e).rounds == s.rounds
  {
  }

  lemma PlanStep(states: seq<State>, events: seq<Event>, i: nat)
    requires 0 < i < |states| && OnPlan(states, events, i - 1) && i <= |events| && events[i - 1].MasterNext?
    requires states[i] == MasterStep(states[i - 1]) && states[i - 1].round <= states[i - 1].rounds
    ensures OnPlan(states, events, i) && states[i].rounds == states[i - 1].rounds
  {
    OneMoreEvent(states, events, i);
    hide FailedBefore;
  }

  lemma {:induction false} RunOnPlan(states: seq<State>, events: seq<Event>, i: nat)
    requires IsRun(states, events) && i < |states|
    ensures OnPlan(states, events, i) && states[i].rounds == states[0].rounds
  {
    if i > 0 {
      hide OnPlan;
      RunOnPlan(states, events, i - 1);
      var leader := RunInv(states, events, i - 1);
      var s, e := states[i - 1], events[i - 1];
      assert Sized(s) && Enabled(s, e) && states[i] == Step(s, e);
      assert MasterOk(s, leader);
      hide Inv, IsRun;
      if e.MasterNext? {
        PlanStep(states, events, i);
      } else {
        WorkersLeaveMaster(s, e);
        SamePlan(states, events, i);
      }
    } else {
      NoPlanYet(states, events);
    }
  }

  lemma SamePlan(states: seq<State>, events: seq<Event>, i: nat)
    requires 0 < i < |states| && OnPlan(states, events, i - 1) && i <= |events| && !events[i - 1].MasterNext?
    requires states[i].master == states[i - 1].master && states[i].round == states[i - 1].round
    requires states[i].rounds == states[i - 1].rounds
    ensures OnPlan(states, events, i)
  {
    OneMoreEvent(states, events, i);
    hide FailedBefore;
  }

  lemma NoPlanYet(states: seq<State>, events: seq<Event>)
    requires |states| > 0 && Initial(states[0])
    ensures OnPlan(states, events, 0)
  {
  }

  /** The master joins when all planned rounds were run, or after a round that failed, and not before. */
  lemma JoinsAfterAllRounds(states: seq<State>, events: seq<Event>, i: nat)
    requires IsRun(states, events) && i < |states| && states[i].master.Joined?
    ensures states[i].round == states[0].rounds || FailedBefore(states, events, i)
  {
    RunOnPlan(states, events, i);
  }

  /** When all is over and no round failed, every worker has worked in each planned round. */
  lemma EveryRoundIsRun(states: seq<State>, events: seq<Event>, i: nat, t: nat)
    requires IsRun(states, events) && i < |states| && Sized(states[i]) && Over(states[i]) && t < |states[i].pcs|
    requires !FailedBefore(states, events, i)
    ensures states[i].ran[t] == states[0].rounds
  {
    JoinsAfterAllRounds(states, events, i);
    var leader := RunInv(states, events, i);
    assert RanOk(states[i], t);
  }

  lemma BeginsNoRound(s: State)
    requires Sized(s) && s.master != Ready(false)
    ensures Step(s, MasterNext).round == s.round
  {
  }

  /** After a round that failed no other one begins. */
  lemma {:induction false} NoRoundAfterFailure(states: seq<State>, events: seq<Event>, k: nat, i: nat)
    requires IsRun(states, events) && k < i < |states| && Fails(states, events, k)
    ensures states[i].round == states[k].round
  {
    hide Step;
    var s, e := states[i - 1], events[i - 1];
    assert Sized(s) && Enabled(s, e) && states[i] == Step(s, e);
    hide IsRun;
    if k < i - 1 {
      NoRoundAfterFailure(states, events, k, i - 1);
      RunOnPlan(states, events, i - 1);
      assert FailedBefore(states, events, i - 1);
    }
    if !e.MasterNext? {
      WorkersLeaveMaster(s, e);
    } else {
      BeginsNoRound(s);
    }
  }

  // ---- A worker whose workload threw ----

  /** On its way out, or gone. */
  predicate Leaving(pc: Pc) {
    (pc.StoreError? && pc.quits) || Quits(pc)
  }

  lemma LeavingStep(s: State, e: Event, t: nat)
    requires Sized(s) && Enabled(s, e) && t < |s.pcs| && Leaving(s.pcs[t])
    ensures var s' := Step(s, e);
            t < |s'.pcs| && |s'.ran| == |s'.pcs| && Leaving(s'.pcs[t]) && s'.ran[t] == s.ran[t]
  {
    if e.Worker? && e.t != t {
      assert WorkerStep(s, e.t).pcs[t] == s.pcs[t];
    }
  }

  /** It reports and never works again. */
  lemma {:induction false} ThrowingIsLast(states: seq<State>, events: seq<Event>, j: nat, i: nat)
    requires IsRun(states, events) && j < i < |states| && events[j].Finish? && events[j].throws
    ensures Sized(states[i]) && events[j].w < |states[i].pcs| && Leaving(states[i].pcs[events[j].w])
    ensures states[i].ran[events[j].w] == states[j].ran[events[j].w]
  {
    var t, s, e := events[j].w, states[i - 1], events[i - 1];
    assert Sized(s) && Enabled(s, e) && states[i] == Step(s, e);
    RoundsGrow(states, events, j, i);
    if j < i - 1 {
      ThrowingIsLast(states, events, j, i - 1);
      hide IsRun;
      LeavingStep(s, e, t);
      hide Step;
    } else {
      hide IsRun;
    }
  }

  // ---- It ends ----

  /** How many steps a worker has left in the present round, and to stop. */
  function Rank(s: State, t: nat): nat
    requires t < |s.pcs|
  {
    match s.pcs[t]
    case Spin => if s.status == Wait then 13 else 1
    case Arrive => 12
    case Reset => 11
    case Launch => 10
    case AwaitRun => 10
    case Work => 9
    case StoreError(_, _) => 8
    case StoreAbort(_) => 7
    case Depart(_) => 6
    case Clear(_) => 5
    case Judge(_) => 4
    case Close(_, _) => 3
    case Raise(_) => 2
    case Stopped => 0
  }

  function Ranks(s: State, n: nat): nat
    requires n <= |s.pcs|
  {
    if n == 0 then 0 else Ranks(s, n - 1) + Rank(s, n - 1)
  }

  function MasterRank(m: Master): nat {
    match m
    case Ready(_) => 1
    case Blocked => 3
    case Woken => 2
    case _ => 0
  }

  /** What a whole round costs at most. */
  function RoundCost(s: State): nat {
    12 * |s.pcs| + 3
  }

  function Potential(s: State): int {
    Ranks(s, |s.pcs|) + MasterRank(s.master) + (s.rounds - s.round) * RoundCost(s)
  }

  lemma {:induction false} RanksFall(s: State, s': State, n: nat, d: nat)
    requires n <= |s.pcs| == |s'.pcs| && forall u: nat :: u < n ==> Rank(s', u) <= Rank(s, u) + d
    ensures Ranks(s', n) <= Ranks(s, n) + n * d
    ensures d == 0 && (exists u: nat :: u < n && Rank(s', u) < Rank(s, u)) ==> Ranks(s', n) < Ranks(s, n)
  {
    hide Rank;
    if n > 0 {
      RanksFall(s, s', n - 1, d);
      assert n * d == (n - 1) * d + d;
    }
  }

  lemma WorkerCosts(s: State, t: nat)
    requires Sized(s) && t < |s.pcs| && Occasion(s, t) && WorkerStep(s, t) != s
    ensures var s' := WorkerStep(s, t);
            && |s'.pcs| == |s.pcs| && Rank(s', t) < Rank(s, t)
            && s'.master == s.master && s'.round == s.round && s'.rounds == s.rounds
  {
    var s' := WorkerStep(s, t);
    if s.pcs[t].Spin? && s.status != Wait && s.status != Quit {
      assert s'.pcs == s.pcs;
    }
  }

  lemma OthersCost(s: State, t: nat, u: nat)
    requires Sized(s) && t < |s.pcs| && u < |s.pcs| && u != t && Occasion(s, t)
    ensures |WorkerStep(s, t).pcs| == |s.pcs| && Rank(WorkerStep(s, t), u) <= Rank(s, u)
  {
    assert WorkerStep(s, t).pcs[u] == s.pcs[u];
  }

  /** Every step that changes something costs. */
  lemma StepCosts(s: State, e: Event, leader: Option<nat>)
    requires Inv(s, leader) && Enabled(s, e) && Step(s, e) != s
    ensures Potential(Step(s, e)) < Potential(s)
  {
    var s' := Step(s, e);
    match e
    case MasterNext => MasterCosts(s, leader);
    case Worker(t) =>
      HasOccasion(s, t, leader);
      hide Inv, Rank, WorkerStep, Occasion;
      WorkerCosts(s, t);
      forall u: nat | u < |s.pcs|
        ensures Rank(s', u) <= Rank(s, u)
      {
        if u != t {
          OthersCost(s, t, u);
        }
      }
      RanksFall(s, s', |s.pcs|, 0);
    case Finish(t, error, throws) =>
      hide Inv;
      FinishCosts(s, t, error, throws);
  }

  lemma FinishCosts(s: State, t: nat, error: Option<string>, throws: bool)
    requires Sized(s) && t < |s.pcs| && s.pcs[t].Work?
    ensures Potential(FinishStep(s, t, error, throws)) < Potential(s)
  {
    var s' := FinishStep(s, t, error, throws);
    assert Rank(s', t) < Rank(s, t);
    RanksFall(s, s', |s.pcs|, 0);
  }

  lemma MasterCosts(s: State, leader: Option<nat>)
    requires Inv(s, leader) && MasterStep(s) != s
    ensures Potential(MasterStep(s)) < Potential(s)
  {
    var s' := MasterStep(s);
    assert MasterOk(s, leader);
    hide Inv;
    if s'.round != s.round {
      RanksFall(s, s', |s.pcs|, 12);
      assert (s.rounds - s.round) * RoundCost(s) == (s'.rounds - s'.round) * RoundCost(s') + RoundCost(s);
    } else {
      RanksFall(s, s', |s.pcs|, 0);
    }
  }

  /** Every run comes to rest: only so many steps change anything, and some step does until all is over. */
  lemma {:induction false} ComesToRest(states: seq<State>, events: seq<Event>, i: nat)
    requires IsRun(states, events) && i < |states|
    ensures Changes(states, i) <= |states[0].pcs| + 1 + states[0].rounds * (12 * |states[0].pcs| + 3)
    ensures Changes(states, i) + Potential(states[i]) <= Potential(states[0])
  {
    var leader := RunInv(states, events, i);
    assert states[i].round <= states[i].rounds by {
      assert MasterOk(states[i], leader);
    }
    if i == 0 {
      RanksAtStart(states[0], |states[0].pcs|);
    } else {
      ComesToRest(states, events, i - 1);
      assert Sized(states[i - 1]) && Enabled(states[i - 1], events[i - 1]);
      assert states[i] == Step(states[i - 1], events[i - 1]);
      var before := RunInv(states, events, i - 1);
      if states[i] != states[i - 1] {
        StepCosts(states[i - 1], events[i - 1], before);
      }
      RanksAtStart(states[0], |states[0].pcs|);
    }
    hide Inv;
    Nonnegative(states[i]);
  }

  lemma Nonnegative(s: State)
    requires s.round <= s.rounds
    ensures Potential(s) >= 0
  {
    assert (s.rounds - s.round) * RoundCost(s) >= 0;
  }

  lemma {:induction false} RanksAtStart(s: State, n: nat)
    requires Initial(s) && n <= |s.pcs|
    ensures Ranks(s, n) == n
  {
    if n > 0 {
      RanksAtStart(s, n - 1);
    }
  }
}
