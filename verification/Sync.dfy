/** The benchmark's rounds: a master starts and awaits them, any number of workers run in them and report
    errors. One step per atomic access. */
module Sync {
  import opened Counting
  import opened Options

  datatype Status = Wait | Run | Abort | Done | Fail | Quit

  /** `quits`: the worker's thread ends after this notification, because an exception was caught. */
  datatype Pc =
    | Spin                                   // worker_wait: spinning until `Wait` or `Quit`
    | Arrive                                 // ... about to increment nbready
    | Reset                                  // ... was the last: about to store 0
    | Launch                                 // ... about to store `Run`
    | AwaitRun                               // ... was not the last: spinning until `Run` or `Abort`
    | Work                                   // in the workload
    | StoreError(error: string, quits: bool) // worker_notify: about to store the message
    | StoreAbort(quits: bool)                // ... about to store `Abort`
    | Depart(quits: bool)                    // ... about to increment nbready
    | Clear(quits: bool)                     // ... was the last: about to store 0
    | Judge(quits: bool)                     // ... about to load the status
    | Close(verdict: Status, quits: bool)    // ... about to store the verdict
    | Raise(quits: bool)                     // ... about to raise the latch
    | Stopped

  datatype Master =
    | Ready(failed: bool) // between rounds
    | Blocked             // master_wait: waiting on the latch
    | Woken               // ... about to load the status
    | Joined              // after master_join
    | Unreachable         // threw the "unexpected status" exception

  /** `round`, `ran` (rounds each worker has begun to work in) and `errors` (who stored which message in
      this round) are history variables. `rounds` is how many rounds the master plans. */
  datatype State = State(
    rounds: nat,
    nbready: int,
    status: Status,
    errmsg: Option<string>,
    latch: bool,
    master: Master,
    pcs: seq<Pc>,
    round: nat,
    ran: seq<nat>,
    errors: map<nat, string>)

  datatype Event =
    | MasterNext                                            // the master's next access
    | Worker(t: nat)                                        // worker t's next access
    | Finish(w: nat, error: Option<string>, throws: bool)   // worker w's workload returns or throws

  const INTERNAL_ERROR := "Internal worker exception(s)"

  predicate Sized(s: State) {
    |s.pcs| > 0 && |s.ran| == |s.pcs|
  }

  predicate Initial(s: State) {
    && Sized(s) && s.nbready == 0 && s.status == Done && s.errmsg == None && !s.latch && s.master == Ready(false)
    && s.round == 0 && s.errors == map[]
    && forall t :: 0 <= t < |s.pcs| ==> s.pcs[t] == Spin && s.ran[t] == 0
  }

  function Goto(s: State, t: nat, pc: Pc): State
    requires t < |s.pcs|
  {
    s.(pcs := s.pcs[t := pc])
  }

  function Begin(s: State, t: nat): State
    requires Sized(s) && t < |s.pcs|
  {
    Goto(s, t, Work).(ran := s.ran[t := s.ran[t] + 1])
  }

  function MasterStep(s: State): State {
    match s.master
    case Ready(failed) =>
      if !failed && s.round < s.rounds
      then s.(status := Wait, master := Blocked, round := s.round + 1, errors := map[])
      else s.(status := Quit, master := Joined)
    case Blocked => if s.latch then s.(latch := false, master := Woken) else s
    case Woken =>
      s.(master := match s.status
                   case Done => Ready(false)
                   case Fail => Ready(true)
                   case _ => Unreachable)
    case _ => s
  }

  /** Where a worker goes after its notification. */
  function Home(quits: bool): Pc {
    if quits then Stopped else Spin
  }

  function WorkerStep(s: State, t: nat): State
    requires Sized(s) && t < |s.pcs|
  {
    match s.pcs[t]
    case Spin => Goto(s, t, if s.status == Wait then Arrive else if s.status == Quit then Stopped else Spin)
    case Arrive => Goto(s.(nbready := s.nbready + 1), t, if s.nbready + 1 == |s.pcs| then Reset else AwaitRun)
    case Reset => Goto(s.(nbready := 0), t, Launch)
    case Launch => Begin(s.(status := Run), t)
    case AwaitRun => if s.status == Run || s.status == Abort then Begin(s, t) else s
    case Work => s
    case StoreError(error, quits) =>
      Goto(s.(errmsg := Some(error), errors := s.errors[t := error]), t, StoreAbort(quits))
    case StoreAbort(quits) => Goto(s.(status := Abort), t, Depart(quits))
    case Depart(quits) =>
      Goto(s.(nbready := s.nbready + 1), t, if s.nbready + 1 == |s.pcs| then Clear(quits) else Home(quits))
    case Clear(quits) => Goto(s.(nbready := 0), t, Judge(quits))
    case Judge(quits) => Goto(s, t, Close(if s.status == Abort then Fail else Done, quits))
    case Close(verdict, quits) => Goto(s.(status := verdict), t, Raise(quits))
    case Raise(quits) => Goto(s.(latch := true), t, Home(quits))
    case Stopped => s
  }

  function FinishStep(s: State, t: nat, error: Option<string>, throws: bool): State
    requires Sized(s) && t < |s.pcs| && s.pcs[t].Work?
  {
    if throws then Goto(s, t, StoreError(INTERNAL_ERROR, true))
    else if error.Some? then Goto(s, t, StoreError(error.value, false))
    else Goto(s, t, Depart(false))
  }

  predicate Enabled(s: State, e: Event) {
    match e
    case MasterNext => true
    case Worker(t) => t < |s.pcs|
    case Finish(t, _, _) => t < |s.pcs| && s.pcs[t].Work?
  }

  function Step(s: State, e: Event): State
    requires Sized(s) && Enabled(s, e)
  {
    match e
    case MasterNext => MasterStep(s)
    case Worker(t) => WorkerStep(s, t)
    case Finish(t, error, throws) => FinishStep(s, t, error, throws)
  }

  ghost predicate IsRun(states: seq<State>, events: seq<Event>) {
    && |states| == |events| + 1
    && Initial(states[0])
    && forall i :: 0 <= i < |events| ==>
         Sized(states[i]) && Enabled(states[i], events[i]) && states[i + 1] == Step(states[i], events[i])
  }

  // ---- The invariant ----

  predicate AtHome(pc: Pc) {
    pc.Spin? || pc.Stopped?
  }

  predicate Arrived(pc: Pc) {
    pc.AwaitRun?
  }

  predicate Gathering(pc: Pc) {
    pc.Spin? || pc.Arrive? || pc.AwaitRun?
  }

  predicate Busy(pc: Pc) {
    pc.AwaitRun? || pc.Work? || pc.StoreError? || pc.StoreAbort? || pc.Depart? || AtHome(pc)
  }

  /** The thread ends with the present notification, or has ended. */
  predicate Quits(pc: Pc) {
    match pc
    case StoreAbort(q) => q
    case Depart(q) => q
    case Clear(q) => q
    case Judge(q) => q
    case Close(_, q) => q
    case Raise(q) => q
    case Stopped => true
    case _ => false
  }

  predicate RanOk(s: State, t: nat)
    requires Sized(s) && t < |s.pcs|
  {
    s.ran[t] + (if s.status == Wait || s.pcs[t].AwaitRun? then 1 else 0) == s.round
  }

  /** Errors and the status tell the same story. */
  predicate ErrorsOk(s: State, t: nat)
    requires Sized(s) && t < |s.pcs|
  {
    && (Quits(s.pcs[t]) && s.status != Quit ==> t in s.errors)
    && (s.pcs[t].StoreAbort? ==> t in s.errors)
    && (s.status == Run && t in s.errors ==> s.pcs[t].StoreAbort?)
  }

  predicate Blames(s: State) {
    && (s.errors != map[] ==> exists t :: t in s.errors && s.errmsg == Some(s.errors[t]))
    && (s.status == Abort || s.status == Fail ==> s.errors != map[])
    && (s.status == Done || s.status == Wait ==> s.errors == map[])
    && forall t :: t in s.errors ==> t < |s.pcs|
  }

  /** What the others do while worker `l` leads. */
  predicate LeaderOk(s: State, l: nat)
    requires l < |s.pcs|
  {
    match s.pcs[l]
    case Reset => s.status == Wait && s.nbready == |s.pcs| && Others(s, l, Arrived)
    case Launch => s.status == Wait && s.nbready == 0 && Others(s, l, Arrived)
    case Clear(_) => (s.status == Run || s.status == Abort) && s.nbready == |s.pcs| && Others(s, l, AtHome)
    case Judge(_) => (s.status == Run || s.status == Abort) && s.nbready == 0 && Others(s, l, AtHome)
    case Close(v, _) =>
      (s.status == Run || s.status == Abort) && s.nbready == 0 && Others(s, l, AtHome)
      && v == (if s.status == Abort then Fail else Done)
    case Raise(_) => (s.status == Done || s.status == Fail) && s.nbready == 0 && Others(s, l, AtHome)
    case _ => false
  }

  predicate Others(s: State, l: nat, f: Pc -> bool) {
    forall t :: 0 <= t < |s.pcs| && t != l ==> f(s.pcs[t])
  }

  /** Without a leader. */
  predicate CrowdOk(s: State) {
    match s.status
    case Wait => s.nbready == Count(s.pcs, Arrived) < |s.pcs| && forall t :: 0 <= t < |s.pcs| ==> Gathering(s.pcs[t])
    case Run => s.nbready == Count(s.pcs, AtHome) < |s.pcs| && forall t :: 0 <= t < |s.pcs| ==> Busy(s.pcs[t])
    case Abort => s.nbready == Count(s.pcs, AtHome) < |s.pcs| && forall t :: 0 <= t < |s.pcs| ==> Busy(s.pcs[t])
    case _ => s.nbready == 0 && forall t :: 0 <= t < |s.pcs| ==> AtHome(s.pcs[t])
  }

  predicate MasterOk(s: State, leader: Option<nat>) {
    && s.round <= s.rounds
    && match s.master
       case Ready(failed) => !s.latch && leader == None && s.status == (if failed then Fail else Done)
       case Blocked => s.status != Quit && (s.latch <==> leader == None && (s.status == Done || s.status == Fail))
       case Woken => !s.latch && leader == None && (s.status == Done || s.status == Fail)
       case Joined => !s.latch && leader == None && s.status == Quit
       case Unreachable => false
  }

  ghost predicate Inv(s: State, leader: Option<nat>) {
    && Sized(s) && MasterOk(s, leader) && Blames(s)
    && (forall t :: 0 <= t < |s.pcs| ==> RanOk(s, t) && ErrorsOk(s, t))
    && (leader.Some? ==> leader.value < |s.pcs| && LeaderOk(s, leader.value))
    && (leader.None? ==> CrowdOk(s))
  }

  // ---- Every step keeps it ----

  lemma Starts(s: State)
    requires Initial(s)
    ensures Inv(s, None)
  {
  }

  /** A step of worker `t` keeps what is said of each worker, if it keeps what is said of `t`. */
  ghost predicate OnlyMoves(s: State, s': State, t: nat) {
    && Sized(s) && Sized(s') && |s'.pcs| == |s.pcs| && t < |s.pcs|
    && s'.rounds == s.rounds && s'.round == s.round && s'.master == s.master
    && (forall u :: 0 <= u < |s.pcs| && u != t ==> s'.pcs[u] == s.pcs[u] && s'.ran[u] == s.ran[u])
  }

  lemma OthersKeep(s: State, s': State, t: nat)
    requires OnlyMoves(s, s', t) && s'.status == s.status && s'.errors == s.errors
    requires forall u :: 0 <= u < |s.pcs| ==> RanOk(s, u) && ErrorsOk(s, u)
    requires RanOk(s', t) && ErrorsOk(s', t)
    ensures forall u :: 0 <= u < |s.pcs| ==> RanOk(s', u) && ErrorsOk(s', u)
  {
    forall u | 0 <= u < |s.pcs|
      ensures RanOk(s', u) && ErrorsOk(s', u)
    {
      assert RanOk(s, u) && ErrorsOk(s, u);
    }
  }

  lemma MasterKeeps(s: State, leader: Option<nat>)
    requires Inv(s, leader)
    ensures Inv(MasterStep(s), leader)
  {
    var s' := MasterStep(s);
    forall t | 0 <= t < |s.pcs|
      ensures RanOk(s', t) && ErrorsOk(s', t)
    {
      assert RanOk(s, t) && ErrorsOk(s, t);
      assert s.master.Ready? ==> AtHome(s.pcs[t]);
    }
    if s.master == Ready(false) {
      forall t | 0 <= t < |s.pcs|
        ensures s.pcs[t] == Spin
      {
        assert ErrorsOk(s, t) && AtHome(s.pcs[t]);
      }
      CountExtremes(s.pcs, Arrived);
    }
  }

  lemma SpinKeeps(s: State, t: nat, leader: Option<nat>)
    requires Inv(s, leader) && t < |s.pcs| && s.pcs[t].Spin?
    ensures Inv(WorkerStep(s, t), leader)
  {
    var s' := WorkerStep(s, t);
    assert RanOk(s, t) && ErrorsOk(s, t);
    OthersKeep(s, s', t);
    if s.status == Wait {
      CountUpdate(s.pcs, Arrived, t, Arrive);
    } else if s.status != Quit {
      assert s'.pcs == s.pcs;
    }
  }

  lemma ArriveKeeps(s: State, t: nat, leader: Option<nat>) returns (leader': Option<nat>)
    requires Inv(s, leader) && t < |s.pcs| && s.pcs[t].Arrive?
    ensures Inv(WorkerStep(s, t), leader')
  {
    var s' := WorkerStep(s, t);
    assert RanOk(s, t) && ErrorsOk(s, t);
    OthersKeep(s, s', t);
    CountUpdate(s.pcs, Arrived, t, AwaitRun);
    if s.nbready + 1 == |s.pcs| {
      leader' := Some(t);
      CountExtremes(s.pcs[t := AwaitRun], Arrived);
      forall u | 0 <= u < |s.pcs| && u != t
        ensures Arrived(s'.pcs[u])
      {
        assert s.pcs[t := AwaitRun][u] == s'.pcs[u];
      }
    } else {
      leader' := None;
    }
  }

  lemma LaunchKeeps(s: State, t: nat, leader: Option<nat>)
    requires Inv(s, leader) && t < |s.pcs| && s.pcs[t].Launch?
    ensures Inv(WorkerStep(s, t), None)
  {
    var s' := WorkerStep(s, t);
    assert leader == Some(t);
    forall u | 0 <= u < |s.pcs|
      ensures RanOk(s', u) && ErrorsOk(s', u) && Busy(s'.pcs[u]) && !AtHome(s'.pcs[u])
    {
      assert RanOk(s, u) && ErrorsOk(s, u);
      assert u != t ==> Arrived(s.pcs[u]);
    }
    CountExtremes(s'.pcs, AtHome);
  }

  /** Steps of a worker in its workload: the number of those that are home stays. */
  lemma BusyKeeps(s: State, s': State, t: nat, leader: Option<nat>)
    requires Inv(s, leader) && leader == None && t < |s.pcs| && Busy(s.pcs[t]) && !AtHome(s.pcs[t])
    requires OnlyMoves(s, s', t) && s'.pcs == s.pcs[t := s'.pcs[t]] && Busy(s'.pcs[t]) && !AtHome(s'.pcs[t])
    requires (s.status == Run || s.status == Abort) && s'.status == s.status && s'.errors == s.errors
    requires s'.nbready == s.nbready && s'.latch == s.latch && s'.errmsg == s.errmsg
    requires RanOk(s', t) && ErrorsOk(s', t)
    ensures Inv(s', None)
  {
    OthersKeep(s, s', t);
    CountUpdate(s.pcs, AtHome, t, s'.pcs[t]);
  }

  lemma AwaitRunKeeps(s: State, t: nat, leader: Option<nat>)
    requires Inv(s, leader) && t < |s.pcs| && s.pcs[t].AwaitRun?
    ensures Inv(WorkerStep(s, t), leader)
  {
    assert RanOk(s, t) && ErrorsOk(s, t);
    if s.status == Run || s.status == Abort {
      BusyKeeps(s, WorkerStep(s, t), t, leader);
    }
  }

  /** A worker in its workload, and until it departs, works in a round that runs. */
  lemma Working(s: State, t: nat, leader: Option<nat>)
    requires Inv(s, leader) && t < |s.pcs| && Busy(s.pcs[t]) && !AtHome(s.pcs[t]) && !s.pcs[t].AwaitRun?
    ensures leader == None && (s.status == Run || s.status == Abort) && s.master == Blocked && !s.latch
  {
  }

  lemma FinishKeeps(s: State, t: nat, error: Option<string>, throws: bool, leader: Option<nat>)
    requires Inv(s, leader) && t < |s.pcs| && s.pcs[t].Work?
    ensures Inv(FinishStep(s, t, error, throws), leader)
  {
    assert RanOk(s, t) && ErrorsOk(s, t);
    Working(s, t, leader);
    BusyKeeps(s, FinishStep(s, t, error, throws), t, leader);
  }

  lemma StoreErrorKeeps(s: State, t: nat, leader: Option<nat>)
    requires Inv(s, leader) && t < |s.pcs| && s.pcs[t].StoreError?
    ensures Inv(WorkerStep(s, t), leader)
  {
    var s' := WorkerStep(s, t);
    Working(s, t, leader);
    forall u | 0 <= u < |s.pcs|
      ensures RanOk(s', u) && ErrorsOk(s', u)
    {
      assert RanOk(s, u) && ErrorsOk(s, u);
    }
    assert t in s'.errors && s'.errmsg == Some(s'.errors[t]);
    CountUpdate(s.pcs, AtHome, t, s'.pcs[t]);
  }

  lemma StoreAbortKeeps(s: State, t: nat, leader: Option<nat>)
    requires Inv(s, leader) && t < |s.pcs| && s.pcs[t].StoreAbort?
    ensures Inv(WorkerStep(s, t), leader)
  {
    var s' := WorkerStep(s, t);
    Working(s, t, leader);
    assert ErrorsOk(s, t);
    forall u | 0 <= u < |s.pcs|
      ensures RanOk(s', u) && ErrorsOk(s', u)
    {
      assert RanOk(s, u) && ErrorsOk(s, u);
    }
    CountUpdate(s.pcs, AtHome, t, s'.pcs[t]);
  }

  lemma DepartKeeps(s: State, t: nat, leader: Option<nat>) returns (leader': Option<nat>)
    requires Inv(s, leader) && t < |s.pcs| && s.pcs[t].Depart?
    ensures Inv(WorkerStep(s, t), leader')
  {
    var s' := WorkerStep(s, t);
    Working(s, t, leader);
    assert RanOk(s, t) && ErrorsOk(s, t);
    OthersKeep(s, s', t);
    var home := Home(s.pcs[t].quits);
    CountUpdate(s.pcs, AtHome, t, home);
    if s.nbready + 1 == |s.pcs| {
      leader' := Some(t);
      CountExtremes(s.pcs[t := home], AtHome);
      forall u | 0 <= u < |s.pcs| && u != t
        ensures AtHome(s'.pcs[u])
      {
        assert s.pcs[t := home][u] == s'.pcs[u];
      }
    } else {
      leader' := None;
    }
  }

  /** The leader's own steps, up to the verdict. */
  lemma LeaderKeeps(s: State, t: nat, leader: Option<nat>)
    requires Inv(s, leader) && t < |s.pcs| && (s.pcs[t].Reset? || s.pcs[t].Clear? || s.pcs[t].Judge?)
    ensures Inv(WorkerStep(s, t), leader)
  {
    assert leader == Some(t);
    assert RanOk(s, t) && ErrorsOk(s, t);
    OthersKeep(s, WorkerStep(s, t), t);
  }

  lemma CloseKeeps(s: State, t: nat, leader: Option<nat>)
    requires Inv(s, leader) && t < |s.pcs| && s.pcs[t].Close?
    ensures Inv(WorkerStep(s, t), leader)
  {
    var s' := WorkerStep(s, t);
    assert leader == Some(t);
    forall u | 0 <= u < |s.pcs|
      ensures RanOk(s', u) && ErrorsOk(s', u) && (s.status == Run ==> u !in s.errors)
    {
      assert RanOk(s, u) && ErrorsOk(s, u);
      assert u != t ==> AtHome(s.pcs[u]);
    }
    assert s.status == Run ==> s.errors == map[];
  }

  lemma RaiseKeeps(s: State, t: nat, leader: Option<nat>)
    requires Inv(s, leader) && t < |s.pcs| && s.pcs[t].Raise?
    ensures Inv(WorkerStep(s, t), None)
  {
    assert leader == Some(t);
    assert RanOk(s, t) && ErrorsOk(s, t);
    OthersKeep(s, WorkerStep(s, t), t);
  }

  lemma WorkerKeeps(s: State, t: nat, leader: Option<nat>) returns (leader': Option<nat>)
    requires Inv(s, leader) && t < |s.pcs|
    ensures Inv(WorkerStep(s, t), leader')
  {
    hide Inv;
    leader' := leader;
    match s.pcs[t]
    case Spin => SpinKeeps(s, t, leader);
    case Arrive => leader' := ArriveKeeps(s, t, leader);
    case Launch =>
      LaunchKeeps(s, t, leader);
      leader' := None;
    case AwaitRun => AwaitRunKeeps(s, t, leader);
    case StoreError(_, _) => StoreErrorKeeps(s, t, leader);
    case StoreAbort(_) => StoreAbortKeeps(s, t, leader);
    case Depart(_) => leader' := DepartKeeps(s, t, leader);
    case Close(_, _) => CloseKeeps(s, t, leader);
    case Raise(_) =>
      RaiseKeeps(s, t, leader);
      leader' := None;
    case Work =>
    case Stopped =>
    case _ => LeaderKeeps(s, t, leader);
  }

  lemma {:induction false} RunInv(states: seq<State>, events: seq<Event>, i: nat) returns (leader: Option<nat>)
    requires IsRun(states, events) && i < |states|
    ensures Inv(states[i], leader)
  {
    if i == 0 {
      Starts(states[0]);
      leader := None;
    } else {
      leader := RunInv(states, events, i - 1);
      var s := states[i - 1];
      match events[i - 1]
      case MasterNext => MasterKeeps(s, leader);
      case Worker(t) => leader := WorkerKeeps(s, t, leader);
      case Finish(t, error, throws) => FinishKeeps(s, t, error, throws, leader);
    }
  }

  // ---- What it means ----

  /** When master_wait reads the status, the round is over for everyone: every worker has run in it exactly
      once, the counter is back at 0, and the status says `Fail` exactly when some worker reported an error,
      one of which is the message. The branch for an unexpected status is never taken. */
  lemma Verdict(states: seq<State>, events: seq<Event>, i: nat)
    requires IsRun(states, events) && i < |states|
    ensures !states[i].master.Unreachable?
    ensures var s := states[i];
            s.master.Woken? ==>
              && s.status == (if s.errors == map[] then Done else Fail)
              && (s.errors != map[] ==> exists t :: t in s.errors && s.errmsg == Some(s.errors[t]))
              && s.nbready == 0
              && Sized(s) && forall t :: 0 <= t < |s.pcs| ==> AtHome(s.pcs[t]) && s.ran[t] == s.round
  {
    var s := states[i];
    var leader := RunInv(states, events, i);
    if s.master.Woken? {
      forall t | 0 <= t < |s.pcs|
        ensures AtHome(s.pcs[t]) && s.ran[t] == s.round
      {
        assert RanOk(s, t);
      }
    }
  }

  /** No worker is ever a round ahead, nor runs in a round the master did not plan. */
  lemma NobodyRunsAhead(states: seq<State>, events: seq<Event>, i: nat, t: nat)
    requires IsRun(states, events) && i < |states| && Sized(states[i]) && t < |states[i].pcs|
    ensures states[i].ran[t] <= states[i].round <= states[i].ran[t] + 1
    ensures states[i].round <= states[i].rounds
    ensures states[i].pcs[t].Work? ==> states[i].ran[t] == states[i].round
  {
    var leader := RunInv(states, events, i);
    assert RanOk(states[i], t);
  }

  /** A failure, once noted, stays until the round is judged: no step overwrites `Abort` by anything but
      `Fail`, and workers begin to run before any of them can abort. */
  lemma AbortIsKept(states: seq<State>, events: seq<Event>, i: nat)
    requires IsRun(states, events) && i + 1 < |states| && states[i].status == Abort
    ensures states[i + 1].status == Abort || states[i + 1].status == Fail
  {
    var leader := RunInv(states, events, i);
  }

  /** Everything is over. */
  predicate Over(s: State) {
    s.master.Joined? && forall t :: 0 <= t < |s.pcs| ==> s.pcs[t].Stopped?
  }

  /** As long as workloads return, no reachable state is stuck: until all is over someone makes a step that
      changes something. */
  lemma NeverStuck(states: seq<State>, events: seq<Event>, i: nat) returns (e: Event)
    requires IsRun(states, events) && i < |states| && !Over(states[i])
    ensures Sized(states[i]) && Enabled(states[i], e) && Step(states[i], e) != states[i]
  {
    var s := states[i];
    var leader := RunInv(states, events, i);
    e := MasterNext;
    if leader.Some? {
      e := Worker(leader.value);
    } else if s.master.Joined? {
      var t: nat :| t < |s.pcs| && !s.pcs[t].Stopped?;
      e := Worker(t);
    } else if s.master.Blocked? && !s.latch {
      if s.status == Wait {
        CountExtremes(s.pcs, Arrived);
        var t: nat :| t < |s.pcs| && !Arrived(s.pcs[t]);
        e := Worker(t);
      } else {
        CountExtremes(s.pcs, AtHome);
        var t: nat :| t < |s.pcs| && !AtHome(s.pcs[t]);
        e := if s.pcs[t].Work? then Finish(t, None, false) else Worker(t);
      }
    }
  }
}
