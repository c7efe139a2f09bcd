/** The reusable spin barrier: any number of threads, one step per atomic access, any number of rounds. */
module Barrier {
  import opened Counting

  datatype Mode = Enter | Leave

  datatype Pc =
    | Outside     // not in sync()
    | SetLeave    // was the last to enter: about to store `leave`
    | AwaitLeave  // spinning until the mode is `leave`
    | Leaving     // about to decrement
    | SetEnter    // was the last to leave: about to store `enter`
    | AwaitEnter  // spinning until the mode is `enter`

  /** `entered` and `left` count the calls of sync() each thread has begun and completed; nothing
      depends on them. */
  datatype State = State(step: int, mode: Mode, pcs: seq<Pc>, entered: seq<nat>, left: seq<nat>)

  predicate Initial(s: State) {
    && s.step == 0 && s.mode == Enter && |s.pcs| > 0
    && |s.pcs| == |s.entered| == |s.left|
    && forall i :: 0 <= i < |s.pcs| ==> s.pcs[i] == Outside && s.entered[i] == 0 && s.left[i] == 0
  }

  predicate Sized(s: State) {
    |s.pcs| > 0 && |s.pcs| == |s.entered| == |s.left|
  }

  function Goto(s: State, t: nat, pc: Pc): State
    requires t < |s.pcs|
  {
    s.(pcs := s.pcs[t := pc])
  }

  function Exit(s: State, t: nat): State
    requires Sized(s) && t < |s.pcs|
  {
    Goto(s, t, Outside).(left := s.left[t := s.left[t] + 1])
  }

  /** The next atomic access of thread `t`. A spin that does not succeed leaves the state alone. */
  function Next(s: State, t: nat): State
    requires Sized(s) && t < |s.pcs|
  {
    match s.pcs[t]
    case Outside =>
      var s' := s.(step := s.step + 1, entered := s.entered[t := s.entered[t] + 1]);
      Goto(s', t, if s.step + 1 == |s.pcs| then SetLeave else AwaitLeave)
    case SetLeave => Goto(s.(mode := Leave), t, Leaving)
    case AwaitLeave => if s.mode == Leave then Goto(s, t, Leaving) else s
    case Leaving => Goto(s.(step := s.step - 1), t, if s.step - 1 == 0 then SetEnter else AwaitEnter)
    case SetEnter => Exit(s.(mode := Enter), t)
    case AwaitEnter => if s.mode == Enter then Exit(s, t) else s
  }

  ghost predicate IsRun(states: seq<State>, threads: seq<nat>) {
    && |states| == |threads| + 1
    && Initial(states[0])
    && forall i :: 0 <= i < |threads| ==>
         && Sized(states[i]) && threads[i] < |states[i].pcs|
         && states[i + 1] == Next(states[i], threads[i])
  }

  // ---- The invariant ----

  predicate Entered(pc: Pc) {
    pc.SetLeave? || pc.AwaitLeave?
  }

  predicate NotYetLeft(pc: Pc) {
    pc.AwaitLeave? || pc.Leaving?
  }

  /** While threads enter, those that were slow to notice the end of the last round may still be in it. */
  predicate EnterPc(pc: Pc) {
    pc.Outside? || pc.AwaitEnter? || Entered(pc)
  }

  predicate LeavePc(pc: Pc) {
    NotYetLeft(pc) || pc.AwaitEnter? || pc.SetEnter?
  }

  /** In round `r` of the barrier thread `t` has made this many calls. */
  predicate CallsOk(s: State, t: nat, r: nat)
    requires Sized(s) && t < |s.pcs|
  {
    if s.mode == Enter then
      && s.entered[t] == (if Entered(s.pcs[t]) then r + 1 else r)
      && (if s.pcs[t].AwaitEnter? then s.left[t] + 1 == r else s.left[t] == r)
    else s.entered[t] == r + 1 && s.left[t] == r
  }

  ghost predicate Inv(s: State, r: nat) {
    && Sized(s)
    && (forall t :: 0 <= t < |s.pcs| ==> CallsOk(s, t, r))
    && (s.mode == Enter ==>
          && s.step == Count(s.pcs, Entered)
          && (forall t :: 0 <= t < |s.pcs| ==> EnterPc(s.pcs[t]))
          && (forall t :: 0 <= t < |s.pcs| && s.pcs[t].SetLeave? ==> s.step == |s.pcs|)
          && (s.step == |s.pcs| ==> SetLeave in s.pcs)
          && OnlyOne(s.pcs, SetLeave))
    && (s.mode == Leave ==>
          && s.step == Count(s.pcs, NotYetLeft)
          && (forall t :: 0 <= t < |s.pcs| ==> LeavePc(s.pcs[t]))
          && (forall t :: 0 <= t < |s.pcs| && s.pcs[t].SetEnter? ==> s.step == 0)
          && (s.step == 0 ==> SetEnter in s.pcs)
          && OnlyOne(s.pcs, SetEnter))
  }

  predicate OnlyOne(pcs: seq<Pc>, pc: Pc) {
    forall t, u :: 0 <= t < u < |pcs| ==> !(pcs[t] == pc && pcs[u] == pc)
  }

  // ---- Every step keeps it ----

  lemma Starts(s: State)
    requires Initial(s)
    ensures Inv(s, 0)
  {
    CountExtremes(s.pcs, Entered);
  }

  lemma EnterKeeps(s: State, t: nat, r: nat)
    requires Inv(s, r) && t < |s.pcs| && s.pcs[t].Outside?
    ensures Inv(Next(s, t), r)
  {
    forall u | 0 <= u < |s.pcs|
      ensures CallsOk(Next(s, t), u, r)
    {
      assert CallsOk(s, u, r);
    }
    var pc := Next(s, t).pcs[t];
    assert Next(s, t).pcs == s.pcs[t := pc];
    CountUpdate(s.pcs, Entered, t, pc);
    CountExtremes(s.pcs, Entered);
  }

  lemma LeaveKeeps(s: State, t: nat, r: nat)
    requires Inv(s, r) && t < |s.pcs| && s.pcs[t].Leaving?
    ensures Inv(Next(s, t), r)
  {
    forall u | 0 <= u < |s.pcs|
      ensures CallsOk(Next(s, t), u, r)
    {
      assert CallsOk(s, u, r);
    }
    var pc := Next(s, t).pcs[t];
    assert Next(s, t).pcs == s.pcs[t := pc];
    CountUpdate(s.pcs, NotYetLeft, t, pc);
    CountExtremes(s.pcs, NotYetLeft);
  }

  lemma SetLeaveKeeps(s: State, t: nat, r: nat)
    requires Inv(s, r) && t < |s.pcs| && s.pcs[t].SetLeave?
    ensures Inv(Next(s, t), r)
  {
    var s' := Next(s, t);
    CountExtremes(s.pcs, Entered);
    forall u | 0 <= u < |s.pcs|
      ensures NotYetLeft(s'.pcs[u]) && CallsOk(s', u, r)
    {
      assert Entered(s.pcs[u]) && CallsOk(s, u, r);
    }
    CountExtremes(s'.pcs, NotYetLeft);
  }

  lemma SetEnterKeeps(s: State, t: nat, r: nat)
    requires Inv(s, r) && t < |s.pcs| && s.pcs[t].SetEnter?
    ensures Inv(Next(s, t), r + 1)
  {
    var s' := Next(s, t);
    CountExtremes(s.pcs, NotYetLeft);
    forall u | 0 <= u < |s.pcs|
      ensures u == t || s.pcs[u].AwaitEnter?
      ensures CallsOk(s', u, r + 1) && !Entered(s'.pcs[u])
    {
      assert !NotYetLeft(s.pcs[u]) && CallsOk(s, u, r);
    }
    CountExtremes(s'.pcs, Entered);
  }

  lemma AwaitLeaveKeeps(s: State, t: nat, r: nat)
    requires Inv(s, r) && t < |s.pcs| && s.pcs[t].AwaitLeave?
    ensures Inv(Next(s, t), r)
  {
    if s.mode == Leave {
      var s' := Next(s, t);
      forall u | 0 <= u < |s.pcs|
        ensures CallsOk(s', u, r)
      {
        assert CallsOk(s, u, r);
      }
      CountUpdate(s.pcs, NotYetLeft, t, Leaving);
      CountExtremes(s'.pcs, NotYetLeft);
      assert NotYetLeft(s'.pcs[t]) && s'.step == Count(s'.pcs, NotYetLeft) != 0;
    }
  }

  lemma AwaitEnterKeeps(s: State, t: nat, r: nat)
    requires Inv(s, r) && t < |s.pcs| && s.pcs[t].AwaitEnter?
    ensures Inv(Next(s, t), r)
  {
    if s.mode == Enter {
      var s' := Next(s, t);
      forall u | 0 <= u < |s.pcs|
        ensures CallsOk(s', u, r)
      {
        assert CallsOk(s, u, r);
      }
      CountUpdate(s.pcs, Entered, t, Outside);
      CountExtremes(s'.pcs, Entered);
      assert !Entered(s'.pcs[t]) && s'.step == Count(s'.pcs, Entered) != |s'.pcs|;
    }
  }

  lemma StepKeeps(s: State, t: nat, r: nat) returns (r': nat)
    requires Inv(s, r) && t < |s.pcs|
    ensures Inv(Next(s, t), r')
  {
    r' := r;
    match s.pcs[t]
    case Outside => EnterKeeps(s, t, r);
    case SetLeave => SetLeaveKeeps(s, t, r);
    case Leaving => LeaveKeeps(s, t, r);
    case SetEnter =>
      SetEnterKeeps(s, t, r);
      r' := r + 1;
    case AwaitLeave => AwaitLeaveKeeps(s, t, r);
    case AwaitEnter => AwaitEnterKeeps(s, t, r);
  }

  lemma {:induction false} RunInv(states: seq<State>, threads: seq<nat>, i: nat) returns (r: nat)
    requires IsRun(states, threads) && i < |states|
    ensures Inv(states[i], r)
  {
    if i == 0 {
      Starts(states[0]);
      r := 0;
    } else {
      r := RunInv(states, threads, i - 1);
      r := StepKeeps(states[i - 1], threads[i - 1], r);
    }
  }

  // ---- What it means ----

  /** No thread leaves its k-th sync before every thread has entered its k-th, and no two threads are ever
      more than one call apart. */
  lemma NobodyLeavesEarly(states: seq<State>, threads: seq<nat>, i: nat, t: nat, u: nat)
    requires IsRun(states, threads) && i < |states| && Sized(states[i]) && t < |states[i].pcs| && u < |states[i].pcs|
    ensures states[i].left[t] <= states[i].entered[u]
    ensures states[i].entered[t] <= states[i].entered[u] + 1
    ensures states[i].left[t] <= states[i].left[u] + 1
  {
    var r := RunInv(states, threads, i);
    assert CallsOk(states[i], t, r) && CallsOk(states[i], u, r);
  }

  /** A step that is not a fruitless spin. */
  predicate Moves(s: State, t: nat)
    requires Sized(s) && t < |s.pcs|
  {
    Next(s, t) != s
  }

  lemma SomeMoves(s: State, r: nat) returns (t: nat)
    requires Inv(s, r)
    ensures t < |s.pcs| && Moves(s, t)
    ensures (forall u :: 0 <= u < |s.pcs| ==> !s.pcs[u].Outside?) ==> !s.pcs[t].Outside?
  {
    CountExtremes(s.pcs, Entered);
    CountExtremes(s.pcs, NotYetLeft);
    if s.mode == Enter {
      if exists u: nat :: u < |s.pcs| && (s.pcs[u].SetLeave? || s.pcs[u].AwaitEnter?) {
        t :| t < |s.pcs| && (s.pcs[t].SetLeave? || s.pcs[t].AwaitEnter?);
        assert CallsOk(s, t, r);
      } else {
        assert !(s.step == |s.pcs|);
        var u: nat :| u < |s.pcs| && !Entered(s.pcs[u]);
        t := u;
        assert EnterPc(s.pcs[t]) && s.pcs[t].Outside?;
      }
    } else if s.step == 0 {
      var u: nat :| u < |s.pcs| && s.pcs[u].SetEnter?;
      t := u;
    } else {
      var u: nat :| u < |s.pcs| && NotYetLeft(s.pcs[u]);
      t := u;
    }
  }

  /** No reachable state has every thread spinning in vain. When all threads are inside, one that is inside
      moves; with some threads outside, only they may be the ones to move. */
  lemma NeverStuck(states: seq<State>, threads: seq<nat>, i: nat) returns (t: nat)
    requires IsRun(states, threads) && i < |states|
    ensures Sized(states[i]) && t < |states[i].pcs| && Moves(states[i], t)
    ensures (forall u :: 0 <= u < |states[i].pcs| ==> !states[i].pcs[u].Outside?) ==> !states[i].pcs[t].Outside?
  {
    var r := RunInv(states, threads, i);
    t := SomeMoves(states[i], r);
  }

  /** Once a round is over every thread that waits is released by its own next access: the barrier can be
      entered again at once without disturbing it. */
  lemma LateLeaversAreSafe(states: seq<State>, threads: seq<nat>, i: nat, t: nat)
    requires IsRun(states, threads) && i < |states| && Sized(states[i]) && t < |states[i].pcs|
    requires states[i].pcs[t].AwaitEnter? && states[i].mode == Enter
    ensures states[i].step < |states[i].pcs| && Next(states[i], t).pcs[t].Outside?
    ensures forall u :: 0 <= u < |states[i].pcs| ==> !states[i].pcs[u].SetLeave?
  {
    var r := RunInv(states, threads, i);
    CountExtremes(states[i].pcs, Entered);
  }
}
