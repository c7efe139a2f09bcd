/** The workload's correctness check: workers decrement a shared counter between three barriers. Here a transaction
    is one step, and a thread leaves its k-th sync once every thread has entered its k-th, as the barrier
    guarantees. `CheckRuns` carries out each transaction access by access. */
module CounterCheck {

  const NB_TX: nat := 100
  const SIZE_MODULUS: nat := 0x1_0000_0000_0000_0000

  datatype Verdict = Success | Violated

  /** Where a worker is between two steps. */
  datatype Local =
    | Sync1
    | InitWrite                       // worker 0 only
    | InitCheck
    | InitFailed(syncs: nat)          // so many syncs before it returns the error
    | Sync2
    | ReadLast(i: nat)                // loop head
    | Decrement(i: nat, last: nat)
    | Sync3(correct: bool)
    | FinalCheck                      // worker 0 only
    | Returned(verdict: Verdict)

  predicate Syncs(l: Local) {
    l.Sync1? || l.Sync2? || l.Sync3? || (l.InitFailed? && l.syncs > 0)
  }

  /** The rest of check() after the step at `l`; `x` is the value of the counter there. */
  function Continue(l: Local, first: bool, initial: nat, x: nat): Local {
    match l
    case Sync1 => if first then InitWrite else Sync2
    case InitWrite => InitCheck
    case InitCheck => if x == initial then Sync2 else InitFailed(2)
    case InitFailed(n) => if n > 0 then InitFailed(n - 1) else Returned(Violated)
    case Sync2 => ReadLast(0)
    case ReadLast(i) => if i < NB_TX then Decrement(i, x) else Sync3(true)
    case Decrement(i, last) => if x > last then Sync3(false) else ReadLast(i + 1)
    case Sync3(correct) =>
      if !correct then Returned(Violated) else if first then FinalCheck else Returned(Success)
    case FinalCheck => Returned(if x == 0 then Success else Violated)
    case Returned(_) => l
  }

  // ---- Every control path performs three syncs ----

  function Path(values: seq<nat>, first: bool, initial: nat): Local {
    if values == [] then Sync1
    else Continue(Path(values[..|values| - 1], first, initial), first, initial, values[|values| - 1])
  }

  /** The syncs on the path that ended here. */
  function SyncsOn(values: seq<nat>, first: bool, initial: nat): nat {
    if values == [] then 0
    else
      var p := values[..|values| - 1];
      SyncsOn(p, first, initial) + if Syncs(Path(p, first, initial)) then 1 else 0
  }

  function StillToCome(l: Local): nat {
    match l
    case Sync1 => 3
    case InitWrite => 2
    case InitCheck => 2
    case InitFailed(n) => n
    case Sync2 => 2
    case ReadLast(_) => 1
    case Decrement(_, _) => 1
    case Sync3(_) => 1
    case FinalCheck => 0
    case Returned(_) => 0
  }

  /** Whatever the transactions answer, also on the error paths, a worker that returns has synchronised
      exactly three times. */
  lemma {:induction false} ThreeSyncs(values: seq<nat>, first: bool, initial: nat)
    ensures SyncsOn(values, first, initial) + StillToCome(Path(values, first, initial)) == 3
    ensures Path(values, first, initial).Returned? ==> SyncsOn(values, first, initial) == 3
  {
    if values != [] {
      ThreeSyncs(values[..|values| - 1], first, initial);
    }
  }

  // ---- All workers together ----

  /** `inside`: the worker is in a sync, and continues at `l` when it leaves. */
  datatype Pc = Pc(l: Local, inside: bool)

  datatype State = State(counter: nat, pcs: seq<Pc>, entered: seq<nat>, left: seq<nat>)

  predicate Sized(s: State) {
    |s.pcs| > 0 && |s.pcs| == |s.entered| == |s.left|
  }

  function InitialCounter(s: State): nat {
    NB_TX * |s.pcs|
  }

  /** The counter's word holds whatever earlier workloads left there. */
  predicate Initial(s: State) {
    Sized(s) && forall t :: 0 <= t < |s.pcs| ==> s.pcs[t] == Pc(Sync1, false) && s.entered[t] == 0 && s.left[t] == 0
  }

  /** Every thread has entered as many syncs as `t`. */
  predicate MayLeave(s: State, t: nat)
    requires Sized(s) && t < |s.pcs|
  {
    forall u :: 0 <= u < |s.pcs| ==> s.entered[u] >= s.entered[t]
  }

  /** `value - 1` on an unsigned word. */
  function Pred(x: nat): nat {
    (x + SIZE_MODULUS - 1) % SIZE_MODULUS
  }

  function Effect(l: Local, x: nat, initial: nat): nat {
    match l
    case InitWrite => initial
    case Decrement(_, last) => if x > last then x else Pred(x)
    case _ => x
  }

  /** What a transaction may have read: the read-only one in the loop may have come before decrements that are
      already counted, so it may have read more. */
  predicate Answers(s: State, t: nat, x: nat)
    requires Sized(s) && t < |s.pcs|
  {
    if s.pcs[t].l.ReadLast? then x >= s.counter else x == s.counter
  }

  /** Worker `t` moves; if it carries out a transaction, that one reads `x`. */
  function Step(s: State, t: nat, x: nat): State
    requires Sized(s) && t < |s.pcs|
  {
    var l := s.pcs[t].l;
    var next := Continue(l, t == 0, InitialCounter(s), x);
    if s.pcs[t].inside then
      if MayLeave(s, t) then s.(pcs := s.pcs[t := Pc(l, false)], left := s.left[t := s.left[t] + 1]) else s
    else if Syncs(l) then
      s.(pcs := s.pcs[t := Pc(next, true)], entered := s.entered[t := s.entered[t] + 1])
    else
      s.(pcs := s.pcs[t := Pc(next, false)], counter := Effect(l, s.counter, InitialCounter(s)))
  }

  datatype Turn = Turn(thread: nat, answer: nat)

  ghost predicate IsRun(states: seq<State>, turns: seq<Turn>) {
    && |states| == |turns| + 1
    && Initial(states[0])
    && forall i :: 0 <= i < |turns| ==> Moves(states[i], turns[i], states[i + 1])
  }

  predicate Moves(s: State, turn: Turn, s': State) {
    && Sized(s) && turn.thread < |s.pcs| && Answers(s, turn.thread, turn.answer)
    && s' == Step(s, turn.thread, turn.answer)
  }

  // ---- The invariant ----

  /** How often a worker has decremented the counter. */
  function Decrements(pc: Pc): nat {
    match pc.l
    case ReadLast(i) => i
    case Decrement(i, _) => i
    case Sync3(_) => NB_TX
    case FinalCheck => NB_TX
    case Returned(_) => NB_TX
    case _ => 0
  }

  function Total(pcs: seq<Pc>): nat {
    if pcs == [] then 0 else Total(pcs[..|pcs| - 1]) + Decrements(pcs[|pcs| - 1])
  }

  lemma {:induction false} TotalUpdate(pcs: seq<Pc>, t: nat, pc: Pc)
    requires t < |pcs|
    ensures Total(pcs[t := pc]) == Total(pcs) - Decrements(pcs[t]) + Decrements(pc)
  {
    var p := pcs[..|pcs| - 1];
    if t < |p| {
      assert pcs[t := pc][..|pcs| - 1] == p[t := pc];
      TotalUpdate(p, t, pc);
    } else {
      assert pcs[t := pc][..|pcs| - 1] == p;
    }
  }

  lemma {:induction false} TotalBounds(pcs: seq<Pc>)
    requires forall t :: 0 <= t < |pcs| ==> Decrements(pcs[t]) <= NB_TX
    ensures Total(pcs) <= NB_TX * |pcs|
    ensures (forall t :: 0 <= t < |pcs| ==> Decrements(pcs[t]) == NB_TX) ==> Total(pcs) == NB_TX * |pcs|
    ensures (forall t :: 0 <= t < |pcs| ==> Decrements(pcs[t]) == 0) ==> Total(pcs) == 0
    ensures (exists t :: 0 <= t < |pcs| && Decrements(pcs[t]) < NB_TX) ==> Total(pcs) < NB_TX * |pcs|
  {
    if pcs != [] {
      TotalBounds(pcs[..|pcs| - 1]);
    }
  }

  /** Syncs entered so far, by where the worker is. */
  function EnteredAt(pc: Pc): int {
    3 - StillToCome(pc.l)
  }

  predicate PcOk(s: State, t: nat)
    requires Sized(s) && t < |s.pcs|
  {
    var pc := s.pcs[t];
    && StillToCome(pc.l) <= 3
    && s.entered[t] == EnteredAt(pc)
    && s.left[t] + (if pc.inside then 1 else 0) == s.entered[t]
    && (pc.inside ==>
          pc.l.InitWrite? || pc.l.Sync2? || pc.l == ReadLast(0) || pc.l.FinalCheck? || pc.l == Returned(Success))
    && (pc.l.InitWrite? || pc.l.InitCheck? || pc.l.FinalCheck? ==> t == 0)
    && !pc.l.InitFailed? && pc.l != Sync3(false) && pc.l != Returned(Violated)
    && (pc.l.ReadLast? ==> pc.l.i <= NB_TX)
    && (pc.l.Decrement? ==> pc.l.i < NB_TX && s.counter <= pc.l.last)
  }

  /** Worker 0 has written the counter. */
  predicate Initialised(pc: Pc) {
    !pc.l.Sync1? && !pc.l.InitWrite?
  }

  ghost predicate Inv(s: State) {
    && Sized(s)
    && (forall t :: 0 <= t < |s.pcs| ==> PcOk(s, t))
    && (forall t, u :: 0 <= t < |s.pcs| && 0 <= u < |s.pcs| ==> s.left[t] <= s.entered[u])
    && (Initialised(s.pcs[0]) ==> s.counter + Total(s.pcs) == InitialCounter(s))
  }

  lemma LeavesKeep(s: State, t: nat, x: nat)
    requires Inv(s) && t < |s.pcs| && Answers(s, t, x) && s.pcs[t].inside
    ensures Inv(Step(s, t, x))
  {
    var s' := Step(s, t, x);
    TotalUpdate(s.pcs, t, Pc(s.pcs[t].l, false));
    assert PcOk(s, t);
    assert MayLeave(s, t) ==> forall u :: 0 <= u < |s.pcs| ==> s.left[t] + 1 <= s.entered[u];
    forall u | 0 <= u < |s.pcs|
      ensures PcOk(s', u)
    {
      assert PcOk(s, u);
    }
  }

  lemma EntersKeep(s: State, t: nat, x: nat)
    requires Inv(s) && t < |s.pcs| && Answers(s, t, x) && !s.pcs[t].inside && Syncs(s.pcs[t].l)
    ensures Inv(Step(s, t, x))
  {
    var s' := Step(s, t, x);
    assert PcOk(s, t);
    TotalUpdate(s.pcs, t, s'.pcs[t]);
    forall u | 0 <= u < |s.pcs|
      ensures PcOk(s', u)
    {
      assert PcOk(s, u);
    }
  }

  /** Whoever is past the second sync finds the counter initialised. */
  lemma PastSecondSync(s: State, t: nat)
    requires Inv(s) && t < |s.pcs| && s.left[t] >= 2
    ensures Initialised(s.pcs[0])
  {
    assert PcOk(s, 0) && s.left[t] <= s.entered[0];
  }

  lemma InitWriteKeeps(s: State, t: nat, x: nat)
    requires Inv(s) && t < |s.pcs| && Answers(s, t, x) && s.pcs[t] == Pc(InitWrite, false)
    ensures Inv(Step(s, t, x))
  {
    var s' := Step(s, t, x);
    assert PcOk(s, t);
    forall u | 0 <= u < |s.pcs|
      ensures PcOk(s', u) && Decrements(s'.pcs[u]) == 0
    {
      assert PcOk(s, u) && s.left[u] <= s.entered[0];
    }
    TotalBounds(s'.pcs);
  }

  /** While worker 0 checks its initialisation nobody decrements. */
  lemma AtInitCheck(s: State, t: nat)
    requires Inv(s) && t < |s.pcs| && s.pcs[t].l.InitCheck? && !s.pcs[t].inside
    ensures s.counter == InitialCounter(s)
  {
    assert PcOk(s, t);
    forall u | 0 <= u < |s.pcs|
      ensures Decrements(s.pcs[u]) == 0
    {
      assert PcOk(s, u) && s.left[u] <= s.entered[0];
    }
    TotalBounds(s.pcs);
  }

  lemma InitCheckKeeps(s: State, t: nat, x: nat)
    requires Inv(s) && t < |s.pcs| && Answers(s, t, x) && s.pcs[t] == Pc(InitCheck, false)
    ensures Inv(Step(s, t, x))
  {
    var s' := Step(s, t, x);
    assert PcOk(s, t);
    AtInitCheck(s, t);
    TotalUpdate(s.pcs, t, s'.pcs[t]);
    forall u | 0 <= u < |s.pcs|
      ensures PcOk(s', u)
    {
      assert PcOk(s, u);
    }
  }

  /** Whoever is about to decrement finds the counter positive. */
  lemma CounterPositive(s: State, t: nat)
    requires Inv(s) && t < |s.pcs| && s.pcs[t].l.Decrement?
    ensures 0 < s.counter <= InitialCounter(s)
  {
    assert PcOk(s, t);
    PastSecondSync(s, t);
    forall u | 0 <= u < |s.pcs|
      ensures Decrements(s.pcs[u]) <= NB_TX
    {
      assert PcOk(s, u);
    }
    assert Decrements(s.pcs[t]) < NB_TX;
    TotalBounds(s.pcs);
  }

  lemma PredExact(x: nat)
    requires 0 < x < SIZE_MODULUS
    ensures Pred(x) == x - 1
  {
  }

  lemma LoopKeeps(s: State, t: nat, x: nat)
    requires Inv(s) && t < |s.pcs| && Answers(s, t, x) && !s.pcs[t].inside
    requires s.pcs[t].l.ReadLast? || s.pcs[t].l.Decrement?
    requires InitialCounter(s) < SIZE_MODULUS
    ensures Inv(Step(s, t, x))
  {
    hide Pred;
    var s' := Step(s, t, x);
    assert PcOk(s, t);
    PastSecondSync(s, t);
    if s.pcs[t].l.Decrement? {
      CounterPositive(s, t);
      PredExact(s.counter);
    }
    TotalUpdate(s.pcs, t, s'.pcs[t]);
    forall u | 0 <= u < |s.pcs|
      ensures PcOk(s', u)
    {
      assert PcOk(s, u);
    }
  }

  /** Past the third sync everybody has finished, and the counter is 0. */
  lemma AllFinished(s: State, t: nat)
    requires Inv(s) && t < |s.pcs| && s.left[t] >= 3
    ensures s.counter == 0
  {
    PastSecondSync(s, t);
    forall u | 0 <= u < |s.pcs|
      ensures Decrements(s.pcs[u]) == NB_TX
    {
      assert PcOk(s, u) && s.left[t] <= s.entered[u];
    }
    TotalBounds(s.pcs);
  }

  lemma FinalKeeps(s: State, t: nat, x: nat)
    requires Inv(s) && t < |s.pcs| && Answers(s, t, x) && !s.pcs[t].inside
    requires s.pcs[t].l.FinalCheck? || s.pcs[t].l.Returned?
    ensures Inv(Step(s, t, x))
  {
    var s' := Step(s, t, x);
    assert PcOk(s, t);
    AllFinished(s, t);
    TotalUpdate(s.pcs, t, s'.pcs[t]);
    forall u | 0 <= u < |s.pcs|
      ensures PcOk(s', u)
    {
      assert PcOk(s, u);
    }
  }

  lemma StepKeeps(s: State, t: nat, x: nat)
    requires Inv(s) && t < |s.pcs| && Answers(s, t, x) && InitialCounter(s) < SIZE_MODULUS
    ensures Inv(Step(s, t, x))
  {
    assert PcOk(s, t);
    hide Inv;
    if s.pcs[t].inside {
      LeavesKeep(s, t, x);
    } else {
      match s.pcs[t].l
      case InitWrite => InitWriteKeeps(s, t, x);
      case InitCheck => InitCheckKeeps(s, t, x);
      case ReadLast(_) => LoopKeeps(s, t, x);
      case Decrement(_, _) => LoopKeeps(s, t, x);
      case FinalCheck => FinalKeeps(s, t, x);
      case Returned(_) => FinalKeeps(s, t, x);
      case _ => EntersKeep(s, t, x);
    }
  }

  lemma Starts(s: State)
    requires Initial(s)
    ensures Inv(s)
  {
    assert forall t :: 0 <= t < |s.pcs| ==> PcOk(s, t);
  }

  lemma {:induction false} RunInv(states: seq<State>, turns: seq<Turn>, i: nat)
    requires IsRun(states, turns) && i < |states| && InitialCounter(states[0]) < SIZE_MODULUS
    ensures Inv(states[i]) && |states[i].pcs| == |states[0].pcs|
  {
    if i == 0 {
      Starts(states[0]);
    } else {
      RunInv(states, turns, i - 1);
      assert Moves(states[i - 1], turns[i - 1], states[i]);
      StepKeeps(states[i - 1], turns[i - 1].thread, turns[i - 1].answer);
    }
  }

  // ---- What it means ----

  /** For any number of workers, in every interleaving: no worker returns an error, none finds the counter
      above what it last read, and whoever is past the last barrier finds it at 0. */
  lemma CheckSucceeds(states: seq<State>, turns: seq<Turn>, i: nat, t: nat)
    requires IsRun(states, turns) && i < |states| && InitialCounter(states[0]) < SIZE_MODULUS
    requires Sized(states[i]) && t < |states[i].pcs|
    ensures states[i].pcs[t].l.Returned? ==> states[i].pcs[t].l.verdict == Success
    ensures states[i].pcs[t].l.Decrement? ==> 0 < states[i].counter <= states[i].pcs[t].l.last
    ensures states[i].left[t] >= 3 ==> states[i].counter == 0
  {
    var s := states[i];
    RunInv(states, turns, i);
    assert PcOk(s, t);
    if s.left[t] >= 3 {
      AllFinished(s, t);
    }
    if s.pcs[t].l.Decrement? {
      CounterPositive(s, t);
    }
  }

  /** Once initialised the counter never grows. */
  lemma NeverGrows(states: seq<State>, turns: seq<Turn>, i: nat)
    requires IsRun(states, turns) && i + 1 < |states| && InitialCounter(states[0]) < SIZE_MODULUS
    requires Sized(states[i]) && Initialised(states[i].pcs[0])
    ensures states[i + 1].counter <= states[i].counter
  {
    RunInv(states, turns, i);
    var s, t := states[i], turns[i].thread;
    assert Moves(s, turns[i], states[i + 1]);
    assert PcOk(s, t);
    if s.pcs[t].l.Decrement? {
      CheckSucceeds(states, turns, i, t);
    }
  }
}
