/** One transaction alone: from any state in which no lock is held, whatever happened before, a transaction
    that begins and meets no interference is never forced to abort and can always go on. */
module SoloRuns {
  import opened LockWord
  import opened Options
  import opened Tl2
  import opened Tl2Invariant

  /** From state `i` on only `t` takes steps, and the weak exchange never fails spuriously. */
  ghost predicate Alone(labels: seq<Label>, i: nat, t: Tid) {
    forall j :: i <= j < |labels| ==> labels[j].t == t && labels[j].e != Go(true)
  }

  /** Before the clock increment: exactly the stripes taken so far are locked, nothing is newer than the
      snapshot, and what was loaded is still there. */
  ghost predicate Before(s: State, tx: Tx) {
    && tx.rv == s.gvc
    && (forall l: Stripe :: s.locks[l].locked <==> l in tx.held)
    && (forall l: Stripe :: s.locks[l].version <= tx.rv)
    && match tx.pc
       case Body => tx.held == {}
       case PreVersion(_) => tx.held == {}
       case PreLock(a, v) => tx.held == {} && v == s.locks[StripeOf(a)].version
       case Copy(a, v) => tx.held == {} && v == s.locks[StripeOf(a)].version
       case PostVersion(a, v, _) => tx.held == {} && v == s.locks[StripeOf(a)].version
       case PostLock(a, v, nv, _) => tx.held == {} && v == nv == s.locks[StripeOf(a)].version
       case LockLoad(todo) => todo <= tx.writeSet.Keys
       case LockCas(todo, a, v) => todo <= tx.writeSet.Keys && v == s.locks[StripeOf(a)].version
       case _ => false
  }

  /** From the increment on: the read set need not be validated, and the commit goes through. */
  predicate Committing(tx: Tx) {
    match tx.pc
    case Validate(todo) => todo == {}
    case WriteBack(todo) => todo <= tx.writeSet.Keys
    case Release(todo, _) => todo <= tx.writeSet.Keys
    case Deleting(ok) => ok
    case Committed => true
    case _ => false
  }

  ghost predicate OnCourse(s: State, t: Tid) {
    t in s.txs && (Before(s, s.txs[t]) || Committing(s.txs[t]))
  }

  lemma BeginsOnCourse(s: State, t: Tid, ro: bool)
    requires Still(s)
    ensures OnCourse(Start(s, t, ro), t)
  {
    assert Before(Start(s, t, ro), Start(s, t, ro).txs[t]);
  }

  lemma CallsKeep(s: State, t: Tid, e: Event, s': State)
    requires t in s.txs && Before(s, s.txs[t]) && Step(s, t, e) == Some(s') && s.txs[t].pc.Body?
    ensures OnCourse(s', t)
  {
    assert Before(s', s'.txs[t]) || Committing(s'.txs[t]);
  }

  lemma ReadingKeeps(s: State, t: Tid, e: Event, s': State)
    requires t in s.txs && Before(s, s.txs[t]) && Step(s, t, e) == Some(s')
    requires !s.txs[t].pc.Body? && !s.txs[t].pc.LockLoad? && !s.txs[t].pc.LockCas?
    ensures OnCourse(s', t)
  {
    assert Private(s, s.txs[t], e).Some? && s' == Put(s, t, Private(s, s.txs[t], e).value);
    hide Step;
    assert Before(s', s'.txs[t]);
  }

  lemma LockingKeeps(s: State, t: Tid, e: Event, s': State)
    requires t in s.txs && Before(s, s.txs[t]) && Step(s, t, e) == Some(s') && e != Go(true)
    requires s.txs[t].pc.LockLoad? || s.txs[t].pc.LockCas?
    ensures OnCourse(s', t)
  {
    if s.txs[t].pc.LockLoad? {
      LoadKeeps(s, t, e, s');
    } else {
      assert Before(s', s'.txs[t]);
    }
  }

  lemma LoadKeeps(s: State, t: Tid, e: Event, s': State)
    requires t in s.txs && Before(s, s.txs[t]) && Step(s, t, e) == Some(s') && s.txs[t].pc.LockLoad?
    ensures OnCourse(s', t)
  {
    if e.Pick? {
      assert Before(s', s'.txs[t]);
    } else {
      assert Committing(s'.txs[t]);
    }
  }

  lemma CommittingKeeps(s: State, t: Tid, e: Event, s': State)
    requires t in s.txs && Committing(s.txs[t]) && Step(s, t, e) == Some(s')
    ensures OnCourse(s', t)
  {
    match s.txs[t].pc
    case Validate(_) => assert Committing(s'.txs[t]);
    case WriteBack(_) => assert Committing(s'.txs[t]);
    case Release(_, _) => assert Committing(s'.txs[t]);
    case Deleting(_) => assert Committing(s'.txs[t]);
    case _ =>
  }

  lemma {:induction false} StaysOnCourse(states: seq<State>, labels: seq<Label>, i: nat, j: nat, t: Tid)
    requires IsRun(states, labels) && i < j < |states| && Still(states[i]) && t !in states[i].txs && Alone(labels, i, t)
    ensures OnCourse(states[j], t)
  {
    var l, s, s' := labels[j - 1], states[j - 1], states[j];
    assert Step(s, l.t, l.e) == Some(s') && l.t == t && l.e != Go(true);
    if j - 1 == i {
      BeginsOnCourse(s, t, l.e.ro);
    } else {
      StaysOnCourse(states, labels, i, j - 1, t);
      if Committing(s.txs[t]) {
        CommittingKeeps(s, t, l.e, s');
      } else if s.txs[t].pc.LockLoad? || s.txs[t].pc.LockCas? {
        LockingKeeps(s, t, l.e, s');
      } else if s.txs[t].pc.Body? {
        CallsKeep(s, t, l.e, s');
      } else {
        ReadingKeeps(s, t, l.e, s');
      }
    }
  }

  /** The state `i` may be any reachable one without locked stripes: a transaction that then runs alone is
      never on its way to an abort, and until it has committed it has a next step. */
  lemma SoloCommits(states: seq<State>, labels: seq<Label>, i: nat, j: nat, t: Tid) returns (e: Event)
    requires IsTameRun(states, labels) && i < j < |states|
    requires (forall l: Stripe :: !states[i].locks[l].locked) && t !in states[i].txs && Alone(labels, i, t)
    ensures t in states[j].txs
    ensures var pc := states[j].txs[t].pc;
            !pc.Aborted? && !pc.UnlockLoad? && !pc.UnlockStore? && pc != Deleting(false)
    ensures !states[j].txs[t].pc.Committed? ==> Step(states[j], t, e).Some? && e != Go(true)
  {
    RunInv(states, labels, i);
    RunInv(states, labels, j);
    StaysOnCourse(states, labels, i, j, t);
    e := NextStep(states[j], t);
  }

  lemma NextStep(s: State, t: Tid) returns (e: Event)
    requires OnCourse(s, t)
    ensures !s.txs[t].pc.Committed? ==> Step(s, t, e).Some? && e != Go(true)
  {
    var tx := s.txs[t];
    match tx.pc
    case Body => e := CallEnd;
    case LockLoad(todo) =>
      if a :| a in todo {
        e := Pick(a);
      } else {
        assert todo == {};
        e := Go(false);
      }
    case WriteBack(todo) =>
      if a :| a in todo {
        e := Pick(a);
      } else {
        assert todo == {};
        e := Go(false);
      }
    case _ => e := Go(false);
  }

  // ---- How long it takes ----

  /** The number of steps to the commit from each point of tm_end. */
  function Remaining(tx: Tx): nat {
    var n := |tx.writeSet.Keys|;
    match tx.pc
    case LockLoad(todo) => 2 * |todo| + 2 * n + 3
    case LockCas(todo, _, _) => 2 * |todo| + 2 * n + 4
    case Validate(_) => 2 * n + 2
    case WriteBack(todo) => 2 * |todo| + 1
    case Release(todo, _) => 2 * |todo| + 2
    case Deleting(_) => 1
    case _ => 0
  }

  /** In tm_end, on the way to the commit. */
  predicate Ending(pc: Pc) {
    pc.LockLoad? || pc.LockCas? || pc.Validate? || pc.WriteBack? || pc.Release? || pc.Deleting? || pc.Committed?
  }

  ghost predicate Counts(tx: Tx, tx': Tx) {
    !tx.pc.Committed? && Ending(tx'.pc) && Remaining(tx') == Remaining(tx) - 1
  }

  lemma LoadCounts(s: State, t: Tid, e: Event, s': State)
    requires t in s.txs && Before(s, s.txs[t]) && Step(s, t, e) == Some(s') && s.txs[t].pc.LockLoad?
    ensures t in s'.txs && Counts(s.txs[t], s'.txs[t])
  {
    hide Before, StripeOf;
    var pc := s.txs[t].pc;
    if e.Pick? {
      assert |pc.todo - {e.pick}| == |pc.todo| - 1;
    }
  }

  lemma LockingCounts(s: State, t: Tid, e: Event, s': State)
    requires t in s.txs && Before(s, s.txs[t]) && Step(s, t, e) == Some(s') && e != Go(true)
    requires s.txs[t].pc.LockLoad? || s.txs[t].pc.LockCas?
    ensures t in s'.txs && Counts(s.txs[t], s'.txs[t])
  {
    if s.txs[t].pc.LockLoad? {
      hide Before, Step, Counts;
      LoadCounts(s, t, e, s');
    } else {
      assert s.locks[StripeOf(s.txs[t].pc.addr)].locked <==> StripeOf(s.txs[t].pc.addr) in s.txs[t].held;
    }
  }

  lemma WriteBackCounts(s: State, t: Tid, e: Event, s': State)
    requires t in s.txs && s.txs[t].pc.WriteBack? && Step(s, t, e) == Some(s')
    ensures t in s'.txs && Counts(s.txs[t], s'.txs[t])
  {
    var todo := s.txs[t].pc.todo;
    if e.Pick? {
      assert |todo - {e.pick}| == |todo| - 1;
    }
  }

  /** Deciding, releasing and deleting take one step each. */
  lemma SingleCounts(s: State, t: Tid)
    requires t in s.txs && Committing(s.txs[t])
    ensures var tx := s.txs[t];
            && (tx.pc.Validate? ==> Counts(tx, Decide(s, t, tx).txs[t]))
            && (tx.pc.Release? ==> Counts(tx, SetVersion(s, t, tx, tx.pc.todo, StripeOf(tx.pc.addr)).txs[t]))
            && (tx.pc.Deleting? ==> Counts(tx, Delete(s, t, tx, tx.pc.ok).txs[t]))
  {
    hide StripeOf, Released;
  }

  lemma OneStepCounts(s: State, t: Tid, s': State)
    requires t in s.txs && Committing(s.txs[t]) && IsSharedStep(s, t, s') && !s.txs[t].pc.WriteBack?
    ensures t in s'.txs && Counts(s.txs[t], s'.txs[t])
  {
    hide Counts, Remaining, StripeOf, Released, Unlocked;
    SingleCounts(s, t);
    SharedStepFrame(s, t, s');
  }

  lemma NoPrivateStep(s: State, tx: Tx, e: Event)
    requires Committing(tx)
    ensures Private(s, tx, e) == None
  {
  }

  lemma CommittingCounts(s: State, t: Tid, e: Event, s': State)
    requires t in s.txs && Committing(s.txs[t]) && Step(s, t, e) == Some(s')
    ensures t in s'.txs && Counts(s.txs[t], s'.txs[t])
  {
    if s.txs[t].pc.WriteBack? {
      hide Step, Counts, Remaining;
      WriteBackCounts(s, t, e, s');
    } else {
      StepShape(s, t, e, s');
      hide Step, Counts, Remaining, Committing, Private, IsSharedStep;
      NoPrivateStep(s, s.txs[t], e);
      OneStepCounts(s, t, s');
    }
  }

  lemma StepCounts(s: State, t: Tid, e: Event, s': State)
    requires OnCourse(s, t) && Step(s, t, e) == Some(s') && e != Go(true) && Ending(s.txs[t].pc)
    ensures t in s'.txs && Counts(s.txs[t], s'.txs[t])
  {
    if Committing(s.txs[t]) {
      hide Step, Counts, Remaining;
      CommittingCounts(s, t, e, s');
    } else {
      assert s.txs[t].pc.LockLoad? || s.txs[t].pc.LockCas?;
      hide Step, Counts, Remaining, Before;
      LockingCounts(s, t, e, s');
    }
  }

  /** What tm_end of a transaction that writes `n` words takes: two steps to lock, and two to write back, each word,
      and three more. A read-only transaction takes one. */
  function EndSteps(tx: Tx): nat {
    if tx.ro then 1 else 4 * |tx.writeSet.Keys| + 3
  }

  lemma EndStarts(s: State, t: Tid, s': State)
    requires t in s.txs && s.txs[t].pc.Body? && Step(s, t, CallEnd) == Some(s')
    ensures t in s'.txs && Ending(s'.txs[t].pc) && Remaining(s'.txs[t]) == EndSteps(s.txs[t])
  {
  }

  lemma NothingRemains(tx: Tx)
    requires Ending(tx.pc)
    ensures Remaining(tx) == 0 <==> tx.pc.Committed?
  {
  }

  /** A transaction running alone commits after exactly that many steps of tm_end: in state `j` the client calls it,
      `k` steps later the remaining ones are the difference, and it has committed when there are none. */
  lemma {:induction false} CommitsInTime(states: seq<State>, labels: seq<Label>, i: nat, j: nat, k: nat, t: Tid)
    requires IsTameRun(states, labels) && i < j < |labels| && j + 1 + k < |states|
    requires (forall l: Stripe :: !states[i].locks[l].locked) && t !in states[i].txs && Alone(labels, i, t)
    requires t in states[j].txs && states[j].txs[t].pc.Body? && labels[j].e == CallEnd
    ensures k <= EndSteps(states[j].txs[t])
    ensures t in states[j + 1 + k].txs && Ending(states[j + 1 + k].txs[t].pc)
    ensures Remaining(states[j + 1 + k].txs[t]) == EndSteps(states[j].txs[t]) - k
    ensures states[j + 1 + k].txs[t].pc.Committed? <==> k == EndSteps(states[j].txs[t])
  {
    hide Step, OnCourse, Remaining, Tame, Inv;
    var l := labels[j + k];
    assert Step(states[j + k], l.t, l.e) == Some(states[j + k + 1]) && l.t == t && l.e != Go(true);
    if k == 0 {
      EndStarts(states[j], t, states[j + 1]);
    } else {
      CommitsInTime(states, labels, i, j, k - 1, t);
      StillWhenUnlocked(states, labels, i);
      StaysOnCourse(states, labels, i, j + k, t);
      StepCounts(states[j + k], t, l.e, states[j + k + 1]);
    }
    NothingRemains(states[j + 1 + k].txs[t]);
  }

  lemma StillWhenUnlocked(states: seq<State>, labels: seq<Label>, i: nat)
    requires IsTameRun(states, labels) && i < |states| && forall l: Stripe :: !states[i].locks[l].locked
    ensures Still(states[i])
  {
    RunInv(states, labels, i);
  }
}
