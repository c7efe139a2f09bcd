/** Progressiveness: a transaction is forced to abort only by another one that held a stripe of a word that the
    transaction had read, written or was reading, at some time since the transaction began. */
module Progress {
  import opened LockWord
  import opened Options
  import opened Tl2
  import opened Tl2Invariant
  import opened Serializability

  // ---- Conflicts ----

  /** The words a transaction is concerned with. */
  predicate Touches(tx: Tx, a: Addr) {
    || a in tx.readSet || a in tx.writeSet
    || ((tx.pc.PreVersion? || tx.pc.PreLock? || tx.pc.Copy? || tx.pc.PostVersion? || tx.pc.PostLock?)
        && a == tx.pc.addr)
  }

  /** While `t` is there, another transaction holds the stripe. */
  predicate Rival(s: State, t: Tid, u: Tid, l: Stripe) {
    t in s.txs && u in s.txs && u != t && Own(s, u, l)
  }

  /** Nobody else held the stripe since `t` began. */
  ghost predicate Clear(states: seq<State>, i: nat, t: Tid, l: Stripe)
    requires i < |states|
  {
    forall j, u :: 0 <= j <= i ==> !Rival(states[j], t, u, l)
  }

  /** On the way out without a commit. */
  predicate Aborting(pc: Pc) {
    pc.UnlockLoad? || pc.UnlockStore? || pc == Deleting(false) || pc.Aborted?
  }

  // ---- What stays as it is while nobody else interferes ----

  /** The stripe's version is no newer than the begin of `t`, and nobody else holds it. */
  predicate Unmoved(s: State, t: Tid, tx: Tx, l: Stripe) {
    && s.locks[l].version <= tx.rv
    && (s.locks[l].locked ==> Own(s, t, l))
  }

  /** The versions a transaction has loaded from the stripe are still there. */
  predicate Loaded(s: State, tx: Tx, l: Stripe) {
    match tx.pc
    case PreLock(a, v) => StripeOf(a) == l ==> v == s.locks[l].version
    case Copy(a, v) => StripeOf(a) == l ==> v == s.locks[l].version
    case PostVersion(a, v, _) => StripeOf(a) == l ==> v == s.locks[l].version
    case PostLock(a, v, nv, _) => StripeOf(a) == l ==> v == nv == s.locks[l].version
    case LockCas(_, a, v) => StripeOf(a) == l ==> v == s.locks[l].version
    case _ => true
  }

  predicate Undisturbed(s: State, t: Tid, l: Stripe)
    requires t in s.txs
  {
    !Decided(s.txs[t].pc) ==> Unmoved(s, t, s.txs[t], l) && Loaded(s, s.txs[t], l)
  }

  lemma OwnerIsRival(s: State, t: Tid, l: Stripe)
    requires Inv(s) && t in s.txs && forall u :: !Rival(s, t, u, l)
    ensures s.locks[l].locked ==> Own(s, t, l)
  {
    if s.locks[l].locked {
      assert l in s.owner;
      assert !Rival(s, t, s.owner[l], l);
    }
  }

  /** While nobody decided moves, a stripe without rivals keeps its version. */
  lemma VersionStays(s: State, r: Tid, e: Event, s': State, t: Tid, l: Stripe)
    requires Inv(s) && Tame(s) && Step(s, r, e) == Some(s') && t in s.txs
    requires (forall u :: !Rival(s, t, u, l)) && !InWriteBack(s.txs[t].pc)
    ensures s'.locks[l].version == s.locks[l].version
  {
    StepRely(s, r, e, s');
    if r == t {
      UndecidedIsInvisible(s, t, e, s', l);
    } else {
      assert !Rival(s, t, r, l);
    }
  }

  lemma DecidedStays(s: State, t: Tid, e: Event, s': State)
    requires t in s.txs && Step(s, t, e) == Some(s') && Decided(s.txs[t].pc)
    ensures Decided(s'.txs[t].pc)
  {
  }

  /** Where a step that writes shared memory can lead. */
  predicate Onward(tx: Tx, pc: Pc) {
    match pc
    case Body => tx.pc.Body?
    case LockLoad(_) => tx.pc.LockCas?
    case Validate(todo) => tx.pc.LockLoad? && todo <= tx.readSet
    case WriteBack(_) => tx.pc.Validate? || tx.pc.Release?
    case Release(_, _) => tx.pc.WriteBack?
    case UnlockLoad(_) => tx.pc.UnlockStore?
    case Committed => tx.pc.WriteBack? || tx.pc == Deleting(true)
    case Aborted => tx.pc == Deleting(false)
    case _ => false
  }

  lemma DecidingPc(s: State, t: Tid, s': State)
    requires t in s.txs && t in s'.txs && IsSharedStep(s, t, s')
    requires s.txs[t].pc.LockLoad? || s.txs[t].pc.LockCas? || s.txs[t].pc.Validate?
    ensures Onward(s.txs[t], s'.txs[t].pc)
  {
    hide StripeOf;
  }

  lemma ReleasingPc(s: State, t: Tid, s': State)
    requires t in s.txs && t in s'.txs && IsSharedStep(s, t, s') && (s.txs[t].pc.Release? || s.txs[t].pc.UnlockStore?)
    ensures Onward(s.txs[t], s'.txs[t].pc)
  {
    hide StripeOf;
  }

  lemma WritingPc(s: State, t: Tid, s': State)
    requires t in s.txs && t in s'.txs && IsSharedStep(s, t, s') && s.txs[t].pc.WriteBack?
    ensures Onward(s.txs[t], s'.txs[t].pc)
  {
    hide StripeOf;
  }

  lemma DeletingPc(s: State, t: Tid, s': State)
    requires t in s.txs && t in s'.txs && IsSharedStep(s, t, s') && s.txs[t].pc.Deleting?
    ensures Onward(s.txs[t], s'.txs[t].pc)
  {
    hide StripeOf;
  }

  lemma SharedPc(s: State, t: Tid, s': State)
    requires t in s.txs && t in s'.txs && IsSharedStep(s, t, s')
    ensures Onward(s.txs[t], s'.txs[t].pc)
  {
    var pc := s.txs[t].pc;
    if pc.Body? {
      SharedStepFrame(s, t, s');
      hide IsSharedStep;
    } else if pc.LockLoad? || pc.LockCas? || pc.Validate? {
      DecidingPc(s, t, s');
      hide IsSharedStep, Onward;
    } else if pc.Release? || pc.UnlockStore? {
      ReleasingPc(s, t, s');
      hide IsSharedStep, Onward;
    } else if pc.WriteBack? {
      WritingPc(s, t, s');
      hide IsSharedStep, Onward;
    } else if pc.Deleting? {
      DeletingPc(s, t, s');
      hide IsSharedStep, Onward;
    }
  }

  lemma PrivateLoads(s: State, t: Tid, tx: Tx, e: Event, tx': Tx, l: Stripe)
    requires Loaded(s, tx, l) && Private(s, tx, e) == Some(tx')
    ensures Loaded(s, tx', l) && tx'.rv == tx.rv
  {
  }

  lemma MoverLoads(s: State, t: Tid, e: Event, s': State, l: Stripe)
    requires t in s.txs && Step(s, t, e) == Some(s') && Loaded(s, s.txs[t], l)
    requires t in s'.txs && s'.locks[l].version == s.locks[l].version
    ensures Loaded(s', s'.txs[t], l) && s'.txs[t].rv == s.txs[t].rv
  {
    StepShape(s, t, e, s');
    hide Step, Private, StripeOf, IsSharedStep, Loaded;
    if IsSharedStep(s, t, s') {
      SharedLoadsNothing(s, t, s', l);
    } else {
      PrivateLoads(s, t, s.txs[t], e, s'.txs[t], l);
      LoadedSame(s, s', s'.txs[t], l);
    }
  }

  lemma LoadedSame(s: State, s': State, tx: Tx, l: Stripe)
    requires Loaded(s, tx, l) && s'.locks[l].version == s.locks[l].version
    ensures Loaded(s', tx, l)
  {
  }

  lemma SharedLoadsNothing(s: State, t: Tid, s': State, l: Stripe)
    requires t in s.txs && t in s'.txs && IsSharedStep(s, t, s')
    ensures Loaded(s', s'.txs[t], l) && s'.txs[t].rv == s.txs[t].rv
  {
    SharedStepFrame(s, t, s');
    SharedPc(s, t, s');
    hide IsSharedStep;
  }

  lemma OthersStay(s: State, r: Tid, e: Event, s': State, t: Tid)
    requires Inv(s) && Tame(s) && Step(s, r, e) == Some(s') && t in s.txs
    ensures t in s'.txs && (r != t ==> s'.txs[t] == s.txs[t])
  {
    hide Inv, Tame, Step;
    StepRely(s, r, e, s');
  }

  lemma StepUndisturbed(s: State, r: Tid, e: Event, s': State, t: Tid, l: Stripe)
    requires Inv(s) && Inv(s') && Tame(s) && Step(s, r, e) == Some(s') && t in s.txs && Undisturbed(s, t, l)
    requires (forall u :: !Rival(s, t, u, l)) && (forall u :: !Rival(s', t, u, l))
    ensures t in s'.txs && Undisturbed(s', t, l)
  {
    hide Inv, Tame, Step, Rival;
    OthersStay(s, r, e, s', t);
    OwnerIsRival(s', t, l);
    if !Decided(s'.txs[t].pc) {
      if r == t && Decided(s.txs[t].pc) {
        DecidedStays(s, t, e, s');
      } else {
        VersionStays(s, r, e, s', t, l);
        if r == t {
          MoverLoads(s, t, e, s', l);
        }
      }
    }
  }

  lemma {:induction false} ClearIsUndisturbed(states: seq<State>, labels: seq<Label>, i: nat, t: Tid, l: Stripe)
    requires IsTameRun(states, labels) && i < |states| && t in states[i].txs && Clear(states, i, t, l)
    ensures Undisturbed(states[i], t, l)
  {
    RunInv(states, labels, i);
    assert i > 0;
    RunInv(states, labels, i - 1);
    var s, s', lab := states[i - 1], states[i], labels[i - 1];
    assert Step(s, lab.t, lab.e) == Some(s');
    assert (forall u :: !Rival(s, t, u, l)) && (forall u :: !Rival(s', t, u, l));
    hide Inv;
    if t in s.txs {
      ClearIsUndisturbed(states, labels, i - 1, t, l);
      StepUndisturbed(s, lab.t, lab.e, s', t, l);
    } else {
      BeginsUndisturbed(s, lab.t, lab.e, s', t, l);
    }
  }

  lemma BeginsUndisturbed(s: State, r: Tid, e: Event, s': State, t: Tid, l: Stripe)
    requires Inv(s') && Step(s, r, e) == Some(s') && Tame(s) && Inv(s) && t !in s.txs && t in s'.txs
    requires forall u :: !Rival(s', t, u, l)
    ensures Undisturbed(s', t, l)
  {
    StepRely(s, r, e, s');
    OwnerIsRival(s', t, l);
    assert r == t;
    assert s' == Start(s, t, e.ro);
  }

  // ---- The theorem ----

  /** What is left to validate was read. */
  predicate ReadsListed(tx: Tx) {
    && (tx.pc.Validate? ==> tx.pc.todo <= tx.readSet)
    && (tx.pc.ValidateVersion? ==> tx.pc.todo <= tx.readSet && tx.pc.addr in tx.readSet)
  }

  lemma PrivateListed(s: State, tx: Tx, e: Event, tx': Tx)
    requires ReadsListed(tx) && Private(s, tx, e) == Some(tx')
    ensures ReadsListed(tx')
  {
  }

  lemma SharedListed(s: State, t: Tid, s': State)
    requires t in s.txs && t in s'.txs && IsSharedStep(s, t, s')
    ensures ReadsListed(s'.txs[t])
  {
    SharedStepFrame(s, t, s');
    SharedPc(s, t, s');
    hide IsSharedStep;
  }

  lemma StepListed(s: State, r: Tid, e: Event, s': State, t: Tid)
    requires Step(s, r, e) == Some(s') && t in s'.txs && (t in s.txs ==> ReadsListed(s.txs[t]))
    ensures ReadsListed(s'.txs[t])
  {
    if r in s.txs {
      StepShape(s, r, e, s');
      hide Step, Private, ReadsListed, IsSharedStep;
      if IsSharedStep(s, r, s') {
        SharedStepFrame(s, r, s');
        if r == t {
          SharedListed(s, t, s');
        }
      } else if r == t {
        PrivateListed(s, s.txs[t], e, s'.txs[t]);
      }
    }
  }

  lemma {:induction false} RunListed(states: seq<State>, labels: seq<Label>, i: nat, t: Tid)
    requires IsRun(states, labels) && i < |states| && t in states[i].txs
    ensures ReadsListed(states[i].txs[t])
  {
    hide Step;
    assert i > 0;
    var s, l := states[i - 1], labels[i - 1];
    assert Step(s, l.t, l.e) == Some(states[i]);
    if t in s.txs {
      RunListed(states, labels, i - 1, t);
    }
    StepListed(s, l.t, l.e, states[i], t);
  }

  /** The word on whose account a step gives up. */
  function Culprit(tx: Tx, e: Event): Addr {
    match tx.pc
    case PreLock(a, _) => a
    case PostLock(a, _, _, _) => a
    case LockCas(_, a, _) => a
    case Validate(_) => if e.Pick? then e.pick else 0
    case ValidateVersion(_, a) => a
    case _ => 0
  }

  /** Giving up means that the culprit's stripe was disturbed. */
  lemma AbortIsDisturbed(s: State, t: Tid, e: Event, s': State)
    requires t in s.txs && TxOk(s, t, s.txs[t]) && ReadsListed(s.txs[t]) && Step(s, t, e) == Some(s') && e != Go(true)
    requires !Aborting(s.txs[t].pc) && t in s'.txs && Aborting(s'.txs[t].pc)
    ensures Touches(s.txs[t], Culprit(s.txs[t], e))
    ensures !Undisturbed(s, t, StripeOf(Culprit(s.txs[t], e)))
  {
    hide TxOk, ReadsListed, Undisturbed, Touches;
    StepShape(s, t, e, s');
    if IsSharedStep(s, t, s') {
      hide Step;
      SharedPc(s, t, s');
    } else {
      GivesUp(s, t, s.txs[t], e, s'.txs[t]);
    }
  }

  lemma GivesUp(s: State, t: Tid, tx: Tx, e: Event, tx': Tx)
    requires t in s.txs && s.txs[t] == tx && TxOk(s, t, tx) && ReadsListed(tx) && Private(s, tx, e) == Some(tx')
    requires !Aborting(tx.pc) && Aborting(tx'.pc)
    requires tx.pc.LockCas? ==> s.locks[StripeOf(tx.pc.addr)] != Word(tx.pc.v, false)
    ensures Touches(tx, Culprit(tx, e)) && !Undisturbed(s, t, StripeOf(Culprit(tx, e)))
  {
    var l := StripeOf(Culprit(tx, e));
    assert Own(s, t, l) <==> Holds(tx, l);
  }

  /** No transaction gives up without a rival: in every tame run, if a step other than a spurious failure of the
      exchange makes `t` give up, then since `t` began some other transaction has held the stripe of a word that `t`
      had read, written or was about to read. */
  lemma Progressive(states: seq<State>, labels: seq<Label>, i: nat, t: Tid) returns (a: Addr, j: nat, u: Tid)
    requires IsTameRun(states, labels) && i < |labels| && labels[i].t == t && labels[i].e != Go(true)
    requires t in states[i].txs && !Aborting(states[i].txs[t].pc)
    requires t in states[i + 1].txs && Aborting(states[i + 1].txs[t].pc)
    ensures Touches(states[i].txs[t], a) && j <= i && Rival(states[j], t, u, StripeOf(a))
  {
    var s := states[i];
    RunInv(states, labels, i);
    assert TxOk(s, t, s.txs[t]);
    RunListed(states, labels, i, t);
    assert Step(s, t, labels[i].e) == Some(states[i + 1]);
    AbortIsDisturbed(s, t, labels[i].e, states[i + 1]);
    a := Culprit(s.txs[t], labels[i].e);
    if Clear(states, i, t, StripeOf(a)) {
      ClearIsUndisturbed(states, labels, i, t, StripeOf(a));
      assert false;
    }
    j, u :| 0 <= j <= i && Rival(states[j], t, u, StripeOf(a));
  }
}
