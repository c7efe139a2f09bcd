/** Transactions that read one word at most and write it at most once: every step brings them closer to their end,
    unless they have to give up. */
module OneWord {
  import opened Options
  import opened Tl2
  import opened Tl2Invariant
  import opened Progress

  /** The transaction is concerned with `c` alone, and reads first if it reads. */
  predicate Slim(tx: Tx, c: Addr) {
    && tx.readSet <= {c} && tx.writeSet.Keys <= {c} && tx.held <= {StripeOf(c)}
    && match tx.pc
       case PreVersion(a) => a == c && tx.log == []
       case PreLock(a, _) => a == c && tx.log == []
       case Copy(a, _) => a == c && tx.log == []
       case PostVersion(a, _, _) => a == c && tx.log == []
       case PostLock(a, _, _, _) => a == c && tx.log == []
       case LockLoad(todo) => todo <= {c}
       case LockCas(todo, a, _) => a == c && todo <= {c}
       case Validate(todo) => todo <= {c}
       case ValidateVersion(todo, a) => a == c && todo <= {c}
       case WriteBack(todo) => todo <= tx.writeSet.Keys
       case Release(todo, a) => a == c && todo <= tx.writeSet.Keys
       case UnlockLoad(locks) => locks <= tx.held
       case UnlockStore(locks, l, _) => locks <= tx.held && l == StripeOf(c)
       case _ => true
  }

  /** What its client may call. */
  predicate SlimCall(tx: Tx, e: Event, c: Addr) {
    || (e == CallRead(c) && tx.log == [])
    || (e.CallWrite? && e.waddr == c && |tx.log| <= 1)
    || e == CallEnd
  }

  /** The steps that are left, at most; those on the way out of an aborted transaction come on top of another try. */
  function Rank(tx: Tx): nat {
    match tx.pc
    case Body => if |tx.log| == 0 then 30 else if |tx.log| == 1 then 24 else 23
    case PreVersion(_) => 29
    case PreLock(_, _) => 28
    case Copy(_, _) => 27
    case PostVersion(_, _, _) => 26
    case PostLock(_, _, _, _) => 25
    case LockLoad(todo) => 17 + 2 * |todo|
    case LockCas(todo, _, _) => 18 + 2 * |todo|
    case Validate(todo) => 12 + 2 * |todo|
    case ValidateVersion(todo, _) => 13 + 2 * |todo|
    case WriteBack(todo) => 8 + 2 * |todo|
    case Release(todo, _) => 9 + 2 * |todo|
    case UnlockLoad(locks) => 36 + 2 * |locks|
    case UnlockStore(locks, _, _) => 37 + 2 * |locks|
    case Deleting(ok) => if ok then 2 else 35
    case Committed => 1
    case Aborted => 34
  }

  lemma AtMostOne<T>(s: set<T>, x: T)
    requires s <= {x}
    ensures |s| <= 1
  {
    assert s == {} || s == {x};
  }

  lemma OneLess<T>(s: set<T>, x: T)
    requires x in s
    ensures |s - {x}| == |s| - 1
  {
  }

  /** Stays slim, and comes closer to the end or gives up. */
  predicate Advances(tx: Tx, tx': Tx, c: Addr) {
    && Slim(tx', c)
    && if !Aborting(tx.pc) && Aborting(tx'.pc) then Rank(tx') <= 40 else Rank(tx') < Rank(tx)
  }

  lemma CallAdvances(s: State, tx: Tx, e: Event, tx': Tx, c: Addr)
    requires Slim(tx, c) && tx.pc.Body? && SlimCall(tx, e, c) && Private(s, tx, e) == Some(tx')
    ensures Advances(tx, tx', c)
  {
    AtMostOne(tx.writeSet.Keys, c);
  }

  lemma ReadAdvances(s: State, tx: Tx, e: Event, tx': Tx, c: Addr)
    requires Slim(tx, c) && Reads(tx.pc) && !tx.pc.Body? && Private(s, tx, e) == Some(tx')
    ensures Advances(tx, tx', c)
  {
  }

  lemma LoadingAdvances(s: State, tx: Tx, e: Event, tx': Tx, c: Addr)
    requires Slim(tx, c) && tx.pc.LockLoad? && Private(s, tx, e) == Some(tx')
    ensures Advances(tx, tx', c)
  {
    hide StripeOf;
    OneLess(tx.pc.todo, e.pick);
  }

  lemma RefusedAdvances(s: State, tx: Tx, e: Event, tx': Tx, c: Addr)
    requires Slim(tx, c) && tx.pc.LockCas? && Private(s, tx, e) == Some(tx')
    ensures Advances(tx, tx', c)
  {
    hide StripeOf;
    AtMostOne(tx.held, StripeOf(c));
  }

  lemma ValidatingAdvances(s: State, tx: Tx, e: Event, tx': Tx, c: Addr)
    requires Slim(tx, c) && (tx.pc.Validate? || tx.pc.ValidateVersion?) && Private(s, tx, e) == Some(tx')
    ensures Advances(tx, tx', c)
  {
    AtMostOne(tx.held, StripeOf(c));
    if tx.pc.Validate? {
      OneLess(tx.pc.todo, e.pick);
    }
  }

  lemma UnlockingAdvances(s: State, tx: Tx, e: Event, tx': Tx, c: Addr)
    requires Slim(tx, c) && tx.pc.UnlockLoad? && Private(s, tx, e) == Some(tx')
    ensures Advances(tx, tx', c)
  {
    if e.PickLock? {
      OneLess(tx.pc.locks, e.lock);
    }
  }

  lemma EndAdvances(s: State, tx: Tx, e: Event, tx': Tx, c: Addr)
    requires Slim(tx, c) && !Reads(tx.pc) && Private(s, tx, e) == Some(tx')
    ensures Advances(tx, tx', c)
  {
    hide Advances, Slim;
    match tx.pc
    case LockLoad(_) => LoadingAdvances(s, tx, e, tx', c);
    case LockCas(_, _, _) => RefusedAdvances(s, tx, e, tx', c);
    case Validate(_) => ValidatingAdvances(s, tx, e, tx', c);
    case ValidateVersion(_, _) => ValidatingAdvances(s, tx, e, tx', c);
    case UnlockLoad(_) => UnlockingAdvances(s, tx, e, tx', c);
    case _ =>
  }

  lemma SharedLocks(s: State, u: Tid, s': State, c: Addr)
    requires u in s.txs && u in s'.txs && IsSharedStep(s, u, s') && Slim(s.txs[u], c)
    requires s.txs[u].pc.LockLoad? || s.txs[u].pc.LockCas?
    ensures Advances(s.txs[u], s'.txs[u], c)
  {
    hide StripeOf;
    AtMostOne(s.txs[u].readSet, c);
  }

  lemma SharedDecision(s: State, u: Tid, s': State, c: Addr)
    requires u in s.txs && u in s'.txs && IsSharedStep(s, u, s') && Slim(s.txs[u], c) && s.txs[u].pc.Validate?
    ensures Advances(s.txs[u], s'.txs[u], c)
  {
    hide StripeOf;
    AtMostOne(s.txs[u].writeSet.Keys, c);
  }

  lemma SharedReleases(s: State, u: Tid, s': State, c: Addr)
    requires u in s.txs && u in s'.txs && IsSharedStep(s, u, s') && Slim(s.txs[u], c)
    requires s.txs[u].pc.Release? || s.txs[u].pc.UnlockStore? || s.txs[u].pc.Deleting?
    ensures Advances(s.txs[u], s'.txs[u], c)
  {
    hide StripeOf;
  }

  lemma SharedAdvances(s: State, u: Tid, s': State, c: Addr)
    requires u in s.txs && u in s'.txs && IsSharedStep(s, u, s') && !s.txs[u].pc.Body? && Slim(s.txs[u], c)
    ensures Advances(s.txs[u], s'.txs[u], c)
  {
    hide Advances, Slim;
    match s.txs[u].pc
    case WriteBack(_) => WritingAdvances(s, u, s', c);
    case LockLoad(_) => SharedLocks(s, u, s', c);
    case LockCas(_, _, _) => SharedLocks(s, u, s', c);
    case Validate(_) => SharedDecision(s, u, s', c);
    case _ => SharedReleases(s, u, s', c);
  }

  lemma WritingAdvances(s: State, u: Tid, s': State, c: Addr)
    requires u in s.txs && u in s'.txs && IsSharedStep(s, u, s') && s.txs[u].pc.WriteBack? && Slim(s.txs[u], c)
    ensures Advances(s.txs[u], s'.txs[u], c)
  {
    var tx := s.txs[u];
    var todo := tx.pc.todo;
    if a :| a in todo && a in tx.writeSet && s' == CopyBack(s, u, tx, todo, a) {
      OneLess(todo, a);
    }
  }

  lemma StepAdvances(s: State, u: Tid, e: Event, s': State, c: Addr)
    requires u in s.txs && u in s'.txs && Step(s, u, e) == Some(s') && Slim(s.txs[u], c)
    requires s.txs[u].pc.Body? ==> SlimCall(s.txs[u], e, c)
    ensures Advances(s.txs[u], s'.txs[u], c)
  {
    hide Advances, Slim, Private;
    StepShape(s, u, e, s');
    var tx := s.txs[u];
    if tx.pc.Body? {
      assert !e.CallAlloc?;
      hide IsSharedStep;
      CallAdvances(s, tx, e, s'.txs[u], c);
    } else {
      hide Step, IsSharedStep;
      if IsSharedStep(s, u, s') {
        SharedAdvances(s, u, s', c);
      } else if Reads(tx.pc) {
        ReadAdvances(s, tx, e, s'.txs[u], c);
      } else {
        EndAdvances(s, tx, e, s'.txs[u], c);
      }
    }
  }

  // ---- There is always a next step ----

  /** The next access of a transaction that is not at a call; the weak exchange does not fail. */
  lemma HasNext(s: State, u: Tid) returns (e: Event)
    requires u in s.txs && !s.txs[u].pc.Body? && !Finished(s.txs[u].pc)
    requires s.txs[u].pc.WriteBack? ==> s.txs[u].pc.todo <= s.txs[u].writeSet.Keys
    ensures Step(s, u, e).Some? && e != Go(true)
  {
    var tx := s.txs[u];
    e := Go(false);
    match tx.pc
    case LockLoad(todo) =>
      if a :| a in todo {
        e := Pick(a);
      }
    case Validate(todo) =>
      if a :| a in todo {
        e := Pick(a);
      }
    case WriteBack(todo) =>
      if a :| a in todo {
        e := Pick(a);
      }
    case UnlockLoad(locks) =>
      if l :| l in locks {
        e := PickLock(l);
      }
    case _ =>
  }
}
