/** The loops of Tl2Code are runs of Tl2: whatever tm_read and tm_end may do to the shared state according to
    their contracts, one transaction of the transition system, moving alone, does it step by step. */
module CodeRuns {
  import opened LockWord
  import opened Options
  import opened Tl2
  import opened Tl2Code
  import opened Executions

  /** `s'` differs from `s` in lock words and their owners only. */
  predicate OnlyLocks(s: State, s': State) {
    s' == s.(locks := s'.locks, owner := s'.owner)
  }

  // ---- The lock loop ----

  /** The stripes of `todo` are free, or held already for other words. */
  ghost predicate Lockable(s: State, tx: Tx, todo: set<Addr>) {
    && (forall a :: a in todo ==> StripeOf(a) in tx.held || !s.locks[StripeOf(a)].locked)
    && (forall l :: l in tx.held ==> s.locks[l].locked)
  }

  /** One word of the lock loop. */
  lemma LockOne(start: State, labels: seq<Label>, s: State, t: Tid, tx: Tx, a: Addr)
    returns (labels': seq<Label>, s': State)
    requires Exec(start, labels) == Some(Put(s, t, tx)) && tx.pc.LockLoad? && a in tx.pc.todo && Lockable(s, tx, {a})
    ensures OnlyLocks(s, s') && s'.locks == LockedAt(s.locks, {StripeOf(a)})
    ensures Exec(start, labels')
         == Some(Put(s', t, tx.(held := tx.held + {StripeOf(a)}, pc := LockLoad(tx.pc.todo - {a}))))
    ensures |labels'| <= |labels| + 2
  {
    hide Exec, StripeOf;
    var l := StripeOf(a);
    if s.locks[l].locked {
      labels' := QuietRefused(start, labels, s, t, tx, a);
      s' := s;
      assert tx.held + {l} == tx.held;
      assert LockedAt(s.locks, {l}) == s.locks;
    } else {
      labels' := TakeLock(start, labels, s, t, tx, a);
      s' := WithLock(s, t, l);
      assert LockedAt(s.locks, {l}) == s.locks[l := s.locks[l].(locked := true)];
    }
  }

  lemma LockTwice(words: Locks, x: set<Stripe>, y: set<Stripe>)
    ensures LockedAt(LockedAt(words, x), y) == LockedAt(words, x + y)
    ensures UnlockedAt(UnlockedAt(words, x), y) == UnlockedAt(words, x + y)
  {
    assert forall l: Stripe :: Unlocked(Unlocked(words[l].version).version) == Unlocked(words[l].version);
  }

  lemma StillLockable(s: State, s': State, tx: Tx, tx': Tx, todo: set<Addr>, a: Addr)
    requires Lockable(s, tx, todo) && a in todo && s'.locks == LockedAt(s.locks, {StripeOf(a)})
    requires tx'.held == tx.held + {StripeOf(a)}
    ensures Lockable(s', tx', todo - {a})
  {
  }

  lemma StripesOfRest(todo: set<Addr>, a: Addr)
    requires a in todo
    ensures {StripeOf(a)} + Stripes(todo - {a}) == Stripes(todo)
  {
  }

  /** The words of `todo`, in some order. */
  lemma {:induction false} LockAll(start: State, labels: seq<Label>, s: State, t: Tid, tx: Tx, todo: set<Addr>)
    returns (labels': seq<Label>, s': State)
    requires Exec(start, labels) == Some(Put(s, t, tx)) && tx.pc.LockLoad? && todo <= tx.pc.todo
    requires Lockable(s, tx, todo)
    ensures OnlyLocks(s, s') && s'.locks == LockedAt(s.locks, Stripes(todo))
    ensures Exec(start, labels')
         == Some(Put(s', t, tx.(held := tx.held + Stripes(todo), pc := LockLoad(tx.pc.todo - todo))))
    ensures |labels'| <= |labels| + 2 * |todo|
    decreases |todo|
  {
    hide Exec, StripeOf, Lockable, LockedAt;
    if todo == {} {
      labels', s' := labels, s;
      NothingLocked(s.locks, tx, todo);
    } else {
      var a :| a in todo;
      assert Lockable(s, tx, {a}) by { OneLockable(s, tx, todo, a); }
      var s1;
      labels', s1 := LockOne(start, labels, s, t, tx, a);
      var tx1 := tx.(held := tx.held + {StripeOf(a)}, pc := LockLoad(tx.pc.todo - {a}));
      StillLockable(s, s1, tx, tx1, todo, a);
      labels', s' := LockAll(start, labels', s1, t, tx1, todo - {a});
      StripesOfRest(todo, a);
      LockTwice(s.locks, {StripeOf(a)}, Stripes(todo - {a}));
      assert tx.pc.todo - {a} - (todo - {a}) == tx.pc.todo - todo;
      assert tx.held + {StripeOf(a)} + Stripes(todo - {a}) == tx.held + Stripes(todo);
    }
  }

  lemma OneLockable(s: State, tx: Tx, todo: set<Addr>, a: Addr)
    requires Lockable(s, tx, todo) && a in todo
    ensures Lockable(s, tx, {a})
  {
  }

  lemma NothingLocked(words: Locks, tx: Tx, todo: set<Addr>)
    requires todo == {} && tx.pc.LockLoad?
    ensures LockedAt(words, Stripes(todo)) == words
    ensures tx.(held := tx.held + Stripes(todo), pc := LockLoad(tx.pc.todo - todo)) == tx
  {
    assert tx.held + Stripes(todo) == tx.held && tx.pc.todo - todo == tx.pc.todo;
  }

  // ---- The abort loop ----

  lemma {:induction false} UnlockEach(start: State, labels: seq<Label>, s: State, t: Tid, tx: Tx)
    returns (labels': seq<Label>, s': State)
    requires Exec(start, labels) == Some(Put(s, t, tx)) && tx.pc.UnlockLoad?
    ensures OnlyLocks(s, s') && s'.locks == UnlockedAt(s.locks, tx.pc.locks)
    ensures Exec(start, labels') == Some(Put(s', t, tx.(pc := UnlockLoad({}))))
    decreases |tx.pc.locks|
  {
    hide Exec;
    var held := tx.pc.locks;
    if held == {} {
      labels', s' := labels, s;
      assert UnlockedAt(s.locks, {}) == s.locks;
    } else {
      var l :| l in held;
      labels' := QuietUnlock(start, labels, s, t, tx, l);
      var s1 := WithUnlocked(s, l);
      labels', s' := UnlockEach(start, labels', s1, t, tx.(pc := UnlockLoad(held - {l})));
      assert s1.locks == UnlockedAt(s.locks, {l}) && {l} + (held - {l}) == held;
      LockTwice(s.locks, {l}, held - {l});
    }
  }

  /** The transaction after its destructor ran. */
  function Deleted(tx: Tx, ok: bool): Tx {
    tx.(segs := {}, pc := if ok then Committed else Aborted)
  }

  /** Unlocking, and deleting the transaction. */
  lemma GiveUp(start: State, labels: seq<Label>, s: State, t: Tid, tx: Tx) returns (labels': seq<Label>, s': State)
    requires Exec(start, labels) == Some(Put(s, t, tx)) && tx.pc.UnlockLoad?
    ensures s' == s.(locks := s'.locks, owner := s'.owner, freed := s.freed + multiset(tx.segs))
    ensures s'.locks == UnlockedAt(s.locks, tx.pc.locks)
    ensures Exec(start, labels') == Some(Put(s', t, Deleted(tx, false)))
  {
    hide Exec;
    labels', s' := UnlockEach(start, labels, s, t, tx);
    labels' := Move(start, labels', s', t, tx.(pc := UnlockLoad({})), Go(false), s', tx.(pc := Deleting(false)));
    labels', s' := Finish(start, labels', s', t, tx.(pc := Deleting(false)));
  }

  lemma Finish(start: State, labels: seq<Label>, s: State, t: Tid, tx: Tx) returns (labels': seq<Label>, s': State)
    requires Exec(start, labels) == Some(Put(s, t, tx)) && tx.pc.Deleting?
    ensures s' == s.(freed := s.freed + multiset(tx.segs))
    ensures Exec(start, labels') == Some(Put(s', t, Deleted(tx, tx.pc.ok)))
  {
    hide Exec;
    s' := s.(freed := s.freed + multiset(tx.segs));
    labels' := Move(start, labels, s, t, tx, Go(false), s', Deleted(tx, tx.pc.ok));
  }

  // ---- The validation loop ----

  lemma {:induction false} ValidateAll(start: State, labels: seq<Label>, s: State, t: Tid, tx: Tx)
    returns (labels': seq<Label>)
    requires Exec(start, labels) == Some(Put(s, t, tx)) && tx.pc.Validate?
    requires AllValid(s.locks, tx.held, tx.rv, tx.pc.todo)
    ensures Exec(start, labels') == Some(Put(s, t, tx.(pc := Validate({}))))
    ensures |labels'| <= |labels| + 2 * |tx.pc.todo|
    decreases |tx.pc.todo|
  {
    hide Exec, StripeOf;
    if tx.pc.todo == {} {
      labels' := labels;
    } else {
      var a :| a in tx.pc.todo;
      assert StillValid(s.locks, tx.held, tx.rv, a);
      labels' := QuietValidate(start, labels, s, t, tx, a);
      labels' := ValidateAll(start, labels', s, t, tx.(pc := Validate(tx.pc.todo - {a})));
    }
  }

  /** The first word that fails ends the loop. */
  lemma ValidateFails(start: State, labels: seq<Label>, s: State, t: Tid, tx: Tx) returns (labels': seq<Label>)
    requires Exec(start, labels) == Some(Put(s, t, tx)) && tx.pc.Validate?
    requires !AllValid(s.locks, tx.held, tx.rv, tx.pc.todo)
    ensures Exec(start, labels') == Some(Put(s, t, tx.(pc := UnlockLoad(tx.held))))
  {
    hide Exec, StripeOf;
    var a :| a in tx.pc.todo && !StillValid(s.locks, tx.held, tx.rv, a);
    if StripeOf(a) !in tx.held && s.locks[StripeOf(a)].locked {
      labels' := Move(start, labels, s, t, tx, Pick(a), s, tx.(pc := UnlockLoad(tx.held)));
    } else {
      var tx' := tx.(pc := ValidateVersion(tx.pc.todo - {a}, a));
      labels' := Move(start, labels, s, t, tx, Pick(a), s, tx');
      labels' := Move(start, labels', s, t, tx', Go(false), s, tx.(pc := UnlockLoad(tx.held)));
    }
  }

  // ---- The write-back loop ----

  function Restricted(writes: Mem, addrs: set<Addr>): Mem {
    map a | a in writes && a in addrs :: writes[a]
  }

  /** One word of the write-back loop. */
  lemma WriteOne(start: State, labels: seq<Label>, s: State, t: Tid, tx: Tx, a: Addr)
    returns (labels': seq<Label>, s': State)
    requires Exec(start, labels) == Some(Put(s, t, tx)) && tx.pc.WriteBack? && a in tx.pc.todo && a in tx.writeSet
    ensures s' == s.(locks := s.locks[StripeOf(a) := Released(tx.wv)], owner := s'.owner,
                     mem := s.mem[a := tx.writeSet[a]])
    ensures Exec(start, labels') == Some(Put(s', t, tx.(pc := WriteBack(tx.pc.todo - {a}))))
    ensures |labels'| <= |labels| + 2
  {
    hide Exec, StripeOf;
    var l, rest := StripeOf(a), tx.pc.todo - {a};
    labels' := QuietCopyBack(start, labels, s, t, tx, a);
    var s1 := s.(mem := s.mem[a := tx.writeSet[a]]);
    s' := s1.(locks := s.locks[l := Released(tx.wv)], owner := s.owner - {l});
    labels' := Move(start, labels', s1, t, tx.(pc := Release(rest, a)), Go(false), s', tx.(pc := WriteBack(rest)));
  }

  lemma {:induction false} WriteAll(start: State, labels: seq<Label>, s: State, t: Tid, tx: Tx)
    returns (labels': seq<Label>, s': State)
    requires Exec(start, labels) == Some(Put(s, t, tx)) && tx.pc.WriteBack? && tx.pc.todo <= tx.writeSet.Keys
    ensures s' == s.(locks := s'.locks, owner := s'.owner, mem := s'.mem)
    ensures s'.locks == ReleasedAt(s.locks, Stripes(tx.pc.todo), tx.wv)
    ensures s'.mem == s.mem + Restricted(tx.writeSet, tx.pc.todo)
    ensures Exec(start, labels') == Some(Put(s', t, tx.(pc := WriteBack({}))))
    ensures |labels'| <= |labels| + 2 * |tx.pc.todo|
    decreases |tx.pc.todo|
  {
    hide Exec, StripeOf, ReleasedAt, Stripes, Restricted;
    var todo := tx.pc.todo;
    if todo == {} {
      labels', s' := labels, s;
      NothingWritten(s, tx);
    } else {
      var a :| a in todo;
      var s1;
      labels', s1 := WriteOne(start, labels, s, t, tx, a);
      labels', s' := WriteAll(start, labels', s1, t, tx.(pc := WriteBack(todo - {a})));
      ReleaseOneMore(s.locks, todo, a, tx.wv);
      WriteOneMore(s.mem, tx.writeSet, todo, a);
    }
  }

  lemma NothingWritten(s: State, tx: Tx)
    ensures Restricted(tx.writeSet, {}) == map[] && s.mem + Restricted(tx.writeSet, {}) == s.mem
    ensures ReleasedAt(s.locks, Stripes({}), tx.wv) == s.locks
  {
  }

  lemma WriteOneMore(m: Mem, writes: Mem, todo: set<Addr>, a: Addr)
    requires a in todo && a in writes
    ensures m[a := writes[a]] + Restricted(writes, todo - {a}) == m + Restricted(writes, todo)
  {
  }

  lemma ReleaseOneMore(words: Locks, todo: set<Addr>, a: Addr, wv: nat)
    requires a in todo
    ensures ReleasedAt(words[StripeOf(a) := Released(wv)], Stripes(todo - {a}), wv)
         == ReleasedAt(words, Stripes(todo), wv)
  {
    StripesOfRest(todo, a);
  }

  // ---- tm_end ----

  lemma LockableAll(s: State, tx: Tx)
    requires tx.held == {} && AllFree(s.locks, tx.writeSet.Keys)
    ensures Lockable(s, tx.(pc := LockLoad(tx.writeSet.Keys)), tx.writeSet.Keys)
  {
  }

  /** The call of tm_end and the lock loop. */
  lemma LocksAll(start: State, labels: seq<Label>, s: State, t: Tid, tx: Tx)
    returns (labels': seq<Label>, s': State)
    requires Exec(start, labels) == Some(Put(s, t, tx)) && tx.pc == Body && !tx.ro && tx.held == {}
    requires AllFree(s.locks, tx.writeSet.Keys)
    ensures var own := Stripes(tx.writeSet.Keys);
            && s' == s.(locks := LockedAt(s.locks, own), owner := s'.owner)
            && Exec(start, labels') == Some(Put(s', t, tx.(held := own, pc := LockLoad({}))))
    ensures |labels'| <= |labels| + 2 * |tx.writeSet.Keys| + 1
  {
    hide Exec, StripeOf, Lockable, LockedAt;
    labels' := QuietEnd(start, labels, s, t, tx);
    LockableAll(s, tx);
    hide AllFree, Stripes;
    labels', s' := LockAll(start, labels', s, t, tx.(pc := LockLoad(tx.writeSet.Keys)), tx.writeSet.Keys);
    assert tx.held + Stripes(tx.writeSet.Keys) == Stripes(tx.writeSet.Keys);
    assert tx.writeSet.Keys - tx.writeSet.Keys == {};
  }

  /** The call of tm_end, the lock loop and the clock. */
  lemma LocksAndClock(start: State, labels: seq<Label>, s: State, t: Tid, tx: Tx)
    returns (labels': seq<Label>, s': State)
    requires Exec(start, labels) == Some(Put(s, t, tx)) && tx.pc == Body && !tx.ro && tx.held == {}
    requires AllFree(s.locks, tx.writeSet.Keys)
    ensures var own, wv := Stripes(tx.writeSet.Keys), (s.gvc + 1) % CLOCK_SIZE;
            var todo := if (tx.rv + 1) % CLOCK_SIZE != wv then tx.readSet else {};
            && s' == s.(locks := LockedAt(s.locks, own), owner := s'.owner, gvc := wv)
            && Exec(start, labels') == Some(Put(s', t, tx.(held := own, wv := wv, pc := Validate(todo))))
    ensures |labels'| <= |labels| + 2 * |tx.writeSet.Keys| + 2
  {
    hide Exec, AllFree, Stripes, LockedAt;
    labels', s' := LocksAll(start, labels, s, t, tx);
    labels' := QuietIncrement(start, labels', s', t, tx.(held := Stripes(tx.writeSet.Keys), pc := LockLoad({})));
    s' := s'.(gvc := (s.gvc + 1) % CLOCK_SIZE);
  }

  /** Up to the decision. */
  lemma DecidesAlone(start: State, labels: seq<Label>, s: State, t: Tid, tx: Tx)
    returns (labels': seq<Label>, s': State)
    requires Exec(start, labels) == Some(Put(s, t, tx)) && tx.pc == Body && !tx.ro && tx.held == {}
    requires s.gvc < WORD_SIZE && tx.rv < WORD_SIZE && Commits(s.locks, s.gvc, false, tx.rv, tx.readSet, tx.writeSet)
    ensures var own, wv := Stripes(tx.writeSet.Keys), NextVersion(s.gvc);
            && s' == s.(locks := LockedAt(s.locks, own), owner := s'.owner, gvc := wv,
                        commits := s.commits[wv := Commit(t, tx.log, tx.writeSet)])
            && Exec(start, labels') == Some(Put(s', t, tx.(held := own, wv := wv, pc := WriteBack(tx.writeSet.Keys))))
    ensures |labels'| <= |labels| + 2 * |tx.writeSet.Keys| + 2 * |tx.readSet| + 3
  {
    hide Exec, StripeOf, LockedAt, Stripes, AllFree, AllValid;
    var own, wv := Stripes(tx.writeSet.Keys), NextVersion(s.gvc);
    labels', s' := LocksAndClock(start, labels, s, t, tx);
    var tx1 := tx.(held := own, wv := wv);
    var todo := if (tx.rv + 1) % CLOCK_SIZE != wv then tx.readSet else {};
    ValidWhileHeld(s.locks, own, tx.rv, tx.readSet);
    NothingToValidate(s'.locks, own, tx.rv);
    labels' := ValidateAll(start, labels', s', t, tx1.(pc := Validate(todo)));
    labels' := QuietDecision(start, labels', s', t, tx1.(pc := Validate({})));
    s' := s'.(commits := s'.commits[wv := Commit(t, tx.log, tx.writeSet)]);
  }

  lemma NothingToValidate(words: Locks, own: set<Stripe>, rv: nat)
    ensures AllValid(words, own, rv, {})
  {
  }

  /** A transaction that finds everything free and valid commits with exactly the effect of tm_end. */
  lemma CommitIsARun(start: State, labels: seq<Label>, s: State, t: Tid, tx: Tx)
    returns (labels': seq<Label>, s': State)
    requires Exec(start, labels) == Some(Put(s, t, tx)) && tx.pc == Body && !tx.ro && tx.held == {}
    requires s.gvc < WORD_SIZE && tx.rv < WORD_SIZE && Commits(s.locks, s.gvc, false, tx.rv, tx.readSet, tx.writeSet)
    ensures var own, wv := Stripes(tx.writeSet.Keys), NextVersion(s.gvc);
            && s'.gvc == wv && s'.mem == s.mem + tx.writeSet && s'.locks == ReleasedAt(s.locks, own, wv)
            && s'.region == s.region + tx.segs && s'.freed == s.freed && s'.txs == s.txs && s'.heap == s.heap
            && s'.commits == s.commits[wv := Commit(t, tx.log, tx.writeSet)]
            && Exec(start, labels') == Some(Put(s', t, Deleted(tx.(held := own, wv := wv), true)))
    ensures |labels'| <= |labels| + 4 * |tx.writeSet.Keys| + 2 * |tx.readSet| + 4
  {
    hide Exec, StripeOf, LockedAt, ReleasedAt, Stripes, Commits;
    var own, wv := Stripes(tx.writeSet.Keys), NextVersion(s.gvc);
    var s1;
    labels', s1 := DecidesAlone(start, labels, s, t, tx);
    var tx1 := tx.(held := own, wv := wv, pc := WriteBack(tx.writeSet.Keys));
    labels', s' := WriteAll(start, labels', s1, t, tx1);
    assert Restricted(tx.writeSet, tx.writeSet.Keys) == tx.writeSet;
    ReleaseWhileHeld(s.locks, own, wv);
    labels', s' := SpliceAlone(start, labels', s', t, tx1.(pc := WriteBack({})));
  }

  lemma SpliceAlone(start: State, labels: seq<Label>, s: State, t: Tid, tx: Tx) returns (labels': seq<Label>, s': State)
    requires Exec(start, labels) == Some(Put(s, t, tx)) && tx.pc == WriteBack({})
    ensures s' == s.(region := s.region + tx.segs)
    ensures Exec(start, labels') == Some(Put(s', t, Deleted(tx, true)))
    ensures |labels'| <= |labels| + 1
  {
    hide Exec;
    s' := s.(region := s.region + tx.segs);
    labels' := Move(start, labels, s, t, tx, Go(false), s', Deleted(tx, true));
  }

  /** The word whose exchange fails, on a locked stripe or spuriously. */
  lemma RefuseOne(start: State, labels: seq<Label>, s: State, t: Tid, tx: Tx, a: Addr) returns (labels': seq<Label>)
    requires Exec(start, labels) == Some(Put(s, t, tx)) && tx.pc.LockLoad? && a in tx.pc.todo && StripeOf(a) !in tx.held
    ensures Exec(start, labels') == Some(Put(s, t, tx.(pc := UnlockLoad(tx.held))))
  {
    hide Exec, StripeOf;
    var tx' := tx.(pc := LockCas(tx.pc.todo - {a}, a, s.locks[StripeOf(a)].version));
    labels' := Move(start, labels, s, t, tx, Pick(a), s, tx');
    labels' := Move(start, labels', s, t, tx', Go(!s.locks[StripeOf(a)].locked), s, tx.(pc := UnlockLoad(tx.held)));
  }

  /** Refused at the word `a` after taking the stripes of `held`. */
  lemma RefusalIsARun(start: State, labels: seq<Label>, s: State, t: Tid, tx: Tx, spurious: set<Addr>,
                      held: set<Stripe>, a: Addr) returns (labels': seq<Label>, s': State)
    requires Exec(start, labels) == Some(Put(s, t, tx)) && tx.pc == Body && !tx.ro && tx.held == {}
    requires Refused(s.locks, tx.writeSet.Keys, spurious, held, a)
    ensures s' == s.(locks := UnlockedAt(s.locks, held), owner := s'.owner, freed := s.freed + multiset(tx.segs))
    ensures Exec(start, labels') == Some(Put(s', t, Deleted(tx.(held := held), false)))
  {
    hide Exec, StripeOf, LockedAt, UnlockedAt;
    labels' := QuietEnd(start, labels, s, t, tx);
    var todo := set b | b in tx.writeSet.Keys && StripeOf(b) in held;
    var tx0 := tx.(pc := LockLoad(tx.writeSet.Keys));
    assert Stripes(todo) == held by { HeldStripes(tx.writeSet.Keys, held, todo); }
    assert Lockable(s, tx0, todo);
    hide Lockable, Stripes, Refused;
    assert a in tx.writeSet.Keys - todo && forall l :: l in held ==> !s.locks[l].locked;
    labels', s' := LockAll(start, labels', s, t, tx0, todo);
    assert tx.held + held == held;
    var tx1 := tx.(held := held, pc := LockLoad(tx.writeSet.Keys - todo));
    labels' := RefuseOne(start, labels', s', t, tx1, a);
    labels', s' := GiveUp(start, labels', s', t, tx1.(pc := UnlockLoad(held)));
    BackAsBefore(s.locks, held, held);
  }

  lemma HeldStripes(addrs: set<Addr>, held: set<Stripe>, todo: set<Addr>)
    requires held <= Stripes(addrs) && todo == set b | b in addrs && StripeOf(b) in held
    ensures Stripes(todo) == held
  {
    forall l | l in held
      ensures l in Stripes(todo)
    {
      var b :| b in addrs && StripeOf(b) == l;
      assert b in todo;
    }
  }

  /** All stripes taken, and the read set found overtaken. */
  lemma OvertakenIsARun(start: State, labels: seq<Label>, s: State, t: Tid, tx: Tx)
    returns (labels': seq<Label>, s': State)
    requires Exec(start, labels) == Some(Put(s, t, tx)) && tx.pc == Body && !tx.ro && tx.held == {}
    requires s.gvc < WORD_SIZE && tx.rv < WORD_SIZE && AllFree(s.locks, tx.writeSet.Keys)
    requires NextVersion(tx.rv) != NextVersion(s.gvc)
    requires !AllValid(s.locks, Stripes(tx.writeSet.Keys), tx.rv, tx.readSet)
    ensures var own, wv := Stripes(tx.writeSet.Keys), NextVersion(s.gvc);
            && s' == s.(locks := UnlockedAt(s.locks, own), owner := s'.owner, gvc := wv,
                        freed := s.freed + multiset(tx.segs))
            && Exec(start, labels') == Some(Put(s', t, Deleted(tx.(held := own, wv := wv), false)))
  {
    hide Exec, StripeOf, LockedAt, UnlockedAt, Stripes, AllValid, AllFree;
    var own, wv := Stripes(tx.writeSet.Keys), NextVersion(s.gvc);
    labels', s' := LocksAndClock(start, labels, s, t, tx);
    var tx1 := tx.(held := own, wv := wv);
    ValidWhileHeld(s.locks, own, tx.rv, tx.readSet);
    labels' := ValidateFails(start, labels', s', t, tx1.(pc := Validate(tx.readSet)));
    labels', s' := GiveUp(start, labels', s', t, tx1.(pc := UnlockLoad(own)));
    FreeStripes(s.locks, tx.writeSet.Keys);
    BackAsBefore(s.locks, own, own);
  }

  lemma FreeStripes(words: Locks, addrs: set<Addr>)
    requires AllFree(words, addrs)
    ensures forall l :: l in Stripes(addrs) ==> !words[l].locked
  {
  }

  /** tm_end: every outcome its contract allows is reached by a run that leaves all other transactions as they are. */
  lemma EndIsARun(start: State, labels: seq<Label>, s: State, t: Tid, tx: Tx, spurious: set<Addr>,
                  words: Locks, gvc: Raw, m: Mem, ok: bool) returns (labels': seq<Label>, s': State, tx': Tx)
    requires Exec(start, labels) == Some(Put(s, t, tx)) && tx.pc == Body && tx.held == {}
    requires s.gvc < WORD_SIZE && tx.rv < WORD_SIZE
    requires EndOutcome(s.locks, s.gvc, s.mem, tx.ro, tx.rv, tx.readSet, tx.writeSet, spurious, words, gvc, m, ok)
    ensures Exec(start, labels') == Some(Put(s', t, tx')) && tx'.pc == if ok then Committed else Aborted
    ensures s'.locks == words && s'.gvc == gvc && s'.mem == m && s'.txs == s.txs
    ensures s'.region == s.region + if ok && !tx.ro then tx.segs else {}
    ensures s'.freed == s.freed + multiset(if ok && !tx.ro then {} else tx.segs)
  {
    hide Exec, StripeOf, LockedAt, UnlockedAt, ReleasedAt, Stripes, AllValid, AllFree, Commits;
    assert s.region + {} == s.region && s.freed + multiset({}) == s.freed;
    if tx.ro {
      labels' := QuietEnd(start, labels, s, t, tx);
      labels', s' := Finish(start, labels', s, t, tx.(pc := Deleting(true)));
      tx' := Deleted(tx, true);
    } else if ok {
      labels', s' := CommitIsARun(start, labels, s, t, tx);
      tx' := Deleted(tx.(held := Stripes(tx.writeSet.Keys), wv := NextVersion(s.gvc)), true);
    } else if gvc == s.gvc {
      var held, a :| Refused(s.locks, tx.writeSet.Keys, spurious, held, a) && words == UnlockedAt(s.locks, held);
      labels', s' := RefusalIsARun(start, labels, s, t, tx, spurious, held, a);
      tx' := Deleted(tx.(held := held), false);
    } else {
      labels', s' := OvertakenIsARun(start, labels, s, t, tx);
      tx' := Deleted(tx.(held := Stripes(tx.writeSet.Keys), wv := NextVersion(s.gvc)), false);
    }
  }

  // ---- tm_read ----

  /** The value a read returns, and the record afterwards. */
  function Read(s: State, tx: Tx, a: Addr): Tx {
    var buffered := !tx.ro && a in tx.writeSet;
    tx.(readSet := if tx.ro then tx.readSet else tx.readSet + {a},
        log := tx.log + [Rd(a, if buffered then tx.writeSet[a] else Get(s.mem, a), buffered, true)])
  }

  /** One word, read. */
  lemma ReadOne(start: State, labels: seq<Label>, s: State, t: Tid, tx: Tx, a: Addr) returns (labels': seq<Label>)
    requires Exec(start, labels) == Some(Put(s, t, tx)) && tx.pc == Body && StillValid(s.locks, {}, tx.rv, a)
    ensures Exec(start, labels') == Some(Put(s, t, Read(s, tx, a)))
    ensures |labels'| <= |labels| + 6
  {
    hide Exec, StripeOf;
    var v := s.locks[StripeOf(a)].version;
    var x := if !tx.ro && a in tx.writeSet then tx.writeSet[a] else Get(s.mem, a);
    labels' := QuietFetch(start, labels, s, t, tx, a);
    labels' := Move(start, labels', s, t, tx.(pc := Copy(a, v)), Go(false), s, tx.(pc := PostVersion(a, v, x)));
    labels' := Move(start, labels', s, t, tx.(pc := PostVersion(a, v, x)), Go(false), s,
                    tx.(pc := PostLock(a, v, v, x)));
    labels' := Move(start, labels', s, t, tx.(pc := PostLock(a, v, v, x)), Go(false), s, Read(s, tx, a));
  }

  /** One word, refused. */
  lemma ReadFails(start: State, labels: seq<Label>, s: State, t: Tid, tx: Tx, a: Addr)
    returns (labels': seq<Label>, s': State)
    requires Exec(start, labels) == Some(Put(s, t, tx)) && tx.pc == Body && !StillValid(s.locks, {}, tx.rv, a)
    ensures s' == s.(freed := s.freed + multiset(tx.segs))
    ensures Exec(start, labels') == Some(Put(s', t, Deleted(tx, false)))
  {
    hide Exec, StripeOf;
    var v := s.locks[StripeOf(a)].version;
    labels' := Move(start, labels, s, t, tx, CallRead(a), s, tx.(pc := PreVersion(a)));
    labels' := Move(start, labels', s, t, tx.(pc := PreVersion(a)), Go(false), s, tx.(pc := PreLock(a, v)));
    labels' := Move(start, labels', s, t, tx.(pc := PreLock(a, v)), Go(false), s, tx.(pc := Deleting(false)));
    labels', s' := Finish(start, labels', s, t, tx.(pc := Deleting(false)));
  }

  /** `tx'` is `tx` after the `n` words from `a` on were read, in order. */
  ghost predicate HasRead(s: State, tx: Tx, tx': Tx, a: Addr, n: nat, align: nat) {
    && tx' == tx.(readSet := tx.readSet + if tx.ro then {} else WordAddrs(a, n, align), log := tx'.log)
    && |tx'.log| == |tx.log| + n && tx'.log[..|tx.log|] == tx.log
    && forall i :: |tx.log| <= i < |tx'.log| ==>
         && tx'.log[i].Rd? && tx'.log[i].addr == a + (i - |tx.log|) * align
         && tx'.log[i].val == Get(s.mem + tx.writeSet, tx'.log[i].addr)
  }

  lemma HasReadOneMore(s: State, tx: Tx, before: Tx, a: Addr, n: nat, align: nat)
    requires HasRead(s, tx, before, a, n, align) && (tx.ro ==> tx.writeSet == map[])
    ensures HasRead(s, tx, Read(s, before, WordAddr(a, n, align)), a, n + 1, align)
  {
    var b := WordAddr(a, n, align);
    var after := Read(s, before, b);
    assert WordAddrs(a, n + 1, align) == WordAddrs(a, n, align) + {b};
    assert tx.readSet + WordAddrs(a, n, align) + {b} == tx.readSet + WordAddrs(a, n + 1, align);
    forall i | |tx.log| <= i < |after.log|
      ensures after.log[i].Rd? && after.log[i].addr == a + (i - |tx.log|) * align
      ensures after.log[i].val == Get(s.mem + tx.writeSet, after.log[i].addr)
    {
      assert i < |before.log| ==> after.log[i] == before.log[i];
    }
  }

  lemma HasReadNothing(s: State, tx: Tx, a: Addr, align: nat)
    ensures HasRead(s, tx, tx, a, 0, align)
  {
    assert tx.readSet + WordAddrs(a, 0, align) == tx.readSet && tx.readSet + {} == tx.readSet;
  }

  /** tm_read of `n` words: there is a run that succeeds, with the values of its contract, exactly when the contract
      says so, and otherwise one that ends in an abort and frees the transaction's segments. Nothing else changes. */
  lemma {:induction false} ReadIsARun(start: State, labels: seq<Label>, s: State, t: Tid, tx: Tx, a: Addr, n: nat,
                                      align: nat)
    returns (labels': seq<Label>, s': State, tx': Tx)
    requires Exec(start, labels) == Some(Put(s, t, tx)) && tx.pc == Body && (tx.ro ==> tx.writeSet == map[])
    ensures Exec(start, labels') == Some(Put(s', t, tx'))
    ensures Readable(s.locks, tx.rv, a, n, align) ==> s' == s && HasRead(s, tx, tx', a, n, align)
    ensures Readable(s.locks, tx.rv, a, n, align) ==>
              && |tx'.log| == |tx.log| + n && tx'.log[..|tx.log|] == tx.log
              && forall i :: |tx.log| <= i < |tx'.log| ==>
                   && tx'.log[i].Rd? && tx'.log[i].addr == a + (i - |tx.log|) * align
                   && tx'.log[i].val == Get(s.mem + tx.writeSet, tx'.log[i].addr)
    ensures !Readable(s.locks, tx.rv, a, n, align) ==>
              s' == s.(freed := s.freed + multiset(tx.segs)) && tx'.pc == Aborted && tx'.segs == {}
  {
    hide Exec, StripeOf, Read, StillValid;
    if n == 0 {
      labels', s', tx' := labels, s, tx;
      HasReadNothing(s, tx, a, align);
    } else {
      labels', s', tx' := ReadIsARun(start, labels, s, t, tx, a, n - 1, align);
      var b := WordAddr(a, n - 1, align);
      if Readable(s.locks, tx.rv, a, n - 1, align) {
        if StillValid(s.locks, {}, tx.rv, b) {
          labels' := ReadOne(start, labels', s, t, tx', b);
          HasReadOneMore(s, tx, tx', a, n - 1, align);
          tx' := Read(s, tx', b);
        } else {
          labels', s' := ReadFails(start, labels', s, t, tx', b);
          tx' := Deleted(tx', false);
        }
      }
    }
  }
}
