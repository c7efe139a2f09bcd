/** What the invariant means to a client: committed transactions take effect one after the other in
    the order of their write versions, and every calm read sees the snapshot its transaction began with. */
module Serializability {
  import opened LockWord
  import opened Options
  import opened Tl2
  import opened Tl2Invariant

  // ---- The reference: one transaction at a time, in place ----

  /** Executes a log directly on memory, as the lock-based reference library would; fails when
      a read would not have returned the logged value. */
  function InPlace(log: Log, m: Mem): Option<Mem> {
    if log == [] then Some(m)
    else
      match InPlace(log[..|log| - 1], m)
      case None => None
      case Some(n) =>
        match log[|log| - 1]
        case Rd(a, x, _, _) => if Get(n, a) == x then Some(n) else None
        case Wr(a, x) => Some(n[a := x])
        case Al(_) => Some(n)
  }

  function Serial(logs: seq<Log>, m: Mem): Option<Mem> {
    if logs == [] then Some(m)
    else
      match Serial(logs[..|logs| - 1], m)
      case None => None
      case Some(n) => InPlace(logs[|logs| - 1], n)
  }

  /** The logs of the commits up to version `v`, in version order. */
  function LogsUpTo(commits: map<nat, Commit>, v: nat): seq<Log> {
    if v == 0 then []
    else if v in commits then LogsUpTo(commits, v - 1) + [commits[v].log]
    else LogsUpTo(commits, v - 1)
  }

  /** Every read from memory returned what `m` holds. */
  ghost predicate ReadsFrom(log: Log, m: Mem) {
    forall i :: 0 <= i < |log| && FromMemory(log[i]) ==> log[i].val == Get(m, log[i].addr)
  }

  /** Buffering writes and serving reads from the buffer is execution in place: own writes are
      read back, the last of several writes to one word wins, and the buffer is the effect. */
  lemma {:induction false} BufferedIsInPlace(log: Log, m: Mem)
    requires WellBuffered(log) && ReadsFrom(log, m)
    ensures InPlace(log, m) == Some(m + WritesOf(log))
  {
    if log == [] {
      assert m + map[] == m;
    } else {
      var p := log[..|log| - 1];
      var op := log[|log| - 1];
      assert ReadsFrom(p, m) by {
        forall i | 0 <= i < |p| && FromMemory(p[i])
          ensures p[i].val == Get(m, p[i].addr)
        {
          assert p[i] == log[i];
        }
      }
      BufferedIsInPlace(p, m);
      if op.Wr? {
        assert (m + WritesOf(p))[op.addr := op.val] == m + WritesOf(log);
      } else if op.Rd? {
        assert FromMemory(op) ==> op.val == Get(m, op.addr);
      }
    }
  }

  // ---- Committed read-write transactions ----

  /** Validation is sound under stripe sharing: no commit between the snapshot of a committed
      transaction and its own version wrote to an address it read from memory. */
  lemma ValidationSound(s: State, k: nat, j: nat, i: nat)
    requires Inv(s) && k in s.commits && i < |s.commits[k].log| && FromMemory(s.commits[k].log[i])
    requires s.txs[s.commits[k].tid].rv < j < k
    ensures !Writes(s.commits, j, s.commits[k].log[i].addr)
  {
    var t := s.commits[k].tid;
    assert TxOk(s, t, s.txs[t]);
    assert Validated(s, t, s.txs[t], s.txs[t].log[i]);
  }

  /** A read-write transaction commits only if all its reads from memory were calm, and then they
      returned the memory just before its own version. */
  lemma CommittedRead(s: State, k: nat, i: nat)
    requires Inv(s) && k in s.commits && i < |s.commits[k].log| && FromMemory(s.commits[k].log[i])
    ensures var op := s.commits[k].log[i]; op.calm && op.val == ValueAt(s, k - 1, op.addr)
  {
    var t := s.commits[k].tid;
    var tx := s.txs[t];
    assert TxOk(s, t, tx);
    assert Validated(s, t, tx, tx.log[i]);
    StateAtSkip(s.commits, tx.rv, k - 1, tx.log[i].addr);
  }

  lemma CommittedReads(s: State, k: nat)
    requires Inv(s) && k in s.commits
    ensures ReadsFrom(s.commits[k].log, StateAt(s.commits, k - 1))
    ensures forall i :: 0 <= i < |s.commits[k].log| && FromMemory(s.commits[k].log[i]) ==> s.commits[k].log[i].calm
  {
    assert k > 0;
    hide Inv, StateAt;
    forall i | 0 <= i < |s.commits[k].log| && FromMemory(s.commits[k].log[i])
      ensures s.commits[k].log[i].calm
      ensures s.commits[k].log[i].val == Get(StateAt(s.commits, k - 1), s.commits[k].log[i].addr)
    {
      CommittedRead(s, k, i);
    }
  }

  lemma CommitInPlace(s: State, k: nat)
    requires Inv(s) && k in s.commits
    ensures InPlace(s.commits[k].log, StateAt(s.commits, k - 1)) == Some(StateAt(s.commits, k))
  {
    var t := s.commits[k].tid;
    assert TxOk(s, t, s.txs[t]);
    CommittedReads(s, k);
    BufferedIsInPlace(s.commits[k].log, StateAt(s.commits, k - 1));
  }

  lemma {:induction false} SerialUpTo(s: State, v: nat)
    requires Inv(s)
    ensures Serial(LogsUpTo(s.commits, v), map[]) == Some(StateAt(s.commits, v))
  {
    hide Inv;
    if v > 0 {
      SerialUpTo(s, v - 1);
      if v in s.commits {
        var logs := LogsUpTo(s.commits, v);
        assert logs[..|logs| - 1] == LogsUpTo(s.commits, v - 1);
        CommitInPlace(s, v);
      }
    }
  }

  /** Nobody is copying words back: transactions may be running, reading, locking, validating or aborting. */
  ghost predicate Quiescent(s: State) {
    forall t :: t in s.txs ==> !InWriteBack(s.txs[t].pc)
  }

  /** Serializability: in every tame run, executing the committed read-write transactions one by one
      in the order of their write versions, in place and from zeroed memory, reproduces every
      value they read, and when nobody is writing back the result is the memory. */
  lemma Serializable(states: seq<State>, labels: seq<Label>, i: nat)
    requires IsTameRun(states, labels) && i < |states|
    ensures var s := states[i];
            var r := Serial(LogsUpTo(s.commits, s.gvc), map[]);
            r.Some? && (Quiescent(s) ==> forall a: Addr :: Get(s.mem, a) == Get(r.value, a))
  {
    RunInv(states, labels, i);
    var s := states[i];
    SerialUpTo(s, s.gvc);
    if Quiescent(s) {
      forall a: Addr
        ensures Get(s.mem, a) == ValueAt(s, s.gvc, a)
      {
        assert Get(s.mem, a) == ValueAt(s, Bound(s, a), a);
      }
    }
  }

  /** The serial order has each committed read-write transaction exactly once, with its whole log,
      and nothing else than transactions that commit. */
  lemma SerialOrderIsCommits(states: seq<State>, labels: seq<Label>, i: nat)
    requires IsTameRun(states, labels) && i < |states|
    ensures var s := states[i];
            && (forall t :: t in s.txs && !s.txs[t].ro && s.txs[t].pc.Committed? ==>
                  s.txs[t].wv in s.commits && s.commits[s.txs[t].wv].tid == t)
            && (forall k :: k in s.commits ==>
                  && 0 < k <= s.gvc
                  && s.commits[k].tid in s.txs && s.txs[s.commits[k].tid].wv == k
                  && Decided(s.txs[s.commits[k].tid].pc)
                  && s.commits[k].log == s.txs[s.commits[k].tid].log)
  {
    RunInv(states, labels, i);
    var s := states[i];
    forall t | t in s.txs && !s.txs[t].ro && s.txs[t].pc.Committed?
      ensures s.txs[t].wv in s.commits && s.commits[s.txs[t].wv].tid == t
    {
      assert TxOk(s, t, s.txs[t]);
    }
    forall k | k in s.commits
      ensures s.commits[k].log == s.txs[s.commits[k].tid].log
    {
      assert TxOk(s, s.commits[k].tid, s.txs[s.commits[k].tid]);
    }
  }

  // ---- Real time ----

  lemma {:induction false} LaterBeginsLater(states: seq<State>, labels: seq<Label>, i: nat, j: nat, u: Tid)
    requires IsRun(states, labels) && i <= j < |states|
    requires forall k :: 0 <= k < |states| ==> states[k].gvc < VERSION_LIMIT
    requires u !in states[i].txs
    ensures states[i].gvc <= states[j].gvc
    ensures u in states[j].txs ==> states[i].gvc <= states[j].txs[u].rv
    ensures u in states[j].txs && states[j].txs[u].wv != 0 ==> states[i].gvc < states[j].txs[u].wv
  {
    hide Step;
    if i < j {
      LaterBeginsLater(states, labels, i, j - 1, u);
      var l := labels[j - 1];
      assert Step(states[j - 1], l.t, l.e) == Some(states[j]);
      StepModerate(states[j - 1], l.t, l.e, states[j], u);
    }
  }

  /** What any step may do to the clock and to the versions of a transaction. */
  ghost predicate Moderate(s: State, s': State, u: Tid) {
    && s.gvc <= s'.gvc
    && (u in s.txs ==>
          && u in s'.txs && s'.txs[u].rv == s.txs[u].rv
          && (s'.txs[u].wv != s.txs[u].wv ==> s'.txs[u].wv == s.gvc + 1))
    && (u !in s.txs && u in s'.txs ==> s'.txs[u].rv == s.gvc && s'.txs[u].wv == 0)
  }

  /** A transaction finishes with an empty segment list, and then never moves again. */
  ghost predicate FinishesEmpty(s: State, s': State, u: Tid) {
    u in s'.txs && Finished(s'.txs[u].pc) ==>
      u in s.txs && if Finished(s.txs[u].pc) then s'.txs[u] == s.txs[u] else s'.txs[u].segs == {}
  }

  lemma PrivateModerate(s: State, t: Tid, e: Event, u: Tid)
    requires t in s.txs && Private(s, s.txs[t], e).Some?
    ensures Moderate(s, Put(s, t, Private(s, s.txs[t], e).value), u)
    ensures FinishesEmpty(s, Put(s, t, Private(s, s.txs[t], e).value), u)
  {
  }

  lemma SharedModerate(s: State, t: Tid, s': State, u: Tid)
    requires t in s.txs && SharedFrame(s, t, s') && s.gvc < VERSION_LIMIT
    ensures Moderate(s, s', u) && FinishesEmpty(s, s', u)
  {
  }

  lemma StepModerate(s: State, t: Tid, e: Event, s': State, u: Tid)
    requires Step(s, t, e) == Some(s') && s.gvc < VERSION_LIMIT
    ensures Moderate(s, s', u) && FinishesEmpty(s, s', u)
  {
    if t in s.txs {
      StepShape(s, t, e, s');
      hide Step, IsSharedStep, Private, SharedFrame, Moderate, FinishesEmpty;
      if IsSharedStep(s, t, s') {
        SharedStepFrame(s, t, s');
        SharedModerate(s, t, s', u);
      } else {
        PrivateModerate(s, t, e, u);
      }
    }
  }

  /** The serial order respects real time: a transaction that begins after another one committed
      reads a snapshot that contains it and everything the other one may have read, also when that one was
      read-only, and takes a later write version. */
  lemma RealTimeOrder(states: seq<State>, labels: seq<Label>, i: nat, j: nat, t: Tid, u: Tid)
    requires IsTameRun(states, labels) && i <= j < |states|
    requires t in states[i].txs && states[i].txs[t].pc.Committed? && u !in states[i].txs
    requires u in states[j].txs
    ensures states[i].txs[t].wv <= states[j].txs[u].rv
    ensures states[i].txs[t].rv <= states[i].gvc <= states[j].txs[u].rv
    ensures states[j].txs[u].wv != 0 ==> states[i].gvc < states[j].txs[u].wv
  {
    RunInv(states, labels, i);
    assert TxOk(states[i], t, states[i].txs[t]);
    LaterBeginsLater(states, labels, i, j, u);
  }

  // ---- Opacity ----

  ghost predicate AllCalm(log: Log) {
    forall i :: 0 <= i < |log| && FromMemory(log[i]) ==> log[i].calm
  }

  /** Opacity, read by read: in any transaction - read-only, committing, or about to abort - every
      calm read from memory returned the memory as of the transaction's begin. */
  lemma CalmReadsSnapshot(states: seq<State>, labels: seq<Label>, i: nat, t: Tid, n: nat)
    requires IsTameRun(states, labels) && i < |states| && t in states[i].txs
    requires n < |states[i].txs[t].log| && FromMemory(states[i].txs[t].log[n]) && states[i].txs[t].log[n].calm
    ensures var s := states[i]; var tx := s.txs[t];
            tx.log[n].val == ValueAt(s, tx.rv, tx.log[n].addr)
  {
    RunInv(states, labels, i);
    assert TxOk(states[i], t, states[i].txs[t]);
    assert ReadOk(states[i], states[i].txs[t].rv, states[i].txs[t].log[n]);
  }

  /** Opacity, whole transactions: a transaction all of whose reads were calm executes in place on
      the single snapshot it began with. */
  lemma Opaque(states: seq<State>, labels: seq<Label>, i: nat, t: Tid)
    requires IsTameRun(states, labels) && i < |states| && t in states[i].txs
    requires AllCalm(states[i].txs[t].log)
    ensures var s := states[i]; var tx := s.txs[t];
            InPlace(tx.log, StateAt(s.commits, tx.rv)) == Some(StateAt(s.commits, tx.rv) + WritesOf(tx.log))
  {
    RunInv(states, labels, i);
    var s := states[i];
    var tx := s.txs[t];
    assert TxOk(s, t, tx);
    forall n | 0 <= n < |tx.log| && FromMemory(tx.log[n])
      ensures tx.log[n].val == ValueAt(s, tx.rv, tx.log[n].addr)
    {
      assert ReadOk(s, tx.rv, tx.log[n]);
    }
    BufferedIsInPlace(tx.log, StateAt(s.commits, tx.rv));
  }

  /** A read that is accepted with the two loads of its post-validation apart is calm exactly when the
      stripe's version is still within the snapshot at the second load, which is what a single load
      of the word would have checked. */
  lemma CalmIffVersionWithin(s: State, t: Tid, e: Event, tx': Tx)
    requires Inv(s) && t in s.txs && s.txs[t].pc.PostLock? && Private(s, s.txs[t], e) == Some(tx')
    requires tx'.pc.Body? && FromMemory(tx'.log[|tx'.log| - 1])
    ensures tx'.log[|tx'.log| - 1].calm <==> s.locks[StripeOf(s.txs[t].pc.addr)].version <= s.txs[t].rv
  {
    assert TxOk(s, t, s.txs[t]);
  }

  /** A read-write transaction with a read that was not calm can no longer commit. */
  lemma UncalmNeverCommits(states: seq<State>, labels: seq<Label>, i: nat, t: Tid, n: nat)
    requires IsTameRun(states, labels) && i < |states| && t in states[i].txs && !states[i].txs[t].ro
    requires n < |states[i].txs[t].log| && FromMemory(states[i].txs[t].log[n]) && !states[i].txs[t].log[n].calm
    ensures !Decided(states[i].txs[t].pc)
  {
    RunInv(states, labels, i);
    var s := states[i];
    assert TxOk(s, t, s.txs[t]);
    if Decided(s.txs[t].pc) {
      CommittedReads(s, s.txs[t].wv);
    }
  }

  // ---- The validation shortcut ----

  /** When the clock did not move since tm_begin, every version check of the skipped validation loop
      would pass, every read is valid, and any other holder of a stripe that was read is still
      locking: it will take a later version. */
  lemma ShortcutSound(s: State, t: Tid)
    requires Inv(s) && s.gvc < VERSION_LIMIT && t in s.txs && s.txs[t].pc == LockLoad({})
    requires s.txs[t].rv + 1 == s.gvc + 1
    ensures var s' := Increment(s, t, s.txs[t]); AllValidated(s', t, s'.txs[t], {})
    ensures forall l: Stripe :: s.locks[l].version <= s.txs[t].rv
    ensures forall i :: 0 <= i < |s.txs[t].log| && FromMemory(s.txs[t].log[i]) ==>
              var l := StripeOf(s.txs[t].log[i].addr);
              l in s.owner && s.owner[l] != t ==> s.txs[s.owner[l]].wv == 0
  {
    var tx := s.txs[t];
    assert TxOk(s, t, tx);
    AllVersionsBounded(s);
    assert LogOk(s, tx.rv, tx.log);
    IncrementPlain(s, t, tx);
    assert forall l: Stripe :: s.locks[l].version <= s.gvc;
    forall i | 0 <= i < |tx.log| && FromMemory(tx.log[i])
      ensures var l := StripeOf(tx.log[i].addr);
              l in s.owner && s.owner[l] != t ==> s.txs[s.owner[l]].wv == 0
    {
      ShortcutHolder(s, t, i);
    }
    hide Inv, TxOk, LogOk, ReadOk, LocksOk, CommitsOk, VersionsBounded, AllValidated, Rely, Increment;
    IncrementRely(s, t);
    ShortcutValid(s, Increment(s, t, tx), t, tx, Increment(s, t, tx).txs[t]);
  }

  lemma ShortcutHolder(s: State, t: Tid, i: nat)
    requires Inv(s) && t in s.txs && s.txs[t].rv == s.gvc
    requires i < |s.txs[t].log| && FromMemory(s.txs[t].log[i])
    ensures var l := StripeOf(s.txs[t].log[i].addr);
            l in s.owner && s.owner[l] != t ==> s.txs[s.owner[l]].wv == 0
  {
    assert TxOk(s, t, s.txs[t]);
    assert ReadOk(s, s.txs[t].rv, s.txs[t].log[i]);
  }

  /** Every test of the validation loop would pass. */
  predicate LoopPasses(s: State, tx: Tx) {
    forall a :: a in tx.readSet ==>
      (StripeOf(a) in tx.held || !s.locks[StripeOf(a)].locked) && s.locks[StripeOf(a)].version <= tx.rv
  }

  /** Exactly when the shortcut decides as the skipped loop would: when nobody else holds a stripe that was read. */
  lemma ShortcutAgreesIff(states: seq<State>, labels: seq<Label>, i: nat, t: Tid)
    requires IsTameRun(states, labels) && i < |states| && t in states[i].txs
    requires states[i].txs[t].pc == LockLoad({}) && states[i].txs[t].rv == states[i].gvc
    ensures LoopPasses(states[i], states[i].txs[t]) <==>
              forall a :: a in states[i].txs[t].readSet ==>
                StripeOf(a) in states[i].txs[t].held || !states[i].locks[StripeOf(a)].locked
  {
    RunInv(states, labels, i);
    ShortcutSound(states[i], t);
  }

  // ---- Locks ----

  /** A stripe's lock bit is set iff a transaction holds it, and then exactly one does; versions stay
      within the clock and below the write versions of their holders. */
  lemma LockInvariant(states: seq<State>, labels: seq<Label>, i: nat, l: Stripe)
    requires IsTameRun(states, labels) && i < |states|
    ensures var s := states[i];
            && (s.locks[l].locked <==> exists t :: t in s.txs && Holds(s.txs[t], l))
            && (forall t, u :: t in s.txs && u in s.txs && Holds(s.txs[t], l) && Holds(s.txs[u], l) ==> t == u)
            && s.locks[l].version <= s.gvc
            && (forall t :: t in s.txs && Holds(s.txs[t], l) && s.txs[t].wv != 0 ==>
                  s.locks[l].version < s.txs[t].wv)
  {
    RunInv(states, labels, i);
    var s := states[i];
    forall t | t in s.txs
      ensures Own(s, t, l) <==> Holds(s.txs[t], l)
    {
      assert TxOk(s, t, s.txs[t]);
    }
    if l in s.owner {
      assert Own(s, s.owner[l], l);
      assert OwnerAbove(s, l);
    }
  }

  /** Only the holder of a stripe changes a locked word, and versions never decrease. */
  lemma OnlyHolderReleases(s: State, t: Tid, e: Event, s': State, l: Stripe)
    requires Inv(s) && Tame(s) && Step(s, t, e) == Some(s')
    ensures s.locks[l].version <= s'.locks[l].version
    ensures s.locks[l].locked && s'.locks[l] != s.locks[l] ==> t in s.txs && Holds(s.txs[t], l)
  {
    if t in s.txs {
      StepShape(s, t, e, s');
      if IsSharedStep(s, t, s') {
        SharedLocks(s, t, s', l);
      }
    }
  }

  /** Other than by releasing, a step changes a lock word only by taking a free stripe. */
  lemma SharedKeepsLocks(s: State, t: Tid, s': State, l: Stripe)
    requires t in s.txs && IsSharedStep(s, t, s') && !s.txs[t].pc.Release? && !s.txs[t].pc.UnlockStore?
    ensures s'.locks[l] == s.locks[l] || (!s.locks[l].locked && s'.locks[l] == s.locks[l].(locked := true))
  {
  }

  lemma SharedLocks(s: State, t: Tid, s': State, l: Stripe)
    requires Inv(s) && Tame(s) && t in s.txs && IsSharedStep(s, t, s')
    ensures s.locks[l].version <= s'.locks[l].version
    ensures s.locks[l].locked && s'.locks[l] != s.locks[l] ==> Holds(s.txs[t], l)
  {
    if s.txs[t].pc.Release? {
      assert TxOk(s, t, s.txs[t]);
      SetVersionGivesBack(s, t);
    } else if s.txs[t].pc.UnlockStore? {
      assert TxOk(s, t, s.txs[t]);
      UnlockGivesBack(s, t);
    } else {
      hide Inv, Tame, IsSharedStep;
      SharedKeepsLocks(s, t, s', l);
    }
  }

  lemma SharedVersions(s: State, t: Tid, s': State, l: Stripe)
    requires LocksOk(s) && Tame(s) && t in s.txs && TxOk(s, t, s.txs[t]) && IsSharedStep(s, t, s')
    requires !InWriteBack(s.txs[t].pc)
    ensures s'.locks[l].version == s.locks[l].version
    ensures s.txs[t].pc.UnlockStore? && s.txs[t].pc.l == l ==> s'.locks[l] == s.locks[l].(locked := false)
  {
    if s.txs[t].pc.UnlockStore? {
      assert s.locks[s.txs[t].pc.l].version <= s.gvc;
    }
  }

  // ---- Aborts ----

  /** A transaction that has not decided to commit changes no word of memory, no version and not the
      region's list; when it gives a stripe back, the word is the one it found, unlocked. */
  lemma UndecidedIsInvisible(s: State, t: Tid, e: Event, s': State, l: Stripe)
    requires Inv(s) && Tame(s) && t in s.txs && Step(s, t, e) == Some(s') && !InWriteBack(s.txs[t].pc)
    ensures s'.mem == s.mem && s'.region == s.region
    ensures s'.locks[l].version == s.locks[l].version
    ensures s.txs[t].pc.UnlockStore? && s.txs[t].pc.l == l ==> s'.locks[l] == s.locks[l].(locked := false)
  {
    StepShape(s, t, e, s');
    assert TxOk(s, t, s.txs[t]);
    if IsSharedStep(s, t, s') {
      SharedVersions(s, t, s', l);
      SharedMemory(s, t, s');
    }
  }

  lemma SharedMemory(s: State, t: Tid, s': State)
    requires t in s.txs && IsSharedStep(s, t, s') && !InWriteBack(s.txs[t].pc)
    ensures s'.mem == s.mem && s'.region == s.region
  {
  }

  /** An aborted transaction has no commit, no lock and no segment in its list. */
  lemma AbortedHoldsNothing(states: seq<State>, labels: seq<Label>, i: nat, t: Tid)
    requires IsTameRun(states, labels) && i < |states| && t in states[i].txs && states[i].txs[t].pc.Aborted?
    ensures forall k :: k in states[i].commits ==> states[i].commits[k].tid != t
    ensures forall l: Stripe :: !Own(states[i], t, l)
    ensures states[i].txs[t].segs == {}
  {
    RunInv(states, labels, i);
    var s := states[i];
    assert TxOk(s, t, s.txs[t]);
    forall l: Stripe
      ensures !Own(s, t, l)
    {
      assert Own(s, t, l) <==> Holds(s.txs[t], l);
    }
    FinishedSegments(states, labels, i, t);
  }

  lemma {:induction false} FinishedSegments(states: seq<State>, labels: seq<Label>, i: nat, t: Tid)
    requires IsRun(states, labels) && i < |states| && t in states[i].txs && Finished(states[i].txs[t].pc)
    requires forall k :: 0 <= k < |states| ==> states[k].gvc < VERSION_LIMIT
    ensures states[i].txs[t].segs == {}
  {
    hide Step;
    if i > 0 {
      var l := labels[i - 1];
      assert Step(states[i - 1], l.t, l.e) == Some(states[i]);
      StepModerate(states[i - 1], l.t, l.e, states[i], t);
      if t in states[i - 1].txs && Finished(states[i - 1].txs[t].pc) {
        FinishedSegments(states, labels, i - 1, t);
      }
    }
  }

  // ---- The stripe hypothesis ----

  /** A write set that lies in a window of fewer than NUM_LOCKS bytes never shares a stripe. */
  lemma WindowIsInjective(addrs: set<Addr>, base: Addr)
    requires forall a :: a in addrs ==> base <= a < base + NUM_LOCKS
    ensures StripeInjective(addrs)
  {
    forall a, b | a in addrs && b in addrs && StripeOf(a) == StripeOf(b)
      ensures a == b
    {
      assert a % NUM_LOCKS == b % NUM_LOCKS;
      assert a == NUM_LOCKS * (a / NUM_LOCKS) + a % NUM_LOCKS;
      assert b == NUM_LOCKS * (b / NUM_LOCKS) + b % NUM_LOCKS;
    }
  }
}
