/** Reads of words that share one stripe: at most the last of them is not calm, and it differs from the snapshot
    of the others by its own word alone. */
module StripeReads {
  import opened Options
  import opened Tl2
  import opened Tl2Invariant
  import opened SingleReads

  // ---- A read that differs from the snapshot by its own word ----

  /** Between `rv` and `v` no other word of the stripe was written. */
  ghost predicate NoOther(s: State, rv: nat, v: nat, a: Addr) {
    forall k: nat, b: Addr :: Writes(s.commits, k, b) && rv < k <= v && StripeOf(b) == StripeOf(a) ==> b == a
  }

  ghost predicate SeenAloneAt(s: State, rv: nat, v: nat, a: Addr, x: Val) {
    rv <= v && SeenAt(s, v, a, x) && NoOther(s, rv, v, a)
  }

  ghost predicate SeenAlone(s: State, rv: nat, a: Addr, x: Val) {
    exists v: nat :: SeenAloneAt(s, rv, v, a, x)
  }

  lemma NoOtherStable(s: State, s': State, r: Tid, rv: nat, v: nat, a: Addr)
    requires Inv(s) && Rely(s, s', r) && v <= s.gvc && Sealed(s, v, a) && NoOther(s, rv, v, a)
    ensures NoOther(s', rv, v, a)
  {
    assert forall k :: k in s.commits ==> k in s'.commits && s'.commits[k] == s.commits[k];
    hide Inv, Rely;
    forall k: nat, b: Addr | Writes(s'.commits, k, b) && rv < k <= v && StripeOf(b) == StripeOf(a)
      ensures b == a
    {
      if k !in s.commits {
        assert Sealed(s, v, b);
        NothingNew(s, s', r, v, b, k);
      } else {
        assert Writes(s.commits, k, b);
      }
    }
  }

  lemma SeenAloneStable(s: State, s': State, r: Tid, rv: nat, a: Addr, x: Val)
    requires Inv(s) && Rely(s, s', r) && SeenAlone(s, rv, a, x)
    ensures SeenAlone(s', rv, a, x)
  {
    var v: nat :| SeenAloneAt(s, rv, v, a, x);
    NoOtherStable(s, s', r, rv, v, a);
    SeenAtStable(s, s', r, v, a, x);
    assert SeenAloneAt(s', rv, v, a, x);
  }

  /** Who wrote to the stripe after `rv`, if its version is not above `rv`: its owner. */
  lemma OnlyOwnerWrote(s: State, rv: nat, l: Stripe, k: nat, b: Addr)
    requires Inv(s) && s.locks[l].version <= rv < k && Writes(s.commits, k, b) && StripeOf(b) == l
    ensures l in s.owner && s.commits[k].tid == s.owner[l] && s.owner[l] in s.txs && s.txs[s.owner[l]].wv == k
    ensures InWriteBack(s.txs[s.owner[l]].pc) && b in s.txs[s.owner[l]].writeSet
  {
    assert Settled(s, k, b);
    var t := s.commits[k].tid;
    assert TxOk(s, t, s.txs[t]) && Own(s, t, l) && Holds(s.txs[t], l);
  }

  /** The word of the stripe that its owner has copied back already. */
  predicate CopiedBack(s: State, a: Addr) {
    && StripeOf(a) in s.owner && s.owner[StripeOf(a)] in s.txs
    && var o := s.txs[s.owner[StripeOf(a)]];
       InWriteBack(o.pc) && a in o.writeSet && a !in o.pc.todo
  }

  lemma CopySeesAlone(s: State, rv: nat, a: Addr)
    requires Inv(s) && InjectiveWrites(s) && rv <= s.gvc && Clean(s, StripeOf(a), rv)
    requires s.locks[StripeOf(a)].version <= rv
    ensures SeenAlone(s, rv, a, Get(s.mem, a))
  {
    var l, bound := StripeOf(a), Bound(s, a);
    assert Get(s.mem, a) == ValueAt(s, bound, a);
    if CopiedBack(s, a) {
      CopiedSeesAlone(s, rv, a);
    } else {
      assert rv <= bound by {
        if Pending(s, a) {
          assert TxOk(s, s.owner[l], s.txs[s.owner[l]]);
        }
      }
      forall k | rv < k <= bound
        ensures !Writes(s.commits, k, a)
      {
        if Writes(s.commits, k, a) {
          OnlyOwnerWrote(s, rv, l, k, a);
        }
      }
      StateAtSkip(s.commits, rv, bound, a);
      assert SeenAloneAt(s, rv, rv, a, Get(s.mem, a));
    }
  }

  lemma CopiedSeesAlone(s: State, rv: nat, a: Addr)
    requires Inv(s) && InjectiveWrites(s) && rv <= s.gvc && Clean(s, StripeOf(a), rv)
    requires s.locks[StripeOf(a)].version <= rv && CopiedBack(s, a)
    ensures SeenAlone(s, rv, a, Get(s.mem, a))
  {
    var l := StripeOf(a);
    assert Bound(s, a) == s.gvc;
    assert Get(s.mem, a) == ValueAt(s, s.gvc, a);
    assert Sealed(s, s.gvc, a);
    forall k: nat, b: Addr | Writes(s.commits, k, b) && rv < k <= s.gvc && StripeOf(b) == l
      ensures b == a
    {
      OnlyOwnerWrote(s, rv, l, k, b);
      assert StripeInjective(s.txs[s.owner[l]].writeSet.Keys);
    }
    assert SeenAloneAt(s, rv, s.gvc, a, Get(s.mem, a));
  }

  // ---- In every run ----

  predicate Ahead(s: State, rv: nat, a: Addr) {
    s.locks[StripeOf(a)].version > rv
  }

  predicate FromBuffer(tx: Tx, a: Addr) {
    !tx.ro && a in tx.writeSet
  }

  /** Reads so far, and the one in flight: once its stripe is ahead of the snapshot it will be refused. */
  ghost predicate TxAlone(s: State, tx: Tx) {
    && (forall i :: 0 <= i < |tx.log| && FromMemory(tx.log[i]) ==>
          SeenAlone(s, tx.rv, tx.log[i].addr, tx.log[i].val))
    && match tx.pc
       case PostVersion(a, _, x) => FromBuffer(tx, a) || SeenAlone(s, tx.rv, a, x) || Ahead(s, tx.rv, a)
       case PostLock(a, v, nv, x) => FromBuffer(tx, a) || SeenAlone(s, tx.rv, a, x) || nv > tx.rv
       case _ => true
  }

  /** Nothing uncalm was read on the stripe of `a`. */
  predicate CalmOn(log: Log, a: Addr) {
    forall i :: 0 <= i < |log| && FromMemory(log[i]) && StripeOf(log[i].addr) == StripeOf(a) ==> log[i].calm
  }

  /** Before a read that was not calm all reads on its stripe were, and after it there is none. */
  ghost predicate CalmBefore(log: Log) {
    forall j :: 0 <= j < |log| && FromMemory(log[j]) ==> CalmOn(log[..j], log[j].addr)
  }

  /** A read that passed its first version check is on a stripe without uncalm reads. */
  predicate TxOrdered(tx: Tx) {
    match tx.pc
    case PreLock(a, v) => v <= tx.rv ==> CalmOn(tx.log, a)
    case Copy(a, _) => CalmOn(tx.log, a)
    case PostVersion(a, _, _) => CalmOn(tx.log, a)
    case PostLock(a, _, _, _) => CalmOn(tx.log, a)
    case _ => true
  }

  ghost predicate TxGuarded(s: State, tx: Tx) {
    TxAlone(s, tx) && TxOrdered(tx) && CalmBefore(tx.log)
  }

  ghost predicate AllGuarded(s: State) {
    forall t :: t in s.txs ==> TxGuarded(s, s.txs[t])
  }

  lemma TxGuardedStable(s: State, s': State, r: Tid, tx: Tx)
    requires Inv(s) && Rely(s, s', r) && TxGuarded(s, tx)
    ensures TxGuarded(s', tx)
  {
    assert forall l: Stripe :: s.locks[l].version <= s'.locks[l].version;
    hide Inv, Rely, SeenAlone;
    forall i | 0 <= i < |tx.log| && FromMemory(tx.log[i])
      ensures SeenAlone(s', tx.rv, tx.log[i].addr, tx.log[i].val)
    {
      SeenAloneStable(s, s', r, tx.rv, tx.log[i].addr, tx.log[i].val);
    }
    if (tx.pc.PostVersion? || tx.pc.PostLock?) && SeenAlone(s, tx.rv, tx.pc.addr, tx.pc.x) {
      SeenAloneStable(s, s', r, tx.rv, tx.pc.addr, tx.pc.x);
    }
  }

  /** An uncalm read has left its stripe ahead of the snapshot. */
  lemma UncalmIsAhead(s: State, t: Tid, a: Addr)
    requires Inv(s) && t in s.txs && !Ahead(s, s.txs[t].rv, a)
    ensures CalmOn(s.txs[t].log, a)
  {
    var tx := s.txs[t];
    assert TxOk(s, t, tx);
    forall i | 0 <= i < |tx.log| && FromMemory(tx.log[i]) && StripeOf(tx.log[i].addr) == StripeOf(a)
      ensures tx.log[i].calm
    {
      assert ReadOk(s, tx.rv, tx.log[i]);
    }
  }

  lemma LoadGuarded(s: State, t: Tid, e: Event, tx': Tx)
    requires Inv(s) && t in s.txs && TxGuarded(s, s.txs[t]) && s.txs[t].pc.PreVersion?
    requires Private(s, s.txs[t], e) == Some(tx')
    ensures TxGuarded(s, tx')
  {
    hide Inv, SeenAlone, CalmBefore, CalmOn;
    if !Ahead(s, s.txs[t].rv, s.txs[t].pc.addr) {
      UncalmIsAhead(s, t, s.txs[t].pc.addr);
    }
  }

  lemma CopyGuarded(s: State, t: Tid, e: Event, tx': Tx)
    requires Inv(s) && InjectiveWrites(s) && t in s.txs && TxGuarded(s, s.txs[t]) && s.txs[t].pc.Copy?
    requires Private(s, s.txs[t], e) == Some(tx')
    ensures TxGuarded(s, tx')
  {
    var tx := s.txs[t];
    var a := tx.pc.addr;
    assert TxOk(s, t, tx);
    assert tx.rv <= s.gvc && Clean(s, StripeOf(a), tx.rv);
    hide Inv, TxOk, SeenAlone, InjectiveWrites, CalmBefore, CalmOn;
    if !FromBuffer(tx, a) && !Ahead(s, tx.rv, a) {
      CopySeesAlone(s, tx.rv, a);
    }
  }

  /** Any other private step: it reads nothing. */
  lemma OtherGuarded(s: State, tx: Tx, e: Event, tx': Tx)
    requires TxGuarded(s, tx) && !tx.pc.PreVersion? && !tx.pc.Copy? && !tx.pc.PostLock?
    requires Private(s, tx, e) == Some(tx')
    ensures TxGuarded(s, tx')
  {
    hide SeenAlone, CalmOn;
    if tx.pc.Body? && e.CallWrite? {
      hide CalmBefore;
      LogGrows(tx.log, tx'.log);
      forall i | 0 <= i < |tx'.log| && FromMemory(tx'.log[i])
        ensures SeenAlone(s, tx'.rv, tx'.log[i].addr, tx'.log[i].val)
      {
        assert i < |tx.log| && tx'.log[i] == tx.log[i];
      }
    } else {
      OtherKeepsLog(s, tx, e, tx');
      hide CalmBefore, Private;
    }
  }

  lemma OtherKeepsLog(s: State, tx: Tx, e: Event, tx': Tx)
    requires !tx.pc.PostLock? && !(tx.pc.Body? && e.CallWrite?) && Private(s, tx, e) == Some(tx')
    ensures tx'.log == tx.log && tx'.rv == tx.rv && tx'.ro == tx.ro && tx'.writeSet == tx.writeSet
    ensures tx'.pc.PreLock? ==> tx.pc.PreVersion?
    ensures tx'.pc.Copy? ==> tx.pc.PreLock? && tx.pc.addr == tx'.pc.addr && tx.pc.v <= tx.rv
    ensures tx'.pc.PostVersion? ==> tx.pc.Copy?
    ensures tx'.pc.PostLock? ==> tx.pc.PostVersion? && tx.pc.addr == tx'.pc.addr && tx.pc.x == tx'.pc.x
                                 && tx'.pc.nv == s.locks[StripeOf(tx.pc.addr)].version
  {
  }

  /** The mover's own record after a private step. */
  lemma PrivateGuarded(s: State, t: Tid, e: Event, tx': Tx)
    requires Inv(s) && InjectiveWrites(s) && t in s.txs && TxGuarded(s, s.txs[t])
    requires Private(s, s.txs[t], e) == Some(tx')
    ensures TxGuarded(s, tx')
  {
    assert TxOk(s, t, s.txs[t]);
    assert s.txs[t].pc.PostLock? ==> s.txs[t].pc.v <= s.txs[t].rv;
    hide Inv, TxOk, TxGuarded, InjectiveWrites, Private;
    match s.txs[t].pc
    case PreVersion(_) => LoadGuarded(s, t, e, tx');
    case Copy(_, _) => CopyGuarded(s, t, e, tx');
    case PostLock(_, _, _, _) => AcceptGuarded(s, s.txs[t], e, tx');
    case _ => OtherGuarded(s, s.txs[t], e, tx');
  }

  lemma LogGrows(log: Log, log': Log)
    requires CalmBefore(log) && |log'| == |log| + 1 && log'[..|log|] == log
    requires FromMemory(log'[|log|]) ==> CalmOn(log, log'[|log|].addr)
    ensures CalmBefore(log')
  {
    forall j | 0 <= j < |log'| && FromMemory(log'[j])
      ensures CalmOn(log'[..j], log'[j].addr)
    {
      if j < |log| {
        assert log'[..j] == log[..j] && log'[j] == log[j];
      }
    }
  }

  lemma AcceptGuarded(s: State, tx: Tx, e: Event, tx': Tx)
    requires TxGuarded(s, tx) && tx.pc.PostLock? && Private(s, tx, e) == Some(tx') && tx.pc.v <= tx.rv
    ensures TxGuarded(s, tx')
  {
    hide SeenAlone;
    if tx'.pc.Body? {
      LogGrows(tx.log, tx'.log);
      forall i | 0 <= i < |tx'.log| && FromMemory(tx'.log[i])
        ensures SeenAlone(s, tx'.rv, tx'.log[i].addr, tx'.log[i].val)
      {
        assert i < |tx.log| ==> tx'.log[i] == tx.log[i];
      }
    }
  }

  lemma SharedGuarded(s: State, t: Tid, s': State)
    requires t in s.txs && TxGuarded(s, s.txs[t]) && IsSharedStep(s, t, s')
    ensures t in s'.txs && TxGuarded(s, s'.txs[t])
  {
    SharedStepFrame(s, t, s');
    hide IsSharedStep, SeenAlone;
  }

  lemma StepGuarded(s: State, t: Tid, e: Event, s': State)
    requires Inv(s) && Tame(s) && AllGuarded(s) && Step(s, t, e) == Some(s')
    ensures AllGuarded(s')
  {
    StepRely(s, t, e, s');
    assert forall u :: u in s'.txs && u != t ==> u in s.txs && s'.txs[u] == s.txs[u];
    if t in s.txs {
      StepShape(s, t, e, s');
      hide Step, Inv, Rely, TxGuarded;
      if IsSharedStep(s, t, s') {
        SharedGuarded(s, t, s');
      } else {
        PrivateGuarded(s, t, e, s'.txs[t]);
      }
      TxGuardedStable(s, s', t, s'.txs[t]);
    } else {
      assert TxGuarded(s', s'.txs[t]);
    }
    hide Step, Inv, Tame, Rely, TxGuarded;
    forall u | u in s'.txs
      ensures TxGuarded(s', s'.txs[u])
    {
      if u != t {
        TxGuardedStable(s, s', t, s.txs[u]);
      }
    }
  }

  lemma {:induction false} RunGuarded(states: seq<State>, labels: seq<Label>, i: nat)
    requires IsTameRun(states, labels) && i < |states|
    ensures AllGuarded(states[i])
  {
    if i > 0 {
      RunGuarded(states, labels, i - 1);
      RunInv(states, labels, i - 1);
      var l := labels[i - 1];
      assert Step(states[i - 1], l.t, l.e) == Some(states[i]);
      StepGuarded(states[i - 1], l.t, l.e, states[i]);
    }
  }

  // ---- One stripe is one snapshot ----

  /** No word is read from memory twice. */
  ghost predicate ReadsOnce(log: Log) {
    forall i, j :: 0 <= i < j < |log| && FromMemory(log[i]) && FromMemory(log[j]) ==> log[i].addr != log[j].addr
  }

  /** All that was read on the stripe `l` is what version `v` has there. */
  ghost predicate StripeFrom(s: State, log: Log, l: Stripe, v: nat) {
    forall i :: 0 <= i < |log| && FromMemory(log[i]) && StripeOf(log[i].addr) == l ==>
      log[i].val == ValueAt(s, v, log[i].addr)
  }

  /** In every tame run, what a transaction has read on any one stripe, no word twice, is one committed state no older
      than its begin and no newer than now, calm or not. */
  lemma StripeIsASnapshot(states: seq<State>, labels: seq<Label>, i: nat, t: Tid, l: Stripe) returns (v: nat)
    requires IsTameRun(states, labels) && i < |states| && t in states[i].txs && ReadsOnce(states[i].txs[t].log)
    ensures states[i].txs[t].rv <= v <= states[i].gvc && StripeFrom(states[i], states[i].txs[t].log, l, v)
  {
    var s, tx := states[i], states[i].txs[t];
    RunInv(states, labels, i);
    RunGuarded(states, labels, i);
    assert TxOk(s, t, tx) && TxGuarded(s, tx);
    v := tx.rv;
    if n: nat :| n < |tx.log| && FromMemory(tx.log[n]) && StripeOf(tx.log[n].addr) == l && !tx.log[n].calm {
      assert SeenAlone(s, tx.rv, tx.log[n].addr, tx.log[n].val);
      v :| SeenAloneAt(s, tx.rv, v, tx.log[n].addr, tx.log[n].val);
      OthersAgree(s, t, n, v);
    } else {
      forall j | 0 <= j < |tx.log| && FromMemory(tx.log[j]) && StripeOf(tx.log[j].addr) == l
        ensures tx.log[j].val == ValueAt(s, v, tx.log[j].addr)
      {
        assert tx.log[j].calm && ReadOk(s, tx.rv, tx.log[j]);
      }
    }
  }

  lemma OthersAgree(s: State, t: Tid, n: nat, v: nat)
    requires Inv(s) && t in s.txs && ReadsOnce(s.txs[t].log) && CalmBefore(s.txs[t].log)
    requires n < |s.txs[t].log| && FromMemory(s.txs[t].log[n]) && !s.txs[t].log[n].calm
    requires SeenAloneAt(s, s.txs[t].rv, v, s.txs[t].log[n].addr, s.txs[t].log[n].val)
    ensures StripeFrom(s, s.txs[t].log, StripeOf(s.txs[t].log[n].addr), v)
  {
    var tx := s.txs[t];
    var a := tx.log[n].addr;
    assert TxOk(s, t, tx);
    assert tx.log[n].val == ValueAt(s, v, a);
    hide Inv, SeenAt;
    forall j | 0 <= j < |tx.log| && FromMemory(tx.log[j]) && StripeOf(tx.log[j].addr) == StripeOf(a) && j != n
      ensures tx.log[j].val == ValueAt(s, v, tx.log[j].addr)
    {
      var b := tx.log[j].addr;
      OnlyLastUncalm(tx.log, n, j);
      assert ReadOk(s, tx.rv, tx.log[j]) && b != a;
      forall k: nat | tx.rv < k <= v
        ensures !Writes(s.commits, k, b)
      {
      }
      StateAtSkip(s.commits, tx.rv, v, b);
    }
  }

  lemma EarlierIsCalm(log: Log, i: nat, j: nat)
    requires CalmBefore(log) && i < j < |log| && FromMemory(log[i]) && FromMemory(log[j])
    requires StripeOf(log[i].addr) == StripeOf(log[j].addr)
    ensures log[i].calm
  {
    assert CalmOn(log[..j], log[j].addr) && log[..j][i] == log[i];
  }

  lemma OnlyLastUncalm(log: Log, n: nat, j: nat)
    requires CalmBefore(log) && n < |log| && j < |log| && j != n && FromMemory(log[n]) && FromMemory(log[j])
    requires StripeOf(log[j].addr) == StripeOf(log[n].addr) && !log[n].calm
    ensures log[j].calm
  {
    hide CalmBefore;
    EarlierIsCalm(log, if j < n then j else n, if j < n then n else j);
  }

  /** Only a transaction's last read on a stripe can be uncalm. */
  lemma UncalmIsLast(states: seq<State>, labels: seq<Label>, i: nat, t: Tid, n: nat, j: nat)
    requires IsTameRun(states, labels) && i < |states| && t in states[i].txs && n < j < |states[i].txs[t].log|
    requires FromMemory(states[i].txs[t].log[n]) && FromMemory(states[i].txs[t].log[j])
    requires StripeOf(states[i].txs[t].log[n].addr) == StripeOf(states[i].txs[t].log[j].addr)
    ensures states[i].txs[t].log[n].calm
  {
    RunGuarded(states, labels, i);
    assert TxGuarded(states[i], states[i].txs[t]);
    EarlierIsCalm(states[i].txs[t].log, n, j);
  }
}
