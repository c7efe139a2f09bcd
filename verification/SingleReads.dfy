/** What a read that the library accepted is worth on its own, calm or not: the word as some committed
    state had it, no older than the begin of the transaction and no newer than the read. */
module SingleReads {
  import opened Options
  import opened Tl2
  import opened Tl2Invariant
  import opened Serializability

  // ---- Values that stay what they are ----

  /** The value of `a` at version `v` is final: whoever holds its stripe will commit later, if at all,
      or has already decided. */
  predicate Sealed(s: State, v: nat, a: Addr) {
    StripeOf(a) in s.owner ==>
      && s.owner[StripeOf(a)] in s.txs
      && var o := s.txs[s.owner[StripeOf(a)]];
         o.wv == 0 || o.wv > v || InWriteBack(o.pc)
  }

  predicate SeenAt(s: State, v: nat, a: Addr, x: Val) {
    v <= s.gvc && x == ValueAt(s, v, a) && Sealed(s, v, a)
  }

  /** `x` is what `a` held in a committed state no older than `rv`. */
  ghost predicate Seen(s: State, rv: nat, a: Addr, x: Val) {
    exists v: nat :: rv <= v && SeenAt(s, v, a, x)
  }

  lemma SealedStable(s: State, s': State, r: Tid, v: nat, a: Addr)
    requires Rely(s, s', r) && v <= s.gvc && Sealed(s, v, a)
    ensures Sealed(s', v, a)
  {
    var l := StripeOf(a);
    if l in s'.owner && l in s.owner && s.owner[l] == r && s'.owner[l] == r && r in s.txs {
      assert Own(s, r, l) && Own(s', r, l);
    }
  }

  /** A step decides nothing at or below a sealed version. */
  lemma NothingNew(s: State, s': State, r: Tid, v: nat, a: Addr, k: nat)
    requires Inv(s) && Rely(s, s', r) && v <= s.gvc && Sealed(s, v, a)
    requires k in s'.commits && k !in s.commits && k <= v
    ensures a !in s'.commits[k].writes
  {
    assert TxOk(s, r, s.txs[r]);
    assert a in s'.commits[k].writes ==> Own(s, r, StripeOf(a));
  }

  lemma SeenAtStable(s: State, s': State, r: Tid, v: nat, a: Addr, x: Val)
    requires Inv(s) && Rely(s, s', r) && SeenAt(s, v, a, x)
    ensures SeenAt(s', v, a, x)
  {
    SealedStable(s, s', r, v, a);
    assert s.gvc <= s'.gvc && forall k :: k in s.commits ==> k in s'.commits && s'.commits[k] == s.commits[k];
    hide Inv, Rely, Sealed;
    forall k | k in s'.commits && k !in s.commits && k <= v
      ensures a !in s'.commits[k].writes
    {
      NothingNew(s, s', r, v, a, k);
    }
    StateAtAgree(s.commits, s'.commits, v, a);
  }

  /** A word copied while its stripe is clean was seen: either its writer is about to commit, and the word
      is what it was just before, or nobody is in the way of the present version. */
  lemma CopySees(s: State, rv: nat, a: Addr)
    requires Inv(s) && rv <= s.gvc && Clean(s, StripeOf(a), rv)
    ensures Seen(s, rv, a, Get(s.mem, a))
  {
    var l, b := StripeOf(a), Bound(s, a);
    assert Get(s.mem, a) == ValueAt(s, b, a);
    if l in s.owner && s.txs[s.owner[l]].wv > 0 && !InWriteBack(s.txs[s.owner[l]].pc) {
      var o := s.owner[l];
      var v := s.txs[o].wv - 1;
      assert TxOk(s, o, s.txs[o]) && OwnerAbove(s, l) && Own(s, o, l);
      assert !Decided(s.txs[o].pc) by {
        assert Holds(s.txs[o], l);
      }
      forall k | v < k <= b
        ensures !Writes(s.commits, k, a)
      {
        assert Writes(s.commits, k, a) ==> Settled(s, k, a);
      }
      StateAtSkip(s.commits, v, b, a);
      assert SeenAt(s, v, a, Get(s.mem, a));
    } else {
      if l in s.owner {
        assert TxOk(s, s.owner[l], s.txs[s.owner[l]]);
      }
      assert SeenAt(s, b, a, Get(s.mem, a));
    }
  }

  // ---- In every run ----

  /** What a transaction has read so far, finished reads and the one in flight. */
  ghost predicate TxSees(s: State, tx: Tx) {
    && (forall i :: 0 <= i < |tx.log| && FromMemory(tx.log[i]) ==> Seen(s, tx.rv, tx.log[i].addr, tx.log[i].val))
    && (tx.pc.PostVersion? && !(!tx.ro && tx.pc.addr in tx.writeSet) ==> Seen(s, tx.rv, tx.pc.addr, tx.pc.x))
    && (tx.pc.PostLock? && !(!tx.ro && tx.pc.addr in tx.writeSet) ==> Seen(s, tx.rv, tx.pc.addr, tx.pc.x))
  }

  ghost predicate AllSee(s: State) {
    forall t :: t in s.txs ==> TxSees(s, s.txs[t])
  }

  lemma SeenStable(s: State, s': State, r: Tid, rv: nat, a: Addr, x: Val)
    requires Inv(s) && Rely(s, s', r) && Seen(s, rv, a, x)
    ensures Seen(s', rv, a, x)
  {
    var v: nat :| rv <= v && SeenAt(s, v, a, x);
    SeenAtStable(s, s', r, v, a, x);
  }

  lemma TxSeesStable(s: State, s': State, r: Tid, tx: Tx)
    requires Inv(s) && Rely(s, s', r) && TxSees(s, tx)
    ensures TxSees(s', tx)
  {
    hide Inv, Rely, Seen;
    forall i | 0 <= i < |tx.log| && FromMemory(tx.log[i])
      ensures Seen(s', tx.rv, tx.log[i].addr, tx.log[i].val)
    {
      SeenStable(s, s', r, tx.rv, tx.log[i].addr, tx.log[i].val);
    }
    if tx.pc.PostVersion? && !(!tx.ro && tx.pc.addr in tx.writeSet) {
      SeenStable(s, s', r, tx.rv, tx.pc.addr, tx.pc.x);
    }
    if tx.pc.PostLock? && !(!tx.ro && tx.pc.addr in tx.writeSet) {
      SeenStable(s, s', r, tx.rv, tx.pc.addr, tx.pc.x);
    }
  }

  lemma CopyStepSees(s: State, t: Tid, e: Event, tx': Tx)
    requires Inv(s) && t in s.txs && TxSees(s, s.txs[t]) && s.txs[t].pc.Copy?
    requires Private(s, s.txs[t], e) == Some(tx')
    ensures TxSees(s, tx')
  {
    var tx := s.txs[t];
    assert TxOk(s, t, tx);
    if !(!tx.ro && tx.pc.addr in tx.writeSet) {
      CopySees(s, tx.rv, tx.pc.addr);
    }
  }

  /** The mover's own record after a private step. */
  lemma PrivateSees(s: State, t: Tid, e: Event, tx': Tx)
    requires Inv(s) && t in s.txs && TxSees(s, s.txs[t]) && Private(s, s.txs[t], e) == Some(tx')
    ensures TxSees(s, tx')
  {
    hide Inv, Seen;
    if s.txs[t].pc.Copy? {
      hide Private, TxSees;
      CopyStepSees(s, t, e, tx');
    }
  }

  lemma SharedSees(s: State, t: Tid, s': State)
    requires t in s.txs && TxSees(s, s.txs[t]) && IsSharedStep(s, t, s')
    ensures t in s'.txs && TxSees(s, s'.txs[t])
  {
    SharedStepFrame(s, t, s');
    hide IsSharedStep, Seen;
  }

  lemma StepSees(s: State, t: Tid, e: Event, s': State)
    requires Inv(s) && Tame(s) && AllSee(s) && Step(s, t, e) == Some(s')
    ensures AllSee(s')
  {
    StepRely(s, t, e, s');
    assert forall u :: u in s'.txs && u != t ==> u in s.txs && s'.txs[u] == s.txs[u];
    if t in s.txs {
      StepShape(s, t, e, s');
      hide Step, Inv, Tame, Rely, TxSees;
      if IsSharedStep(s, t, s') {
        SharedSees(s, t, s');
      } else {
        PrivateSees(s, t, e, s'.txs[t]);
      }
      TxSeesStable(s, s', t, s'.txs[t]);
    } else {
      assert TxSees(s', s'.txs[t]);
    }
    hide Step, Inv, Tame, Rely, TxSees;
    forall u | u in s'.txs
      ensures TxSees(s', s'.txs[u])
    {
      if u != t {
        TxSeesStable(s, s', t, s.txs[u]);
      }
    }
  }

  lemma {:induction false} RunSees(states: seq<State>, labels: seq<Label>, i: nat)
    requires IsTameRun(states, labels) && i < |states|
    ensures AllSee(states[i])
  {
    if i > 0 {
      RunSees(states, labels, i - 1);
      RunInv(states, labels, i - 1);
      var l := labels[i - 1];
      assert Step(states[i - 1], l.t, l.e) == Some(states[i]);
      StepSees(states[i - 1], l.t, l.e, states[i]);
    }
  }

  // ---- One read is a snapshot ----

  /** How many reads of a log were served from memory. */
  function MemReads(log: Log): nat {
    if log == [] then 0 else MemReads(log[..|log| - 1]) + if FromMemory(log[|log| - 1]) then 1 else 0
  }

  lemma {:induction false} SomeRead(log: Log, i: nat)
    requires i < |log| && FromMemory(log[i])
    ensures MemReads(log) >= 1
  {
    if i < |log| - 1 {
      SomeRead(log[..|log| - 1], i);
    }
  }

  lemma {:induction false} OnlyRead(log: Log, i: nat, j: nat)
    requires MemReads(log) <= 1 && i <= j < |log| && FromMemory(log[i]) && FromMemory(log[j])
    ensures i == j
  {
    var p := log[..|log| - 1];
    if j < |p| {
      OnlyRead(p, i, j);
    } else if i < |p| {
      SomeRead(p, i);
    }
  }

  /** All the transaction has done so far happened, in place, to one committed state between its begin and now. */
  ghost predicate SawOneState(s: State, t: Tid) {
    t in s.txs && exists v: nat :: s.txs[t].rv <= v <= s.gvc && InPlace(s.txs[t].log, StateAt(s.commits, v)).Some?
  }

  /** A read in a tame run, calm or not, returned what the word held in some committed state that is no older
      than the begin of the transaction and no newer than the read. */
  lemma ReadIsFresh(states: seq<State>, labels: seq<Label>, i: nat, t: Tid, n: nat) returns (v: nat)
    requires IsTameRun(states, labels) && i < |states| && t in states[i].txs
    requires n < |states[i].txs[t].log| && FromMemory(states[i].txs[t].log[n])
    ensures states[i].txs[t].rv <= v <= states[i].gvc
    ensures states[i].txs[t].log[n].val == ValueAt(states[i], v, states[i].txs[t].log[n].addr)
    ensures SeenAt(states[i], v, states[i].txs[t].log[n].addr, states[i].txs[t].log[n].val)
  {
    RunSees(states, labels, i);
    var s, op := states[i], states[i].txs[t].log[n];
    assert TxSees(s, s.txs[t]);
    v :| s.txs[t].rv <= v && SeenAt(s, v, op.addr, op.val);
  }

  lemma StepSeen(s: State, t: Tid, e: Event, s': State, v: nat, a: Addr, x: Val)
    requires Inv(s) && Tame(s) && Step(s, t, e) == Some(s') && SeenAt(s, v, a, x)
    ensures SeenAt(s', v, a, x)
  {
    hide Step, Inv, Tame, Rely, SeenAt;
    StepRely(s, t, e, s');
    SeenAtStable(s, s', t, v, a, x);
  }

  /** What a committed state held when it was read, it holds for ever. */
  lemma {:induction false} SeenForEver(states: seq<State>, labels: seq<Label>, i: nat, j: nat, v: nat, a: Addr, x: Val)
    requires IsTameRun(states, labels) && i <= j < |states| && SeenAt(states[i], v, a, x)
    ensures SeenAt(states[j], v, a, x)
  {
    hide Step, SeenAt, Inv, Tame;
    if i < j {
      SeenForEver(states, labels, i, j - 1, v, a, x);
      RunInv(states, labels, j - 1);
      var l := labels[j - 1];
      assert Step(states[j - 1], l.t, l.e) == Some(states[j]);
      StepSeen(states[j - 1], l.t, l.e, states[j], v, a, x);
    }
  }

  /** Hence a transaction that reads memory at most once saw a committed state, whatever its reads were. */
  lemma OneReadIsASnapshot(states: seq<State>, labels: seq<Label>, i: nat, t: Tid)
    requires IsTameRun(states, labels) && i < |states| && t in states[i].txs && MemReads(states[i].txs[t].log) <= 1
    ensures SawOneState(states[i], t)
  {
    var s, log := states[i], states[i].txs[t].log;
    RunInv(states, labels, i);
    assert TxOk(s, t, s.txs[t]);
    var v := s.txs[t].rv;
    if n: nat :| n < |log| && FromMemory(log[n]) {
      v := ReadIsFresh(states, labels, i, t, n);
      forall j | 0 <= j < |log| && FromMemory(log[j])
        ensures log[j].val == ValueAt(s, v, log[j].addr)
      {
        OnlyRead(log, if j < n then j else n, if j < n then n else j);
      }
    }
    BufferedIsInPlace(log, StateAt(s.commits, v));
  }
}
