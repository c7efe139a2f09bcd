/** The inductive invariant of the TL2 transition system and its preservation. */
module Tl2Invariant {
  import opened LockWord
  import opened Options
  import opened Tl2

  // ---- Vocabulary ----

  predicate Own(s: State, t: Tid, l: Stripe) {
    l in s.owner && s.owner[l] == t
  }

  /** The stripes that the program text says a transaction holds at its program counter. */
  predicate Holds(tx: Tx, l: Stripe) {
    match tx.pc
    case LockLoad(_) => l in tx.held
    case LockCas(_, _, _) => l in tx.held
    case Validate(_) => l in tx.held
    case ValidateVersion(_, _) => l in tx.held
    case WriteBack(todo) => l in Stripes(todo)
    case Release(todo, a) => l in Stripes(todo) || l == StripeOf(a)
    case UnlockLoad(locks) => l in locks
    case UnlockStore(locks, k, _) => l in locks || l == k
    case _ => false
  }

  /** No stripe is held, and no version is ahead of the clock. */
  ghost predicate Still(s: State) {
    forall l: Stripe :: !s.locks[l].locked && s.locks[l].version <= s.gvc
  }

  /** Whoever holds the stripe will commit, if at all, after version `v`. */
  predicate Clean(s: State, l: Stripe, v: nat) {
    l in s.owner ==> s.owner[l] in s.txs && (s.txs[s.owner[l]].wv == 0 || s.txs[s.owner[l]].wv > v)
  }

  /** Whoever else holds the stripe will commit, if at all, after `t`. */
  predicate NoEarlierOwner(s: State, t: Tid, wv: nat, l: Stripe) {
    l in s.owner && s.owner[l] != t ==>
      s.owner[l] in s.txs && (s.txs[s.owner[l]].wv == 0 || s.txs[s.owner[l]].wv > wv)
  }

  predicate Writes(c: map<nat, Commit>, k: nat, a: Addr) {
    k in c && a in c[k].writes
  }

  function ValueAt(s: State, v: nat, a: Addr): Val {
    Get(StateAt(s.commits, v), a)
  }

  /** A word copied from memory is the snapshot's, or its stripe was or will be given a version above `rv`. */
  predicate Fetched(s: State, rv: nat, a: Addr, x: Val) {
    && Clean(s, StripeOf(a), rv)
    && (|| x == ValueAt(s, rv, a)
        || s.locks[StripeOf(a)].version > rv
        || (StripeOf(a) in s.owner && s.owner[StripeOf(a)] in s.txs && InWriteBack(s.txs[s.owner[StripeOf(a)]].pc)))
  }

  predicate InWriteBack(pc: Pc) {
    pc.WriteBack? || pc.Release?
  }

  /** What a finished read from memory promises: the snapshot's value when the post-validation was
      calm; otherwise the stripe has moved past the snapshot. */
  predicate ReadOk(s: State, rv: nat, op: Op)
    requires op.Rd?
  {
    && Clean(s, StripeOf(op.addr), rv)
    && if op.calm then op.val == ValueAt(s, rv, op.addr) else s.locks[StripeOf(op.addr)].version > rv
  }

  /** The i-th call of `t` allocated `g`. */
  predicate Allocated(s: State, t: Tid, i: nat, g: Segment) {
    t in s.txs && i < |s.txs[t].log| && s.txs[t].log[i] == Al(g)
  }

  predicate FromMemory(op: Op) {
    op.Rd? && !op.buffered
  }

  ghost predicate LogOk(s: State, rv: nat, log: Log) {
    forall i :: 0 <= i < |log| && FromMemory(log[i]) ==> ReadOk(s, rv, log[i])
  }

  /** A validated read: nobody commits a write to its address between `rv` and `wv`, now or later,
      and its value is the snapshot's. */
  ghost predicate Validated(s: State, t: Tid, tx: Tx, op: Op)
    requires op.Rd?
  {
    && NoEarlierOwner(s, t, tx.wv, StripeOf(op.addr))
    && (forall k :: Writes(s.commits, k, op.addr) && tx.rv < k ==> tx.wv <= k)
    && op.calm && op.val == ValueAt(s, tx.rv, op.addr)
  }

  /** Every read from memory is validated, except those of addresses still to be looked at. */
  ghost predicate AllValidated(s: State, t: Tid, tx: Tx, todo: set<Addr>) {
    forall i :: 0 <= i < |tx.log| && FromMemory(tx.log[i]) && tx.log[i].addr !in todo ==>
      Validated(s, t, tx, tx.log[i])
  }

  /** Values served from the write set, and only those, are the transaction's own last writes. */
  predicate WellBuffered(log: Log) {
    log == [] ||
    (var p := log[..|log| - 1];
     && WellBuffered(p)
     && match log[|log| - 1]
        case Rd(a, x, b, _) => (b <==> a in WritesOf(p)) && (b ==> x == WritesOf(p)[a])
        case _ => true)
  }

  // ---- The invariant ----

  ghost predicate DecidedOk(s: State, t: Tid, tx: Tx) {
    && !tx.ro && tx.wv != 0
    && tx.wv in s.commits && s.commits[tx.wv] == Commit(t, tx.log, tx.writeSet)
    && AllValidated(s, t, tx, {})
  }

  predicate Reading(tx: Tx) {
    tx.wv == 0 && tx.held == {}
  }

  ghost predicate PcOk(s: State, t: Tid, tx: Tx) {
    match tx.pc
    case Body => Reading(tx)
    case PreVersion(_) => Reading(tx)
    case PreLock(_, _) => Reading(tx)
    case Copy(a, v) => Reading(tx) && v <= tx.rv && Clean(s, StripeOf(a), tx.rv)
    case PostVersion(a, v, x) => Reading(tx) && v <= tx.rv && InFlight(s, tx, a, x)
    case PostLock(a, v, nv, x) =>
      && Reading(tx) && v <= tx.rv && InFlight(s, tx, a, x)
      && (nv == v && !(!tx.ro && a in tx.writeSet) ==>
            s.locks[StripeOf(a)].version == v || s.locks[StripeOf(a)].version > tx.rv)
    case LockLoad(todo) =>
      !tx.ro && tx.wv == 0 && todo <= tx.writeSet.Keys && tx.held == Stripes(tx.writeSet.Keys - todo)
    case LockCas(todo, a, _) =>
      && !tx.ro && tx.wv == 0 && todo <= tx.writeSet.Keys && a in tx.writeSet && a !in todo
      && tx.held == Stripes(tx.writeSet.Keys - todo - {a})
    case Validate(todo) =>
      && !tx.ro && tx.wv != 0 && tx.held == Stripes(tx.writeSet.Keys) && tx.wv !in s.commits
      && AllValidated(s, t, tx, todo)
    case ValidateVersion(todo, b) =>
      && !tx.ro && tx.wv != 0 && tx.held == Stripes(tx.writeSet.Keys) && tx.wv !in s.commits
      && NoEarlierOwner(s, t, tx.wv, StripeOf(b))
      && AllValidated(s, t, tx, todo + {b})
    case WriteBack(todo) => DecidedOk(s, t, tx) && todo <= tx.writeSet.Keys
    case Release(todo, a) => DecidedOk(s, t, tx) && todo <= tx.writeSet.Keys && a in tx.writeSet && a !in todo
    case UnlockLoad(_) => !tx.ro
    case UnlockStore(locks, l, v) => !tx.ro && l !in locks && v == s.locks[l].version
    case Deleting(ok) => ok ==> tx.ro
    case Committed => tx.ro || DecidedOk(s, t, tx)
    case Aborted => true
  }

  ghost predicate InFlight(s: State, tx: Tx, a: Addr, x: Val) {
    if !tx.ro && a in tx.writeSet then x == tx.writeSet[a] else Fetched(s, tx.rv, a, x)
  }

  ghost predicate TxOk(s: State, t: Tid, tx: Tx) {
    && tx.rv <= s.gvc && tx.wv <= s.gvc && (tx.wv != 0 ==> tx.rv < tx.wv)
    && LogOk(s, tx.rv, tx.log)
    && WellBuffered(tx.log) && tx.writeSet == WritesOf(tx.log)
    && (tx.ro ==> tx.writeSet == map[] && tx.wv == 0)
    && (!tx.ro ==> forall i :: 0 <= i < |tx.log| && tx.log[i].Rd? ==> tx.log[i].addr in tx.readSet)
    && (forall l: Stripe :: Own(s, t, l) <==> Holds(tx, l))
    && PcOk(s, t, tx)
  }

  ghost predicate LocksOk(s: State) {
    && (forall l: Stripe :: s.locks[l].locked <==> l in s.owner)
    && (forall l: Stripe :: s.locks[l].version <= s.gvc)
    && (forall l: Stripe :: l in s.owner ==> s.owner[l] in s.txs && OwnerAbove(s, l))
  }

  predicate OwnerAbove(s: State, l: Stripe)
    requires l in s.owner && s.owner[l] in s.txs
  {
    var o := s.txs[s.owner[l]];
    o.wv == 0 || o.wv > s.locks[l].version
  }

  ghost predicate CommitsOk(s: State) {
    && (forall k :: k in s.commits ==>
          && 0 < k <= s.gvc
          && s.commits[k].tid in s.txs && s.txs[s.commits[k].tid].wv == k && Decided(s.txs[s.commits[k].tid].pc))
    && (forall k, a :: Writes(s.commits, k, a) ==> Settled(s, k, a))
    && (forall t, u :: t in s.txs && u in s.txs && s.txs[t].wv == s.txs[u].wv != 0 ==> t == u)
  }

  /** A committed write has reached its stripe's version, or its writer still holds the stripe. */
  predicate Settled(s: State, k: nat, a: Addr)
    requires k in s.commits
  {
    k <= s.locks[StripeOf(a)].version || Own(s, s.commits[k].tid, StripeOf(a))
  }

  /** The address belongs to a decided write set and was not copied back yet. */
  predicate Pending(s: State, a: Addr) {
    && StripeOf(a) in s.owner && s.owner[StripeOf(a)] in s.txs
    && (var pc := s.txs[s.owner[StripeOf(a)]].pc; InWriteBack(pc) && a in pc.todo)
  }

  function Bound(s: State, a: Addr): nat {
    if Pending(s, a) && s.txs[s.owner[StripeOf(a)]].wv > 0 then s.txs[s.owner[StripeOf(a)]].wv - 1 else s.gvc
  }

  ghost predicate MemOk(s: State) {
    forall a: Addr :: Get(s.mem, a) == ValueAt(s, Bound(s, a), a)
  }

  ghost predicate Shared(s: State) {
    LocksOk(s) && CommitsOk(s) && MemOk(s)
  }

  ghost predicate Inv(s: State) {
    && Shared(s)
    && forall t :: t in s.txs ==> TxOk(s, t, s.txs[t])
  }

  // ---- Committed states ----

  lemma {:induction false} StateAtSkip(c: map<nat, Commit>, v: nat, w: nat, a: Addr)
    requires v <= w
    requires forall k :: v < k <= w ==> !Writes(c, k, a)
    ensures Get(StateAt(c, v), a) == Get(StateAt(c, w), a)
    decreases w
  {
    if v < w {
      StateAtSkip(c, v, w - 1, a);
      assert !Writes(c, w, a);
    }
  }

  lemma {:induction false} StateAtAgree(c: map<nat, Commit>, d: map<nat, Commit>, v: nat, a: Addr)
    requires forall k :: k in c ==> k in d && d[k] == c[k]
    requires forall k :: k in d && k !in c && k <= v ==> a !in d[k].writes
    ensures Get(StateAt(c, v), a) == Get(StateAt(d, v), a)
  {
    if v > 0 {
      StateAtAgree(c, d, v - 1, a);
    }
  }

  // ---- What one step of `r` may do to the others ----

  ghost predicate Rely(s: State, s': State, r: Tid) {
    RelyTxs(s, s', r) && RelyLocks(s, s', r) && RelyCommits(s, s', r)
  }

  /** Nobody else's record changes; a write version is taken once, above every earlier clock value. */
  ghost predicate RelyTxs(s: State, s': State, r: Tid) {
    && s.gvc <= s'.gvc
    && (forall t :: t in s.txs ==> t in s'.txs)
    && (forall t :: t in s.txs && t != r ==> s'.txs[t] == s.txs[t])
    && (forall t :: t in s'.txs && t != r ==> t in s.txs)
    && (r in s.txs ==> RelyTx(s.txs[r], s'.txs[r], s.gvc))
  }

  /** Only r's stripes change hands, and stripes held by others are left alone. */
  ghost predicate RelyLocks(s: State, s': State, r: Tid)
    requires r in s.txs ==> r in s'.txs
  {
    && (forall l: Stripe :: s.locks[l].version <= s'.locks[l].version)
    && (forall l: Stripe :: s'.locks[l].version != s.locks[l].version ==>
          Own(s, r, l) && r in s.txs && s.txs[r].wv != 0 && s'.locks[l].version == s.txs[r].wv)
    && (forall l: Stripe :: l in s.owner && s.owner[l] != r ==>
          l in s'.owner && s'.owner[l] == s.owner[l] && s'.locks[l] == s.locks[l])
    && (forall l: Stripe :: l in s'.owner && s'.owner[l] != r ==> l in s.owner && s.owner[l] == s'.owner[l])
    && (forall l: Stripe :: l in s'.owner && l !in s.owner ==> s'.owner[l] in s'.txs && s'.txs[s'.owner[l]].wv == 0)
    && (forall l: Stripe :: ReleasedBy(s, s', r, l) ==> s'.locks[l].version > s.txs[r].wv - 1)
    && (forall l: Stripe :: Own(s, r, l) && Own(s', r, l) && r in s.txs && InWriteBack(s.txs[r].pc) ==>
          InWriteBack(s'.txs[r].pc))
  }

  /** Commits are added only by r, at its write version, to stripes it holds. */
  ghost predicate RelyCommits(s: State, s': State, r: Tid) {
    && (forall k :: k in s.commits ==> k in s'.commits && s'.commits[k] == s.commits[k])
    && (forall k :: k in s'.commits && k !in s.commits ==>
          && r in s.txs && k == s.txs[r].wv && k > s.txs[r].rv
          && forall a :: a in s'.commits[k].writes ==> Own(s, r, StripeOf(a)))
  }

  predicate ReleasedBy(s: State, s': State, r: Tid, l: Stripe) {
    Own(s, r, l) && l !in s'.owner && r in s.txs && InWriteBack(s.txs[r].pc)
  }

  predicate RelyTx(tx: Tx, tx': Tx, gvc: nat) {
    if tx.wv == 0 then tx'.wv == 0 || tx'.wv > gvc else tx'.wv == tx.wv
  }

  lemma SameLocksRely(s: State, s': State, r: Tid)
    requires s'.locks == s.locks && s'.owner == s.owner && (r in s.txs ==> r in s'.txs)
    requires r in s.txs && InWriteBack(s.txs[r].pc) ==> InWriteBack(s'.txs[r].pc) || forall l: Stripe :: !Own(s, r, l)
    ensures RelyLocks(s, s', r)
  {
  }

  lemma CleanStable(s: State, s': State, r: Tid, l: Stripe, v: nat)
    requires Rely(s, s', r) && Clean(s, l, v) && v <= s.gvc
    ensures Clean(s', l, v)
  {
  }

  /** If nobody holding the stripe can still commit at or below `v`, the value at `v` is final. */
  lemma ValueStable(s: State, s': State, r: Tid, v: nat, a: Addr)
    requires Rely(s, s', r) && Clean(s, StripeOf(a), v)
    ensures ValueAt(s', v, a) == ValueAt(s, v, a)
  {
    StateAtAgree(s.commits, s'.commits, v, a);
  }

  lemma FetchedStable(s: State, s': State, r: Tid, v: nat, a: Addr, x: Val)
    requires Rely(s, s', r) && Fetched(s, v, a, x) && v <= s.gvc
    requires WritersVersioned(s)
    ensures Fetched(s', v, a, x)
  {
    CleanStable(s, s', r, StripeOf(a), v);
    ValueStable(s, s', r, v, a);
    var l := StripeOf(a);
    if Own(s, r, l) && r in s.txs && InWriteBack(s.txs[r].pc) {
      if l !in s'.owner {
        assert ReleasedBy(s, s', r, l);
      } else {
        assert Own(s', r, l);
      }
    }
  }

  lemma LogStable(s: State, s': State, r: Tid, v: nat, log: Log)
    requires Rely(s, s', r) && LogOk(s, v, log) && v <= s.gvc
    ensures LogOk(s', v, log)
  {
    forall i | 0 <= i < |log| && FromMemory(log[i])
      ensures ReadOk(s', v, log[i])
    {
      CleanStable(s, s', r, StripeOf(log[i].addr), v);
      ValueStable(s, s', r, v, log[i].addr);
    }
  }

  lemma ValidatedStable(s: State, s': State, r: Tid, t: Tid, tx: Tx, tx': Tx, todo: set<Addr>)
    requires Rely(s, s', r) && AllValidated(s, t, tx, todo) && LogOk(s, tx.rv, tx.log)
    requires tx.rv < tx.wv <= s.gvc
    requires t in s.txs && s.txs[t] == tx
    requires tx'.rv == tx.rv && tx'.wv == tx.wv && tx'.log == tx.log
    ensures AllValidated(s', t, tx', todo)
  {
    forall i | 0 <= i < |tx.log| && FromMemory(tx.log[i]) && tx.log[i].addr !in todo
      ensures Validated(s', t, tx', tx.log[i])
    {
      var op := tx.log[i];
      assert Validated(s, t, tx, op) && ReadOk(s, tx.rv, op);
      ValueStable(s, s', r, tx.rv, op.addr);
      forall k | Writes(s'.commits, k, op.addr) && tx.rv < k
        ensures tx.wv <= k
      {
        if k in s.commits {
          assert Writes(s.commits, k, op.addr);
        }
      }
    }
  }

  // ---- Putting a step together ----

  /** Every transaction other than the one that moved keeps its part of the invariant. */
  lemma OthersKeep(s: State, s': State, r: Tid, t: Tid)
    requires Inv(s) && Rely(s, s', r) && t in s.txs && t != r
    ensures TxOk(s', t, s.txs[t])
  {
    var tx := s.txs[t];
    assert TxOk(s, t, tx);
    LogStable(s, s', r, tx.rv, tx.log);
    OwnStable(s, s', r, t, tx);
    WritersHaveVersions(s);
    OtherPcKeeps(s, s', r, t, tx);
  }

  lemma OwnStable(s: State, s': State, r: Tid, t: Tid, tx: Tx)
    requires Rely(s, s', r) && t != r
    requires forall l: Stripe :: Own(s, t, l) <==> Holds(tx, l)
    ensures forall l: Stripe :: Own(s', t, l) <==> Holds(tx, l)
  {
    forall l: Stripe
      ensures Own(s', t, l) <==> Holds(tx, l)
    {
      assert Own(s, t, l) <==> Holds(tx, l);
    }
  }

  ghost predicate WritersVersioned(s: State) {
    forall t :: t in s.txs && InWriteBack(s.txs[t].pc) ==> s.txs[t].wv != 0
  }

  lemma WritersHaveVersions(s: State)
    requires Inv(s)
    ensures WritersVersioned(s)
  {
    forall t | t in s.txs && InWriteBack(s.txs[t].pc)
      ensures s.txs[t].wv != 0
    {
      assert TxOk(s, t, s.txs[t]);
    }
  }

  lemma OtherPcKeeps(s: State, s': State, r: Tid, t: Tid, tx: Tx)
    requires Rely(s, s', r) && WritersVersioned(s) && t in s.txs && t != r && s.txs[t] == tx
    requires tx.rv <= s.gvc && tx.wv <= s.gvc && (tx.wv != 0 ==> tx.rv < tx.wv) && LogOk(s, tx.rv, tx.log)
    requires r in s.txs && s.txs[r].wv == tx.wv ==> tx.wv == 0
    requires forall l: Stripe :: Own(s, t, l) <==> Holds(tx, l)
    requires PcOk(s, t, tx)
    ensures PcOk(s', t, tx)
  {
    match tx.pc
    case Copy(a, v) =>
      CleanStable(s, s', r, StripeOf(a), tx.rv);
    case PostVersion(a, v, x) =>
      InFlightStable(s, s', r, tx, a, x);
    case PostLock(a, v, nv, x) =>
      InFlightStable(s, s', r, tx, a, x);
    case UnlockStore(locks, l, v) =>
      assert Holds(tx, l);
      assert Own(s, t, l);
    case Validate(todo) => ValidatedStable(s, s', r, t, tx, tx, todo);
    case ValidateVersion(todo, b) => ValidatedStable(s, s', r, t, tx, tx, todo + {b});
    case WriteBack(_) => DecidedStable(s, s', r, t, tx, tx);
    case Release(_, _) => DecidedStable(s, s', r, t, tx, tx);
    case Committed =>
      if !tx.ro {
        DecidedStable(s, s', r, t, tx, tx);
      }
    case _ =>
  }

  lemma DecidedStable(s: State, s': State, r: Tid, t: Tid, tx: Tx, tx': Tx)
    requires Rely(s, s', r) && t in s.txs && s.txs[t] == tx
    requires tx.rv <= s.gvc && tx.wv <= s.gvc && (tx.wv != 0 ==> tx.rv < tx.wv) && LogOk(s, tx.rv, tx.log)
    requires DecidedOk(s, t, tx)
    requires tx' == tx.(pc := tx'.pc, segs := tx'.segs)
    ensures DecidedOk(s', t, tx')
  {
    ValidatedStable(s, s', r, t, tx, tx', {});
  }

  lemma InFlightStable(s: State, s': State, r: Tid, tx: Tx, a: Addr, x: Val)
    requires Rely(s, s', r) && WritersVersioned(s) && InFlight(s, tx, a, x) && tx.rv <= s.gvc
    ensures InFlight(s', tx, a, x)
  {
    if tx.ro || a !in tx.writeSet {
      FetchedStable(s, s', r, tx.rv, a, x);
    }
  }

  lemma Assemble(s: State, s': State, r: Tid)
    requires Inv(s) && Rely(s, s', r) && Shared(s')
    requires r in s'.txs && TxOk(s', r, s'.txs[r])
    ensures Inv(s')
  {
    forall t | t in s'.txs
      ensures TxOk(s', t, s'.txs[t])
    {
      if t != r {
        OthersKeep(s, s', r, t);
      }
    }
  }

  /** What remains to show for the transaction that moved, when its log did not change. */
  lemma MoverKeeps(s: State, s': State, t: Tid, tx': Tx)
    requires t in s.txs && TxOk(s, t, s.txs[t]) && Rely(s, s', t)
    requires tx' == s.txs[t].(pc := tx'.pc, wv := tx'.wv, held := tx'.held, segs := tx'.segs)
    requires tx'.wv <= s'.gvc && (tx'.wv != 0 ==> tx'.rv < tx'.wv) && (tx'.ro ==> tx'.wv == 0)
    requires forall l: Stripe :: Own(s', t, l) <==> Holds(tx', l)
    requires PcOk(s', t, tx')
    ensures TxOk(s', t, tx')
  {
    LogStable(s, s', t, tx'.rv, tx'.log);
  }

  // ---- Private transitions ----

  /** A transition that changes nothing but the transaction's own record, outside write-back. */
  ghost predicate Quiet(s: State, t: Tid, tx': Tx) {
    t in s.txs && tx'.wv == s.txs[t].wv && !Decided(s.txs[t].pc) && !InWriteBack(tx'.pc)
  }

  lemma PutRely(s: State, t: Tid, tx': Tx)
    requires Quiet(s, t, tx')
    requires LocksOk(s)
    ensures Rely(s, Put(s, t, tx'), t)
    ensures LocksOk(Put(s, t, tx'))
  {
    SameLocksRely(s, Put(s, t, tx'), t);
  }

  lemma PutCommits(s: State, t: Tid, tx': Tx)
    requires Quiet(s, t, tx') && CommitsOk(s)
    ensures CommitsOk(Put(s, t, tx'))
  {
    var s' := Put(s, t, tx');
    forall k, a | Writes(s'.commits, k, a)
      ensures Settled(s', k, a)
    {
      assert Writes(s.commits, k, a) && Settled(s, k, a);
    }
    forall u, v | u in s'.txs && v in s'.txs && s'.txs[u].wv == s'.txs[v].wv != 0
      ensures u == v
    {
      assert s.txs[u].wv == s.txs[v].wv;
    }
  }

  lemma PutMem(s: State, t: Tid, tx': Tx)
    requires Quiet(s, t, tx') && MemOk(s)
    ensures MemOk(Put(s, t, tx'))
  {
    var s' := Put(s, t, tx');
    forall a: Addr
      ensures Get(s'.mem, a) == ValueAt(s', Bound(s', a), a)
    {
      assert Pending(s', a) == Pending(s, a);
      assert Bound(s', a) == Bound(s, a);
    }
  }

  lemma PutKeeps(s: State, t: Tid, tx': Tx)
    requires Inv(s) && Quiet(s, t, tx')
    requires TxOk(Put(s, t, tx'), t, tx')
    ensures Inv(Put(s, t, tx'))
  {
    PutRely(s, t, tx');
    PutCommits(s, t, tx');
    PutMem(s, t, tx');
    Assemble(s, Put(s, t, tx'), t);
  }

  /** Most private transitions only move the program counter. */
  lemma MovePc(s: State, t: Tid, pc': Pc)
    requires Inv(s) && t in s.txs && Quiet(s, t, s.txs[t].(pc := pc'))
    requires forall l: Stripe :: Holds(s.txs[t], l) <==> Holds(s.txs[t].(pc := pc'), l)
    requires PcOk(Put(s, t, s.txs[t].(pc := pc')), t, s.txs[t].(pc := pc'))
    ensures Inv(Put(s, t, s.txs[t].(pc := pc')))
  {
    var tx := s.txs[t];
    var tx' := tx.(pc := pc');
    var s' := Put(s, t, tx');
    assert TxOk(s, t, tx);
    PutRely(s, t, tx');
    LogStable(s, s', t, tx.rv, tx.log);
    forall l: Stripe
      ensures Own(s', t, l) <==> Holds(tx', l)
    {
      assert Own(s, t, l) <==> Holds(tx, l);
    }
    PutKeeps(s, t, tx');
  }

  // ---- tm_begin, tm_read, tm_write ----

  lemma StartRely(s: State, t: Tid, ro: bool)
    requires LocksOk(s) && t !in s.txs
    ensures Rely(s, Start(s, t, ro), t)
    ensures LocksOk(Start(s, t, ro))
  {
    SameLocksRely(s, Start(s, t, ro), t);
  }

  lemma StartCommits(s: State, t: Tid, ro: bool)
    requires CommitsOk(s) && t !in s.txs
    ensures CommitsOk(Start(s, t, ro))
  {
    var s' := Start(s, t, ro);
    forall k, a | Writes(s'.commits, k, a)
      ensures Settled(s', k, a)
    {
      assert Writes(s.commits, k, a) && Settled(s, k, a);
    }
  }

  lemma StartMem(s: State, t: Tid, ro: bool)
    requires LocksOk(s) && MemOk(s) && t !in s.txs
    ensures MemOk(Start(s, t, ro))
  {
    var s' := Start(s, t, ro);
    forall a: Addr
      ensures Get(s'.mem, a) == ValueAt(s', Bound(s', a), a)
    {
      assert Pending(s', a) == Pending(s, a);
      assert Bound(s', a) == Bound(s, a);
    }
  }

  lemma StartKeeps(s: State, t: Tid, ro: bool)
    requires Inv(s) && t !in s.txs
    ensures Inv(Start(s, t, ro))
  {
    StartRely(s, t, ro);
    StartCommits(s, t, ro);
    StartMem(s, t, ro);
    Assemble(s, Start(s, t, ro), t);
  }

  lemma PreLockKeeps(s: State, t: Tid, e: Event, tx': Tx)
    requires Inv(s) && t in s.txs && s.txs[t].pc.PreLock?
    requires Private(s, s.txs[t], e) == Some(tx')
    ensures Inv(Put(s, t, tx'))
  {
    assert TxOk(s, t, s.txs[t]);
    MovePc(s, t, tx'.pc);
  }

  /** The heart of the read protocol: a word copied while the stripe is clean. */
  lemma CopyFetches(s: State, rv: nat, a: Addr)
    requires Inv(s) && rv <= s.gvc && Clean(s, StripeOf(a), rv)
    ensures Fetched(s, rv, a, Get(s.mem, a))
  {
    var b := Bound(s, a);
    assert Get(s.mem, a) == ValueAt(s, b, a);
    if forall k :: rv < k <= b ==> !Writes(s.commits, k, a) {
      StateAtSkip(s.commits, rv, b, a);
    } else {
      var k :| rv < k <= b && Writes(s.commits, k, a);
      assert Settled(s, k, a);
      if Own(s, s.commits[k].tid, StripeOf(a)) {
        DecidedOwnerWritesBack(s, s.commits[k].tid, StripeOf(a));
      }
    }
  }

  lemma DecidedOwnerWritesBack(s: State, t: Tid, l: Stripe)
    requires Inv(s) && t in s.txs && Own(s, t, l) && Decided(s.txs[t].pc)
    ensures InWriteBack(s.txs[t].pc)
  {
    assert TxOk(s, t, s.txs[t]);
    assert Holds(s.txs[t], l);
  }

  lemma CopyKeeps(s: State, t: Tid, e: Event, tx': Tx)
    requires Inv(s) && t in s.txs && s.txs[t].pc.Copy?
    requires Private(s, s.txs[t], e) == Some(tx')
    ensures Inv(Put(s, t, tx'))
  {
    var tx := s.txs[t];
    assert TxOk(s, t, tx);
    WritersHaveVersions(s);
    CopyFetches(s, tx.rv, tx.pc.addr);
    PutRely(s, t, tx');
    InFlightStable(s, Put(s, t, tx'), t, tx, tx.pc.addr, tx'.pc.x);
    MovePc(s, t, tx'.pc);
  }

  lemma PostVersionKeeps(s: State, t: Tid, e: Event, tx': Tx)
    requires Inv(s) && t in s.txs && s.txs[t].pc.PostVersion?
    requires Private(s, s.txs[t], e) == Some(tx')
    ensures Inv(Put(s, t, tx'))
  {
    var tx := s.txs[t];
    assert TxOk(s, t, tx);
    WritersHaveVersions(s);
    PutRely(s, t, tx');
    InFlightStable(s, Put(s, t, tx'), t, tx, tx.pc.addr, tx.pc.x);
    MovePc(s, t, tx'.pc);
  }

  /** Appending to the log in the body of a transaction. */
  lemma ExtendLog(s: State, t: Tid, tx': Tx, op: Op)
    requires Inv(s) && Quiet(s, t, tx') && tx'.pc == Body && Reading(tx')
    requires s.txs[t].pc.Body? || s.txs[t].pc.PostLock?
    requires tx'.log == s.txs[t].log + [op] && tx'.rv == s.txs[t].rv && tx'.ro == s.txs[t].ro
    requires s.txs[t].readSet <= tx'.readSet && (op.Rd? && !tx'.ro ==> op.addr in tx'.readSet)
    requires tx'.writeSet == if op.Wr? then s.txs[t].writeSet[op.addr := op.val] else s.txs[t].writeSet
    requires op.Wr? ==> !tx'.ro
    requires op.Rd? ==> (op.buffered <==> op.addr in s.txs[t].writeSet)
    requires op.Rd? && op.buffered ==> op.val == s.txs[t].writeSet[op.addr]
    requires op.Rd? && !op.buffered ==> ReadOk(s, tx'.rv, op)
    ensures Inv(Put(s, t, tx'))
  {
    var tx := s.txs[t];
    var s' := Put(s, t, tx');
    assert TxOk(s, t, tx);
    PutRely(s, t, tx');
    assert tx'.log[..|tx'.log| - 1] == tx.log;
    assert LogOk(s, tx.rv, tx'.log) by {
      forall i | 0 <= i < |tx'.log| && FromMemory(tx'.log[i])
        ensures ReadOk(s, tx.rv, tx'.log[i])
      {
        if i < |tx.log| {
          assert tx'.log[i] == tx.log[i];
        }
      }
    }
    LogStable(s, s', t, tx.rv, tx'.log);
    if !tx.ro {
      forall i | 0 <= i < |tx'.log| && tx'.log[i].Rd?
        ensures tx'.log[i].addr in tx'.readSet
      {
        assert i < |tx.log| ==> tx'.log[i] == tx.log[i];
      }
    }
    forall l: Stripe
      ensures Own(s', t, l) <==> Holds(tx', l)
    {
      assert Own(s, t, l) <==> Holds(tx, l);
    }
    PutKeeps(s, t, tx');
  }

  lemma PostLockKeeps(s: State, t: Tid, e: Event, tx': Tx)
    requires Inv(s) && t in s.txs && s.txs[t].pc.PostLock?
    requires Private(s, s.txs[t], e) == Some(tx')
    ensures Inv(Put(s, t, tx'))
  {
    var tx := s.txs[t];
    assert TxOk(s, t, tx);
    if tx'.pc.Body? {
      var op := tx'.log[|tx.log|];
      assert s.locks[StripeOf(op.addr)].locked <==> StripeOf(op.addr) in s.owner;
      ExtendLog(s, t, tx', op);
    } else {
      MovePc(s, t, tx'.pc);
    }
  }

  lemma BodyKeeps(s: State, t: Tid, e: Event, tx': Tx)
    requires Inv(s) && t in s.txs && s.txs[t].pc.Body?
    requires Private(s, s.txs[t], e) == Some(tx')
    ensures Inv(Put(s, t, tx'))
  {
    var tx := s.txs[t];
    assert TxOk(s, t, tx);
    if e.CallWrite? {
      ExtendLog(s, t, tx', Wr(e.waddr, e.val));
    } else if e.CallEnd? && !tx.ro {
      assert Stripes(tx.writeSet.Keys - tx.writeSet.Keys) == {};
      MovePc(s, t, tx'.pc);
    } else {
      MovePc(s, t, tx'.pc);
    }
  }

  // ---- tm_end: locking ----

  lemma LockLoadKeeps(s: State, t: Tid, e: Event, tx': Tx)
    requires Inv(s) && t in s.txs && s.txs[t].pc.LockLoad?
    requires Private(s, s.txs[t], e) == Some(tx')
    ensures Inv(Put(s, t, tx'))
  {
    var tx := s.txs[t];
    assert TxOk(s, t, tx);
    var todo := tx.pc.todo;
    assert tx.writeSet.Keys - (todo - {e.pick}) - {e.pick} == tx.writeSet.Keys - todo;
    MovePc(s, t, tx'.pc);
  }

  lemma LockCasFails(s: State, t: Tid, e: Event, tx': Tx)
    requires Inv(s) && t in s.txs && s.txs[t].pc.LockCas?
    requires Private(s, s.txs[t], e) == Some(tx')
    ensures Inv(Put(s, t, tx'))
  {
    var tx := s.txs[t];
    assert TxOk(s, t, tx);
    var todo, a := tx.pc.todo, tx.pc.addr;
    assert tx.writeSet.Keys - todo == (tx.writeSet.Keys - todo - {a}) + {a};
    assert Stripes(tx.writeSet.Keys - todo) == Stripes(tx.writeSet.Keys - todo - {a}) + {StripeOf(a)};
    MovePc(s, t, tx'.pc);
  }

  lemma AcquireLocks(s: State, t: Tid, todo: set<Addr>, l: Stripe)
    requires t in s.txs && s.txs[t].wv == 0 && !Decided(s.txs[t].pc) && l !in s.owner
    ensures RelyLocks(s, Acquire(s, t, s.txs[t], todo, l), t)
  {
    var s' := Acquire(s, t, s.txs[t], todo, l);
    assert forall k: Stripe :: s'.locks[k].version == s.locks[k].version;
    assert forall k: Stripe :: k != l ==> s'.locks[k] == s.locks[k];
  }

  lemma AcquireRely(s: State, t: Tid, todo: set<Addr>, l: Stripe)
    requires LocksOk(s) && t in s.txs && s.txs[t].wv == 0 && !Decided(s.txs[t].pc)
    requires !s.locks[l].locked
    ensures Rely(s, Acquire(s, t, s.txs[t], todo, l), t)
  {
    AcquireLocks(s, t, todo, l);
  }

  lemma AcquireLocksOk(s: State, t: Tid, todo: set<Addr>, l: Stripe)
    requires LocksOk(s) && t in s.txs && s.txs[t].wv == 0
    ensures LocksOk(Acquire(s, t, s.txs[t], todo, l))
  {
    var s' := Acquire(s, t, s.txs[t], todo, l);
    assert forall k: Stripe :: k != l ==> s'.locks[k] == s.locks[k];
  }

  lemma AcquireCommits(s: State, t: Tid, todo: set<Addr>, l: Stripe)
    requires LocksOk(s) && CommitsOk(s) && t in s.txs && !Decided(s.txs[t].pc)
    requires !s.locks[l].locked
    ensures CommitsOk(Acquire(s, t, s.txs[t], todo, l))
  {
    var s' := Acquire(s, t, s.txs[t], todo, l);
    forall k, a | Writes(s'.commits, k, a)
      ensures Settled(s', k, a)
    {
      assert Writes(s.commits, k, a) && Settled(s, k, a);
    }
  }

  lemma AcquireMem(s: State, t: Tid, todo: set<Addr>, l: Stripe)
    requires LocksOk(s) && MemOk(s) && t in s.txs && !Decided(s.txs[t].pc)
    requires !s.locks[l].locked
    ensures MemOk(Acquire(s, t, s.txs[t], todo, l))
  {
    var s' := Acquire(s, t, s.txs[t], todo, l);
    forall a: Addr
      ensures Get(s'.mem, a) == ValueAt(s', Bound(s', a), a)
    {
      assert Pending(s', a) == Pending(s, a);
      assert Bound(s', a) == Bound(s, a);
    }
  }

  lemma AcquireOwns(s: State, t: Tid, tx: Tx, todo: set<Addr>, a: Addr)
    requires tx.pc.LockCas? && tx.pc.todo == todo && tx.pc.addr == a
    requires forall l: Stripe :: Own(s, t, l) <==> Holds(tx, l)
    requires tx.held == Stripes(tx.writeSet.Keys - todo - {a}) && a in tx.writeSet && a !in todo
    ensures tx.held + {StripeOf(a)} == Stripes(tx.writeSet.Keys - todo)
    ensures var s' := Acquire(s, t, tx, todo, StripeOf(a));
            forall l: Stripe :: Own(s', t, l) <==> Holds(s'.txs[t], l)
  {
    var s' := Acquire(s, t, tx, todo, StripeOf(a));
    assert tx.writeSet.Keys - todo == (tx.writeSet.Keys - todo - {a}) + {a};
    forall l: Stripe
      ensures Own(s', t, l) <==> Holds(s'.txs[t], l)
    {
      assert Own(s, t, l) <==> Holds(tx, l);
    }
  }

  lemma AcquireKeeps(s: State, t: Tid)
    requires Inv(s) && t in s.txs && s.txs[t].pc.LockCas?
    requires s.locks[StripeOf(s.txs[t].pc.addr)] == Word(s.txs[t].pc.v, false)
    ensures Inv(Acquire(s, t, s.txs[t], s.txs[t].pc.todo, StripeOf(s.txs[t].pc.addr)))
  {
    var tx := s.txs[t];
    var todo, l := tx.pc.todo, StripeOf(tx.pc.addr);
    var s' := Acquire(s, t, tx, todo, l);
    assert TxOk(s, t, tx);
    AcquireRely(s, t, todo, l);
    AcquireLocksOk(s, t, todo, l);
    AcquireCommits(s, t, todo, l);
    AcquireMem(s, t, todo, l);
    AcquireOwns(s, t, tx, todo, tx.pc.addr);
    MoverKeeps(s, s', t, s'.txs[t]);
    Assemble(s, s', t);
  }

  // ---- tm_end: clock ----

  lemma IncrementRely(s: State, t: Tid)
    requires LocksOk(s) && t in s.txs && s.txs[t].wv == 0 && !Decided(s.txs[t].pc) && s.gvc + 1 < CLOCK_SIZE
    ensures Rely(s, Increment(s, t, s.txs[t]), t)
    ensures LocksOk(Increment(s, t, s.txs[t]))
  {
    SameLocksRely(s, Increment(s, t, s.txs[t]), t);
  }

  /** The increment where the clock does not wrap around. */
  lemma IncrementPlain(s: State, t: Tid, tx: Tx)
    requires s.gvc + 1 < CLOCK_SIZE && tx.rv <= s.gvc
    ensures Increment(s, t, tx)
         == Put(s.(gvc := s.gvc + 1), t,
                tx.(wv := s.gvc + 1, pc := Validate(if tx.rv != s.gvc then tx.readSet else {})))
  {
  }

  lemma IncrementCommits(s: State, t: Tid)
    requires CommitsOk(s) && t in s.txs && s.txs[t].wv == 0 && !Decided(s.txs[t].pc) && s.gvc + 1 < CLOCK_SIZE
    requires VersionsBounded(s) && s.txs[t].rv <= s.gvc
    ensures CommitsOk(Increment(s, t, s.txs[t]))
  {
    var s' := Increment(s, t, s.txs[t]);
    IncrementPlain(s, t, s.txs[t]);
    hide Increment;
    forall k, a | Writes(s'.commits, k, a)
      ensures Settled(s', k, a)
    {
      assert Writes(s.commits, k, a) && Settled(s, k, a);
    }
    forall u, v | u in s'.txs && v in s'.txs && s'.txs[u].wv == s'.txs[v].wv != 0
      ensures u == v
    {
    }
  }

  lemma IncrementMem(s: State, t: Tid)
    requires CommitsOk(s) && MemOk(s) && t in s.txs && !Decided(s.txs[t].pc) && s.gvc + 1 < CLOCK_SIZE
    ensures MemOk(Increment(s, t, s.txs[t]))
  {
    var s' := Increment(s, t, s.txs[t]);
    forall a: Addr
      ensures Get(s'.mem, a) == ValueAt(s', Bound(s', a), a)
    {
      assert Pending(s', a) == Pending(s, a);
      StateAtSkip(s.commits, s.gvc, s.gvc + 1, a);
      assert Get(s.mem, a) == ValueAt(s, Bound(s, a), a);
    }
  }

  /** The shortcut: when nobody took a clock value since tm_begin, nothing is left to validate. */
  lemma ShortcutValid(s: State, s': State, t: Tid, tx: Tx, tx': Tx)
    requires LocksOk(s) && CommitsOk(s) && LogOk(s, tx.rv, tx.log) && tx.rv == s.gvc
    requires VersionsBounded(s)
    requires t in s.txs && Rely(s, s', t) && s'.commits == s.commits && s'.owner == s.owner
    requires tx'.rv == tx.rv && tx'.log == tx.log && tx'.wv == s.gvc + 1
    ensures AllValidated(s', t, tx', {})
  {
    forall i | 0 <= i < |tx.log| && FromMemory(tx.log[i])
      ensures Validated(s', t, tx', tx.log[i])
    {
      assert ReadOk(s, tx.rv, tx.log[i]);
    }
  }

  ghost predicate VersionsBounded(s: State) {
    forall u :: u in s.txs ==> s.txs[u].wv <= s.gvc
  }

  lemma IncrementTx(s: State, t: Tid)
    requires LocksOk(s) && CommitsOk(s) && VersionsBounded(s) && s.gvc + 1 < CLOCK_SIZE
    requires t in s.txs && TxOk(s, t, s.txs[t]) && s.txs[t].pc == LockLoad({})
    requires Rely(s, Increment(s, t, s.txs[t]), t)
    ensures TxOk(Increment(s, t, s.txs[t]), t, Increment(s, t, s.txs[t]).txs[t])
  {
    var tx := s.txs[t];
    var s' := Increment(s, t, tx);
    IncrementPlain(s, t, tx);
    hide Increment;
    if tx.rv == s.gvc {
      ShortcutValid(s, s', t, tx, s'.txs[t]);
    }
    assert tx.writeSet.Keys - {} == tx.writeSet.Keys;
    forall l: Stripe
      ensures Own(s', t, l) <==> Holds(s'.txs[t], l)
    {
      assert Own(s, t, l) <==> Holds(tx, l);
    }
    MoverKeeps(s, s', t, s'.txs[t]);
  }

  lemma AllVersionsBounded(s: State)
    requires Inv(s)
    ensures VersionsBounded(s)
  {
    forall u | u in s.txs
      ensures s.txs[u].wv <= s.gvc
    {
      assert TxOk(s, u, s.txs[u]);
    }
  }

  lemma IncrementKeeps(s: State, t: Tid)
    requires Inv(s) && t in s.txs && s.txs[t].pc == LockLoad({}) && s.gvc + 1 < CLOCK_SIZE
    ensures Inv(Increment(s, t, s.txs[t]))
  {
    assert TxOk(s, t, s.txs[t]);
    AllVersionsBounded(s);
    IncrementRely(s, t);
    IncrementCommits(s, t);
    IncrementMem(s, t);
    IncrementTx(s, t);
    Assemble(s, Increment(s, t, s.txs[t]), t);
  }

  // ---- tm_end: validation ----

  lemma QuietValidated(s: State, t: Tid, tx': Tx, todo: set<Addr>)
    requires LocksOk(s) && Quiet(s, t, tx') && TxOk(s, t, s.txs[t]) && s.txs[t].wv != 0
    requires tx'.rv == s.txs[t].rv && tx'.log == s.txs[t].log
    requires AllValidated(s, t, s.txs[t], todo)
    ensures AllValidated(Put(s, t, tx'), t, tx', todo)
  {
    PutRely(s, t, tx');
    ValidatedStable(s, Put(s, t, tx'), t, t, s.txs[t], tx', todo);
  }

  lemma ValidateLockKeeps(s: State, t: Tid, e: Event, tx': Tx)
    requires Inv(s) && t in s.txs && s.txs[t].pc.Validate?
    requires Private(s, s.txs[t], e) == Some(tx')
    ensures Inv(Put(s, t, tx'))
  {
    var tx := s.txs[t];
    assert TxOk(s, t, tx);
    if tx'.pc.ValidateVersion? {
      var l := StripeOf(e.pick);
      assert Own(s, t, l) <==> Holds(tx, l);
      assert tx'.pc.todo + {e.pick} == tx.pc.todo;
      QuietValidated(s, t, tx', tx.pc.todo);
    }
    MovePc(s, t, tx'.pc);
  }

  /** A stripe seen at most at version `rv`, with no earlier owner, hides no commit in between. */
  lemma VersionValidates(s: State, t: Tid, tx: Tx, todo: set<Addr>, b: Addr)
    requires LocksOk(s) && CommitsOk(s) && LogOk(s, tx.rv, tx.log)
    requires t in s.txs && s.txs[t] == tx && tx.wv != 0 && tx.wv !in s.commits
    requires NoEarlierOwner(s, t, tx.wv, StripeOf(b)) && s.locks[StripeOf(b)].version <= tx.rv
    requires AllValidated(s, t, tx, todo + {b})
    ensures AllValidated(s, t, tx, todo)
  {
    forall i | 0 <= i < |tx.log| && FromMemory(tx.log[i]) && tx.log[i].addr !in todo
      ensures Validated(s, t, tx, tx.log[i])
    {
      if tx.log[i].addr == b {
        assert ReadOk(s, tx.rv, tx.log[i]);
        forall k | Writes(s.commits, k, b) && tx.rv < k
          ensures tx.wv <= k
        {
          assert Settled(s, k, b);
        }
      }
    }
  }

  lemma ValidateVersionKeeps(s: State, t: Tid, e: Event, tx': Tx)
    requires Inv(s) && t in s.txs && s.txs[t].pc.ValidateVersion?
    requires Private(s, s.txs[t], e) == Some(tx')
    ensures Inv(Put(s, t, tx'))
  {
    var tx := s.txs[t];
    assert TxOk(s, t, tx);
    if tx'.pc.Validate? {
      VersionValidates(s, t, tx, tx.pc.todo, tx.pc.addr);
      QuietValidated(s, t, tx', tx.pc.todo);
    }
    MovePc(s, t, tx'.pc);
  }

  // ---- tm_end: decision and write-back ----

  /** No commit after `t`'s version writes to a stripe that `t` holds. */
  lemma NoLaterCommit(s: State, t: Tid, k: nat, a: Addr)
    requires LocksOk(s) && CommitsOk(s) && t in s.txs && s.txs[t].wv != 0
    requires Own(s, t, StripeOf(a)) && Writes(s.commits, k, a)
    ensures k <= s.txs[t].wv && (k == s.txs[t].wv ==> s.commits[k].tid == t)
  {
    assert Settled(s, k, a);
    assert OwnerAbove(s, StripeOf(a));
  }

  lemma DecideRely(s: State, t: Tid)
    requires t in s.txs && TxOk(s, t, s.txs[t]) && s.txs[t].pc == Validate({})
    ensures Rely(s, Decide(s, t, s.txs[t]), t)
  {
    var tx := s.txs[t];
    forall a | a in tx.writeSet
      ensures Own(s, t, StripeOf(a))
    {
      assert Holds(tx, StripeOf(a));
    }
    SameLocksRely(s, Decide(s, t, tx), t);
  }

  lemma DecideLocksOk(s: State, t: Tid)
    requires LocksOk(s) && t in s.txs
    ensures LocksOk(Decide(s, t, s.txs[t]))
  {
  }

  lemma DecideCommits(s: State, t: Tid)
    requires LocksOk(s) && CommitsOk(s) && t in s.txs && TxOk(s, t, s.txs[t]) && s.txs[t].pc == Validate({})
    ensures CommitsOk(Decide(s, t, s.txs[t]))
  {
    var tx := s.txs[t];
    var s' := Decide(s, t, tx);
    forall k, a | Writes(s'.commits, k, a)
      ensures Settled(s', k, a)
    {
      if k == tx.wv {
        assert Holds(tx, StripeOf(a));
        assert Own(s, t, StripeOf(a));
      } else {
        assert Writes(s.commits, k, a) && Settled(s, k, a);
      }
    }
    forall u, v | u in s'.txs && v in s'.txs && s'.txs[u].wv == s'.txs[v].wv != 0
      ensures u == v
    {
      assert s.txs[u].wv == s.txs[v].wv;
    }
  }

  lemma DecideMem(s: State, t: Tid)
    requires Shared(s) && t in s.txs && TxOk(s, t, s.txs[t]) && s.txs[t].pc == Validate({})
    ensures MemOk(Decide(s, t, s.txs[t]))
  {
    var tx := s.txs[t];
    var s' := Decide(s, t, tx);
    forall a: Addr
      ensures Get(s'.mem, a) == ValueAt(s', Bound(s', a), a)
    {
      assert Get(s.mem, a) == ValueAt(s, Bound(s, a), a);
      if a in tx.writeSet {
        assert Holds(tx, StripeOf(a));
        assert Own(s, t, StripeOf(a));
        forall k | tx.wv - 1 < k <= s.gvc
          ensures !Writes(s.commits, k, a)
        {
          if Writes(s.commits, k, a) {
            NoLaterCommit(s, t, k, a);
          }
        }
        StateAtSkip(s.commits, tx.wv - 1, s.gvc, a);
        StateAtAgree(s.commits, s'.commits, tx.wv - 1, a);
      } else {
        assert Pending(s', a) == Pending(s, a);
        assert Bound(s', a) == Bound(s, a);
        StateAtAgree(s.commits, s'.commits, Bound(s, a), a);
      }
    }
  }

  lemma DecideTx(s: State, t: Tid)
    requires t in s.txs && TxOk(s, t, s.txs[t]) && s.txs[t].pc == Validate({})
    requires Rely(s, Decide(s, t, s.txs[t]), t)
    ensures TxOk(Decide(s, t, s.txs[t]), t, Decide(s, t, s.txs[t]).txs[t])
  {
    var tx := s.txs[t];
    var s' := Decide(s, t, tx);
    ValidatedStable(s, s', t, t, tx, s'.txs[t], {});
    forall l: Stripe
      ensures Own(s', t, l) <==> Holds(s'.txs[t], l)
    {
      assert Own(s, t, l) <==> Holds(tx, l);
    }
    MoverKeeps(s, s', t, s'.txs[t]);
  }

  lemma DecideKeeps(s: State, t: Tid)
    requires Inv(s) && t in s.txs && s.txs[t].pc == Validate({})
    ensures Inv(Decide(s, t, s.txs[t]))
  {
    assert TxOk(s, t, s.txs[t]);
    DecideRely(s, t);
    DecideLocksOk(s, t);
    DecideCommits(s, t);
    DecideMem(s, t);
    DecideTx(s, t);
    Assemble(s, Decide(s, t, s.txs[t]), t);
  }

  lemma CopyBackRely(s: State, t: Tid, a: Addr)
    requires LocksOk(s) && t in s.txs && s.txs[t].pc.WriteBack? && a in s.txs[t].writeSet
    ensures Rely(s, CopyBack(s, t, s.txs[t], s.txs[t].pc.todo, a), t)
    ensures LocksOk(CopyBack(s, t, s.txs[t], s.txs[t].pc.todo, a))
  {
    SameLocksRely(s, CopyBack(s, t, s.txs[t], s.txs[t].pc.todo, a), t);
  }

  lemma CopyBackCommits(s: State, t: Tid, a: Addr)
    requires CommitsOk(s) && t in s.txs && s.txs[t].pc.WriteBack? && a in s.txs[t].writeSet
    ensures CommitsOk(CopyBack(s, t, s.txs[t], s.txs[t].pc.todo, a))
  {
    var s' := CopyBack(s, t, s.txs[t], s.txs[t].pc.todo, a);
    forall k, b | Writes(s'.commits, k, b)
      ensures Settled(s', k, b)
    {
      assert Writes(s.commits, k, b) && Settled(s, k, b);
    }
    forall u, v | u in s'.txs && v in s'.txs && s'.txs[u].wv == s'.txs[v].wv != 0
      ensures u == v
    {
      assert s.txs[u].wv == s.txs[v].wv;
    }
  }

  /** The word just copied back is the newest committed value of its address. */
  lemma CopiedIsNewest(s: State, t: Tid, a: Addr)
    requires LocksOk(s) && CommitsOk(s) && t in s.txs && DecidedOk(s, t, s.txs[t])
    requires s.txs[t].wv <= s.gvc && a in s.txs[t].writeSet && Own(s, t, StripeOf(a))
    ensures ValueAt(s, s.gvc, a) == s.txs[t].writeSet[a]
  {
    var wv := s.txs[t].wv;
    forall k | wv < k <= s.gvc
      ensures !Writes(s.commits, k, a)
    {
      if Writes(s.commits, k, a) {
        NoLaterCommit(s, t, k, a);
      }
    }
    StateAtSkip(s.commits, wv, s.gvc, a);
  }

  lemma CopyBackMem(s: State, t: Tid, a: Addr)
    requires Shared(s) && t in s.txs && TxOk(s, t, s.txs[t])
    requires s.txs[t].pc.WriteBack? && a in s.txs[t].pc.todo && a in s.txs[t].writeSet
    ensures MemOk(CopyBack(s, t, s.txs[t], s.txs[t].pc.todo, a))
  {
    var tx := s.txs[t];
    var s' := CopyBack(s, t, tx, tx.pc.todo, a);
    forall b: Addr
      ensures Get(s'.mem, b) == ValueAt(s', Bound(s', b), b)
    {
      assert Get(s.mem, b) == ValueAt(s, Bound(s, b), b);
      if b == a {
        assert Holds(tx, StripeOf(a));
        assert Own(s, t, StripeOf(a));
        CopiedIsNewest(s, t, a);
      } else {
        assert Pending(s', b) == Pending(s, b);
        assert Bound(s', b) == Bound(s, b);
      }
    }
  }

  lemma CopyBackTx(s: State, t: Tid, a: Addr)
    requires t in s.txs && TxOk(s, t, s.txs[t])
    requires s.txs[t].pc.WriteBack? && a in s.txs[t].pc.todo && a in s.txs[t].writeSet
    requires Rely(s, CopyBack(s, t, s.txs[t], s.txs[t].pc.todo, a), t)
    ensures var s' := CopyBack(s, t, s.txs[t], s.txs[t].pc.todo, a); TxOk(s', t, s'.txs[t])
  {
    var tx := s.txs[t];
    var todo := tx.pc.todo;
    var s' := CopyBack(s, t, tx, todo, a);
    assert todo == (todo - {a}) + {a};
    assert Stripes(todo) == Stripes(todo - {a}) + {StripeOf(a)};
    forall l: Stripe
      ensures Own(s', t, l) <==> Holds(s'.txs[t], l)
    {
      assert Own(s, t, l) <==> Holds(tx, l);
    }
    DecidedStable(s, s', t, t, tx, s'.txs[t]);
    MoverKeeps(s, s', t, s'.txs[t]);
  }

  lemma CopyBackKeeps(s: State, t: Tid, a: Addr)
    requires Inv(s) && t in s.txs
    requires s.txs[t].pc.WriteBack? && a in s.txs[t].pc.todo && a in s.txs[t].writeSet
    ensures Inv(CopyBack(s, t, s.txs[t], s.txs[t].pc.todo, a))
  {
    assert TxOk(s, t, s.txs[t]);
    CopyBackRely(s, t, a);
    CopyBackCommits(s, t, a);
    CopyBackMem(s, t, a);
    CopyBackTx(s, t, a);
    Assemble(s, CopyBack(s, t, s.txs[t], s.txs[t].pc.todo, a), t);
  }

  // ---- Giving a stripe back, after a commit or after an abort ----

  /** `s'` gives stripe `l`, held by `t`, a word that is unlocked and not older. */
  ghost predicate GivesBack(s: State, s': State, t: Tid, l: Stripe) {
    && t in s.txs && Own(s, t, l) && t in s'.txs
    && s' == s.(locks := s'.locks, owner := s.owner - {l}, txs := s.txs[t := s'.txs[t]])
    && s'.locks == s.locks[l := s'.locks[l]]
    && !s'.locks[l].locked && s.locks[l].version <= s'.locks[l].version <= s.gvc
    && s'.txs[t].wv == s.txs[t].wv
    && (s'.locks[l].version == s.locks[l].version || s'.locks[l].version == s.txs[t].wv != 0)
    && (InWriteBack(s.txs[t].pc) ==> s'.locks[l].version == s.txs[t].wv != 0 && InWriteBack(s'.txs[t].pc))
    && (Decided(s.txs[t].pc) <==> Decided(s'.txs[t].pc))
    && (InWriteBack(s.txs[t].pc) <==> InWriteBack(s'.txs[t].pc))
  }

  lemma GivesBackLocks(s: State, s': State, t: Tid, l: Stripe)
    requires LocksOk(s) && GivesBack(s, s', t, l)
    ensures RelyLocks(s, s', t)
  {
    forall k: Stripe
      ensures k != l ==> s'.locks[k] == s.locks[k]
    {
    }
  }

  lemma GivesBackRely(s: State, s': State, t: Tid, l: Stripe)
    requires LocksOk(s) && GivesBack(s, s', t, l)
    ensures Rely(s, s', t)
  {
    GivesBackLocks(s, s', t, l);
  }

  lemma GivesBackLocksOk(s: State, s': State, t: Tid, l: Stripe)
    requires LocksOk(s) && GivesBack(s, s', t, l)
    ensures LocksOk(s')
  {
    forall k: Stripe
      ensures k != l ==> s'.locks[k] == s.locks[k]
    {
    }
  }

  lemma GivesBackCommits(s: State, s': State, t: Tid, l: Stripe)
    requires LocksOk(s) && CommitsOk(s) && GivesBack(s, s', t, l) && (Decided(s.txs[t].pc) ==> InWriteBack(s.txs[t].pc))
    ensures CommitsOk(s')
  {
    forall k, a | Writes(s'.commits, k, a)
      ensures Settled(s', k, a)
    {
      assert Writes(s.commits, k, a) && Settled(s, k, a);
    }
    forall u, v | u in s'.txs && v in s'.txs && s'.txs[u].wv == s'.txs[v].wv != 0
      ensures u == v
    {
      assert s.txs[u].wv == s.txs[v].wv;
    }
  }

  lemma GivesBackMem(s: State, s': State, t: Tid, l: Stripe)
    requires MemOk(s) && GivesBack(s, s', t, l)
    requires InWriteBack(s.txs[t].pc) ==> s'.txs[t].pc.todo == s.txs[t].pc.todo && l !in Stripes(s.txs[t].pc.todo)
    ensures MemOk(s')
  {
    forall a: Addr
      ensures Get(s'.mem, a) == ValueAt(s', Bound(s', a), a)
    {
      assert Pending(s', a) == Pending(s, a);
      assert Bound(s', a) == Bound(s, a);
      assert Get(s.mem, a) == ValueAt(s, Bound(s, a), a);
    }
  }

  lemma SetVersionTx(s: State, t: Tid)
    requires t in s.txs && TxOk(s, t, s.txs[t]) && s.txs[t].pc.Release?
    requires StripeInjective(s.txs[t].writeSet.Keys)
    requires Rely(s, SetVersion(s, t, s.txs[t], s.txs[t].pc.todo, StripeOf(s.txs[t].pc.addr)), t)
    ensures StripeOf(s.txs[t].pc.addr) !in Stripes(s.txs[t].pc.todo)
    ensures var s' := SetVersion(s, t, s.txs[t], s.txs[t].pc.todo, StripeOf(s.txs[t].pc.addr)); TxOk(s', t, s'.txs[t])
  {
    var tx := s.txs[t];
    var s' := SetVersion(s, t, tx, tx.pc.todo, StripeOf(tx.pc.addr));
    forall l: Stripe
      ensures Own(s', t, l) <==> Holds(s'.txs[t], l)
    {
      assert Own(s, t, l) <==> Holds(tx, l);
    }
    DecidedStable(s, s', t, t, tx, s'.txs[t]);
    MoverKeeps(s, s', t, s'.txs[t]);
  }

  lemma SetVersionGivesBack(s: State, t: Tid)
    requires LocksOk(s) && s.gvc < VERSION_LIMIT && t in s.txs && TxOk(s, t, s.txs[t]) && s.txs[t].pc.Release?
    ensures var l := StripeOf(s.txs[t].pc.addr); GivesBack(s, SetVersion(s, t, s.txs[t], s.txs[t].pc.todo, l), t, l)
  {
    var tx := s.txs[t];
    var l := StripeOf(tx.pc.addr);
    var s' := SetVersion(s, t, tx, tx.pc.todo, l);
    assert Holds(tx, l);
    assert Own(s, t, l);
    assert OwnerAbove(s, l);
    assert s'.locks == s.locks[l := s'.locks[l]];
  }

  lemma SetVersionKeeps(s: State, t: Tid)
    requires Inv(s) && Tame(s) && t in s.txs && s.txs[t].pc.Release?
    ensures Inv(SetVersion(s, t, s.txs[t], s.txs[t].pc.todo, StripeOf(s.txs[t].pc.addr)))
  {
    var tx := s.txs[t];
    var l := StripeOf(tx.pc.addr);
    var s' := SetVersion(s, t, tx, tx.pc.todo, l);
    assert TxOk(s, t, tx);
    SetVersionGivesBack(s, t);
    GivesBackRely(s, s', t, l);
    GivesBackLocksOk(s, s', t, l);
    SetVersionTx(s, t);
    GivesBackCommits(s, s', t, l);
    GivesBackMem(s, s', t, l);
    Assemble(s, s', t);
  }

  lemma UnlockTx(s: State, t: Tid)
    requires t in s.txs && TxOk(s, t, s.txs[t]) && s.txs[t].pc.UnlockStore?
    requires Rely(s, Unlock(s, t, s.txs[t], s.txs[t].pc.locks, s.txs[t].pc.l, s.txs[t].pc.v), t)
    ensures var s' := Unlock(s, t, s.txs[t], s.txs[t].pc.locks, s.txs[t].pc.l, s.txs[t].pc.v); TxOk(s', t, s'.txs[t])
  {
    var tx := s.txs[t];
    var s' := Unlock(s, t, tx, tx.pc.locks, tx.pc.l, tx.pc.v);
    forall l: Stripe
      ensures Own(s', t, l) <==> Holds(s'.txs[t], l)
    {
      assert Own(s, t, l) <==> Holds(tx, l);
    }
    MoverKeeps(s, s', t, s'.txs[t]);
  }

  lemma UnlockGivesBack(s: State, t: Tid)
    requires LocksOk(s) && t in s.txs && TxOk(s, t, s.txs[t]) && s.txs[t].pc.UnlockStore?
    requires s.txs[t].pc.v < UNLOCK_LIMIT
    ensures var pc := s.txs[t].pc; GivesBack(s, Unlock(s, t, s.txs[t], pc.locks, pc.l, pc.v), t, pc.l)
  {
    var tx := s.txs[t];
    var s' := Unlock(s, t, tx, tx.pc.locks, tx.pc.l, tx.pc.v);
    assert Holds(tx, tx.pc.l);
    assert Own(s, t, tx.pc.l);
    assert s'.locks == s.locks[tx.pc.l := s'.locks[tx.pc.l]];
  }

  lemma UnlockKeeps(s: State, t: Tid)
    requires Inv(s) && Tame(s) && t in s.txs && s.txs[t].pc.UnlockStore?
    ensures Inv(Unlock(s, t, s.txs[t], s.txs[t].pc.locks, s.txs[t].pc.l, s.txs[t].pc.v))
  {
    var tx := s.txs[t];
    var s' := Unlock(s, t, tx, tx.pc.locks, tx.pc.l, tx.pc.v);
    assert TxOk(s, t, tx);
    UnlockGivesBack(s, t);
    GivesBackRely(s, s', t, tx.pc.l);
    GivesBackLocksOk(s, s', t, tx.pc.l);
    UnlockTx(s, t);
    GivesBackCommits(s, s', t, tx.pc.l);
    GivesBackMem(s, s', t, tx.pc.l);
    Assemble(s, s', t);
  }

  lemma UnlockLoadKeeps(s: State, t: Tid, e: Event, tx': Tx)
    requires Inv(s) && t in s.txs && s.txs[t].pc.UnlockLoad?
    requires Private(s, s.txs[t], e) == Some(tx')
    ensures Inv(Put(s, t, tx'))
  {
    assert TxOk(s, t, s.txs[t]);
    hide Inv, TxOk, Own;
    MovePc(s, t, tx'.pc);
  }

  // ---- Segments ----

  /** A transition of `t` that changes only segment lists and the program counter. */
  ghost predicate ListsOnly(s: State, s': State, t: Tid) {
    && t in s.txs && t in s'.txs
    && s' == s.(txs := s.txs[t := s'.txs[t]], region := s'.region, heap := s'.heap, freed := s'.freed)
    && s'.txs[t] == s.txs[t].(pc := s'.txs[t].pc, segs := s'.txs[t].segs)
    && (Decided(s.txs[t].pc) ==> Decided(s'.txs[t].pc))
    && (InWriteBack(s.txs[t].pc) ==> s.txs[t].pc.WriteBack? && s.txs[t].pc.todo == {})
    && !InWriteBack(s'.txs[t].pc)
  }

  lemma ListsOnlyRely(s: State, s': State, t: Tid)
    requires LocksOk(s) && ListsOnly(s, s', t)
    requires forall l: Stripe :: !Own(s, t, l)
    ensures Rely(s, s', t) && LocksOk(s')
  {
    SameLocksRely(s, s', t);
  }

  lemma ListsOnlyCommits(s: State, s': State, t: Tid)
    requires CommitsOk(s) && ListsOnly(s, s', t)
    ensures CommitsOk(s')
  {
    forall k, a | Writes(s'.commits, k, a)
      ensures Settled(s', k, a)
    {
      assert Writes(s.commits, k, a) && Settled(s, k, a);
    }
    forall u, v | u in s'.txs && v in s'.txs && s'.txs[u].wv == s'.txs[v].wv != 0
      ensures u == v
    {
      assert s.txs[u].wv == s.txs[v].wv;
    }
  }

  lemma ListsOnlyMem(s: State, s': State, t: Tid)
    requires MemOk(s) && ListsOnly(s, s', t)
    ensures MemOk(s')
  {
    forall a: Addr
      ensures Get(s'.mem, a) == ValueAt(s', Bound(s', a), a)
    {
      assert Pending(s', a) == Pending(s, a);
      assert Bound(s', a) == Bound(s, a);
      assert Get(s.mem, a) == ValueAt(s, Bound(s, a), a);
    }
  }

  lemma ListsOnlyTx(s: State, s': State, t: Tid)
    requires ListsOnly(s, s', t) && Rely(s, s', t) && TxOk(s, t, s.txs[t])
    requires forall l: Stripe :: !Own(s', t, l)
    requires if s.txs[t].pc.Deleting? then s'.txs[t].pc == (if s.txs[t].pc.ok then Committed else Aborted)
             else s.txs[t].pc.WriteBack? && s'.txs[t].pc == Committed
    ensures TxOk(s', t, s'.txs[t])
  {
    if s.txs[t].pc.WriteBack? {
      DecidedStable(s, s', t, t, s.txs[t], s'.txs[t]);
    }
    MoverKeeps(s, s', t, s'.txs[t]);
  }

  lemma HoldsNothing(s: State, t: Tid, tx: Tx)
    requires TxOk(s, t, tx) && (tx.pc.Deleting? || tx.pc == WriteBack({}) || tx.pc.Body?)
    ensures forall l: Stripe :: !Own(s, t, l)
  {
    forall l: Stripe
      ensures !Own(s, t, l)
    {
      assert Own(s, t, l) <==> Holds(tx, l);
    }
  }

  lemma ListsOnlyKeeps(s: State, s': State, t: Tid)
    requires Inv(s) && ListsOnly(s, s', t)
    requires s.txs[t].pc.Deleting? || s.txs[t].pc == WriteBack({})
    requires if s.txs[t].pc.Deleting? then s'.txs[t].pc == (if s.txs[t].pc.ok then Committed else Aborted)
             else s'.txs[t].pc == Committed
    ensures Inv(s')
  {
    assert TxOk(s, t, s.txs[t]);
    HoldsNothing(s, t, s.txs[t]);
    ListsOnlyRely(s, s', t);
    ListsOnlyCommits(s, s', t);
    ListsOnlyMem(s, s', t);
    assert forall l: Stripe :: Own(s', t, l) ==> Own(s, t, l);
    ListsOnlyTx(s, s', t);
    Assemble(s, s', t);
  }

  lemma HeapRely(s: State, heap: set<Segment>, r: Tid)
    requires LocksOk(s)
    ensures Rely(s, s.(heap := heap), r) && LocksOk(s.(heap := heap))
  {
  }

  lemma HeapCommits(s: State, heap: set<Segment>)
    requires CommitsOk(s)
    ensures CommitsOk(s.(heap := heap))
  {
    forall k, a | Writes(s.commits, k, a)
      ensures Settled(s.(heap := heap), k, a)
    {
      assert Settled(s, k, a);
    }
  }

  lemma HeapMem(s: State, heap: set<Segment>)
    requires MemOk(s)
    ensures MemOk(s.(heap := heap))
  {
    var s' := s.(heap := heap);
    forall a: Addr
      ensures Get(s'.mem, a) == ValueAt(s', Bound(s', a), a)
    {
      assert Pending(s', a) == Pending(s, a);
      assert Get(s.mem, a) == ValueAt(s, Bound(s, a), a);
    }
  }

  /** The record of allocated segments plays no part in the invariant. */
  lemma HeapIrrelevant(s: State, heap: set<Segment>)
    requires Inv(s)
    ensures Inv(s.(heap := heap))
  {
    var s' := s.(heap := heap);
    HeapRely(s, heap, 0);
    HeapCommits(s, heap);
    HeapMem(s, heap);
    forall t | t in s.txs
      ensures TxOk(s', t, s.txs[t])
    {
      HeapRely(s, heap, t + 1);
      OthersKeep(s, s', t + 1, t);
    }
  }

  lemma AllocateKeeps(s: State, t: Tid, g: Segment)
    requires Inv(s) && t in s.txs && s.txs[t].pc.Body? && !s.txs[t].ro
    ensures Inv(Allocate(s, t, s.txs[t], g))
  {
    var tx := s.txs[t];
    assert TxOk(s, t, tx);
    var tx' := tx.(segs := tx.segs + {g}, log := tx.log + [Al(g)]);
    ExtendLog(s, t, tx', Al(g));
    HeapIrrelevant(Put(s, t, tx'), s.heap + {g});
    assert Put(s, t, tx').(heap := s.heap + {g}) == Allocate(s, t, tx, g);
  }

  // ---- Every step keeps the invariant ----

  lemma PrivateKeeps(s: State, t: Tid, e: Event, tx': Tx)
    requires Inv(s) && t in s.txs && Private(s, s.txs[t], e) == Some(tx')
    ensures Inv(Put(s, t, tx'))
  {
    assert TxOk(s, t, s.txs[t]);
    match s.txs[t].pc
    case Body => BodyKeeps(s, t, e, tx');
    case PreVersion(_) => MovePc(s, t, tx'.pc);
    case PreLock(_, _) => PreLockKeeps(s, t, e, tx');
    case Copy(_, _) => CopyKeeps(s, t, e, tx');
    case PostVersion(_, _, _) => PostVersionKeeps(s, t, e, tx');
    case PostLock(_, _, _, _) => PostLockKeeps(s, t, e, tx');
    case LockLoad(_) => LockLoadKeeps(s, t, e, tx');
    case LockCas(_, _, _) => LockCasFails(s, t, e, tx');
    case Validate(_) => ValidateLockKeeps(s, t, e, tx');
    case ValidateVersion(_, _) => ValidateVersionKeeps(s, t, e, tx');
    case UnlockLoad(_) => UnlockLoadKeeps(s, t, e, tx');
    case _ =>
  }

  lemma SpliceKeeps(s: State, t: Tid)
    requires Inv(s) && t in s.txs && s.txs[t].pc == WriteBack({})
    ensures Inv(Splice(s, t, s.txs[t]))
  {
    var s' := Splice(s, t, s.txs[t]);
    assert ListsOnly(s, s', t);
    ListsOnlyKeeps(s, s', t);
  }

  lemma DeleteKeeps(s: State, t: Tid)
    requires Inv(s) && t in s.txs && s.txs[t].pc.Deleting?
    ensures Inv(Delete(s, t, s.txs[t], s.txs[t].pc.ok))
  {
    var s' := Delete(s, t, s.txs[t], s.txs[t].pc.ok);
    assert ListsOnly(s, s', t);
    ListsOnlyKeeps(s, s', t);
  }

  /** The steps that write shared state. */
  ghost predicate IsSharedStep(s: State, t: Tid, s': State)
    requires t in s.txs
  {
    var tx := s.txs[t];
    match tx.pc
    case Body => !tx.ro && exists g :: s' == Allocate(s, t, tx, g)
    case LockLoad(todo) => todo == {} && s' == Increment(s, t, tx)
    case LockCas(todo, a, v) =>
      s.locks[StripeOf(a)] == Word(v, false) && s' == Acquire(s, t, tx, todo, StripeOf(a))
    case Validate(todo) => todo == {} && s' == Decide(s, t, tx)
    case WriteBack(todo) =>
      || (todo == {} && s' == Splice(s, t, tx))
      || (exists a :: a in todo && a in tx.writeSet && s' == CopyBack(s, t, tx, todo, a))
    case Release(todo, a) => s' == SetVersion(s, t, tx, todo, StripeOf(a))
    case UnlockStore(locks, l, v) => s' == Unlock(s, t, tx, locks, l, v)
    case Deleting(ok) => s' == Delete(s, t, tx, ok)
    case _ => false
  }

  predicate Finished(pc: Pc) {
    pc.Aborted? || pc.Committed?
  }

  /** The frame of such a step: of all transactions only the mover's record changes, and there only the program
      counter, the write version, the stripes, the segments and, by an allocation, the log. */
  ghost predicate SharedFrame(s: State, t: Tid, s': State)
    requires t in s.txs
  {
    && t in s'.txs && s'.txs == s.txs[t := s'.txs[t]]
    && MoverFrame(s.txs[t], s'.txs[t], s.gvc)
    && (s'.gvc == s.gvc || s'.gvc == (s.gvc + 1) % CLOCK_SIZE)
    && (!s.txs[t].pc.Body? ==> s'.heap == s.heap)
    && (KeepsSegments(s.txs[t].pc) ==> s'.region == s.region && s'.freed == s.freed)
  }

  predicate MoverFrame(tx: Tx, tx': Tx, gvc: nat) {
    && tx' == tx.(pc := tx'.pc, wv := tx'.wv, held := tx'.held, segs := tx'.segs, log := tx'.log)
    && (if tx.pc.Body? then tx'.pc.Body? && AddsAllocation(tx.log, tx'.log)
        else tx'.log == tx.log && !Reads(tx'.pc))
    && (tx'.wv == tx.wv || tx'.wv == (gvc + 1) % CLOCK_SIZE)
    && !Finished(tx.pc) && (Finished(tx'.pc) ==> tx'.segs == {})
    && (!tx.pc.Body? && KeepsSegments(tx.pc) ==> tx'.segs == tx.segs)
  }

  predicate AddsAllocation(log: Log, log': Log) {
    |log'| == |log| + 1 && log'[..|log|] == log && log'[|log|].Al?
  }

  predicate Reads(pc: Pc) {
    pc.Body? || pc.PreVersion? || pc.PreLock? || pc.Copy? || pc.PostVersion? || pc.PostLock?
  }

  predicate KeepsSegments(pc: Pc) {
    !pc.Deleting? && pc != WriteBack({})
  }

  lemma AllocateFrame(s: State, t: Tid, g: Segment)
    requires t in s.txs && s.txs[t].pc.Body?
    ensures SharedFrame(s, t, Allocate(s, t, s.txs[t], g))
  {
    var s' := Allocate(s, t, s.txs[t], g);
    assert s'.txs == s.txs[t := s'.txs[t]];
  }

  lemma DecidingFrame(s: State, t: Tid, s': State)
    requires t in s.txs && IsSharedStep(s, t, s')
    requires s.txs[t].pc.LockLoad? || s.txs[t].pc.LockCas? || s.txs[t].pc.Validate?
    ensures SharedFrame(s, t, s')
  {
    assert s'.txs == s.txs[t := s'.txs[t]];
  }

  lemma ReleasingFrame(s: State, t: Tid, s': State)
    requires t in s.txs && IsSharedStep(s, t, s') && (s.txs[t].pc.Release? || s.txs[t].pc.UnlockStore?)
    ensures SharedFrame(s, t, s')
  {
    assert s'.txs == s.txs[t := s'.txs[t]];
  }

  lemma FinishingFrame(s: State, t: Tid, s': State)
    requires t in s.txs && IsSharedStep(s, t, s') && (s.txs[t].pc.WriteBack? || s.txs[t].pc.Deleting?)
    ensures SharedFrame(s, t, s')
  {
    assert s'.txs == s.txs[t := s'.txs[t]];
  }

  lemma SharedStepFrame(s: State, t: Tid, s': State)
    requires t in s.txs && IsSharedStep(s, t, s')
    ensures SharedFrame(s, t, s')
  {
    hide SharedFrame;
    if s.txs[t].pc.Body? {
      var g :| s' == Allocate(s, t, s.txs[t], g);
      AllocateFrame(s, t, g);
    } else if s.txs[t].pc.Release? || s.txs[t].pc.UnlockStore? {
      ReleasingFrame(s, t, s');
    } else if s.txs[t].pc.WriteBack? || s.txs[t].pc.Deleting? {
      FinishingFrame(s, t, s');
    } else {
      DecidingFrame(s, t, s');
    }
  }

  lemma StepShape(s: State, t: Tid, e: Event, s': State)
    requires t in s.txs && Step(s, t, e) == Some(s')
    ensures IsSharedStep(s, t, s') || (Private(s, s.txs[t], e).Some? && s' == Put(s, t, Private(s, s.txs[t], e).value))
  {
  }

  lemma SharedStepKeeps(s: State, t: Tid, s': State)
    requires Inv(s) && Tame(s) && t in s.txs && IsSharedStep(s, t, s')
    ensures Inv(s')
  {
    var tx := s.txs[t];
    match tx.pc
    case Body =>
      var g :| s' == Allocate(s, t, tx, g);
      AllocateKeeps(s, t, g);
    case LockLoad(_) => IncrementKeeps(s, t);
    case LockCas(_, _, _) => AcquireKeeps(s, t);
    case Validate(_) => DecideKeeps(s, t);
    case WriteBack(todo) =>
      if todo == {} {
        SpliceKeeps(s, t);
      } else {
        var a :| a in todo && a in tx.writeSet && s' == CopyBack(s, t, tx, todo, a);
        CopyBackKeeps(s, t, a);
      }
    case Release(_, _) => SetVersionKeeps(s, t);
    case UnlockStore(_, _, _) => UnlockKeeps(s, t);
    case Deleting(_) => DeleteKeeps(s, t);
    case _ =>
  }

  lemma StepKeeps(s: State, t: Tid, e: Event, s': State)
    requires Inv(s) && Tame(s) && Step(s, t, e) == Some(s')
    ensures Inv(s')
  {
    if t !in s.txs {
      StartKeeps(s, t, e.ro);
    } else {
      StepShape(s, t, e, s');
      if IsSharedStep(s, t, s') {
        SharedStepKeeps(s, t, s');
      } else {
        PrivateKeeps(s, t, e, Private(s, s.txs[t], e).value);
      }
    }
  }

  /** What the steps up to the decision mean to the other transactions. */
  lemma DecidingRely(s: State, t: Tid, s': State)
    requires Inv(s) && t in s.txs && IsSharedStep(s, t, s') && s.gvc + 1 < CLOCK_SIZE
    requires s.txs[t].pc.Body? || s.txs[t].pc.LockLoad? || s.txs[t].pc.LockCas? || s.txs[t].pc.Validate?
    ensures Rely(s, s', t)
  {
    assert TxOk(s, t, s.txs[t]);
    match s.txs[t].pc
    case Body =>
      var g :| s' == Allocate(s, t, s.txs[t], g);
      AllocateRely(s, t, g);
    case LockLoad(_) => IncrementRely(s, t);
    case LockCas(todo, a, _) => AcquireRely(s, t, todo, StripeOf(a));
    case Validate(_) => DecideRely(s, t);
    case _ =>
  }

  /** What giving stripes back means to them. */
  lemma ReleasingRely(s: State, t: Tid, s': State)
    requires Inv(s) && Tame(s) && t in s.txs && IsSharedStep(s, t, s')
    requires s.txs[t].pc.Release? || s.txs[t].pc.UnlockStore?
    ensures Rely(s, s', t)
  {
    assert TxOk(s, t, s.txs[t]);
    if s.txs[t].pc.Release? {
      SetVersionGivesBack(s, t);
      hide Inv, TxOk, Tame, Rely;
      GivesBackRely(s, s', t, StripeOf(s.txs[t].pc.addr));
    } else {
      UnlockGivesBack(s, t);
      hide Inv, TxOk, Tame, Rely;
      GivesBackRely(s, s', t, s.txs[t].pc.l);
    }
  }

  lemma FinishIsListsOnly(s: State, t: Tid, s': State)
    requires t in s.txs && IsSharedStep(s, t, s') && (s.txs[t].pc == WriteBack({}) || s.txs[t].pc.Deleting?)
    ensures ListsOnly(s, s', t)
  {
  }

  /** What copying words back and finishing means to them. */
  lemma FinishingRely(s: State, t: Tid, s': State)
    requires Inv(s) && t in s.txs && IsSharedStep(s, t, s')
    requires s.txs[t].pc.WriteBack? || s.txs[t].pc.Deleting?
    ensures Rely(s, s', t)
  {
    assert TxOk(s, t, s.txs[t]) && LocksOk(s);
    hide Inv, TxOk, LocksOk, Rely;
    if s.txs[t].pc.WriteBack? && s.txs[t].pc.todo != {} {
      var a :| a in s.txs[t].pc.todo && a in s.txs[t].writeSet && s' == CopyBack(s, t, s.txs[t], s.txs[t].pc.todo, a);
      CopyBackRely(s, t, a);
    } else {
      hide IsSharedStep, ListsOnly;
      HoldsNothing(s, t, s.txs[t]);
      FinishIsListsOnly(s, t, s');
      ListsOnlyRely(s, s', t);
    }
  }

  lemma AllocateRely(s: State, t: Tid, g: Segment)
    requires LocksOk(s) && t in s.txs && s.txs[t].pc.Body?
    ensures Rely(s, Allocate(s, t, s.txs[t], g), t)
  {
    SameLocksRely(s, Allocate(s, t, s.txs[t], g), t);
  }

  lemma PrivateIsQuiet(s: State, t: Tid, e: Event, tx': Tx)
    requires t in s.txs && Private(s, s.txs[t], e) == Some(tx')
    ensures Quiet(s, t, tx')
  {
  }

  lemma StepRely(s: State, t: Tid, e: Event, s': State)
    requires Inv(s) && Tame(s) && Step(s, t, e) == Some(s')
    ensures Rely(s, s', t)
  {
    if t !in s.txs {
      StartRely(s, t, e.ro);
    } else {
      StepShape(s, t, e, s');
      if IsSharedStep(s, t, s') {
        SharedStepFrame(s, t, s');
        hide Inv, Step, Rely, SharedFrame;
        if s.txs[t].pc.Release? || s.txs[t].pc.UnlockStore? {
          ReleasingRely(s, t, s');
        } else if s.txs[t].pc.WriteBack? || s.txs[t].pc.Deleting? {
          FinishingRely(s, t, s');
        } else {
          DecidingRely(s, t, s');
        }
      } else {
        hide Step, Rely;
        PrivateIsQuiet(s, t, e, Private(s, s.txs[t], e).value);
        PutRely(s, t, Private(s, s.txs[t], e).value);
      }
    }
  }

  lemma InitialInv(s: State)
    requires Initial(s)
    ensures Inv(s)
  {
  }

  /** The invariant holds in a state of a run as long as all states before it are tame. */
  lemma {:induction false} RunInvUpTo(states: seq<State>, labels: seq<Label>, i: nat)
    requires IsRun(states, labels) && i < |states| && forall j :: 0 <= j < i ==> Tame(states[j])
    ensures Inv(states[i])
  {
    if i == 0 {
      InitialInv(states[0]);
    } else {
      RunInvUpTo(states, labels, i - 1);
      var l := labels[i - 1];
      assert Step(states[i - 1], l.t, l.e) == Some(states[i]);
      StepKeeps(states[i - 1], l.t, l.e, states[i]);
    }
  }

  /** While the clock is below 2^31 every abort gives back a version that fits. */
  lemma {:induction false} SmallClock(states: seq<State>, labels: seq<Label>, i: nat)
    requires IsRun(states, labels) && i < |states| && states[i].gvc < UNLOCK_LIMIT
    requires forall j :: 0 <= j <= i ==> states[j].gvc < UNLOCK_LIMIT
    requires forall j :: 0 <= j <= i ==> InjectiveWrites(states[j])
    ensures Tame(states[i])
  {
    forall j | 0 <= j < i
      ensures Tame(states[j])
    {
      SmallClock(states, labels, j);
    }
    RunInvUpTo(states, labels, i);
    var s := states[i];
    forall t | t in s.txs && s.txs[t].pc.UnlockStore?
      ensures s.txs[t].pc.v < UNLOCK_LIMIT
    {
      assert TxOk(s, t, s.txs[t]);
    }
  }

  /** The invariant holds in every state of every tame run. */
  lemma RunInv(states: seq<State>, labels: seq<Label>, i: nat)
    requires IsTameRun(states, labels) && i < |states|
    ensures Inv(states[i])
  {
    RunInvUpTo(states, labels, i);
  }
}
