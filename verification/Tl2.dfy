/** The TL2 transactional memory as a transition system: any number of transactions, one
    transition per atomic access to the clock, a lock word or a word of shared memory. */
module Tl2 {
  import opened LockWord
  import opened Options

  const NUM_LOCKS: nat := 10000
  const CLOCK_SIZE: nat := 0x1_0000_0000_0000_0000

  type Addr = nat
  type Val = int
  type Tid = nat

  // ---- Shared memory and lock stripes ----

  /** A word that was never written holds zero. */
  type Mem = map<Addr, Val>

  function Get(m: Mem, a: Addr): Val {
    if a in m then m[a] else 0
  }

  type Stripe = l: nat | l < NUM_LOCKS witness 0

  type Locks = s: seq<Word> | |s| == NUM_LOCKS witness seq(NUM_LOCKS, _ => Word(0, false))

  function StripeOf(a: Addr): Stripe {
    a % NUM_LOCKS
  }

  function Stripes(addrs: set<Addr>): set<Stripe> {
    set a | a in addrs :: StripeOf(a)
  }

  datatype Segment = Segment(base: Addr, size: nat)

  predicate Apart(g: Segment, h: Segment) {
    g.base + g.size <= h.base || h.base + h.size <= g.base
  }

  /** What the allocator may return: a non-null address of memory that nobody has. */
  predicate Fresh(heap: set<Segment>, g: Segment) {
    g.base > 0 && g.size > 0 && forall h :: h in heap ==> Apart(g, h)
  }

  // ---- What one transaction did, as its client saw it ----

  /** `buffered`: the value came from the write set. `calm`: the two loads of the post-validation
      saw the same version, so that one load of the word would have decided the same. */
  datatype Op =
    | Rd(addr: Addr, val: Val, buffered: bool, calm: bool)
    | Wr(addr: Addr, val: Val)
    | Al(seg: Segment)

  type Log = seq<Op>

  function WritesOf(log: Log): Mem {
    if log == [] then map[]
    else
      var w := WritesOf(log[..|log| - 1]);
      match log[|log| - 1]
      case Wr(a, x) => w[a := x]
      case _ => w
  }

  // ---- Transactions ----

  datatype Pc =
    | Body                                           // between two calls of the client
    | PreVersion(addr: Addr)                         // tm_read: about to load the version
    | PreLock(addr: Addr, v: nat)                    // ... the lock bit, then compare
    | Copy(addr: Addr, v: nat)                       // ... the word itself
    | PostVersion(addr: Addr, v: nat, x: Val)        // ... the version again
    | PostLock(addr: Addr, v: nat, nv: nat, x: Val)  // ... the lock bit again, then compare
    | LockLoad(todo: set<Addr>)                      // tm_end: lock loop, load half of lock()
    | LockCas(todo: set<Addr>, addr: Addr, v: nat)   // ... exchange half of lock()
    | Validate(todo: set<Addr>)                      // read-set loop, lock bit
    | ValidateVersion(todo: set<Addr>, addr: Addr)   // ... version
    | WriteBack(todo: set<Addr>)                     // write-back loop, copy
    | Release(todo: set<Addr>, addr: Addr)           // ... setVersion
    | UnlockLoad(locks: set<Stripe>)                 // abort loop, load half of unlock()
    | UnlockStore(locks: set<Stripe>, l: Stripe, v: nat) // ... store half of unlock()
    | Deleting(ok: bool)                             // delete txn; return ok
    | Committed
    | Aborted

  /** `wv` is 0 until the clock was incremented. `log` is a history variable. */
  datatype Tx = Tx(
    ro: bool,
    rv: nat,
    wv: nat,
    readSet: set<Addr>,
    writeSet: Mem,
    held: set<Stripe>,
    segs: set<Segment>,
    pc: Pc,
    log: Log)

  datatype Commit = Commit(tid: Tid, log: Log, writes: Mem)

  /** `owner` (who set each lock bit), `commits` (what was decided at each write version),
      `heap` (segments ever allocated) and `freed` are history variables: no transition
      of the library depends on them. */
  datatype State = State(
    gvc: nat,
    locks: Locks,
    mem: Mem,
    region: set<Segment>,
    txs: map<Tid, Tx>,
    owner: map<Stripe, Tid>,
    commits: map<nat, Commit>,
    heap: set<Segment>,
    freed: multiset<Segment>)

  datatype Event =
    | Begin(ro: bool)
    | CallRead(addr: Addr)
    | CallWrite(waddr: Addr, val: Val)
    | CallAlloc(seg: Segment)
    | CallEnd
    | Pick(pick: Addr)     // next element of an unordered set of addresses
    | PickLock(lock: Stripe)
    | Go(spurious: bool)   // the only access possible; `spurious`: the weak exchange fails

  predicate Initial(s: State) {
    && s.gvc == 0
    && (forall l: Stripe :: s.locks[l] == Word(0, false))
    && s.mem == map[] && s.txs == map[] && s.owner == map[] && s.commits == map[]
    && s.region == {} && s.freed == multiset{}
  }

  function Put(s: State, t: Tid, tx: Tx): State {
    s.(txs := s.txs[t := tx])
  }

  // ---- Transitions that touch only the transaction's private state ----

  /** Reads of shared state are allowed here, writes are not. */
  function Private(s: State, tx: Tx, e: Event): Option<Tx> {
    match tx.pc
    case Body =>
      if e.CallRead? then Some(tx.(pc := PreVersion(e.addr)))
      else if e.CallWrite? && !tx.ro then
        Some(tx.(writeSet := tx.writeSet[e.waddr := e.val], log := tx.log + [Wr(e.waddr, e.val)]))
      else if e.CallEnd? then
        Some(tx.(pc := if tx.ro then Deleting(true) else LockLoad(tx.writeSet.Keys)))
      else None
    case PreVersion(a) =>
      if !e.Go? then None
      else Some(tx.(pc := PreLock(a, s.locks[StripeOf(a)].version)))
    case PreLock(a, v) =>
      if !e.Go? then None
      else Some(tx.(pc := if s.locks[StripeOf(a)].locked || v > tx.rv then Deleting(false) else Copy(a, v)))
    case Copy(a, v) =>
      if !e.Go? then None
      else
        var x := if !tx.ro && a in tx.writeSet then tx.writeSet[a] else Get(s.mem, a);
        Some(tx.(pc := PostVersion(a, v, x)))
    case PostVersion(a, v, x) =>
      if !e.Go? then None
      else Some(tx.(pc := PostLock(a, v, s.locks[StripeOf(a)].version, x)))
    case PostLock(a, v, nv, x) =>
      if !e.Go? then None
      else
        var w := s.locks[StripeOf(a)];
        if w.locked || nv != v || (tx.ro && nv > tx.rv) then
          Some(tx.(pc := Deleting(false)))
        else
          Some(tx.(pc := Body,
                   readSet := if tx.ro then tx.readSet else tx.readSet + {a},
                   log := tx.log + [Rd(a, x, !tx.ro && a in tx.writeSet, w.version == nv)]))
    case LockLoad(todo) =>
      if e.Pick? && e.pick in todo then
        Some(tx.(pc := LockCas(todo - {e.pick}, e.pick, s.locks[StripeOf(e.pick)].version)))
      else None
    case LockCas(todo, a, _) => // the exchange failed
      if !e.Go? then None
      else Some(tx.(pc := if StripeOf(a) in tx.held then LockLoad(todo) else UnlockLoad(tx.held)))
    case Validate(todo) =>
      if !e.Pick? || e.pick !in todo then None
      else if StripeOf(e.pick) !in tx.held && s.locks[StripeOf(e.pick)].locked then
        Some(tx.(pc := UnlockLoad(tx.held)))
      else
        Some(tx.(pc := ValidateVersion(todo - {e.pick}, e.pick)))
    case ValidateVersion(todo, a) =>
      if !e.Go? then None
      else Some(tx.(pc := if s.locks[StripeOf(a)].version > tx.rv then UnlockLoad(tx.held) else Validate(todo)))
    case UnlockLoad(locks) =>
      if e.PickLock? && e.lock in locks then
        Some(tx.(pc := UnlockStore(locks - {e.lock}, e.lock, s.locks[e.lock].version)))
      else if e.Go? && locks == {} then Some(tx.(pc := Deleting(false)))
      else None
    case _ => None
  }

  // ---- Transitions that write shared state ----

  function Start(s: State, t: Tid, ro: bool): State {
    Put(s, t, Tx(ro, s.gvc, 0, {}, map[], {}, {}, Body, []))
  }

  function Allocate(s: State, t: Tid, tx: Tx, g: Segment): State {
    Put(s.(heap := s.heap + {g}), t, tx.(segs := tx.segs + {g}, log := tx.log + [Al(g)]))
  }

  function Acquire(s: State, t: Tid, tx: Tx, todo: set<Addr>, l: Stripe): State {
    Put(s.(locks := s.locks[l := s.locks[l].(locked := true)], owner := s.owner[l := t]), t,
        tx.(held := tx.held + {l}, pc := LockLoad(todo)))
  }

  /** fetch_add(1) + 1, and the test that skips the validation loop */
  function Increment(s: State, t: Tid, tx: Tx): State {
    var wv := (s.gvc + 1) % CLOCK_SIZE;
    Put(s.(gvc := wv), t, tx.(wv := wv, pc := Validate(if (tx.rv + 1) % CLOCK_SIZE != wv then tx.readSet else {})))
  }

  /** Validation is over: from here on the transaction commits. */
  function Decide(s: State, t: Tid, tx: Tx): State {
    Put(s.(commits := s.commits[tx.wv := Commit(t, tx.log, tx.writeSet)]), t,
        tx.(pc := WriteBack(tx.writeSet.Keys)))
  }

  function CopyBack(s: State, t: Tid, tx: Tx, todo: set<Addr>, a: Addr): State
    requires a in tx.writeSet
  {
    Put(s.(mem := s.mem[a := tx.writeSet[a]]), t, tx.(pc := Release(todo - {a}, a)))
  }

  function SetVersion(s: State, t: Tid, tx: Tx, todo: set<Addr>, l: Stripe): State {
    Put(s.(locks := s.locks[l := Released(tx.wv)], owner := s.owner - {l}), t, tx.(pc := WriteBack(todo)))
  }

  function Unlock(s: State, t: Tid, tx: Tx, locks: set<Stripe>, l: Stripe, v: nat): State {
    Put(s.(locks := s.locks[l := Unlocked(v)], owner := s.owner - {l}), t, tx.(pc := UnlockLoad(locks)))
  }

  /** The new segments join the region's list; the emptied transaction is deleted. */
  function Splice(s: State, t: Tid, tx: Tx): State {
    Put(s.(region := s.region + tx.segs), t, tx.(segs := {}, pc := Committed))
  }

  /** The destructor frees the segments still listed in the transaction. */
  function Delete(s: State, t: Tid, tx: Tx, ok: bool): State {
    Put(s.(freed := s.freed + multiset(tx.segs)), t, tx.(segs := {}, pc := if ok then Committed else Aborted))
  }

  function Step(s: State, t: Tid, e: Event): Option<State> {
    if t !in s.txs then
      if e.Begin? then Some(Start(s, t, e.ro)) else None
    else
      var tx := s.txs[t];
      match tx.pc
      case Body =>
        if e.CallAlloc? then
          if !tx.ro && Fresh(s.heap, e.seg) then Some(Allocate(s, t, tx, e.seg)) else None
        else PrivateStep(s, t, tx, e)
      case LockLoad(todo) =>
        if e.Go? && todo == {} then Some(Increment(s, t, tx)) else PrivateStep(s, t, tx, e)
      case LockCas(todo, a, v) =>
        if e.Go? && !e.spurious && s.locks[StripeOf(a)] == Word(v, false)
        then Some(Acquire(s, t, tx, todo, StripeOf(a)))
        else PrivateStep(s, t, tx, e)
      case Validate(todo) =>
        if e.Go? && todo == {} then Some(Decide(s, t, tx)) else PrivateStep(s, t, tx, e)
      case WriteBack(todo) =>
        if e.Pick? && e.pick in todo && e.pick in tx.writeSet then Some(CopyBack(s, t, tx, todo, e.pick))
        else if e.Go? && todo == {} then Some(Splice(s, t, tx))
        else None
      case Release(todo, a) =>
        if e.Go? then Some(SetVersion(s, t, tx, todo, StripeOf(a))) else None
      case UnlockStore(locks, l, v) =>
        if e.Go? then Some(Unlock(s, t, tx, locks, l, v)) else None
      case Deleting(ok) =>
        if e.Go? then Some(Delete(s, t, tx, ok)) else None
      case _ => PrivateStep(s, t, tx, e)
  }

  function PrivateStep(s: State, t: Tid, tx: Tx, e: Event): Option<State> {
    match Private(s, tx, e)
    case Some(tx') => Some(Put(s, t, tx'))
    case None => None
  }

  // ---- Runs ----

  datatype Label = Label(t: Tid, e: Event)

  ghost predicate IsRun(states: seq<State>, labels: seq<Label>) {
    && |states| == |labels| + 1
    && Initial(states[0])
    && forall i :: 0 <= i < |labels| ==> Step(states[i], labels[i].t, labels[i].e) == Some(states[i + 1])
  }

  /** The stripe map is injective on a write set: no two of its words share a lock. */
  ghost predicate StripeInjective(addrs: set<Addr>) {
    forall a, b :: a in addrs && b in addrs && StripeOf(a) == StripeOf(b) ==> a == b
  }

  /** The hypotheses under which the library is correct: write sets are stripe-injective, versions fit the
      word, and no abort is about to give back a stripe whose version does not fit the mask of `unlock`. */
  ghost predicate Tame(s: State) {
    && s.gvc < VERSION_LIMIT
    && InjectiveWrites(s)
    && (forall t :: t in s.txs && s.txs[t].pc.UnlockStore? ==> s.txs[t].pc.v < UNLOCK_LIMIT)
  }

  ghost predicate InjectiveWrites(s: State) {
    forall t :: t in s.txs ==> StripeInjective(s.txs[t].writeSet.Keys)
  }

  ghost predicate IsTameRun(states: seq<State>, labels: seq<Label>) {
    IsRun(states, labels) && forall i :: 0 <= i < |states| ==> Tame(states[i])
  }

  // ---- Committed states ----

  /** The memory after the commits with write version at most `v`, in the order of their versions. */
  function StateAt(commits: map<nat, Commit>, v: nat): Mem {
    if v == 0 then map[]
    else if v in commits then StateAt(commits, v - 1) + commits[v].writes
    else StateAt(commits, v - 1)
  }

  /** Between the decision to commit and the return of tm_end, and after it. */
  predicate Decided(pc: Pc) {
    pc.WriteBack? || pc.Release? || pc == Deleting(true) || pc.Committed?
  }
}
