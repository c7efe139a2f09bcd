/** The correctness check as it runs: any number of workers, each in the text of check(), on one transactional memory
    and one spin barrier, all of them one atomic access at a time. */
module CheckWorld {
  import opened Options
  import opened Tl2
  import opened Tl2Invariant
  import opened CounterRuns
  import CounterCheck
  import Barrier
  import Progress

  // ---- The workers ----

  /** `at`: where a worker is in check(); `current`: its transaction, if it has one. `v0` records the version at which
      the counter was initialised, 0 before that. */
  datatype World = World(tm: State, bar: Barrier.State, at: seq<CounterCheck.Local>, current: seq<Option<Tid>>, v0: nat)

  predicate Sized(w: World) {
    |w.at| > 0 && |w.at| == |w.current| == |w.bar.pcs| && Barrier.Sized(w.bar)
  }

  function Total(w: World): nat {
    CounterCheck.NB_TX * |w.at|
  }

  predicate Transacts(l: CounterCheck.Local) {
    l.InitWrite? || l.InitCheck? || (l.ReadLast? && l.i < CounterCheck.NB_TX) || l.Decrement? || l.FinalCheck?
  }

  /** A worker has a transaction exactly where check() goes by an answer of memory, or writes the first value. */
  lemma TransactsIff(l: CounterCheck.Local, first: bool, initial: nat)
    ensures Transacts(l) <==>
              l.InitWrite? || exists x: nat, y: nat :: CounterCheck.Continue(l, first, initial, x)
                                                       != CounterCheck.Continue(l, first, initial, y)
  {
    var x := if l.InitCheck? then initial else if l.Decrement? then l.last else 0;
    if Transacts(l) && !l.InitWrite? {
      assert CounterCheck.Continue(l, first, initial, x) != CounterCheck.Continue(l, first, initial, x + 1);
    }
  }

  predicate ReadsOnly(l: CounterCheck.Local) {
    !l.InitWrite? && !l.Decrement?
  }

  function AsSize(x: Val): nat {
    if x < 0 then 0 else x
  }

  /** The next call of the transaction at `l`, which has done `log`. */
  function Call(l: CounterCheck.Local, c: Addr, total: nat, log: Log): Event {
    if l.InitWrite? then if log == [] then CallWrite(c, total) else CallEnd
    else if log == [] then CallRead(c)
    else if l.Decrement? && |log| == 1 && log[0].Rd? && log[0].val <= l.last
    then CallWrite(c, CounterCheck.Pred(AsSize(log[0].val)))
    else CallEnd
  }

  /** What the committed transaction has read. */
  function Answer(log: Log): nat {
    if log != [] && log[0].Rd? then AsSize(log[0].val) else 0
  }

  /** Worker `t` goes on in check(), with the answer `x`. */
  function Resume(w: World, t: nat, x: nat): World
    requires t < |w.at| == |w.current|
  {
    w.(at := w.at[t := CounterCheck.Continue(w.at[t], t == 0, Total(w), x)], current := w.current[t := None])
  }

  /** A step of the transactional memory. */
  function Performs(w: World, t: nat, u: Tid, e: Event): Option<World>
    requires t < |w.at| && u in w.tm.txs
  {
    match Step(w.tm, u, e)
    case None => None
    case Some(s') =>
      Some(w.(tm := s',
              v0 := if w.at[t].InitWrite? && !Decided(w.tm.txs[u].pc) && u in s'.txs && Decided(s'.txs[u].pc)
                    then s'.txs[u].wv else w.v0))
  }

  /** The worker's transaction moves; when it is over, the worker takes the answer or tries again. */
  function InTx(w: World, c: Addr, t: nat, u: Tid, e: Event): Option<World>
    requires t < |w.at| == |w.current| && u in w.tm.txs
  {
    match w.tm.txs[u].pc
    case Committed => Some(Resume(w, t, Answer(w.tm.txs[u].log)))
    case Aborted => Some(w.(current := w.current[t := None]))
    case Body => Performs(w, t, u, Call(w.at[t], c, Total(w), w.tm.txs[u].log))
    case _ => Performs(w, t, u, e)
  }

  function Begins(w: World, t: nat, u: Tid): Option<World>
    requires t < |w.at| == |w.current|
  {
    if u in w.tm.txs then None
    else Some(w.(tm := Start(w.tm, u, ReadsOnly(w.at[t])), current := w.current[t := Some(u)]))
  }

  /** `tid` names a transaction that begins, `e` settles the choices inside the library. */
  datatype Turn = Turn(thread: nat, tid: Tid, e: Event)

  function Next(w: World, c: Addr, turn: Turn): Option<World>
    requires Sized(w) && turn.thread < |w.at|
  {
    var t := turn.thread;
    if !w.bar.pcs[t].Outside? then Some(w.(bar := Barrier.Next(w.bar, t)))
    else if CounterCheck.Syncs(w.at[t]) then Some(Resume(w, t, 0).(bar := Barrier.Next(w.bar, t)))
    else if !Transacts(w.at[t]) then Some(Resume(w, t, 0))
    else
      match w.current[t]
      case None => Begins(w, t, turn.tid)
      case Some(u) => if u in w.tm.txs then InTx(w, c, t, u, turn.e) else None
  }

  /** A memory that some tame run has led to, earlier phases of the benchmark included. */
  ghost predicate Reachable(s: State) {
    exists states, labels :: IsTameRun(states, labels) && s == states[|labels|]
  }

  ghost predicate Started(w: World) {
    && Sized(w) && Reachable(w.tm) && Barrier.Initial(w.bar) && w.v0 == 0
    && forall t :: 0 <= t < |w.at| ==> w.at[t] == CounterCheck.Sync1 && w.current[t] == None
  }

  ghost predicate IsCheckRun(worlds: seq<World>, c: Addr, turns: seq<Turn>) {
    && |worlds| == |turns| + 1 && Started(worlds[0])
    && (forall i :: 0 <= i < |worlds| ==> Tame(worlds[i].tm))
    && forall i :: 0 <= i < |turns| ==> Moves(worlds[i], c, turns[i], worlds[i + 1])
  }

  predicate Moves(w: World, c: Addr, turn: Turn, w': World) {
    Sized(w) && turn.thread < |w.at| && Next(w, c, turn) == Some(w')
  }

  // ---- The text of a transaction ----

  predicate ReadsCounter(c: Addr, log: Log) {
    log != [] && log[0].Rd? && log[0].addr == c && !log[0].buffered
  }

  /** All that the transaction at `l` does. */
  predicate Complete(l: CounterCheck.Local, c: Addr, total: nat, log: Log) {
    if l.InitWrite? then log == [Wr(c, total)]
    else
      && ReadsCounter(c, log)
      && if l.Decrement? && log[0].val <= l.last
         then |log| == 2 && log[1] == Wr(c, CounterCheck.Pred(AsSize(log[0].val)))
         else |log| == 1
  }

  predicate Partial(l: CounterCheck.Local, c: Addr, total: nat, log: Log) {
    log == [] || (l.Decrement? && |log| == 1 && ReadsCounter(c, log)) || Complete(l, c, total, log)
  }

  predicate FollowsText(l: CounterCheck.Local, c: Addr, total: nat, tx: Tx) {
    match tx.pc
    case Body => Partial(l, c, total, tx.log)
    case PreVersion(a) => tx.log == [] && a == c && !l.InitWrite?
    case PreLock(a, _) => tx.log == [] && a == c && !l.InitWrite?
    case Copy(a, _) => tx.log == [] && a == c && !l.InitWrite?
    case PostVersion(a, _, _) => tx.log == [] && a == c && !l.InitWrite?
    case PostLock(a, _, _, _) => tx.log == [] && a == c && !l.InitWrite?
    case UnlockLoad(_) => true
    case UnlockStore(_, _, _) => true
    case Aborted => true
    case Deleting(ok) => ok ==> Complete(l, c, total, tx.log)
    case _ => Complete(l, c, total, tx.log)
  }

  lemma BodyFollows(l: CounterCheck.Local, c: Addr, total: nat, s: State, tx: Tx, tx': Tx)
    requires FollowsText(l, c, total, tx) && tx.pc.Body? && Private(s, tx, Call(l, c, total, tx.log)) == Some(tx')
    ensures FollowsText(l, c, total, tx')
  {
  }

  lemma ReadFollows(l: CounterCheck.Local, c: Addr, total: nat, s: State, tx: Tx, e: Event, tx': Tx)
    requires FollowsText(l, c, total, tx) && tx.pc.PostLock? && tx.writeSet == WritesOf(tx.log)
    requires Private(s, tx, e) == Some(tx')
    ensures FollowsText(l, c, total, tx')
  {
  }

  lemma PrivateFollows(l: CounterCheck.Local, c: Addr, total: nat, s: State, tx: Tx, e: Event, tx': Tx)
    requires FollowsText(l, c, total, tx) && tx.writeSet == WritesOf(tx.log) && Private(s, tx, e) == Some(tx')
    requires tx.pc.Body? ==> e == Call(l, c, total, tx.log)
    ensures FollowsText(l, c, total, tx')
  {
    if tx.pc.Body? {
      BodyFollows(l, c, total, s, tx, tx');
    } else if tx.pc.PostLock? {
      ReadFollows(l, c, total, s, tx, e, tx');
    } else {
      hide Complete, Partial, StripeOf;
    }
  }

  lemma SharedFollows(l: CounterCheck.Local, c: Addr, total: nat, s: State, u: Tid, s': State)
    requires u in s.txs && u in s'.txs && IsSharedStep(s, u, s') && !s.txs[u].pc.Body?
    requires FollowsText(l, c, total, s.txs[u])
    ensures FollowsText(l, c, total, s'.txs[u])
  {
    SharedStepFrame(s, u, s');
    Progress.SharedPc(s, u, s');
    hide IsSharedStep, Complete, Partial;
  }

  /** The transaction of a worker keeps to its text. */
  lemma StepFollows(l: CounterCheck.Local, c: Addr, total: nat, s: State, u: Tid, e: Event, s': State)
    requires u in s.txs && u in s'.txs && Step(s, u, e) == Some(s') && s.txs[u].writeSet == WritesOf(s.txs[u].log)
    requires s.txs[u].pc.Body? ==> e == Call(l, c, total, s.txs[u].log)
    requires FollowsText(l, c, total, s.txs[u])
    ensures FollowsText(l, c, total, s'.txs[u])
  {
    hide FollowsText, Private;
    StepShape(s, u, e, s');
    if s.txs[u].pc.Body? {
      assert !e.CallAlloc?;
      hide IsSharedStep;
      PrivateFollows(l, c, total, s, s.txs[u], e, s'.txs[u]);
    } else {
      hide Step, IsSharedStep;
      if IsSharedStep(s, u, s') {
        SharedFollows(l, c, total, s, u, s');
      } else {
        PrivateFollows(l, c, total, s, s.txs[u], e, s'.txs[u]);
      }
    }
  }

  // ---- Decisions ----

  /** The step at which a read-write transaction is decided. */
  predicate Decides(s: State, u: Tid, s': State) {
    u in s.txs && u in s'.txs && !s.txs[u].ro && !Decided(s.txs[u].pc) && Decided(s'.txs[u].pc)
  }

  ghost predicate CommitsAfter(s: State, u: Tid, s': State)
    requires u in s.txs
  {
    if Decides(s, u, s') then
      && s.txs[u].wv != 0 && s.txs[u].wv !in s.commits && s'.gvc == s.gvc && s'.txs[u].log == s.txs[u].log
      && s'.commits == s.commits[s.txs[u].wv := Commit(u, s.txs[u].log, s.txs[u].writeSet)]
      && s'.txs[u].wv == s.txs[u].wv
    else s'.commits == s.commits
  }

  lemma PrivateDecidesNothing(s: State, u: Tid, e: Event, tx': Tx)
    requires u in s.txs && TxOk(s, u, s.txs[u]) && Private(s, s.txs[u], e) == Some(tx')
    ensures !Decides(s, u, Put(s, u, tx'))
  {
  }

  lemma SharedDecides(s: State, u: Tid, s': State)
    requires u in s.txs && u in s'.txs && TxOk(s, u, s.txs[u]) && IsSharedStep(s, u, s')
    ensures CommitsAfter(s, u, s')
  {
    Progress.SharedPc(s, u, s');
    if s.txs[u].pc.Validate? {
      hide TxOk, LogOk, AllValidated;
      DecisionCommits(s, u, s');
    } else {
      SharedCommits(s, u, s');
      hide IsSharedStep;
    }
  }

  lemma DecisionCommits(s: State, u: Tid, s': State)
    requires u in s.txs && u in s'.txs && TxOk(s, u, s.txs[u]) && IsSharedStep(s, u, s') && s.txs[u].pc.Validate?
    ensures CommitsAfter(s, u, s')
  {
  }

  lemma SharedCommits(s: State, u: Tid, s': State)
    requires u in s.txs && IsSharedStep(s, u, s') && !s.txs[u].pc.Validate?
    ensures s'.commits == s.commits
  {
  }

  lemma StepDecides(s: State, u: Tid, e: Event, s': State)
    requires Inv(s) && u in s.txs && u in s'.txs && Step(s, u, e) == Some(s')
    ensures CommitsAfter(s, u, s')
  {
    StepShape(s, u, e, s');
    assert TxOk(s, u, s.txs[u]);
    hide Step, Inv, TxOk, IsSharedStep;
    if IsSharedStep(s, u, s') {
      SharedDecides(s, u, s');
    } else {
      PrivateDecidesNothing(s, u, e, s'.txs[u]);
    }
  }

  // ---- Counting ----

  lemma CommitWithin(s: State, k: nat)
    requires Inv(s) && k in s.commits
    ensures 0 < k <= s.gvc
  {
  }

  lemma {:induction false} NoneBeyond(commits: map<nat, Commit>, c: Addr, v0: nat, v: nat, w: nat)
    requires v <= w && forall k :: k in commits ==> k <= v
    ensures CounterRuns.Decrements(commits, c, v0, w) == CounterRuns.Decrements(commits, c, v0, v)
  {
    if v < w {
      NoneBeyond(commits, c, v0, v, w - 1);
    }
  }

  lemma {:induction false} OneMoreCommit(commits: map<nat, Commit>, c: Addr, v0: nat, k: nat, commit: Commit, v: nat)
    requires k !in commits
    ensures CounterRuns.Decrements(commits[k := commit], c, v0, v)
         == CounterRuns.Decrements(commits, c, v0, v) + if v0 < k <= v && IsDecrement(c, commit.log) then 1 else 0
  {
    if v > v0 {
      OneMoreCommit(commits, c, v0, k, commit, v - 1);
    }
  }
}
