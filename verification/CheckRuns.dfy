/** Every turn of the check keeps its invariant; hence no run of it ever reports an error. */
module CheckRuns {
  import opened Options
  import opened Tl2
  import opened Tl2Invariant
  import opened Serializability
  import opened SingleReads
  import opened CounterRuns
  import CounterCheck
  import Barrier
  import Progress
  import opened CheckWorld
  import opened CheckInvariant

  // ---- A transaction moves ----

  /** What a step of the transaction `u` at `l` makes of its own record. */
  ghost predicate MoverKeeps(s: State, u: Tid, s': State, l: CounterCheck.Local, c: Addr, total: nat)
    requires u in s.txs
  {
    && u in s'.txs && s'.txs[u].rv == s.txs[u].rv && s'.txs[u].ro == s.txs[u].ro && s.gvc <= s'.gvc
    && FollowsText(l, c, total, s'.txs[u])
    && (Decided(s.txs[u].pc) ==> Decided(s'.txs[u].pc) && s'.txs[u].log == s.txs[u].log)
    && CommitsAfter(s, u, s')
  }

  lemma DecidedKeepsLog(s: State, u: Tid, e: Event, s': State)
    requires u in s.txs && u in s'.txs && Step(s, u, e) == Some(s')
    ensures s'.txs[u].ro == s.txs[u].ro && (Decided(s.txs[u].pc) ==> s'.txs[u].log == s.txs[u].log)
  {
    StepShape(s, u, e, s');
    hide Step, IsSharedStep;
    if IsSharedStep(s, u, s') {
      SharedStepFrame(s, u, s');
    }
  }

  lemma StepMoves(s: State, u: Tid, e: Event, s': State, l: CounterCheck.Local, c: Addr, total: nat)
    requires Inv(s) && Tame(s) && u in s.txs && Step(s, u, e) == Some(s')
    requires s.txs[u].pc.Body? ==> e == Call(l, c, total, s.txs[u].log)
    requires FollowsText(l, c, total, s.txs[u])
    ensures MoverKeeps(s, u, s', l, c, total) && Inv(s')
  {
    assert TxOk(s, u, s.txs[u]);
    assert s.txs[u].writeSet == WritesOf(s.txs[u].log);
    hide Inv, Step, TxOk, Call, FollowsText, Tame;
    Tl2Invariant.StepKeeps(s, u, e, s');
    RelyHolds(s, u, e, s');
    StepFollows(l, c, total, s, u, e, s');
    DecidedKeepsLog(s, u, e, s');
    StepDecides(s, u, e, s');
    StepModerate(s, u, e, s', u);
    if Decided(s.txs[u].pc) {
      Progress.DecidedStays(s, u, e, s');
    }
  }

  lemma RelyHolds(s: State, u: Tid, e: Event, s': State)
    requires Inv(s) && Tame(s) && u in s.txs && Step(s, u, e) == Some(s')
    ensures u in s'.txs
  {
    hide Inv, Tame, Step;
    StepRely(s, u, e, s');
  }

  /** Undecided or decided long ago: CounterCheck sees nothing. */
  lemma QuietMover(w: World, c: Addr, t: nat, u: Tid, w': World)
    requires Sized(w) && t < |w.at| && w.current[t] == Some(u) && WorkerOk(w, c, t) && u in w.tm.txs
    requires w' == w.(tm := w'.tm) && !Decides(w.tm, u, w'.tm)
    requires MoverKeeps(w.tm, u, w'.tm, w.at[t], c, Total(w))
    requires forall v, x :: SeenAt(w.tm, v, c, x) ==> SeenAt(w'.tm, v, c, x)
    ensures WorkerOk(w', c, t) && PcAt(w', t) == PcAt(w, t) && w'.tm.commits == w.tm.commits
  {
    hide FollowsText, SeenAt, IsDecrement, CounterRuns.Decrements;
    assert TxFits(w, c, t, u);
    if w.at[t].Decrement? {
      var v :| LastSeen(w, c, t, v);
      assert LastSeen(w', c, t, v);
    }
  }

  lemma QuietTurn(w: World, c: Addr, t: nat, u: Tid, w': World)
    requires Sized(w) && t < |w.at| && w.current[t] == Some(u) && u in w.tm.txs
    requires w' == w.(tm := w'.tm) && !Decides(w.tm, u, w'.tm)
    requires MoverKeeps(w.tm, u, w'.tm, w.at[t], c, Total(w)) && Kept(w.tm, w'.tm, u, c)
    requires Inv(w'.tm) && AllSee(w'.tm) && Good(w, c)
    ensures Good(w', c)
  {
    Parts(w, c);
    hide Good, Inv, AllSee, Counted, CounterCheck.Inv, CounterRuns.Decrements, WorkerOk, PcAt, Counter, SeenAt;
    QuietMover(w, c, t, u, w');
    SameCount(w, c, w');
    OthersKeep(w, c, t, u, w');
    assert Sound(w') && Distinct(w');
    hide Sound, Distinct, MoverKeeps, Kept;
    Stutters(w, c, t, w');
  }

  lemma OthersKeep(w: World, c: Addr, t: nat, u: Tid, w': World)
    requires Sized(w) && t < |w.at| && w.current[t] == Some(u) && Distinct(w)
    requires w' == w.(tm := w'.tm) && Kept(w.tm, w'.tm, u, c)
    requires forall r :: 0 <= r < |w.at| && r != t && w.at[r].InitWrite? && w.current[r].Some? ==>
               w'.tm.commits == w.tm.commits
    requires forall r, v :: 0 <= r < |w.at| && r != t && w.at[r].FinalCheck? && Done(w, c, v) == Total(w) ==>
               Done(w', c, v) == Total(w)
    requires forall r :: 0 <= r < |w.at| ==> WorkerOk(w, c, r)
    ensures forall r :: 0 <= r < |w.at| && r != t ==> WorkerOk(w', c, r) && PcAt(w', r) == PcAt(w, r)
  {
    hide WorkerOk, PcAt, Kept, CounterRuns.Decrements;
    forall r | 0 <= r < |w.at| && r != t
      ensures WorkerOk(w', c, r) && PcAt(w', r) == PcAt(w, r)
    {
      assert w.current[r] != Some(u) by {
        assert Distinct(w);
      }
      OtherKeeps(w, c, w', u, r);
    }
  }

  // ---- A decrement is decided ----

  /** Worker `t` is about to have its transaction `u` decided. */
  ghost predicate AtDecision(w: World, c: Addr, t: nat, u: Tid, w': World) {
    && Sized(w) && t < |w.at| && w.current[t] == Some(u) && u in w.tm.txs && u in w'.tm.txs
    && w' == w.(tm := w'.tm, v0 := w'.v0) && Decides(w.tm, u, w'.tm) && CommitsAfter(w.tm, u, w'.tm)
    && MoverKeeps(w.tm, u, w'.tm, w.at[t], c, Total(w)) && Kept(w.tm, w'.tm, u, c)
    && Inv(w'.tm) && AllSee(w'.tm) && Total(w) < CounterCheck.SIZE_MODULUS
  }

  lemma CommitTimes(s: State, u: Tid, s': State)
    requires Inv(s) && Decides(s, u, s') && CommitsAfter(s, u, s')
    ensures s.txs[u].rv < s.txs[u].wv <= s.gvc && s.txs[u].writeSet == WritesOf(s.txs[u].log)
  {
    assert TxOk(s, u, s.txs[u]);
  }

  /** What a decided transaction has done. */
  lemma DecidedText(w: World, c: Addr, t: nat, u: Tid, w': World)
    requires AtDecision(w, c, t, u, w')
    ensures Complete(w.at[t], c, Total(w), w.tm.txs[u].log)
  {
    hide Inv, AllSee, Kept, Complete;
  }

  lemma DecrementOrNothing(l: CounterCheck.Local, c: Addr, total: nat, log: Log)
    requires l.Decrement? && Complete(l, c, total, log) && log[0].val >= 0
    ensures log[0].val <= l.last ==> IsDecrement(c, log)
    ensures log[0].val > l.last ==> !IsDecrement(c, log) && WritesOf(log) == map[]
  {
    if log[0].val > l.last {
      assert log[..0] == [];
    }
  }

  /** There is money left to take, whether this transaction takes it or not. */
  lemma RoomForOne(w: World, c: Addr, t: nat, u: Tid)
    requires Sized(w) && t < |w.at| && w.current[t] == Some(u) && u in w.tm.txs && !Decided(w.tm.txs[u].pc)
    requires w.at[t].Decrement? && Total(w) < CounterCheck.SIZE_MODULUS && Good(w, c)
    ensures w.v0 != 0 && 0 < Counter(w, c) == Total(w) - Done(w, c, w.tm.gvc) && Counter(w, c) <= w.at[t].last
  {
    Parts(w, c);
    assert WorkerOk(w, c, t);
    assert TxFits(w, c, t, u);
    hide Good, Sound, Inv, AllSee, Counted, CounterCheck.Inv, CounterRuns.Decrements, WorkerOk, TxFits, Counter,
      Bounded;
    TotalIsInitial(w, c);
    CounterCheck.CounterPositive(Abstract(w, c), t);
    assert CounterCheck.PcOk(Abstract(w, c), t);
    Counts(w, c);
  }

  /** The commit is counted at its version. */
  lemma CountedOnce(w: World, c: Addr, t: nat, u: Tid, w': World)
    requires AtDecision(w, c, t, u, w') && w'.v0 == w.v0 && Inv(w.tm) && w.v0 < w.tm.txs[u].wv
    ensures forall v :: w.tm.gvc <= v ==>
              Done(w', c, v) == Done(w, c, w.tm.gvc) + if IsDecrement(c, w.tm.txs[u].log) then 1 else 0
  {
    CommitTimes(w.tm, u, w'.tm);
    assert forall k :: k in w.tm.commits ==> k <= w.tm.gvc;
    hide Inv, AllSee, Kept, CounterRuns.Decrements, IsDecrement, MoverKeeps;
    var tx := w.tm.txs[u];
    forall v | w.tm.gvc <= v
      ensures Done(w', c, v) == Done(w, c, w.tm.gvc) + if IsDecrement(c, tx.log) then 1 else 0
    {
      NoneBeyond(w.tm.commits, c, w.v0, w.tm.gvc, v);
      OneMoreCommit(w.tm.commits, c, w.v0, tx.wv, Commit(u, tx.log, tx.writeSet), v);
    }
  }

  lemma WorkloadGrows(s: State, u: Tid, s': State, c: Addr, v0: nat)
    requires u in s.txs && Decides(s, u, s') && CommitsAfter(s, u, s') && CounterWorkload(s, c, v0)
    requires IsDecrement(c, s.txs[u].log) || c !in s.txs[u].writeSet
    ensures CounterWorkload(s', c, v0) && (v0 in s.commits ==> v0 in s'.commits && s'.commits[v0] == s.commits[v0])
  {
    hide IsDecrement;
  }

  lemma ClockStands(s: State, u: Tid, s': State)
    requires u in s.txs && Decides(s, u, s') && CommitsAfter(s, u, s')
    ensures s'.gvc == s.gvc
  {
  }

  lemma BoundedFrom(w: World, c: Addr)
    requires Inv(w.tm) && w.v0 != 0 && w.v0 in w.tm.commits && w.tm.commits[w.v0].log == [Wr(c, Total(w))]
    requires CounterWorkload(w.tm, c, w.v0) && Done(w, c, w.tm.gvc) <= Total(w) < CounterCheck.SIZE_MODULUS
    ensures Bounded(w.tm, c, w.v0, Total(w)) && Counted(w, c)
  {
    hide Inv, CounterRuns.Decrements, CounterWorkload;
    InitialisedTo(w.tm, c, w.v0, Total(w));
  }

  /** The memory after the decision is still a counter. */
  lemma StillBounded(w: World, c: Addr, t: nat, u: Tid, w': World)
    requires AtDecision(w, c, t, u, w') && w'.v0 == w.v0 != 0 && w.at[t].Decrement? && w.tm.txs[u].log != []
    requires w.tm.txs[u].log[0].Rd? && w.tm.txs[u].log[0].val >= 0 && w.v0 < w.tm.txs[u].wv
    requires Inv(w.tm) && Counted(w, c) && Done(w, c, w.tm.gvc) < Total(w)
    ensures Bounded(w'.tm, c, w.v0, Total(w)) && Counted(w', c)
  {
    CountedOnce(w, c, t, u, w');
    CommitTimes(w.tm, u, w'.tm);
    DecidedText(w, c, t, u, w');
    DecrementOrNothing(w.at[t], c, Total(w), w.tm.txs[u].log);
    hide Inv, AllSee, CounterRuns.Decrements, Kept, IsDecrement, Complete, MoverKeeps, CommitsAfter, CounterWorkload,
      Decides;
    WorkloadGrows(w.tm, u, w'.tm, c, w.v0);
    ClockStands(w.tm, u, w'.tm);
    assert Done(w', c, w'.tm.gvc) <= Total(w);
    BoundedFrom(w', c);
  }

  /** The transaction has read the counter as it was just before its version. */
  lemma CommittedValue(s: State, u: Tid, s': State, c: Addr)
    requires Decides(s, u, s') && CommitsAfter(s, u, s') && ReadsCounter(c, s.txs[u].log) && Inv(s) && Inv(s')
    ensures s.txs[u].rv < s.txs[u].wv <= s'.gvc && s.txs[u].log[0].val == ValueAt(s', s.txs[u].wv - 1, c)
  {
    hide Inv;
    CommitTimes(s, u, s');
    CommittedRead(s', s.txs[u].wv, 0);
  }

  /** A counter only falls. */
  lemma Falls(s: State, c: Addr, v0: nat, total: nat, v: nat, w: nat)
    requires Inv(s) && Bounded(s, c, v0, total) && v0 <= v <= w <= s.gvc
    ensures ValueAt(s, w, c) <= ValueAt(s, v, c)
  {
    hide Inv, CounterRuns.Decrements, Bounded, ValueAt;
    CounterAt(s, c, v0, total, w);
    CounterAt(s, c, v0, total, v);
    DecrementsGrow(s.commits, c, v0, v, w);
  }

  ghost predicate DecrementDecided(w: World, c: Addr, t: nat, u: Tid, w': World)
    requires t < |w.at| && u in w.tm.txs
  {
    && w.at[t].Decrement? && IsDecrement(c, w.tm.txs[u].log) && w.tm.txs[u].log[0].val <= w.at[t].last
    && Counted(w', c) && Counter(w', c) == Counter(w, c) - 1 >= 0 && Counter(w, c) <= w.at[t].last
    && w.v0 != 0 && Done(w, c, w.tm.gvc) < Total(w)
  }

  /** What a worker about to decrement has read, in this transaction and in the last. */
  lemma HasRead(w: World, c: Addr, t: nat, u: Tid, w': World, v: nat)
    requires AtDecision(w, c, t, u, w') && w'.v0 == w.v0 && w.at[t].Decrement?
    requires TxFits(w, c, t, u) && LastSeen(w, c, t, v) && Good(w, c)
    ensures ReadsCounter(c, w.tm.txs[u].log) && w.tm.txs[u].log[0].val >= 0
    ensures w.v0 != 0 && w.v0 <= v <= w.tm.txs[u].rv && SeenAt(w'.tm, v, c, w.at[t].last)
  {
    hide Good, Inv, AllSee, CounterRuns.Decrements, SeenAt, MoverKeeps, CommitsAfter, FollowsText, IsDecrement;
    DecidedText(w, c, t, u, w');
    var v1 := ReadValue(w, c, t, u);
  }

  /** ... and that there is something left to take. */
  ghost predicate Ready(w: World, c: Addr, t: nat, u: Tid, w': World, v: nat) {
    && t < |w.at| && u in w.tm.txs && w.at[t].Decrement? && w'.v0 == w.v0 != 0
    && ReadsCounter(c, w.tm.txs[u].log) && w.tm.txs[u].log[0].val >= 0
    && w.v0 <= v <= w.tm.txs[u].rv && SeenAt(w'.tm, v, c, w.at[t].last)
    && Inv(w.tm) && Counted(w, c) && Done(w, c, w.tm.gvc) < Total(w) && 0 < Counter(w, c) <= w.at[t].last
  }

  lemma IsReady(w: World, c: Addr, t: nat, u: Tid, w': World, v: nat)
    requires AtDecision(w, c, t, u, w') && w'.v0 == w.v0 && w.at[t].Decrement?
    requires TxFits(w, c, t, u) && LastSeen(w, c, t, v) && Good(w, c)
    ensures Ready(w, c, t, u, w', v)
  {
    Parts(w, c);
    hide Good, Sound, Inv, AllSee, CounterRuns.Decrements, WorkerOk, IsDecrement, Distinct, Counter, Counted, TxFits,
      LastSeen, Kept, MoverKeeps, CommitsAfter;
    HasRead(w, c, t, u, w', v);
    RoomForOne(w, c, t, u);
  }

  lemma DecrementDecides(w: World, c: Addr, t: nat, u: Tid, w': World, v: nat)
    requires Ready(w, c, t, u, w', v) && AtDecision(w, c, t, u, w')
    ensures DecrementDecided(w, c, t, u, w')
  {
    hide Inv, AllSee, CounterRuns.Decrements, IsDecrement, Counter, Counted, Bounded, Kept, MoverKeeps, CommitsAfter,
      Complete;
    CommitTimes(w.tm, u, w'.tm);
    StillBounded(w, c, t, u, w');
    CommittedValue(w.tm, u, w'.tm, c);
    Falls(w'.tm, c, w.v0, Total(w), v, w.tm.txs[u].wv - 1);
    DecidedText(w, c, t, u, w');
    DecrementOrNothing(w.at[t], c, Total(w), w.tm.txs[u].log);
    OneCounted(w, c, t, u, w');
  }

  lemma OneCounted(w: World, c: Addr, t: nat, u: Tid, w': World)
    requires AtDecision(w, c, t, u, w') && w'.v0 == w.v0 != 0 && w.v0 < w.tm.txs[u].wv
    requires IsDecrement(c, w.tm.txs[u].log) && Counted(w, c) && Counted(w', c) && Inv(w.tm)
    ensures Counter(w', c) == Counter(w, c) - 1
  {
    hide Inv, AllSee, CounterRuns.Decrements, IsDecrement, Kept, MoverKeeps;
    CountedOnce(w, c, t, u, w');
    ClockStands(w.tm, u, w'.tm);
    hide Counted, Counter;
    CountsFrom(w, c);
    CountsFrom(w', c);
  }

  lemma CountsFrom(w: World, c: Addr)
    requires w.v0 != 0 && Counted(w, c)
    ensures Counter(w, c) == Total(w) - Done(w, c, w.tm.gvc)
  {
    hide CounterRuns.Decrements, CounterWorkload;
  }

  lemma DecidedPlace(w: World, c: Addr, t: nat, u: Tid, w': World)
    requires AtDecision(w, c, t, u, w') && w.bar.pcs[t].Outside?
    ensures Sized(w') && w'.at == w.at && w'.bar == w.bar && PcAt(w, t) == CounterCheck.Pc(w.at[t], false)
    ensures w.at[t].Decrement? ==> PcAt(w', t) == CounterCheck.Pc(CounterCheck.ReadLast(w.at[t].i + 1), false)
    ensures w.at[t].InitWrite? ==> PcAt(w', t) == CounterCheck.Pc(CounterCheck.InitCheck, false)
  {
    hide Inv, AllSee, Kept, MoverKeeps, CommitsAfter;
  }

  /** CounterCheck's step of the decrement. */
  lemma DecrementRefines(w: World, c: Addr, t: nat, w': World)
    requires Sized(w) && Sized(w') && t < |w.at| && w'.at == w.at && w'.bar == w.bar && w.at[t].Decrement?
    requires PcAt(w, t) == CounterCheck.Pc(w.at[t], false)
    requires PcAt(w', t) == CounterCheck.Pc(CounterCheck.ReadLast(w.at[t].i + 1), false)
    requires forall r :: 0 <= r < |w.at| && r != t ==> PcAt(w', r) == PcAt(w, r)
    requires Counter(w', c) == Counter(w, c) - 1 >= 0 && Counter(w, c) <= w.at[t].last
    requires Total(w) < CounterCheck.SIZE_MODULUS
    ensures Abstract(w', c) == CounterCheck.Step(Abstract(w, c), t, Counter(w, c))
    ensures CounterCheck.Initialised(Pcs(w')[0]) <==> CounterCheck.Initialised(Pcs(w)[0])
  {
    assert Counter(w, c) <= Total(w);
    CounterCheck.PredExact(Counter(w, c));
    hide PcAt, Counter, CounterCheck.Pred;
    assert Pcs(w') == Pcs(w)[t := PcAt(w', t)];
  }

  /** When somebody decrements the initialisation is over. */
  lemma NoInitWrite(w: World, c: Addr, t: nat, r: nat)
    requires Sized(w) && CounterCheck.Inv(Abstract(w, c)) && t < |w.at| && r < |w.at|
    requires w.at[t].Decrement? && w.bar.pcs[t].Outside?
    ensures !w.at[r].InitWrite?
  {
    var s := Abstract(w, c);
    assert CounterCheck.PcOk(s, t) && CounterCheck.PcOk(s, r) && s.left[t] <= s.entered[r];
  }

  lemma BelowTotal(w: World, c: Addr, v: nat)
    requires Inv(w.tm) && Done(w, c, w.tm.gvc) < Total(w)
    ensures Done(w, c, v) < Total(w)
  {
    assert forall k :: k in w.tm.commits ==> k <= w.tm.gvc;
    hide Inv, CounterRuns.Decrements;
    if v <= w.tm.gvc {
      DecrementsGrow(w.tm.commits, c, w.v0, v, w.tm.gvc);
    } else {
      NoneBeyond(w.tm.commits, c, w.v0, w.tm.gvc, v);
    }
  }

  lemma DecrementWorker(w: World, c: Addr, t: nat, u: Tid, w': World, v: nat)
    requires AtDecision(w, c, t, u, w') && w'.v0 == w.v0 && TxFits(w, c, t, u) && LastSeen(w, c, t, v)
    requires DecrementDecided(w, c, t, u, w')
    ensures WorkerOk(w', c, t)
  {
    hide FollowsText, IsDecrement, SeenAt, Inv, AllSee, Counted, Counter;
    assert LastSeen(w', c, t, v);
  }

  lemma DecrementOthers(w: World, c: Addr, t: nat, u: Tid, w': World)
    requires AtDecision(w, c, t, u, w') && w'.v0 == w.v0 && w.at[t].Decrement? && w.bar.pcs[t].Outside?
    requires Done(w, c, w.tm.gvc) < Total(w) && Good(w, c)
    ensures forall r :: 0 <= r < |w.at| && r != t ==> WorkerOk(w', c, r) && PcAt(w', r) == PcAt(w, r)
  {
    Parts(w, c);
    hide Good, Sound, Inv, AllSee, CounterCheck.Inv, CounterRuns.Decrements, WorkerOk, Counted, MoverKeeps, Kept, PcAt;
    forall r | 0 <= r < |w.at|
      ensures !w.at[r].InitWrite?
    {
      NoInitWrite(w, c, t, r);
    }
    forall v
      ensures Done(w, c, v) < Total(w)
    {
      BelowTotal(w, c, v);
    }
    OthersKeep(w, c, t, u, w');
  }

  lemma DecidedSound(w: World, c: Addr, t: nat, u: Tid, w': World)
    requires AtDecision(w, c, t, u, w') && Sound(w) && Distinct(w)
    ensures Sound(w') && Distinct(w') && |w'.at| == |w.at|
  {
    hide Inv, AllSee, Kept, MoverKeeps, CommitsAfter, Decides;
  }

  lemma DecrementTurn(w: World, c: Addr, t: nat, u: Tid, w': World)
    requires AtDecision(w, c, t, u, w') && w'.v0 == w.v0 && w.at[t].Decrement?
    requires TxFits(w, c, t, u) && WorkerOk(w, c, t) && Good(w, c)
    ensures Good(w', c)
  {
    var v :| LastSeen(w, c, t, v);
    Parts(w, c);
    hide Good, Sound, Inv, AllSee, CounterCheck.Inv, WorkerOk, Counted, Distinct, Counter, PcAt, CounterCheck.Step;
    hide Kept, MoverKeeps, CommitsAfter, Decides, LastSeen, FollowsText, IsDecrement;
    IsReady(w, c, t, u, w', v);
    DecrementDecides(w, c, t, u, w', v);
    hide Ready;
    DecrementOthers(w, c, t, u, w');
    DecidedPlace(w, c, t, u, w');
    DecrementRefines(w, c, t, w');
    DecrementWorker(w, c, t, u, w', v);
    DecidedSound(w, c, t, u, w');
    hide AtDecision, TxFits, Done, Abstract, CounterCheck.Initialised;
    Refines(w, c, t, w', Counter(w, c));
  }

  // ---- The initialisation is decided ----

  /** Before the initialisation nobody else has a transaction, or is in the loop. */
  lemma OthersWait(w: World, c: Addr, t: nat, r: nat)
    requires Sized(w) && t < |w.at| && r < |w.at| && r != t && w.at[t].InitWrite? && w.bar.pcs[t].Outside?
    requires !IsDecided(w, t) && Good(w, c)
    ensures t == 0 && w.v0 == 0 && w.current[r] == None && !w.at[r].Decrement?
  {
    Parts(w, c);
    hide Good, Sound, Inv, AllSee, Counted, Distinct, FollowsText, SeenAt;
    assert WorkerOk(w, c, r);
    Phases(w, c, t);
    assert Pcs(w)[0] == CounterCheck.Pc(CounterCheck.InitWrite, false);
    assert CounterCheck.PcOk(Abstract(w, c), r) && CounterCheck.PcOk(Abstract(w, c), t);
    if w.current[r].Some? {
      Phases(w, c, r);
    }
    assert Abstract(w, c).left[r] <= Abstract(w, c).entered[0];
  }

  lemma NewestCommit(s: State, u: Tid, s': State)
    requires Decides(s, u, s') && CommitsAfter(s, u, s') && s.txs[u].rv < s.txs[u].wv
    requires forall k :: k in s.commits ==> k <= s.txs[u].rv
    ensures forall k :: k in s'.commits ==> k <= s.txs[u].wv
    ensures s.txs[u].wv in s'.commits && s'.commits[s.txs[u].wv].log == s.txs[u].log
  {
  }

  lemma NoneYet(s: State, c: Addr, v0: nat)
    requires v0 <= s.gvc && forall k :: k in s.commits ==> k <= v0
    ensures CounterWorkload(s, c, v0) && CounterRuns.Decrements(s.commits, c, v0, s.gvc) == 0
  {
    NoneBeyond(s.commits, c, v0, v0, s.gvc);
  }

  lemma InitCounts(w: World, c: Addr, t: nat, u: Tid, w': World)
    requires AtDecision(w, c, t, u, w') && w'.v0 == w.tm.txs[u].wv && w.at[t].InitWrite? && Inv(w.tm)
    requires forall k :: k in w.tm.commits ==> k <= w.tm.txs[u].rv
    ensures w'.v0 != 0 && Counted(w', c) && Counter(w', c) == Total(w)
  {
    hide Inv, AllSee, Kept, MoverKeeps, IsDecrement, CounterRuns.Decrements, CounterWorkload, CommitsAfter, Decides;
    CommitTimes(w.tm, u, w'.tm);
    DecidedText(w, c, t, u, w');
    NewestCommit(w.tm, u, w'.tm);
    ClockStands(w.tm, u, w'.tm);
    NoneYet(w'.tm, c, w'.v0);
  }

  lemma InitRefines(w: World, c: Addr, t: nat, w': World)
    requires Sized(w) && Sized(w') && t == 0 && w'.at == w.at && w'.bar == w.bar && w.at[t].InitWrite?
    requires PcAt(w, t) == CounterCheck.Pc(w.at[t], false)
    requires PcAt(w', t) == CounterCheck.Pc(CounterCheck.InitCheck, false)
    requires forall r :: 0 <= r < |w.at| && r != t ==> PcAt(w', r) == PcAt(w, r)
    requires Counter(w', c) == Total(w)
    ensures Abstract(w', c) == CounterCheck.Step(Abstract(w, c), t, Counter(w, c))
    ensures CounterCheck.Initialised(Pcs(w')[0])
  {
    hide PcAt, Counter;
    TotalIsInitial(w, c);
    assert Pcs(w') == Pcs(w)[t := PcAt(w', t)];
  }

  lemma InitWorker(w: World, c: Addr, t: nat, u: Tid, w': World)
    requires AtDecision(w, c, t, u, w') && TxFits(w, c, t, u) && w.at[t].InitWrite?
    ensures WorkerOk(w', c, t)
  {
    hide FollowsText, Inv, AllSee, Kept, CommitsAfter;
  }

  lemma InitOthers(w: World, c: Addr, t: nat, u: Tid, w': World)
    requires AtDecision(w, c, t, u, w') && w.at[t].InitWrite? && w.bar.pcs[t].Outside? && !IsDecided(w, t)
    requires |w.at| > 1 ==> t == 0
    requires Good(w, c)
    ensures forall r :: 0 <= r < |w.at| && r != t ==> WorkerOk(w', c, r) && PcAt(w', r) == PcAt(w, r)
  {
    hide Good, Inv, AllSee, Kept, MoverKeeps, CommitsAfter, FollowsText, SeenAt;
    forall r | 0 <= r < |w.at| && r != t
      ensures WorkerOk(w', c, r) && PcAt(w', r) == PcAt(w, r)
    {
      OthersWait(w, c, t, r);
    }
  }

  lemma InitFirst(w: World, c: Addr, t: nat, u: Tid, w': World)
    requires AtDecision(w, c, t, u, w') && w.at[t].InitWrite? && w.bar.pcs[t].Outside?
    requires Good(w, c)
    ensures t == 0 && !IsDecided(w, t)
  {
    Parts(w, c);
    hide Good, Sound, Inv, AllSee, Kept, MoverKeeps, CommitsAfter, WorkerOk, Counted;
    Phases(w, c, t);
  }

  lemma InitTurn(w: World, c: Addr, t: nat, u: Tid, w': World)
    requires AtDecision(w, c, t, u, w') && w'.v0 == w.tm.txs[u].wv && w.at[t].InitWrite?
    requires TxFits(w, c, t, u) && Good(w, c)
    ensures Good(w', c)
  {
    Parts(w, c);
    assert w.bar.pcs[t].Outside? && forall k :: k in w.tm.commits ==> k <= w.tm.txs[u].rv;
    hide Good, Sound, Inv, AllSee, CounterCheck.Inv, WorkerOk, Counted, Distinct, Counter, PcAt, CounterCheck.Step;
    hide Kept, MoverKeeps, CommitsAfter, Decides, FollowsText, IsDecided;
    InitFirst(w, c, t, u, w');
    InitCounts(w, c, t, u, w');
    InitOthers(w, c, t, u, w');
    InitWorker(w, c, t, u, w');
    DecidedPlace(w, c, t, u, w');
    InitRefines(w, c, t, w');
    DecidedSound(w, c, t, u, w');
    hide AtDecision, TxFits, Done, Abstract, CounterCheck.Initialised;
    Refines(w, c, t, w', Counter(w, c));
  }

  // ---- Every turn ----

  /** A step of the memory in worker `t`'s transaction. */
  ghost predicate Stepped(w: World, c: Addr, t: nat, u: Tid, w': World) {
    && Sized(w) && t < |w.at| && w.current[t] == Some(u) && u in w.tm.txs && u in w'.tm.txs
    && w' == w.(tm := w'.tm,
                v0 := if Decides(w.tm, u, w'.tm) && w.at[t].InitWrite? then w'.tm.txs[u].wv else w.v0)
    && MoverKeeps(w.tm, u, w'.tm, w.at[t], c, Total(w)) && Kept(w.tm, w'.tm, u, c)
    && Inv(w'.tm) && AllSee(w'.tm)
  }

  lemma IsStepped(w: World, c: Addr, t: nat, u: Tid, e: Event, w': World)
    requires Sized(w) && t < |w.at| && w.current[t] == Some(u) && u in w.tm.txs
    requires Performs(w, t, u, e) == Some(w')
    requires w.tm.txs[u].pc.Body? ==> e == Call(w.at[t], c, Total(w), w.tm.txs[u].log)
    requires TxFits(w, c, t, u) && Inv(w.tm) && AllSee(w.tm) && Tame(w.tm)
    ensures Stepped(w, c, t, u, w')
  {
    assert Step(w.tm, u, e) == Some(w'.tm);
    hide Step, Inv, AllSee, Tame, FollowsText, Call, IsDecrement, Kept;
    StepMoves(w.tm, u, e, w'.tm, w.at[t], c, Total(w));
    StepSees(w.tm, u, e, w'.tm);
    StepKept(w.tm, u, e, w'.tm, c);
  }

  lemma SteppedTurn(w: World, c: Addr, t: nat, u: Tid, w': World)
    requires Stepped(w, c, t, u, w') && TxFits(w, c, t, u) && WorkerOk(w, c, t)
    requires Total(w) < CounterCheck.SIZE_MODULUS && Good(w, c)
    ensures Good(w', c)
  {
    hide Good, Inv, AllSee, Kept, MoverKeeps, WorkerOk, FollowsText, IsDecrement;
    if !Decides(w.tm, u, w'.tm) {
      QuietTurn(w, c, t, u, w');
    } else {
      DecidesAfter(w, c, t, u, w');
      if w.at[t].InitWrite? {
        InitTurn(w, c, t, u, w');
      } else {
        DecrementTurn(w, c, t, u, w');
      }
    }
  }

  lemma DecidesAfter(w: World, c: Addr, t: nat, u: Tid, w': World)
    requires Stepped(w, c, t, u, w') && TxFits(w, c, t, u) && Decides(w.tm, u, w'.tm)
    requires Total(w) < CounterCheck.SIZE_MODULUS
    ensures AtDecision(w, c, t, u, w') && (w.at[t].InitWrite? || w.at[t].Decrement?)
    ensures w.at[t].InitWrite? ==> w'.v0 == w.tm.txs[u].wv
    ensures w.at[t].Decrement? ==> w'.v0 == w.v0
  {
    hide Inv, AllSee, Kept, FollowsText, IsDecrement;
  }

  lemma AnswerTurn(w: World, c: Addr, t: nat, u: Tid, w': World)
    requires Sized(w) && t < |w.at| && w.current[t] == Some(u) && u in w.tm.txs && w.tm.txs[u].pc.Committed?
    requires w' == Resume(w, t, Answer(w.tm.txs[u].log))
    requires Total(w) < CounterCheck.SIZE_MODULUS && Good(w, c)
    ensures Good(w', c)
  {
    hide Good, Resume, Answer;
    if ReadsOnly(w.at[t]) {
      ReadAnswered(w, c, t, u, w');
    } else {
      WriteAnswered(w, c, t, u, w');
    }
  }

  lemma MemoryTurn(w: World, c: Addr, t: nat, u: Tid, e: Event, w': World)
    requires Sized(w) && t < |w.at| && w.current[t] == Some(u) && u in w.tm.txs && Performs(w, t, u, e) == Some(w')
    requires w.tm.txs[u].pc.Body? ==> e == Call(w.at[t], c, Total(w), w.tm.txs[u].log)
    requires Total(w) < CounterCheck.SIZE_MODULUS && Tame(w.tm) && Good(w, c)
    ensures Good(w', c)
  {
    Parts(w, c);
    hide Good, Sound, Inv, AllSee, Tame, CounterCheck.Inv, Counted, Distinct, Performs, Call, Stepped, TxFits;
    assert WorkerOk(w, c, t);
    IsStepped(w, c, t, u, e, w');
    SteppedTurn(w, c, t, u, w');
  }

  lemma TxTurn(w: World, c: Addr, t: nat, u: Tid, e: Event, w': World)
    requires Sized(w) && t < |w.at| && w.current[t] == Some(u) && u in w.tm.txs && InTx(w, c, t, u, e) == Some(w')
    requires Total(w) < CounterCheck.SIZE_MODULUS && Tame(w.tm) && Good(w, c)
    ensures Good(w', c)
  {
    hide Good, Tame, Resume, Answer, Performs, Call;
    match w.tm.txs[u].pc
    case Committed => AnswerTurn(w, c, t, u, w');
    case Aborted => RetryTurn(w, c, t, u, w');
    case Body => MemoryTurn(w, c, t, u, Call(w.at[t], c, Total(w), w.tm.txs[u].log), w');
    case _ => MemoryTurn(w, c, t, u, e, w');
  }

  lemma TurnKeeps(w: World, c: Addr, turn: Turn, w': World)
    requires Moves(w, c, turn, w') && Total(w) < CounterCheck.SIZE_MODULUS && Tame(w.tm) && Good(w, c)
    ensures Good(w', c) && |w'.at| == |w.at|
  {
    hide Good, Tame, InTx, Begins, Performs;
    var t := turn.thread;
    if !w.bar.pcs[t].Outside? {
      BarrierTurn(w, c, t, w');
    } else if CounterCheck.Syncs(w.at[t]) {
      EnterTurn(w, c, t, w');
    } else if !Transacts(w.at[t]) {
      IdleTurn(w, c, t, w');
    } else if w.current[t].None? {
      BeginTurn(w, c, t, turn.tid, w');
    } else {
      TxTurn(w, c, t, w.current[t].value, turn.e, w');
    }
    TurnSize(w, c, turn, w');
  }

  lemma TurnSize(w: World, c: Addr, turn: Turn, w': World)
    requires Moves(w, c, turn, w')
    ensures |w'.at| == |w.at|
  {
    hide Step, Barrier.Next, CounterCheck.Continue, Call, Answer, Start;
  }

  lemma StartsGood(w: World, c: Addr)
    requires Started(w)
    ensures Good(w, c)
  {
    var states, labels :| IsTameRun(states, labels) && w.tm == states[|labels|];
    Tl2Invariant.RunInv(states, labels, |labels|);
    RunSees(states, labels, |labels|);
    Barrier.Starts(w.bar);
    hide Inv, AllSee, IsTameRun;
    CounterCheck.Starts(Abstract(w, c));
    assert Sound(w);
  }

  lemma {:induction false} RunGood(worlds: seq<World>, c: Addr, turns: seq<Turn>, i: nat)
    requires IsCheckRun(worlds, c, turns) && i < |worlds| && Total(worlds[0]) < CounterCheck.SIZE_MODULUS
    ensures Good(worlds[i], c) && |worlds[i].at| == |worlds[0].at|
  {
    hide Good, Started, Tame, Moves;
    if i == 0 {
      StartsGood(worlds[0], c);
    } else {
      RunGood(worlds, c, turns, i - 1);
      assert Moves(worlds[i - 1], c, turns[i - 1], worlds[i]);
      TurnKeeps(worlds[i - 1], c, turns[i - 1], worlds[i]);
    }
  }

  // ---- What it means ----

  /** check() never reports an error: any number of workers, every interleaving of all their accesses to the memory
      and to the barrier, aborted transactions tried again, reads calm or not. */
  lemma CheckNeverFails(worlds: seq<World>, c: Addr, turns: seq<Turn>, i: nat, t: nat)
    requires IsCheckRun(worlds, c, turns) && i < |worlds| && Total(worlds[0]) < CounterCheck.SIZE_MODULUS
    requires t < |worlds[i].at|
    ensures worlds[i].at[t].Returned? ==> worlds[i].at[t].verdict == CounterCheck.Success
  {
    var w := worlds[i];
    RunGood(worlds, c, turns, i);
    Parts(w, c);
    if w.at[t].Returned? {
      hide Good, Sound, Inv, AllSee, Counted;
      assert WorkerOk(w, c, t);
      assert CounterCheck.PcOk(Abstract(w, c), t);
    }
  }

  /** Once a worker is past the last barrier, the counter in memory is 0 at the present version. */
  lemma CounterEndsAtZero(worlds: seq<World>, c: Addr, turns: seq<Turn>, i: nat, t: nat)
    requires IsCheckRun(worlds, c, turns) && i < |worlds| && Total(worlds[0]) < CounterCheck.SIZE_MODULUS
    requires t < |worlds[i].bar.left| && worlds[i].bar.left[t] >= 3
    ensures ValueAt(worlds[i].tm, worlds[i].tm.gvc, c) == 0
  {
    var w := worlds[i];
    RunGood(worlds, c, turns, i);
    Parts(w, c);
    hide Good, Sound, AllSee, Counted, CounterRuns.Decrements, WorkerOk;
    CounterCheck.AllFinished(Abstract(w, c), t);
    CounterCheck.PastSecondSync(Abstract(w, c), t);
    Counts(w, c);
    CounterAt(w.tm, c, w.v0, Total(w), w.tm.gvc);
  }

  lemma FoundPositive(s: State, c: Addr, v0: nat, total: nat, k: nat)
    requires Inv(s) && Bounded(s, c, v0, total) && v0 < k && k in s.commits && IsDecrement(c, s.commits[k].log)
    ensures s.commits[k].log[0].val == ValueAt(s, k - 1, c) > 0
  {
    hide Inv, CounterRuns.Decrements, CounterWorkload, StateAt;
    CommitWithin(s, k);
    CommittedRead(s, k, 0);
    CounterAt(s, c, v0, total, k - 1);
    DecrementsGrow(s.commits, c, v0, k, s.gvc);
    LastOne(s.commits, c, v0, k);
  }

  lemma LastOne(commits: map<nat, Commit>, c: Addr, v0: nat, k: nat)
    requires v0 < k && k in commits && IsDecrement(c, commits[k].log)
    ensures CounterRuns.Decrements(commits, c, v0, k) == CounterRuns.Decrements(commits, c, v0, k - 1) + 1
  {
  }

  /** Every decrement that was committed found the counter positive: it never wraps around. */
  lemma NeverBelowZero(worlds: seq<World>, c: Addr, turns: seq<Turn>, i: nat, k: nat)
    requires IsCheckRun(worlds, c, turns) && i < |worlds| && Total(worlds[0]) < CounterCheck.SIZE_MODULUS
    requires 0 < worlds[i].v0 < k && k in worlds[i].tm.commits && IsDecrement(c, worlds[i].tm.commits[k].log)
    ensures worlds[i].tm.commits[k].log[0].val == ValueAt(worlds[i].tm, k - 1, c) > 0
  {
    var w := worlds[i];
    RunGood(worlds, c, turns, i);
    Parts(w, c);
    Counts(w, c);
    hide Good, Sound, Inv, AllSee, Counted, WorkerOk, CounterCheck.Inv, IsDecrement;
    FoundPositive(w.tm, c, w.v0, Total(w), k);
  }
}
