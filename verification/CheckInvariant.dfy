/** What every world of the check satisfies, and the turns that leave the shared words alone: syncs, begins, answers and
    retries. */
module CheckInvariant {
  import opened Options
  import opened Tl2
  import opened Tl2Invariant
  import opened Serializability
  import opened SingleReads
  import opened CounterRuns
  import CounterCheck
  import Barrier
  import Progress
  import opened CheckWorld

  // ---- The check with transactions in one step ----

  /** Where worker `t` is once its transaction is decided to commit what it writes. */
  function StandsAt(w: World, t: nat): CounterCheck.Local
    requires t < |w.at| == |w.current|
  {
    if IsDecided(w, t) then
      match w.at[t]
      case InitWrite => CounterCheck.InitCheck
      case Decrement(i, _) => CounterCheck.ReadLast(i + 1)
      case _ => w.at[t]
    else w.at[t]
  }

  predicate IsDecided(w: World, t: nat)
    requires t < |w.current|
  {
    w.current[t].Some? && w.current[t].value in w.tm.txs && Decided(w.tm.txs[w.current[t].value].pc)
  }

  function PcAt(w: World, t: nat): CounterCheck.Pc
    requires Sized(w) && t < |w.at|
  {
    CounterCheck.Pc(StandsAt(w, t), !w.bar.pcs[t].Outside?)
  }

  function Pcs(w: World): seq<CounterCheck.Pc>
    requires Sized(w)
  {
    seq(|w.at|, t requires 0 <= t < |w.at| => PcAt(w, t))
  }

  function Done(w: World, c: Addr, v: nat): nat {
    CounterRuns.Decrements(w.tm.commits, c, w.v0, v)
  }

  function Counter(w: World, c: Addr): nat {
    if w.v0 == 0 || Done(w, c, w.tm.gvc) > Total(w) then 0 else Total(w) - Done(w, c, w.tm.gvc)
  }

  /** What CounterCheck makes of a world. */
  function Abstract(w: World, c: Addr): CounterCheck.State
    requires Sized(w)
  {
    CounterCheck.State(Counter(w, c), Pcs(w), w.bar.entered, w.bar.left)
  }

  // ---- The invariant ----

  ghost predicate Sound(w: World) {
    Sized(w) && Inv(w.tm) && AllSee(w.tm) && exists r :: Barrier.Inv(w.bar, r)
  }

  ghost predicate Counted(w: World, c: Addr) {
    w.v0 != 0 ==>
      && w.v0 in w.tm.commits && w.tm.commits[w.v0].log == [Wr(c, Total(w))]
      && CounterWorkload(w.tm, c, w.v0) && Done(w, c, w.tm.gvc) <= Total(w)
  }

  /** The transaction `u` of worker `t`. */
  ghost predicate TxFits(w: World, c: Addr, t: nat, u: Tid)
    requires Sized(w) && t < |w.at|
  {
    && u in w.tm.txs && w.bar.pcs[t].Outside? && Transacts(w.at[t])
    && var tx, l := w.tm.txs[u], w.at[t];
       && tx.ro == ReadsOnly(l) && FollowsText(l, c, Total(w), tx)
       && (if l.InitWrite? then !Decided(tx.pc) ==> forall k :: k in w.tm.commits ==> k <= tx.rv
           else w.v0 != 0 && w.v0 <= tx.rv)
       && (l.Decrement? && Decided(tx.pc) ==> IsDecrement(c, tx.log) && tx.log[0].val <= l.last)
       && (l.FinalCheck? ==> Done(w, c, tx.rv) == Total(w))
  }

  /** The worker's last read is what the counter was at version `v`, before its transaction began. */
  ghost predicate LastSeen(w: World, c: Addr, t: nat, v: nat)
    requires t < |w.at| == |w.current|
  {
    && w.at[t].Decrement? && w.v0 <= v && SeenAt(w.tm, v, c, w.at[t].last)
    && (w.current[t].Some? && w.current[t].value in w.tm.txs ==> v <= w.tm.txs[w.current[t].value].rv)
  }

  ghost predicate WorkerOk(w: World, c: Addr, t: nat)
    requires Sized(w) && t < |w.at|
  {
    && (w.current[t].Some? ==> TxFits(w, c, t, w.current[t].value))
    && (w.at[t].Decrement? ==> exists v :: LastSeen(w, c, t, v))
  }

  predicate Distinct(w: World)
    requires Sized(w)
  {
    forall t, u :: 0 <= t < u < |w.at| && w.current[t].Some? ==> w.current[t] != w.current[u]
  }

  ghost predicate Good(w: World, c: Addr) {
    && Sound(w) && Counted(w, c) && Distinct(w)
    && CounterCheck.Inv(Abstract(w, c))
    && (w.v0 != 0 <==> CounterCheck.Initialised(Pcs(w)[0]))
    && forall t :: 0 <= t < |w.at| ==> WorkerOk(w, c, t)
  }

  // ---- What the invariant says of a worker ----

  lemma Parts(w: World, c: Addr)
    requires Good(w, c)
    ensures Sized(w) && Inv(w.tm) && AllSee(w.tm) && Sound(w) && Counted(w, c) && Distinct(w)
    ensures CounterCheck.Inv(Abstract(w, c)) && (w.v0 != 0 <==> CounterCheck.Initialised(Pcs(w)[0]))
    ensures forall t :: 0 <= t < |w.at| ==> WorkerOk(w, c, t)
  {
    hide Inv, AllSee, CounterCheck.Inv, WorkerOk;
  }

  /** Only worker 0 transacts before the counter is initialised. */
  lemma Phases(w: World, c: Addr, t: nat)
    requires Sized(w) && CounterCheck.Inv(Abstract(w, c)) && t < |w.at| && w.bar.pcs[t].Outside? && Transacts(w.at[t])
    ensures w.at[t].InitWrite? ==> t == 0
    ensures !w.at[t].InitWrite? ==> CounterCheck.Initialised(Pcs(w)[0])
    ensures w.at[t].FinalCheck? ==> Abstract(w, c).left[t] >= 3
  {
    var s := Abstract(w, c);
    assert CounterCheck.PcOk(s, t) && CounterCheck.PcOk(s, 0);
    assert s.left[t] <= s.entered[0];
  }

  lemma Counts(w: World, c: Addr)
    requires Sized(w) && w.v0 != 0 && Total(w) < CounterCheck.SIZE_MODULUS
    requires Good(w, c)
    ensures Bounded(w.tm, c, w.v0, Total(w)) && Counter(w, c) == Total(w) - Done(w, c, w.tm.gvc)
  {
    InitialisedTo(w.tm, c, w.v0, Total(w));
  }

  lemma InitialisedTo(s: State, c: Addr, v0: nat, total: nat)
    requires Inv(s) && v0 in s.commits && s.commits[v0].log == [Wr(c, total)]
    ensures v0 <= s.gvc && ValueAt(s, v0, c) == total
  {
    CommitInPlace(s, v0);
    var log := s.commits[v0].log;
    assert log[..1][..0] == [] && log[..0] == [];
    assert InPlace(log[..0], StateAt(s.commits, v0 - 1)) == Some(StateAt(s.commits, v0 - 1));
  }

  /** What a worker's transaction has read: the counter at some version since it began. */
  lemma ReadValue(w: World, c: Addr, t: nat, u: Tid) returns (v: nat)
    requires Sized(w) && t < |w.at| && w.current[t] == Some(u) && !w.at[t].InitWrite?
    requires Total(w) < CounterCheck.SIZE_MODULUS && u in w.tm.txs && ReadsCounter(c, w.tm.txs[u].log)
    requires Good(w, c)
    ensures w.v0 != 0 && w.v0 <= w.tm.txs[u].rv <= v <= w.tm.gvc && SeenAt(w.tm, v, c, w.tm.txs[u].log[0].val)
    ensures w.tm.txs[u].log[0].val == Total(w) - Done(w, c, v) >= 0
  {
    assert WorkerOk(w, c, t);
    Counts(w, c);
    var tx := w.tm.txs[u];
    assert TxSees(w.tm, tx) && FromMemory(tx.log[0]);
    assert Seen(w.tm, tx.rv, c, tx.log[0].val);
    v :| tx.rv <= v && SeenAt(w.tm, v, c, tx.log[0].val);
    CounterAt(w.tm, c, w.v0, Total(w), v);
    DecrementsGrow(w.tm.commits, c, w.v0, v, w.tm.gvc);
  }

  // ---- Turns that leave the memory alone ----

  /** A worker whose record is the same in both worlds. */
  lemma SameWorker(w: World, c: Addr, w': World, t: nat)
    requires Sized(w) && Sized(w') && |w.at| == |w'.at| && t < |w.at| && WorkerOk(w, c, t)
    requires w'.tm == w.tm && w'.v0 == w.v0 && w'.at[t] == w.at[t] && w'.current[t] == w.current[t]
    requires w'.bar.pcs[t].Outside? <==> w.bar.pcs[t].Outside?
    ensures WorkerOk(w', c, t) && PcAt(w', t) == PcAt(w, t)
  {
    if w.at[t].Decrement? {
      var v :| LastSeen(w, c, t, v);
      assert LastSeen(w', c, t, v);
    }
  }

  lemma OthersSame(w: World, c: Addr, w': World, t: nat)
    requires Sized(w) && Sized(w') && t < |w.at| == |w'.at| && w'.tm == w.tm && w'.v0 == w.v0
    requires forall u :: 0 <= u < |w.at| && u != t ==>
               w'.at[u] == w.at[u] && w'.current[u] == w.current[u]
               && (w'.bar.pcs[u].Outside? <==> w.bar.pcs[u].Outside?)
    requires Good(w, c)
    ensures forall u :: 0 <= u < |w.at| && u != t ==> WorkerOk(w', c, u) && PcAt(w', u) == PcAt(w, u)
  {
    hide WorkerOk, PcAt;
    forall u | 0 <= u < |w.at| && u != t
      ensures WorkerOk(w', c, u) && PcAt(w', u) == PcAt(w, u)
    {
      SameWorker(w, c, w', u);
    }
  }

  lemma BarrierNext(w: World, t: nat)
    requires Sized(w) && t < |w.at| && exists r :: Barrier.Inv(w.bar, r)
    ensures exists r :: Barrier.Inv(Barrier.Next(w.bar, t), r)
    ensures Barrier.Sized(Barrier.Next(w.bar, t)) && |Barrier.Next(w.bar, t).pcs| == |w.bar.pcs|
    ensures forall u :: 0 <= u < |w.at| && u != t ==> Barrier.Next(w.bar, t).pcs[u] == w.bar.pcs[u]
    ensures forall u, v :: 0 <= u < |w.at| && 0 <= v < |w.at| ==>
              Barrier.Next(w.bar, t).left[u] <= Barrier.Next(w.bar, t).entered[v]
  {
    var r :| Barrier.Inv(w.bar, r);
    var r' := Barrier.StepKeeps(w.bar, t, r);
    var b := Barrier.Next(w.bar, t);
    forall u, v | 0 <= u < |w.at| && 0 <= v < |w.at|
      ensures b.left[u] <= b.entered[v]
    {
      assert Barrier.CallsOk(b, u, r') && Barrier.CallsOk(b, v, r');
    }
  }

  /** A turn of worker `t` that is a step of CounterCheck. */
  lemma Refines(w: World, c: Addr, t: nat, w': World, x: nat)
    requires Sized(w) && t < |w.at| && Total(w) < CounterCheck.SIZE_MODULUS
    requires Sound(w') && Counted(w', c) && Distinct(w') && |w'.at| == |w.at|
    requires CounterCheck.Answers(Abstract(w, c), t, x) && Abstract(w', c) == CounterCheck.Step(Abstract(w, c), t, x)
    requires w'.v0 != 0 <==> CounterCheck.Initialised(Pcs(w')[0])
    requires forall u :: 0 <= u < |w.at| ==> WorkerOk(w', c, u)
    requires Good(w, c)
    ensures Good(w', c)
  {
    assert Sized(w);
    hide Sound, Counted, Distinct, WorkerOk, Abstract, CounterCheck.Step, CounterCheck.Inv, CounterCheck.Initialised;
    assert CounterCheck.InitialCounter(Abstract(w, c)) == Total(w) by {
      TotalIsInitial(w, c);
    }
    CounterCheck.StepKeeps(Abstract(w, c), t, x);
  }

  lemma TotalIsInitial(w: World, c: Addr)
    requires Sized(w)
    ensures CounterCheck.InitialCounter(Abstract(w, c)) == Total(w) && CounterCheck.Sized(Abstract(w, c))
  {
  }

  /** Between syncs and transactions a worker's place alone changes. */
  lemma PlaceStep(w: World, c: Addr, t: nat, w': World)
    requires Sized(w) && t < |w.at| && w'.tm == w.tm && w'.v0 == w.v0 && Sized(w') && |w'.at| == |w.at|
    requires forall u :: 0 <= u < |w.at| && u != t ==> PcAt(w', u) == PcAt(w, u)
    requires Good(w, c)
    ensures Pcs(w') == Pcs(w)[t := PcAt(w', t)] && Counted(w', c) && Counter(w', c) == Counter(w, c)
    ensures CounterCheck.PcOk(Abstract(w, c), t)
  {
    hide CounterRuns.Decrements, CounterWorkload, Sound, Distinct, WorkerOk, CounterCheck.PcOk, PcAt;
  }

  lemma Leaves(w: World, c: Addr, t: nat, w': World)
    requires Sized(w) && t < |w.at| && !w.bar.pcs[t].Outside? && Sized(w')
    requires w' == w.(bar := Barrier.Next(w.bar, t)) && StandsAt(w', t) == StandsAt(w, t)
    requires Pcs(w') == Pcs(w)[t := PcAt(w', t)] && Counter(w', c) == Counter(w, c)
    requires forall u :: 0 <= u < |w.at| ==> w'.bar.left[t] <= w'.bar.entered[u]
    requires CounterCheck.PcOk(Abstract(w, c), t)
    ensures if w'.bar.pcs[t].Outside? then Abstract(w', c) == CounterCheck.Step(Abstract(w, c), t, Counter(w, c))
            else Abstract(w', c) == Abstract(w, c)
  {
    BarrierCounts(w.bar, t);
    var s := Abstract(w, c);
    assert s.left[t] + 1 == s.entered[t];
    hide StandsAt, Counter, CounterCheck.PcOk, Barrier.Next;
    if w'.bar.pcs[t].Outside? {
      assert CounterCheck.MayLeave(s, t);
    } else {
      assert Pcs(w') == Pcs(w);
    }
  }

  /** Inside sync() only leaving counts. */
  lemma BarrierCounts(b: Barrier.State, t: nat)
    requires Barrier.Sized(b) && t < |b.pcs| && !b.pcs[t].Outside?
    ensures var b' := Barrier.Next(b, t);
            && b'.entered == b.entered
            && t < |b'.pcs| && b'.left == if b'.pcs[t].Outside? then b.left[t := b.left[t] + 1] else b.left
  {
  }

  /** A worker inside sync(): it leaves only when all have entered. */
  lemma BarrierTurn(w: World, c: Addr, t: nat, w': World)
    requires Sized(w) && t < |w.at| && !w.bar.pcs[t].Outside? && Total(w) < CounterCheck.SIZE_MODULUS
    requires w' == w.(bar := Barrier.Next(w.bar, t))
    requires Good(w, c)
    ensures Good(w', c)
  {
    BarrierNext(w, t);
    OthersSame(w, c, w', t);
    NoTransaction(w, c, t);
    assert StandsAt(w', t) == StandsAt(w, t) && WorkerOk(w', c, t);
    PlaceStep(w, c, t, w');
    Leaves(w, c, t, w');
    assert Sound(w') && Distinct(w');
    hide Sound, Counted, Distinct, WorkerOk, CounterCheck.Inv, CounterCheck.Step, Counter, Barrier.Next, StandsAt;
    if w'.bar.pcs[t].Outside? {
      Refines(w, c, t, w', Counter(w, c));
    }
  }

  lemma SoundSame(w: World, w': World)
    requires Sound(w) && Sized(w') && w'.tm == w.tm && w'.bar == w.bar
    ensures Sound(w')
  {
    hide Inv, AllSee;
  }

  lemma DistinctWithout(w: World, t: nat, w': World)
    requires Sized(w) && Sized(w') && t < |w.at| == |w'.at| && Distinct(w) && w'.current == w.current[t := None]
    ensures Distinct(w')
  {
  }

  /** A worker goes on in its text: nothing else changes. */
  lemma Resumed(w: World, c: Addr, t: nat, w': World, x: nat)
    requires Sized(w) && t < |w.at| && w' == Resume(w, t, x)
    requires Good(w, c)
    ensures Sized(w') && Sound(w') && Counted(w', c) && Distinct(w') && Counter(w', c) == Counter(w, c)
    ensures Pcs(w') == Pcs(w)[t := PcAt(w', t)]
    ensures forall r :: 0 <= r < |w.at| && r != t ==> WorkerOk(w', c, r) && PcAt(w', r) == PcAt(w, r)
  {
    Parts(w, c);
    hide Good, Sound, Counted, Distinct, CounterCheck.Inv, CounterCheck.Continue, WorkerOk, PcAt, Counter;
    OthersSame(w, c, w', t);
    PlaceStep(w, c, t, w');
    SoundSame(w, w');
    DistinctWithout(w, t, w');
  }

  /** Syncs and the end are no places for a transaction. */
  lemma NoTransaction(w: World, c: Addr, t: nat)
    requires Sized(w) && t < |w.at| && (!w.bar.pcs[t].Outside? || !Transacts(w.at[t]))
    requires Good(w, c)
    ensures w.current[t] == None && !w.at[t].Decrement? && StandsAt(w, t) == w.at[t]
  {
    assert WorkerOk(w, c, t);
    assert CounterCheck.PcOk(Abstract(w, c), t);
  }

  lemma Enters(w: World, c: Addr, t: nat, w': World)
    requires Sized(w) && t < |w.at| && w.bar.pcs[t].Outside? && CounterCheck.Syncs(w.at[t]) && Sized(w')
    requires w' == Resume(w, t, 0).(bar := Barrier.Next(w.bar, t)) && w.current[t] == None
    requires Pcs(w') == Pcs(w)[t := PcAt(w', t)] && Counter(w', c) == Counter(w, c)
    ensures Abstract(w', c) == CounterCheck.Step(Abstract(w, c), t, Counter(w, c)) && !w'.at[t].Decrement?
    ensures CounterCheck.Initialised(Pcs(w')[0]) <==> CounterCheck.Initialised(Pcs(w)[0])
  {
    hide Counter;
    var s, l := Abstract(w, c), w.at[t];
    TotalIsInitial(w, c);
    assert s.pcs[t] == CounterCheck.Pc(l, false);
    assert PcAt(w', t) == CounterCheck.Pc(CounterCheck.Continue(l, t == 0, Total(w), Counter(w, c)), true);
    assert w'.bar.entered == s.entered[t := s.entered[t] + 1] && w'.bar.left == s.left;
  }

  lemma EnterTurn(w: World, c: Addr, t: nat, w': World)
    requires Sized(w) && t < |w.at| && w.bar.pcs[t].Outside? && CounterCheck.Syncs(w.at[t])
    requires Total(w) < CounterCheck.SIZE_MODULUS && w' == Resume(w, t, 0).(bar := Barrier.Next(w.bar, t))
    requires Good(w, c)
    ensures Good(w', c)
  {
    BarrierNext(w, t);
    NoTransaction(w, c, t);
    OthersSame(w, c, w', t);
    PlaceStep(w, c, t, w');
    Enters(w, c, t, w');
    assert Sound(w') && Distinct(w') && WorkerOk(w', c, t);
    hide Sound, Counted, Distinct, WorkerOk, CounterCheck.Inv, CounterCheck.Step, Counter, Barrier.Next, StandsAt;
    Refines(w, c, t, w', Counter(w, c));
  }

  lemma Idles(w: World, c: Addr, t: nat, w': World)
    requires Sized(w) && t < |w.at| && w.bar.pcs[t].Outside? && !CounterCheck.Syncs(w.at[t]) && !Transacts(w.at[t])
    requires w' == Resume(w, t, 0) && w.current[t] == None && Sized(w')
    requires Pcs(w') == Pcs(w)[t := PcAt(w', t)] && Counter(w', c) == Counter(w, c)
    ensures Abstract(w', c) == CounterCheck.Step(Abstract(w, c), t, Counter(w, c)) && !w'.at[t].Decrement?
    ensures CounterCheck.Initialised(Pcs(w')[0]) <==> CounterCheck.Initialised(Pcs(w)[0])
  {
    hide Counter;
    TotalIsInitial(w, c);
  }

  /** The end of the loop, and after check() has returned. */
  lemma IdleTurn(w: World, c: Addr, t: nat, w': World)
    requires Sized(w) && t < |w.at| && w.bar.pcs[t].Outside? && !CounterCheck.Syncs(w.at[t]) && !Transacts(w.at[t])
    requires Total(w) < CounterCheck.SIZE_MODULUS && w' == Resume(w, t, 0)
    requires Good(w, c)
    ensures Good(w', c)
  {
    NoTransaction(w, c, t);
    Resumed(w, c, t, w', 0);
    Idles(w, c, t, w');
    assert WorkerOk(w', c, t);
    hide Sound, Counted, Distinct, WorkerOk, CounterCheck.Inv, CounterCheck.Step, Counter, StandsAt;
    Refines(w, c, t, w', Counter(w, c));
  }

  /** A turn that CounterCheck does not see. */
  lemma Stutters(w: World, c: Addr, t: nat, w': World)
    requires Sized(w) && t < |w.at| && Sized(w') && |w'.at| == |w.at| && w'.bar == w.bar
    requires Sound(w') && Counted(w', c) && Distinct(w') && Counter(w', c) == Counter(w, c)
    requires w'.v0 == w.v0 && forall u :: 0 <= u < |w.at| ==> WorkerOk(w', c, u) && PcAt(w', u) == PcAt(w, u)
    requires Good(w, c)
    ensures Good(w', c)
  {
    assert Pcs(w') == Pcs(w);
    hide Sound, Counted, Distinct, WorkerOk, Counter, CounterCheck.Inv, PcAt;
    assert Abstract(w', c) == Abstract(w, c);
  }

  /** After an abort the transaction is tried again. */
  lemma RetryTurn(w: World, c: Addr, t: nat, u: Tid, w': World)
    requires Sized(w) && t < |w.at| && w.current[t] == Some(u) && u in w.tm.txs && w.tm.txs[u].pc.Aborted?
    requires w' == w.(current := w.current[t := None])
    requires Good(w, c)
    ensures Good(w', c)
  {
    OthersSame(w, c, w', t);
    assert PcAt(w', t) == PcAt(w, t);
    PlaceStep(w, c, t, w');
    assert WorkerOk(w, c, t);
    hide Inv, AllSee, CounterCheck.Inv, FollowsText, SeenAt, Counter, Counted;
    if w.at[t].Decrement? {
      var v :| LastSeen(w, c, t, v);
      assert LastSeen(w', c, t, v);
    }
    assert WorkerOk(w', c, t);
    Stutters(w, c, t, w');
  }

  // ---- A transaction has answered ----

  /** The transaction of a write has been taken for done when it was decided. */
  lemma WriteStays(w: World, c: Addr, t: nat, u: Tid, w': World)
    requires Sized(w) && t < |w.at| && w.current[t] == Some(u) && u in w.tm.txs && w.tm.txs[u].pc.Committed?
    requires w.at[t].InitWrite? || w.at[t].Decrement?
    requires w' == Resume(w, t, Answer(w.tm.txs[u].log)) && WorkerOk(w, c, t)
    ensures Sized(w') && WorkerOk(w', c, t) && PcAt(w', t) == PcAt(w, t)
  {
    hide FollowsText, SeenAt, CounterRuns.Decrements;
    assert TxFits(w, c, t, u);
  }

  lemma WriteAnswered(w: World, c: Addr, t: nat, u: Tid, w': World)
    requires Sized(w) && t < |w.at| && w.current[t] == Some(u) && u in w.tm.txs && w.tm.txs[u].pc.Committed?
    requires w.at[t].InitWrite? || w.at[t].Decrement?
    requires w' == Resume(w, t, Answer(w.tm.txs[u].log)) && Good(w, c)
    ensures Good(w', c)
  {
    Parts(w, c);
    hide Good, Sound, Counted, Distinct, CounterCheck.Inv, CounterCheck.Continue, Counter, Answer, WorkerOk, PcAt;
    WriteStays(w, c, t, u, w');
    Resumed(w, c, t, w', Answer(w.tm.txs[u].log));
    Stutters(w, c, t, w');
  }

  /** What a committed read-only transaction of the check has done. */
  lemma ReadDone(w: World, c: Addr, t: nat, u: Tid)
    requires Sized(w) && t < |w.at| && w.current[t] == Some(u) && u in w.tm.txs && w.tm.txs[u].pc.Committed?
    requires ReadsOnly(w.at[t]) && WorkerOk(w, c, t)
    ensures ReadsCounter(c, w.tm.txs[u].log) && w.bar.pcs[t].Outside? && Transacts(w.at[t])
    ensures PcAt(w, t) == CounterCheck.Pc(w.at[t], false)
    ensures w.at[t].FinalCheck? ==> Done(w, c, w.tm.txs[u].rv) == Total(w)
  {
    assert TxFits(w, c, t, u);
  }

  /** It has read what CounterCheck allows. */
  lemma ReadAnswers(w: World, c: Addr, t: nat, u: Tid) returns (v: nat)
    requires Sized(w) && t < |w.at| && w.current[t] == Some(u) && u in w.tm.txs && w.tm.txs[u].pc.Committed?
    requires Total(w) < CounterCheck.SIZE_MODULUS && ReadsOnly(w.at[t]) && Good(w, c)
    ensures CounterCheck.Answers(Abstract(w, c), t, Answer(w.tm.txs[u].log)) && w.v0 != 0 && w.v0 <= v
    ensures w.tm.txs[u].log != [] && w.tm.txs[u].log[0].Rd?
    ensures SeenAt(w.tm, v, c, w.tm.txs[u].log[0].val) && w.tm.txs[u].log[0].val >= 0
  {
    Parts(w, c);
    hide Good, Sound, Inv, AllSee, CounterCheck.Inv, SeenAt, Counted, CounterRuns.Decrements, WorkerOk, PcAt;
    ReadDone(w, c, t, u);
    var s, tx := Abstract(w, c), w.tm.txs[u];
    v := ReadValue(w, c, t, u);
    Counts(w, c);
    hide Bounded;
    Phases(w, c, t);
    TotalIsInitial(w, c);
    DecrementsGrow(w.tm.commits, c, w.v0, v, w.tm.gvc);
    DecrementsGrow(w.tm.commits, c, w.v0, tx.rv, v);
    if w.at[t].InitCheck? {
      CounterCheck.AtInitCheck(s, t);
    } else if w.at[t].FinalCheck? {
      CounterCheck.AllFinished(s, t);
    }
  }

  lemma ReadStays(w: World, c: Addr, t: nat, u: Tid, w': World, v: nat)
    requires Sized(w) && t < |w.at| && Sized(w') && u in w.tm.txs && w' == Resume(w, t, Answer(w.tm.txs[u].log))
    requires w.tm.txs[u].log != [] && w.tm.txs[u].log[0].Rd? && w.tm.txs[u].log[0].val >= 0
    requires w.v0 <= v && SeenAt(w.tm, v, c, w.tm.txs[u].log[0].val)
    requires w'.at[t].Decrement? ==> w'.at[t].last == Answer(w.tm.txs[u].log)
    ensures WorkerOk(w', c, t)
  {
    hide SeenAt;
    if w'.at[t].Decrement? {
      assert LastSeen(w', c, t, v);
    }
  }

  lemma ReadWorkers(w: World, c: Addr, t: nat, u: Tid, w': World, v: nat)
    requires Sized(w) && t < |w.at| && u in w.tm.txs && w' == Resume(w, t, Answer(w.tm.txs[u].log))
    requires Good(w, c) && w.tm.txs[u].log != [] && w.tm.txs[u].log[0].Rd? && w.tm.txs[u].log[0].val >= 0
    requires w.v0 <= v && SeenAt(w.tm, v, c, w.tm.txs[u].log[0].val)
    requires w'.at[t].Decrement? ==> w'.at[t].last == Answer(w.tm.txs[u].log)
    ensures Sized(w') && Sound(w') && Counted(w', c) && Distinct(w')
    ensures forall r :: 0 <= r < |w.at| ==> WorkerOk(w', c, r)
  {
    Parts(w, c);
    hide Good, Sound, Counted, Distinct, CounterCheck.Inv, CounterCheck.Continue, Answer, WorkerOk, PcAt, SeenAt;
    Resumed(w, c, t, w', Answer(w.tm.txs[u].log));
    ReadStays(w, c, t, u, w', v);
  }

  lemma ReadAnswered(w: World, c: Addr, t: nat, u: Tid, w': World)
    requires Sized(w) && t < |w.at| && w.current[t] == Some(u) && u in w.tm.txs && w.tm.txs[u].pc.Committed?
    requires Total(w) < CounterCheck.SIZE_MODULUS && ReadsOnly(w.at[t])
    requires w' == Resume(w, t, Answer(w.tm.txs[u].log)) && Good(w, c)
    ensures Good(w', c)
  {
    Parts(w, c);
    hide Good, Sound, Counted, CounterCheck.Inv, CounterCheck.Continue, Counter, Answer, WorkerOk, PcAt, SeenAt;
    hide Distinct, CounterCheck.Step, CounterCheck.Answers, CounterCheck.Initialised, Abstract;
    ReadDone(w, c, t, u);
    var v := ReadAnswers(w, c, t, u);
    Resumed(w, c, t, w', Answer(w.tm.txs[u].log));
    Answered(w, c, t, w', Answer(w.tm.txs[u].log));
    ReadWorkers(w, c, t, u, w', v);
    Refines(w, c, t, w', Answer(w.tm.txs[u].log));
  }

  lemma Answered(w: World, c: Addr, t: nat, w': World, x: nat)
    requires Sized(w) && t < |w.at| && w.bar.pcs[t].Outside? && Transacts(w.at[t]) && ReadsOnly(w.at[t])
    requires w' == Resume(w, t, x) && Sized(w')
    requires Pcs(w') == Pcs(w)[t := PcAt(w', t)] && Counter(w', c) == Counter(w, c)
    ensures Abstract(w', c) == CounterCheck.Step(Abstract(w, c), t, x)
    ensures CounterCheck.Initialised(Pcs(w')[0]) <==> CounterCheck.Initialised(Pcs(w)[0])
    ensures w'.at[t].Decrement? ==> w.at[t].ReadLast? && w'.at[t].last == x
  {
    hide Counter;
    var s, l := Abstract(w, c), w.at[t];
    TotalIsInitial(w, c);
    assert s.pcs[t] == CounterCheck.Pc(l, false);
    assert PcAt(w', t) == CounterCheck.Pc(CounterCheck.Continue(l, t == 0, Total(w), x), false);
  }

  // ---- A transaction begins ----

  lemma SameCount(w: World, c: Addr, w': World)
    requires Inv(w.tm) && w'.v0 == w.v0 && |w'.at| == |w.at| && Counted(w, c)
    requires w'.tm.commits == w.tm.commits && w.tm.gvc <= w'.tm.gvc
    ensures Counted(w', c) && Counter(w', c) == Counter(w, c)
  {
    assert forall k :: k in w.tm.commits ==> k <= w.tm.gvc;
    hide Inv, CounterRuns.Decrements, IsDecrement;
    NoneBeyond(w.tm.commits, c, w.v0, w.tm.gvc, w'.tm.gvc);
  }

  /** Past the last barrier all decrements are counted. */
  lemma BeginFinal(w: World, c: Addr, t: nat)
    requires Sized(w) && t < |w.at| && w.bar.pcs[t].Outside? && Transacts(w.at[t])
    requires Total(w) < CounterCheck.SIZE_MODULUS && Good(w, c)
    ensures w.at[t].FinalCheck? ==> Done(w, c, w.tm.gvc) == Total(w)
  {
    Parts(w, c);
    hide Good, Sound, Inv, AllSee, CounterCheck.Inv, CounterRuns.Decrements, CounterWorkload, WorkerOk, Distinct;
    Phases(w, c, t);
    if w.at[t].FinalCheck? {
      Counts(w, c);
      CounterCheck.AllFinished(Abstract(w, c), t);
    }
  }

  lemma BeginFits(w: World, c: Addr, t: nat, u: Tid, w': World)
    requires Sized(w) && t < |w.at| && w.bar.pcs[t].Outside? && Transacts(w.at[t]) && w.current[t] == None
    requires Total(w) < CounterCheck.SIZE_MODULUS && Begins(w, t, u) == Some(w')
    requires Good(w, c)
    ensures TxFits(w', c, t, u) && Counted(w', c) && Counter(w', c) == Counter(w, c)
  {
    Parts(w, c);
    hide Good, Sound, Inv, AllSee, CounterCheck.Inv, CounterRuns.Decrements, CounterWorkload, WorkerOk, Distinct,
      Counter;
    forall k | k in w.tm.commits
      ensures k <= w.tm.gvc
    {
      CommitWithin(w.tm, k);
    }
    BeginFinal(w, c, t);
    Phases(w, c, t);
    SameCount(w, c, w');
  }

  /** What a step of `r` leaves to the others. */
  ghost predicate Kept(s: State, s': State, r: Tid, c: Addr) {
    && (forall u :: u in s.txs && u != r ==> u in s'.txs && s'.txs[u] == s.txs[u])
    && (forall v, x :: SeenAt(s, v, c, x) ==> SeenAt(s', v, c, x))
  }

  lemma StepKept(s: State, r: Tid, e: Event, s': State, c: Addr)
    requires Inv(s) && Tame(s) && Step(s, r, e) == Some(s')
    ensures Kept(s, s', r, c)
  {
    hide Inv, Tame, Step, SeenAt;
    forall u | u in s.txs && u != r
      ensures u in s'.txs && s'.txs[u] == s.txs[u]
    {
      Progress.OthersStay(s, r, e, s', u);
    }
    forall v, x | SeenAt(s, v, c, x)
      ensures SeenAt(s', v, c, x)
    {
      StepSeen(s, r, e, s', v, c, x);
    }
  }

  /** What a worker knows when another one's transaction has moved. */
  lemma OtherKeeps(w: World, c: Addr, w': World, r: Tid, t: nat)
    requires Sized(w) && t < |w.at| && Sized(w') && |w'.at| == |w.at| && w'.bar == w.bar && w'.v0 == w.v0
    requires w.current[t] != Some(r) && w'.at[t] == w.at[t] && w'.current[t] == w.current[t]
    requires Kept(w.tm, w'.tm, r, c) && WorkerOk(w, c, t)
    requires w.at[t].InitWrite? && w.current[t].Some? ==> w'.tm.commits == w.tm.commits
    requires w.at[t].FinalCheck? ==> forall v :: Done(w, c, v) == Total(w) ==> Done(w', c, v) == Total(w)
    ensures WorkerOk(w', c, t) && PcAt(w', t) == PcAt(w, t)
  {
    hide FollowsText, SeenAt, IsDecrement, CounterRuns.Decrements;
    if w.at[t].Decrement? {
      var v :| LastSeen(w, c, t, v);
      assert LastSeen(w', c, t, v);
    }
  }

  lemma BeginTurn(w: World, c: Addr, t: nat, u: Tid, w': World)
    requires Sized(w) && t < |w.at| && w.bar.pcs[t].Outside? && Transacts(w.at[t]) && w.current[t] == None
    requires Total(w) < CounterCheck.SIZE_MODULUS && Tame(w.tm) && Begins(w, t, u) == Some(w')
    requires Good(w, c)
    ensures Good(w', c)
  {
    var e := Begin(ReadsOnly(w.at[t]));
    assert Step(w.tm, u, e) == Some(w'.tm);
    Parts(w, c);
    hide Good, Sound, Step, Tame, Inv, AllSee, CounterCheck.Inv, FollowsText, Counted, Counter, TxFits, WorkerOk, PcAt;
    BeginFits(w, c, t, u, w');
    Tl2Invariant.StepKeeps(w.tm, u, e, w'.tm);
    StepSees(w.tm, u, e, w'.tm);
    StepKept(w.tm, u, e, w'.tm, c);
    NewTransaction(w, c, t, u, w');
    LastKept(w, c, t, u, w');
    hide Distinct, Kept;
    forall r | 0 <= r < |w.at| && r != t
      ensures WorkerOk(w', c, r) && PcAt(w', r) == PcAt(w, r)
    {
      OtherKeeps(w, c, w', u, r);
    }
    SoundAfter(w, w');
    Stutters(w, c, t, w');
  }

  lemma SoundAfter(w: World, w': World)
    requires Sound(w) && Sized(w') && w'.bar == w.bar && Inv(w'.tm) && AllSee(w'.tm)
    ensures Sound(w')
  {
    hide Inv, AllSee;
  }

  lemma NewTransaction(w: World, c: Addr, t: nat, u: Tid, w': World)
    requires Sized(w) && t < |w.at| && w.current[t] == None && Begins(w, t, u) == Some(w')
    requires Good(w, c)
    ensures Distinct(w') && PcAt(w', t) == PcAt(w, t)
    ensures forall r :: 0 <= r < |w.at| && r != t ==> w'.current[r] == w.current[r] && w.current[r] != Some(u)
  {
    Parts(w, c);
    hide Good, Sound, Inv, AllSee, CounterCheck.Inv, FollowsText, Counted;
    forall r | 0 <= r < |w.at| && r != t
      ensures w'.current[r] == w.current[r] && w.current[r] != Some(u)
    {
      assert WorkerOk(w, c, r);
    }
  }

  lemma LastKept(w: World, c: Addr, t: nat, u: Tid, w': World)
    requires Sized(w) && t < |w.at| && w.current[t] == None && Begins(w, t, u) == Some(w') && Tame(w.tm)
    requires TxFits(w', c, t, u)
    requires Good(w, c)
    ensures WorkerOk(w', c, t)
  {
    assert WorkerOk(w, c, t);
    var e := Begin(ReadsOnly(w.at[t]));
    assert Step(w.tm, u, e) == Some(w'.tm);
    hide Step, Tame, Inv, AllSee, CounterCheck.Inv, FollowsText, Counted, TxFits;
    if w.at[t].Decrement? {
      var v :| LastSeen(w, c, t, v);
      StepSeen(w.tm, u, e, w'.tm, v, c, w.at[t].last);
      assert LastSeen(w', c, t, v);
    }
  }
}
