/** The check goes on and ends: until all workers have returned some turn changes something, and each worker has only so
    many turns that do, plus those that tries of aborted transactions cost. */
module CheckProgress {
  import opened Options
  import opened Tl2
  import opened Tl2Invariant
  import opened SingleReads
  import CounterCheck
  import Barrier
  import Progress
  import opened OneWord
  import opened CheckWorld
  import opened CheckInvariant
  import opened CheckRuns

  // ---- What a worker has left to do ----

  /** Syncs and transactions that are left. */
  function Items(l: CounterCheck.Local): nat {
    var n := CounterCheck.NB_TX;
    match l
    case Sync1 => 2 * n + 7
    case InitWrite => 2 * n + 6
    case InitCheck => 2 * n + 5
    case InitFailed(k) => k + 1
    case Sync2 => 2 * n + 4
    case ReadLast(i) => if i < n then 2 * (n - i) + 3 else 3
    case Decrement(i, _) => if i < n then 2 * (n - i) + 2 else 3
    case Sync3(_) => 2
    case FinalCheck => 1
    case Returned(_) => 0
  }

  lemma ItemsFall(l: CounterCheck.Local, first: bool, initial: nat, x: nat)
    requires l.Decrement? ==> l.i < CounterCheck.NB_TX
    requires l.InitCheck? ==> first
    ensures !l.Returned? ==> Items(CounterCheck.Continue(l, first, initial, x)) < Items(l)
    ensures l.Returned? ==> CounterCheck.Continue(l, first, initial, x) == l
  {
  }

  function BarrierRank(pc: Barrier.Pc): nat {
    match pc
    case Outside => 0
    case SetLeave => 3
    case AwaitLeave => 3
    case Leaving => 2
    case SetEnter => 1
    case AwaitEnter => 1
  }

  /** The present transaction, or the one to come. */
  function TxRank(w: World, t: nat): nat
    requires t < |w.at| == |w.current|
  {
    if !Transacts(w.at[t]) then 0
    else
      match w.current[t]
      case Some(u) => if u in w.tm.txs then Rank(w.tm.txs[u]) else 31
      case None => 31
  }

  const ITEM: nat := 40

  /** A bound on the turns of worker `t` that change something, if no transaction is aborted any more. */
  function Effort(w: World, t: nat): nat
    requires Sized(w) && t < |w.at|
  {
    ITEM * Items(w.at[t]) + BarrierRank(w.bar.pcs[t]) + TxRank(w, t)
  }

  /** The transactions of the workers are concerned with the counter alone. */
  ghost predicate AllSlim(w: World, c: Addr) {
    forall t, u :: 0 <= t < |w.current| && w.current[t] == Some(u) && u in w.tm.txs ==> Slim(w.tm.txs[u], c)
  }

  /** In this turn of worker `t` its transaction has to give up. */
  predicate GivesUp(w: World, t: nat, w': World) {
    && t < |w.current| && t < |w'.current| && w.current[t].Some? && w'.current[t] == w.current[t]
    && var u := w.current[t].value;
       u in w.tm.txs && u in w'.tm.txs && !Progress.Aborting(w.tm.txs[u].pc) && Progress.Aborting(w'.tm.txs[u].pc)
  }

  // ---- Every turn that changes something costs ----

  /** The turn of `t` costs, or costs another try, and the others keep what they have left. */
  ghost predicate Costs(w: World, t: nat, w': World)
    requires Sized(w) && t < |w.at|
  {
    && Sized(w') && |w'.at| == |w.at|
    && (if GivesUp(w, t, w') then Effort(w', t) <= Effort(w, t) + 40
        else w' != w ==> Effort(w', t) < Effort(w, t))
    && forall r :: 0 <= r < |w.at| && r != t ==> Effort(w', r) == Effort(w, r)
  }

  lemma BarrierCosts(w: World, c: Addr, t: nat, w': World)
    requires Sized(w) && t < |w.at| && !w.bar.pcs[t].Outside? && w' == w.(bar := Barrier.Next(w.bar, t))
    ensures Costs(w, t, w')
  {
  }

  lemma ResumeCosts(w: World, c: Addr, t: nat, x: nat, w': World)
    requires Sized(w) && t < |w.at| && w.bar.pcs[t].Outside? && w' == Resume(w, t, x)
    requires w.at[t].Decrement? ==> w.at[t].i < CounterCheck.NB_TX
    requires w.at[t].InitCheck? ==> t == 0
    requires w.at[t].Returned? ==> w.current[t] == None
    ensures Costs(w, t, w')
  {
    ItemsFall(w.at[t], t == 0, Total(w), x);
    assert w.at[t].Returned? ==> w'.at == w.at && w'.current == w.current;
  }

  lemma EnterCosts(w: World, c: Addr, t: nat, w': World)
    requires Sized(w) && t < |w.at| && w.bar.pcs[t].Outside? && CounterCheck.Syncs(w.at[t])
    requires w' == Resume(w, t, 0).(bar := Barrier.Next(w.bar, t))
    ensures Costs(w, t, w')
  {
    ItemsFall(w.at[t], t == 0, Total(w), 0);
  }

  lemma BeginCosts(w: World, c: Addr, t: nat, u: Tid, w': World)
    requires Sized(w) && t < |w.at| && Transacts(w.at[t]) && w.current[t] == None && Begins(w, t, u) == Some(w')
    requires (forall r :: 0 <= r < |w.at| && r != t ==> w.current[r] != Some(u)) && AllSlim(w, c)
    ensures Costs(w, t, w') && AllSlim(w', c)
  {
  }

  lemma RetryCosts(w: World, c: Addr, t: nat, u: Tid, w': World)
    requires Sized(w) && t < |w.at| && w.current[t] == Some(u) && u in w.tm.txs && w.tm.txs[u].pc.Aborted?
    requires w' == w.(current := w.current[t := None]) && Transacts(w.at[t]) && AllSlim(w, c)
    ensures Costs(w, t, w') && AllSlim(w', c)
  {
  }

  /** The calls of a worker are those of a slim transaction. */
  lemma CallsSlim(l: CounterCheck.Local, c: Addr, total: nat, tx: Tx)
    requires FollowsText(l, c, total, tx) && tx.pc.Body?
    ensures SlimCall(tx, Call(l, c, total, tx.log), c)
  {
  }

  /** Only the memory has changed, and there only the transaction of `t` is concerned. */
  ghost predicate Moved(w: World, t: nat, u: Tid, w': World) {
    && Sized(w) && t < |w.at| && w.current[t] == Some(u) && u in w.tm.txs && u in w'.tm.txs
    && w' == w.(tm := w'.tm, v0 := w'.v0) && Distinct(w)
    && (forall v :: v in w.tm.txs && v != u ==> v in w'.tm.txs && w'.tm.txs[v] == w.tm.txs[v])
    && (forall v :: v in w'.tm.txs && v != u ==> v in w.tm.txs)
  }

  lemma AdvanceCosts(w: World, c: Addr, t: nat, u: Tid, w': World)
    requires Moved(w, t, u, w') && Transacts(w.at[t]) && Advances(w.tm.txs[u], w'.tm.txs[u], c)
    ensures Costs(w, t, w')
  {
    hide Rank, Slim, Items, BarrierRank;
    forall r | 0 <= r < |w.at| && r != t
      ensures Effort(w', r) == Effort(w, r)
    {
      assert w.current[r] != Some(u);
    }
  }

  lemma AdvanceSlim(w: World, c: Addr, t: nat, u: Tid, w': World)
    requires Moved(w, t, u, w') && AllSlim(w, c) && Advances(w.tm.txs[u], w'.tm.txs[u], c)
    ensures AllSlim(w', c)
  {
    hide Slim, Rank;
    forall r, v | 0 <= r < |w'.current| && w'.current[r] == Some(v) && v in w'.tm.txs
      ensures Slim(w'.tm.txs[v], c)
    {
      assert v != u ==> Slim(w.tm.txs[v], c);
    }
  }

  lemma MemoryCosts(w: World, c: Addr, t: nat, u: Tid, e: Event, w': World)
    requires Moved(w, t, u, w') && Transacts(w.at[t]) && AllSlim(w, c)
    requires w.tm.txs[u].pc.Body? ==> e == Call(w.at[t], c, Total(w), w.tm.txs[u].log)
    requires FollowsText(w.at[t], c, Total(w), w.tm.txs[u]) && Step(w.tm, u, e) == Some(w'.tm)
    ensures Costs(w, t, w') && AllSlim(w', c)
  {
    hide Step, FollowsText, Call, SlimCall, Slim, Advances, Costs;
    if w.tm.txs[u].pc.Body? {
      CallsSlim(w.at[t], c, Total(w), w.tm.txs[u]);
    }
    StepAdvances(w.tm, u, e, w'.tm, c);
    AdvanceCosts(w, c, t, u, w');
    AdvanceSlim(w, c, t, u, w');
  }

  lemma PerformCosts(w: World, c: Addr, t: nat, u: Tid, e: Event, w': World)
    requires Sized(w) && t < |w.at| && w.current[t] == Some(u) && u in w.tm.txs && Performs(w, t, u, e) == Some(w')
    requires w.tm.txs[u].pc.Body? ==> e == Call(w.at[t], c, Total(w), w.tm.txs[u].log)
    requires TxFits(w, c, t, u) && Distinct(w) && AllSlim(w, c) && Inv(w.tm) && Tame(w.tm)
    ensures Costs(w, t, w') && AllSlim(w', c)
  {
    assert Step(w.tm, u, e) == Some(w'.tm);
    assert Transacts(w.at[t]) && FollowsText(w.at[t], c, Total(w), w.tm.txs[u]);
    hide TxFits, Step, FollowsText, Call, Inv, Tame, Costs, AllSlim;
    assert Moved(w, t, u, w') by {
      OnlyMover(w.tm, u, e, w'.tm);
    }
    MemoryCosts(w, c, t, u, e, w');
  }

  lemma OnlyMover(s: State, u: Tid, e: Event, s': State)
    requires Inv(s) && Tame(s) && u in s.txs && Step(s, u, e) == Some(s')
    ensures u in s'.txs
    ensures forall v :: v in s.txs && v != u ==> v in s'.txs && s'.txs[v] == s.txs[v]
    ensures forall v :: v in s'.txs && v != u ==> v in s.txs
  {
    hide Inv, Tame, Step;
    StepRely(s, u, e, s');
  }

  lemma TxTurnCosts(w: World, c: Addr, t: nat, u: Tid, e: Event, w': World)
    requires Sized(w) && t < |w.at| && w.current[t] == Some(u) && u in w.tm.txs && InTx(w, c, t, u, e) == Some(w')
    requires TxFits(w, c, t, u) && Distinct(w) && AllSlim(w, c) && Inv(w.tm) && Tame(w.tm)
    requires w.at[t].Decrement? ==> w.at[t].i < CounterCheck.NB_TX
    requires w.at[t].InitCheck? ==> t == 0
    ensures Costs(w, t, w') && AllSlim(w', c)
  {
    assert w.bar.pcs[t].Outside? && Transacts(w.at[t]);
    hide Performs, TxFits, Call, Costs, Distinct, Inv, Tame;
    match w.tm.txs[u].pc
    case Committed => ResumeCosts(w, c, t, Answer(w.tm.txs[u].log), w');
    case Aborted => RetryCosts(w, c, t, u, w');
    case Body => PerformCosts(w, c, t, u, Call(w.at[t], c, Total(w), w.tm.txs[u].log), w');
    case _ => PerformCosts(w, c, t, u, e, w');
  }

  /** Where the loop and the check of the initialisation can be. */
  lemma Sensible(w: World, c: Addr, t: nat)
    requires Sized(w) && t < |w.at| && CounterCheck.Inv(Abstract(w, c)) && WorkerOk(w, c, t)
    ensures w.at[t].Decrement? ==> w.at[t].i < CounterCheck.NB_TX
    ensures w.at[t].InitCheck? ==> t == 0
    ensures w.at[t].Returned? ==> w.current[t] == None
  {
    assert CounterCheck.PcOk(Abstract(w, c), t);
  }

  lemma TurnCosts(w: World, c: Addr, turn: Turn, w': World)
    requires Moves(w, c, turn, w') && AllSlim(w, c) && Tame(w.tm) && Good(w, c)
    ensures Costs(w, turn.thread, w') && AllSlim(w', c)
  {
    Parts(w, c);
    var t := turn.thread;
    assert WorkerOk(w, c, t);
    Sensible(w, c, t);
    hide Good, Sound, Inv, AllSee, Tame, CounterCheck.Inv, Counted, Costs, InTx, Begins, TxFits, Resume;
    if !w.bar.pcs[t].Outside? {
      BarrierCosts(w, c, t, w');
    } else if CounterCheck.Syncs(w.at[t]) {
      ResumeSlim(w, c, t, 0);
      EnterCosts(w, c, t, w');
    } else if !Transacts(w.at[t]) {
      ResumeSlim(w, c, t, 0);
      ResumeCosts(w, c, t, 0, w');
    } else if w.current[t].None? {
      FreshTid(w, c, t, turn.tid, w');
      BeginCosts(w, c, t, turn.tid, w');
    } else {
      TxTurnCosts(w, c, t, w.current[t].value, turn.e, w');
    }
  }

  lemma ResumeSlim(w: World, c: Addr, t: nat, x: nat)
    requires Sized(w) && t < |w.at| && AllSlim(w, c)
    ensures AllSlim(Resume(w, t, x), c)
  {
  }

  lemma FreshTid(w: World, c: Addr, t: nat, u: Tid, w': World)
    requires Sized(w) && t < |w.at| && Begins(w, t, u) == Some(w')
    requires forall r :: 0 <= r < |w.at| ==> WorkerOk(w, c, r)
    ensures forall r :: 0 <= r < |w.at| && r != t ==> w.current[r] != Some(u)
  {
    forall r | 0 <= r < |w.at| && r != t
      ensures w.current[r] != Some(u)
    {
      assert WorkerOk(w, c, r);
    }
  }

  // ---- Some turn changes something ----

  predicate IsOut(w: World, t: nat)
    requires Sized(w) && t < |w.at|
  {
    w.at[t].Returned? && w.bar.pcs[t].Outside?
  }

  lemma {:induction false} NewName(s: set<Tid>) returns (u: Tid)
    ensures u !in s && forall v :: v in s ==> v < u
    decreases |s|
  {
    u := 0;
    if s != {} {
      var v :| v in s;
      var x := NewName(s - {v});
      u := if x > v then x else v + 1;
      assert forall y :: y in s ==> y == v || y in s - {v};
    }
  }

  lemma AdvancesChanges(tx: Tx, c: Addr)
    ensures !Advances(tx, tx, c)
  {
  }

  lemma TxHasTurn(w: World, c: Addr, t: nat, u: Tid) returns (e: Event, w': World)
    requires Sized(w) && t < |w.at| && w.current[t] == Some(u) && u in w.tm.txs && AllSlim(w, c)
    requires TxFits(w, c, t, u) && Inv(w.tm) && Tame(w.tm)
    ensures InTx(w, c, t, u, e) == Some(w') && w' != w && e != Go(true)
  {
    var s, tx := w.tm, w.tm.txs[u];
    e := Go(false);
    if Finished(tx.pc) {
      w' := InTx(w, c, t, u, e).value;
      assert w'.current[t] == None;
    } else {
      var act := e;
      if tx.pc.Body? {
        act := Call(w.at[t], c, Total(w), tx.log);
        CallGoes(w, c, t, u);
        CallsSlim(w.at[t], c, Total(w), tx);
      } else {
        assert TxOk(s, u, tx);
        e := HasNext(s, u);
        act := e;
      }
      hide TxFits, FollowsText, Call, Slim, Inv, Tame, Step, Advances;
      w' := Performs(w, t, u, act).value;
      OnlyMover(s, u, act, w'.tm);
      StepAdvances(s, u, act, w'.tm, c);
      if w'.tm.txs[u] == tx {
        AdvancesChanges(tx, c);
      }
    }
  }

  lemma CallGoes(w: World, c: Addr, t: nat, u: Tid)
    requires Sized(w) && t < |w.at| && u in w.tm.txs && w.tm.txs[u].pc.Body?
    requires w.tm.txs[u].ro == ReadsOnly(w.at[t])
    ensures Step(w.tm, u, Call(w.at[t], c, Total(w), w.tm.txs[u].log)).Some?
  {
  }

  /** A worker outside the barrier that has not returned. */
  lemma OutsideMoves(w: World, c: Addr, t: nat) returns (turn: Turn, w': World)
    requires Sized(w) && t < |w.at| && w.bar.pcs[t].Outside? && !w.at[t].Returned? && AllSlim(w, c)
    requires CounterCheck.Inv(Abstract(w, c)) && WorkerOk(w, c, t) && Inv(w.tm) && Tame(w.tm)
    ensures turn.thread == t && Next(w, c, turn) == Some(w') && w' != w && turn.e != Go(true)
  {
    Sensible(w, c, t);
    hide Inv, Tame, CounterCheck.Inv, FollowsText, Slim, InTx, CounterCheck.Continue;
    var e, u := Go(false), 0;
    if !CounterCheck.Syncs(w.at[t]) && Transacts(w.at[t]) {
      if w.current[t].None? {
        u := NewName(w.tm.txs.Keys);
      } else {
        e, w' := TxHasTurn(w, c, t, w.current[t].value);
      }
    } else {
      ItemsFall(w.at[t], t == 0, Total(w), 0);
    }
    turn := Turn(t, u, e);
    w' := Next(w, c, turn).value;
    if CounterCheck.Syncs(w.at[t]) || !Transacts(w.at[t]) {
      assert w'.at[t] != w.at[t];
    } else if w.current[t].None? {
      assert w'.current[t] != w.current[t];
    }
  }

  /** Inside the barrier, when all those outside have returned. */
  lemma InsideMoves(w: World, c: Addr, t: nat) returns (t': nat)
    requires Sized(w) && t < |w.at| && !w.bar.pcs[t].Outside? && CounterCheck.Inv(Abstract(w, c))
    requires forall u :: 0 <= u < |w.at| && w.bar.pcs[u].Outside? ==> w.at[u].Returned? && StandsAt(w, u) == w.at[u]
    requires exists r :: Barrier.Inv(w.bar, r)
    ensures t' < |w.at| && !w.bar.pcs[t'].Outside? && Barrier.Next(w.bar, t') != w.bar
  {
    var r :| Barrier.Inv(w.bar, r);
    if u: nat :| u < |w.at| && w.bar.pcs[u].Outside? {
      var s := Abstract(w, c);
      t' := t;
      assert CounterCheck.PcOk(s, u) && CounterCheck.PcOk(s, t) && s.left[u] <= s.entered[t];
      assert s.pcs[u] == CounterCheck.Pc(w.at[u], false) && s.left[u] == 3 && s.entered[t] == 3;
      assert Barrier.CallsOk(w.bar, u, r) && Barrier.CallsOk(w.bar, t, r);
    } else {
      t' := Barrier.SomeMoves(w.bar, r);
    }
  }

  /** Until all workers have returned some turn changes something, without counting on spurious failures. */
  lemma SomeTurnChanges(w: World, c: Addr) returns (turn: Turn, w': World)
    requires Good(w, c) && AllSlim(w, c) && Tame(w.tm)
    requires exists t: nat :: t < |w.at| && !IsOut(w, t)
    ensures Moves(w, c, turn, w') && w' != w && turn.e != Go(true)
  {
    Parts(w, c);
    var t: nat :| t < |w.at| && !IsOut(w, t);
    hide Inv, AllSee, Tame, CounterCheck.Inv, Counted, WorkerOk, Slim;
    if u: nat :| u < |w.at| && w.bar.pcs[u].Outside? && !w.at[u].Returned? {
      turn, w' := OutsideMoves(w, c, u);
    } else {
      forall u | 0 <= u < |w.at| && w.bar.pcs[u].Outside?
        ensures w.at[u].Returned? && StandsAt(w, u) == w.at[u]
      {
        NoTransaction(w, c, u);
      }
      var t' := InsideMoves(w, c, t);
      turn := Turn(t', 0, Go(false));
      w' := w.(bar := Barrier.Next(w.bar, t'));
    }
  }

  // ---- Whole runs ----

  /** How many turns of `t` have changed something. */
  function Changes(worlds: seq<World>, turns: seq<Turn>, t: nat, i: nat): nat
    requires i < |worlds| == |turns| + 1
  {
    if i == 0 then 0
    else Changes(worlds, turns, t, i - 1) + if turns[i - 1].thread == t && worlds[i] != worlds[i - 1] then 1 else 0
  }

  /** How many transactions of `t` had to give up. */
  function Retries(worlds: seq<World>, turns: seq<Turn>, t: nat, i: nat): nat
    requires i < |worlds| == |turns| + 1
  {
    if i == 0 then 0
    else
      Retries(worlds, turns, t, i - 1)
      + if turns[i - 1].thread == t && GivesUp(worlds[i - 1], t, worlds[i]) then 1 else 0
  }

  lemma {:induction false} RunSlim(worlds: seq<World>, c: Addr, turns: seq<Turn>, i: nat)
    requires IsCheckRun(worlds, c, turns) && i < |worlds| && Total(worlds[0]) < CounterCheck.SIZE_MODULUS
    ensures AllSlim(worlds[i], c)
  {
    hide Good, Tame, Moves;
    if i > 0 {
      RunSlim(worlds, c, turns, i - 1);
      RunGood(worlds, c, turns, i - 1);
      assert Moves(worlds[i - 1], c, turns[i - 1], worlds[i]);
      TurnCosts(worlds[i - 1], c, turns[i - 1], worlds[i]);
    }
  }

  /** The work of one check: so many turns of a worker change anything, apart from those that retries cost. */
  const WORK: nat := ITEM * (2 * CounterCheck.NB_TX + 7)

  lemma {:induction false} WorkIsBounded(worlds: seq<World>, c: Addr, turns: seq<Turn>, i: nat, t: nat)
    requires IsCheckRun(worlds, c, turns) && i < |worlds| && Total(worlds[0]) < CounterCheck.SIZE_MODULUS
    requires t < |worlds[0].at|
    ensures Sized(worlds[i]) && t < |worlds[i].at|
    ensures Changes(worlds, turns, t, i) + Effort(worlds[i], t) <= WORK + 41 * Retries(worlds, turns, t, i)
  {
    hide Good, Tame, Moves, Effort;
    if i == 0 {
      StartEffort(worlds[0], t);
    } else {
      WorkIsBounded(worlds, c, turns, i - 1, t);
      RunSlim(worlds, c, turns, i - 1);
      RunGood(worlds, c, turns, i - 1);
      assert Moves(worlds[i - 1], c, turns[i - 1], worlds[i]);
      TurnThread(worlds[i - 1], c, turns[i - 1], worlds[i]);
      TurnCosts(worlds[i - 1], c, turns[i - 1], worlds[i]);
      assert t != turns[i - 1].thread ==> Effort(worlds[i], t) == Effort(worlds[i - 1], t);
    }
  }

  lemma TurnThread(w: World, c: Addr, turn: Turn, w': World)
    requires Moves(w, c, turn, w')
    ensures Sized(w) && turn.thread < |w.at|
  {
    hide Next;
  }

  lemma StartEffort(w: World, t: nat)
    requires Sized(w) && Barrier.Initial(w.bar) && t < |w.at| && w.at[t] == CounterCheck.Sync1
    ensures Effort(w, t) == WORK
  {
  }

  /** A check that can do nothing more has succeeded for every worker: in a world where no turn changes anything all
      have returned, without an error. */
  lemma RestsInSuccess(worlds: seq<World>, c: Addr, turns: seq<Turn>, i: nat, t: nat)
    requires IsCheckRun(worlds, c, turns) && i < |worlds| && Total(worlds[0]) < CounterCheck.SIZE_MODULUS
    requires forall turn, w' :: Moves(worlds[i], c, turn, w') && turn.e != Go(true) ==> w' == worlds[i]
    requires t < |worlds[i].at|
    ensures worlds[i].at[t] == CounterCheck.Returned(CounterCheck.Success)
  {
    RunGood(worlds, c, turns, i);
    RunSlim(worlds, c, turns, i);
    assert Tame(worlds[i].tm);
    hide Good, Tame, Moves, AllSlim;
    Parts(worlds[i], c);
    if u: nat :| u < |worlds[i].at| && !IsOut(worlds[i], u) {
      var turn, w' := SomeTurnChanges(worlds[i], c);
    }
    assert IsOut(worlds[i], t);
    CheckNeverFails(worlds, c, turns, i, t);
  }

  /** A worker with no work left has returned. */
  lemma NoWorkLeft(w: World, t: nat)
    requires Sized(w) && t < |w.at| && Effort(w, t) == 0
    ensures IsOut(w, t)
  {
  }
}
