/** A worker whose transactions meet no rival is never aborted, and succeeds. */
module CheckRivals {
  import opened Options
  import opened Tl2
  import opened Tl2Invariant
  import opened SingleReads
  import CounterCheck
  import Barrier
  import Progress
  import opened OneWord
  import opened CheckWorld
  import opened CheckInvariant
  import opened CheckRuns
  import opened CheckProgress

  /** Up to world `i` no other transaction has held the counter's stripe while `t` had one. */
  ghost predicate Unrivalled(worlds: seq<World>, c: Addr, t: nat, i: nat) {
    forall j, u, v :: 0 <= j <= i && j < |worlds| && t < |worlds[j].current| && worlds[j].current[t] == Some(u) ==>
      !Progress.Rival(worlds[j].tm, u, v, StripeOf(c))
  }

  /** Up to then the weak exchange has not failed spuriously in a turn of `t`. */
  predicate Honest(turns: seq<Turn>, t: nat, i: nat) {
    forall j :: 0 <= j < i && j < |turns| && turns[j].thread == t ==> turns[j].e != Go(true)
  }

  /** Nobody has interfered with the transaction of `t`. */
  ghost predicate Untroubled(w: World, c: Addr, t: nat) {
    t < |w.current| && w.current[t].Some? ==>
      && w.current[t].value in w.tm.txs
      && Progress.Undisturbed(w.tm, w.current[t].value, StripeOf(c))
      && Progress.ReadsListed(w.tm.txs[w.current[t].value])
  }

  // ---- What a turn does to the memory ----

  /** The turn is a step of `x` in the memory, by event `e`, or none. */
  ghost predicate ByStep(w: World, turn: Turn, w': World, x: Tid, e: Event) {
    && Sized(w) && turn.thread < |w.at| && |w'.current| == |w.current|
    && (w'.tm == w.tm || Step(w.tm, x, e) == Some(w'.tm))
    && (turn.e != Go(true) ==> e != Go(true))
    && (forall r :: 0 <= r < |w.at| && r != turn.thread ==> w'.current[r] == w.current[r])
    && match w'.current[turn.thread]
       case None => w'.tm == w.tm
       case Some(u) =>
         if w.current[turn.thread] == Some(u) then w'.tm == w.tm || x == u
         else w.current[turn.thread] == None && x == u && u !in w.tm.txs && w'.tm != w.tm
  }

  lemma CallIsNoGo(l: CounterCheck.Local, c: Addr, total: nat, log: Log)
    ensures !Call(l, c, total, log).Go?
  {
  }

  lemma InTxByStep(w: World, c: Addr, turn: Turn, u: Tid, w': World) returns (e: Event)
    requires Sized(w) && turn.thread < |w.at| && w.current[turn.thread] == Some(u) && u in w.tm.txs
    requires InTx(w, c, turn.thread, u, turn.e) == Some(w')
    ensures ByStep(w, turn, w', u, e)
  {
    hide Step, Call, Answer, CounterCheck.Continue;
    e := turn.e;
    if w.tm.txs[u].pc.Body? {
      e := Call(w.at[turn.thread], c, Total(w), w.tm.txs[u].log);
      CallIsNoGo(w.at[turn.thread], c, Total(w), w.tm.txs[u].log);
    }
  }

  lemma TurnByStep(w: World, c: Addr, turn: Turn, w': World) returns (x: Tid, e: Event)
    requires Moves(w, c, turn, w')
    ensures ByStep(w, turn, w', x, e)
  {
    var t := turn.thread;
    x, e := turn.tid, Begin(ReadsOnly(w.at[t]));
    hide Call, Answer, CounterCheck.Continue, Barrier.Next, InTx;
    if w.bar.pcs[t].Outside? && !CounterCheck.Syncs(w.at[t]) && Transacts(w.at[t]) && w.current[t].Some? {
      x := w.current[t].value;
      e := InTxByStep(w, c, turn, x, w');
    } else if w.bar.pcs[t].Outside? && !CounterCheck.Syncs(w.at[t]) && Transacts(w.at[t]) {
      assert Step(w.tm, x, e) == Some(w'.tm);
      assert x in w'.tm.txs;
    }
  }

  // ---- Without rivals nobody interferes ----

  ghost predicate NoRival(s: State, u: Tid, c: Addr) {
    forall v :: !Progress.Rival(s, u, v, StripeOf(c))
  }

  /** The transaction `u` of a worker, from one world to the next. */
  lemma TxUntroubled(s: State, x: Tid, e: Event, s': State, u: Tid, c: Addr)
    requires Inv(s) && Inv(s') && Tame(s) && Step(s, x, e) == Some(s') && u in s'.txs && NoRival(s', u, c)
    requires if u in s.txs then NoRival(s, u, c) && Progress.Undisturbed(s, u, StripeOf(c))
                                && Progress.ReadsListed(s.txs[u])
             else x == u
    ensures Progress.Undisturbed(s', u, StripeOf(c)) && Progress.ReadsListed(s'.txs[u])
  {
    hide Inv, Tame, Step, StripeOf, Progress.Rival;
    if u in s.txs {
      Progress.StepUndisturbed(s, x, e, s', u, StripeOf(c));
    } else {
      Progress.BeginsUndisturbed(s, x, e, s', u, StripeOf(c));
    }
    hide Progress.Undisturbed, Progress.ReadsListed;
    Progress.StepListed(s, x, e, s', u);
  }

  lemma UntroubledTurn(w: World, c: Addr, turn: Turn, w': World, t: nat)
    requires Moves(w, c, turn, w') && t < |w.at| && Tame(w.tm) && Untroubled(w, c, t)
    requires forall u :: w.current[t] == Some(u) ==> NoRival(w.tm, u, c)
    requires t < |w'.current| && forall u :: w'.current[t] == Some(u) ==> NoRival(w'.tm, u, c)
    requires Good(w, c) && Good(w', c)
    ensures Untroubled(w', c, t)
  {
    Parts(w, c);
    Parts(w', c);
    hide Good, Sound, Inv, Tame, AllSee, Moves, Step, NoRival, Progress.Undisturbed, Progress.ReadsListed, StripeOf;
    hide CounterCheck.Inv, Counted, Distinct, FollowsText;
    var x, e := TurnByStep(w, c, turn, w');
    if w'.current[t].Some? && w'.tm != w.tm {
      var u := w'.current[t].value;
      assert WorkerOk(w', c, t);
      assert TxFits(w', c, t, u);
      if u !in w.tm.txs {
        hide WorkerOk;
      }
      TxUntroubled(w.tm, x, e, w'.tm, u, c);
    }
  }

  /** A slim transaction gives up on account of its word alone. */
  lemma CulpritIsIt(s: State, u: Tid, e: Event, s': State, c: Addr)
    requires u in s.txs && u in s'.txs && Step(s, u, e) == Some(s') && Slim(s.txs[u], c)
    requires !Progress.Aborting(s.txs[u].pc) && Progress.Aborting(s'.txs[u].pc)
    ensures Progress.Culprit(s.txs[u], e) == c
  {
    StepShape(s, u, e, s');
    if IsSharedStep(s, u, s') {
      hide Step;
      Progress.SharedPc(s, u, s');
      hide IsSharedStep;
    } else {
      hide IsSharedStep, StripeOf;
    }
  }

  lemma NeverGivesUp(w: World, c: Addr, turn: Turn, w': World)
    requires Moves(w, c, turn, w') && Tame(w.tm) && Untroubled(w, c, turn.thread) && AllSlim(w, c)
    requires turn.e != Go(true) && Good(w, c)
    ensures !GivesUp(w, turn.thread, w')
  {
    Parts(w, c);
    hide Good, Sound, Tame, AllSee, Moves, NoRival, Step, CounterCheck.Inv, Counted, Distinct, WorkerOk;
    var t := turn.thread;
    var x, e := TurnByStep(w, c, turn, w');
    if GivesUp(w, t, w') {
      var u := w.current[t].value;
      assert TxOk(w.tm, u, w.tm.txs[u]);
      hide Inv, TxOk, Slim, Progress.Undisturbed, Progress.ReadsListed, Progress.Aborting, StripeOf;
      assert Step(w.tm, u, e) == Some(w'.tm);
      Progress.AbortIsDisturbed(w.tm, u, e, w'.tm);
      CulpritIsIt(w.tm, u, e, w'.tm, c);
    }
  }

  lemma {:induction false} RunUntroubled(worlds: seq<World>, c: Addr, turns: seq<Turn>, i: nat, t: nat)
    requires IsCheckRun(worlds, c, turns) && i < |worlds| && Total(worlds[0]) < CounterCheck.SIZE_MODULUS
    requires t < |worlds[0].at| && Unrivalled(worlds, c, t, i) && Honest(turns, t, i)
    ensures Untroubled(worlds[i], c, t) && Retries(worlds, turns, t, i) == 0
  {
    hide Good, Tame, Moves, Untroubled, Progress.Rival, StripeOf, GivesUp;
    if i == 0 {
      StartsUntroubled(worlds[0], c, t);
    } else {
      RunUntroubled(worlds, c, turns, i - 1, t);
      RunGood(worlds, c, turns, i - 1);
      RunGood(worlds, c, turns, i);
      RunSlim(worlds, c, turns, i - 1);
      var w, w', turn := worlds[i - 1], worlds[i], turns[i - 1];
      assert Moves(w, c, turn, w');
      WorldsSized(w, c, w');
      UntroubledTurn(w, c, turn, w', t);
      if turn.thread == t {
        NeverGivesUp(w, c, turn, w');
      }
    }
  }

  lemma WorldsSized(w: World, c: Addr, w': World)
    requires Good(w, c) && Good(w', c)
    ensures |w.current| == |w.at| && |w'.current| == |w'.at|
  {
    Parts(w, c);
    Parts(w', c);
    hide Good;
  }

  lemma StartsUntroubled(w: World, c: Addr, t: nat)
    requires Started(w)
    ensures Untroubled(w, c, t)
  {
  }

  // ---- What it means ----

  /** How many turns `t` has had. */
  function TurnsOf(turns: seq<Turn>, t: nat, i: nat): nat
    requires i <= |turns|
  {
    if i == 0 then 0 else TurnsOf(turns, t, i - 1) + if turns[i - 1].thread == t then 1 else 0
  }

  /** No turn of `t` was spent waiting in vain: each changed something, unless `t` had returned. */
  ghost predicate NeverIdle(worlds: seq<World>, turns: seq<Turn>, t: nat, i: nat) {
    forall j :: 0 <= j < i && j + 1 < |worlds| && j < |turns| && turns[j].thread == t ==>
      worlds[j + 1] != worlds[j] || (t < |worlds[j].at| && worlds[j].at[t].Returned?)
  }

  lemma ReturnedStays(w: World, c: Addr, turn: Turn, w': World, t: nat)
    requires Moves(w, c, turn, w') && t < |w.at| && w.at[t].Returned?
    ensures t < |w'.at| && w'.at[t] == w.at[t]
  {
    hide Step, Barrier.Next, Call, Answer, Start;
  }

  lemma {:induction false} BusyUntilReturned(worlds: seq<World>, c: Addr, turns: seq<Turn>, i: nat, t: nat)
    requires IsCheckRun(worlds, c, turns) && i < |worlds| && t < |worlds[0].at| && NeverIdle(worlds, turns, t, i)
    ensures t < |worlds[i].at|
    ensures worlds[i].at[t].Returned? || Changes(worlds, turns, t, i) == TurnsOf(turns, t, i)
  {
    hide Moves, Tame, Started;
    if i > 0 {
      BusyUntilReturned(worlds, c, turns, i - 1, t);
      assert Moves(worlds[i - 1], c, turns[i - 1], worlds[i]);
      TurnSize(worlds[i - 1], c, turns[i - 1], worlds[i]);
      if worlds[i - 1].at[t].Returned? {
        ReturnedStays(worlds[i - 1], c, turns[i - 1], worlds[i], t);
      }
    }
  }

  /** A worker that meets no rival never has to try again, only so many of its turns change anything, and after so many
      turns that were not spent waiting it has returned, without an error. */
  lemma UnrivalledSucceeds(worlds: seq<World>, c: Addr, turns: seq<Turn>, i: nat, t: nat)
    requires IsCheckRun(worlds, c, turns) && i < |worlds| && Total(worlds[0]) < CounterCheck.SIZE_MODULUS
    requires t < |worlds[0].at| && Unrivalled(worlds, c, t, i) && Honest(turns, t, i)
    ensures Retries(worlds, turns, t, i) == 0 && Changes(worlds, turns, t, i) <= WORK
    ensures NeverIdle(worlds, turns, t, i) && TurnsOf(turns, t, i) > WORK ==>
              t < |worlds[i].at| && worlds[i].at[t] == CounterCheck.Returned(CounterCheck.Success)
  {
    RunUntroubled(worlds, c, turns, i, t);
    WorkIsBounded(worlds, c, turns, i, t);
    if NeverIdle(worlds, turns, t, i) {
      BusyUntilReturned(worlds, c, turns, i, t);
      CheckNeverFails(worlds, c, turns, i, t);
    }
  }

  // ---- One worker alone ----

  /** Every transaction but the worker's is over. */
  ghost predicate OnlyWorker(w: World) {
    |w.current| == 1 && forall u :: u in w.tm.txs ==> Finished(w.tm.txs[u].pc) || w.current[0] == Some(u)
  }

  /** A worker leaves its transaction only when that is over. */
  lemma LeavesFinished(w: World, c: Addr, turn: Turn, w': World, u: Tid)
    requires Sized(w) && turn.thread < |w.at| && w.current[turn.thread] == Some(u) && turn.thread < |w'.current|
    requires TxFits(w, c, turn.thread, u) && w'.current[turn.thread] == None && Next(w, c, turn) == Some(w')
    ensures u in w.tm.txs && Finished(w.tm.txs[u].pc)
  {
    var t := turn.thread;
    assert w.bar.pcs[t].Outside? && Transacts(w.at[t]) && !CounterCheck.Syncs(w.at[t]) && u in w.tm.txs;
    hide TxFits, Step, CounterCheck.Continue, Call, Answer, Barrier.Next;
    assert InTx(w, c, t, u, turn.e) == Some(w');
    hide Next;
  }

  /** Whoever is not the mover stays as it is; a newcomer is the mover. */
  lemma OthersAfter(s: State, x: Tid, e: Event, s': State)
    requires Inv(s) && Tame(s) && Step(s, x, e) == Some(s')
    ensures forall v :: v in s'.txs && v != x ==> v in s.txs && s'.txs[v] == s.txs[v]
  {
    hide Inv, Tame, Step;
    StepRely(s, x, e, s');
  }

  lemma OnlyWorkerStep(w: World, turn: Turn, w': World, x: Tid, e: Event)
    requires OnlyWorker(w) && ByStep(w, turn, w', x, e)
    requires w'.current[turn.thread] == None && w.current[turn.thread].Some? ==>
               w.current[turn.thread].value in w.tm.txs && Finished(w.tm.txs[w.current[turn.thread].value].pc)
    requires w'.tm != w.tm ==> forall v :: v in w'.tm.txs && v != x ==> v in w.tm.txs && w'.tm.txs[v] == w.tm.txs[v]
    ensures OnlyWorker(w')
  {
    hide Step;
  }

  lemma OnlyWorkerTurn(w: World, c: Addr, turn: Turn, w': World)
    requires Moves(w, c, turn, w') && OnlyWorker(w) && Tame(w.tm) && Good(w, c)
    ensures OnlyWorker(w')
  {
    Parts(w, c);
    hide Good, Sound, Inv, Tame, AllSee, Step, CounterCheck.Inv, Counted, OnlyWorker, Next, TxFits;
    var x, e := TurnByStep(w, c, turn, w');
    if w'.tm != w.tm {
      OthersAfter(w.tm, x, e, w'.tm);
    }
    if w'.current[turn.thread] == None && w.current[turn.thread].Some? {
      assert WorkerOk(w, c, turn.thread);
      LeavesFinished(w, c, turn, w', w.current[turn.thread].value);
    }
    OnlyWorkerStep(w, turn, w', x, e);
  }

  lemma OnlyWorkerUnrivalled(w: World, c: Addr, u: Tid, v: Tid)
    requires OnlyWorker(w) && w.current[0] == Some(u) && Inv(w.tm)
    ensures !Progress.Rival(w.tm, u, v, StripeOf(c))
  {
    if v in w.tm.txs && v != u {
      assert TxOk(w.tm, v, w.tm.txs[v]);
      assert Own(w.tm, v, StripeOf(c)) <==> Holds(w.tm.txs[v], StripeOf(c));
    }
  }

  lemma {:induction false} RunOnlyWorker(worlds: seq<World>, c: Addr, turns: seq<Turn>, i: nat)
    requires IsCheckRun(worlds, c, turns) && i < |worlds| && Total(worlds[0]) < CounterCheck.SIZE_MODULUS
    requires OnlyWorker(worlds[0])
    ensures OnlyWorker(worlds[i])
  {
    hide Good, Tame, Moves, OnlyWorker;
    if i > 0 {
      RunOnlyWorker(worlds, c, turns, i - 1);
      RunGood(worlds, c, turns, i - 1);
      assert Moves(worlds[i - 1], c, turns[i - 1], worlds[i]);
      OnlyWorkerTurn(worlds[i - 1], c, turns[i - 1], worlds[i]);
    }
  }

  /** One worker alone succeeds: with no other transaction under way, no retry, and after so many turns it has returned
      without an error. */
  lemma LoneWorkerSucceeds(worlds: seq<World>, c: Addr, turns: seq<Turn>, i: nat)
    requires IsCheckRun(worlds, c, turns) && i < |worlds| && OnlyWorker(worlds[0]) && |worlds[0].at| == 1
    requires Honest(turns, 0, i) && NeverIdle(worlds, turns, 0, i)
    ensures Retries(worlds, turns, 0, i) == 0
    ensures TurnsOf(turns, 0, i) > WORK ==>
              |worlds[i].at| == 1 && worlds[i].at[0] == CounterCheck.Returned(CounterCheck.Success)
  {
    forall j, u, v | 0 <= j <= i && j < |worlds| && 0 < |worlds[j].current| && worlds[j].current[0] == Some(u)
      ensures !Progress.Rival(worlds[j].tm, u, v, StripeOf(c))
    {
      RunOnlyWorker(worlds, c, turns, j);
      RunGood(worlds, c, turns, j);
      Parts(worlds[j], c);
      OnlyWorkerUnrivalled(worlds[j], c, u, v);
    }
    RunGood(worlds, c, turns, i);
    UnrivalledSucceeds(worlds, c, turns, i, 0);
  }
}
