/** Building runs step by step, and what no run ever undoes. */
module Executions {
  import opened LockWord
  import opened Options
  import opened Tl2
  import opened Tl2Invariant

  /** The state after performing the labels in order; None when one of them is not possible. */
  function Exec(s: State, labels: seq<Label>): Option<State> {
    if labels == [] then Some(s)
    else
      var l := labels[|labels| - 1];
      match Exec(s, labels[..|labels| - 1])
      case None => None
      case Some(m) => Step(m, l.t, l.e)
  }

  lemma Take(start: State, labels: seq<Label>, s: State, t: Tid, e: Event, s': State) returns (labels': seq<Label>)
    requires Exec(start, labels) == Some(s) && Step(s, t, e) == Some(s')
    ensures Exec(start, labels') == Some(s')
    ensures |labels'| == |labels| + 1
  {
    labels' := labels + [Label(t, e)];
    assert labels'[..|labels'| - 1] == labels;
  }

  /** A step of `t` after which the rest of the state, `s`, is `s'`. */
  lemma Move(start: State, labels: seq<Label>, s: State, t: Tid, tx: Tx, e: Event, s': State, tx': Tx)
    returns (labels': seq<Label>)
    requires Exec(start, labels) == Some(Put(s, t, tx))
    requires s'.txs == s.txs && Step(Put(s, t, tx), t, e) == Some(s'.(txs := s.txs[t := tx][t := tx']))
    ensures Exec(start, labels') == Some(Put(s', t, tx'))
    ensures |labels'| == |labels| + 1
  {
    hide Step;
    assert s.txs[t := tx][t := tx'] == s'.txs[t := tx'];
    labels' := Take(start, labels, Put(s, t, tx), t, e, Put(s', t, tx'));
  }

  lemma {:induction false} ExecIsRun(start: State, labels: seq<Label>) returns (states: seq<State>)
    requires Initial(start) && Exec(start, labels).Some?
    ensures IsRun(states, labels) && states[0] == start && states[|labels|] == Exec(start, labels).value
  {
    if labels == [] {
      states := [start];
    } else {
      var p := labels[..|labels| - 1];
      var before := ExecIsRun(start, p);
      states := before + [Exec(start, labels).value];
      forall i | 0 <= i < |labels|
        ensures Step(states[i], labels[i].t, labels[i].e) == Some(states[i + 1])
      {
        if i < |p| {
          assert p[i] == labels[i];
          assert states[i + 1] == before[i + 1];
        }
      }
    }
  }

  /** Three steps without interference validate and copy a word whose stripe is unlocked and not too new. */
  lemma QuietFetch(start: State, labels: seq<Label>, s: State, t: Tid, tx: Tx, a: Addr) returns (labels': seq<Label>)
    requires Exec(start, labels) == Some(Put(s, t, tx)) && tx.pc == Body
    requires !s.locks[StripeOf(a)].locked && s.locks[StripeOf(a)].version <= tx.rv
    ensures Exec(start, labels') == Some(Put(s, t, tx.(pc := Copy(a, s.locks[StripeOf(a)].version))))
    ensures |labels'| == |labels| + 3
  {
    hide Exec;
    var v := s.locks[StripeOf(a)].version;
    labels' := Move(start, labels, s, t, tx, CallRead(a), s, tx.(pc := PreVersion(a)));
    labels' := Move(start, labels', s, t, tx.(pc := PreVersion(a)), Go(false), s, tx.(pc := PreLock(a, v)));
    labels' := Move(start, labels', s, t, tx.(pc := PreLock(a, v)), Go(false), s, tx.(pc := Copy(a, v)));
  }

  /** Two more steps leave the transaction about to load the lock bit for the last time. */
  lemma QuietCopy(start: State, labels: seq<Label>, s: State, t: Tid, tx: Tx, a: Addr) returns (labels': seq<Label>)
    requires tx.pc.Copy? && tx.pc.addr == a && a !in tx.writeSet
    requires Exec(start, labels) == Some(Put(s, t, tx))
    ensures Exec(start, labels')
         == Some(Put(s, t, tx.(pc := PostLock(a, tx.pc.v, s.locks[StripeOf(a)].version, Get(s.mem, a)))))
    ensures |labels'| == |labels| + 2
  {
    hide Exec;
    var x := Get(s.mem, a);
    var tx' := tx.(pc := PostVersion(a, tx.pc.v, x));
    labels' := Move(start, labels, s, t, tx, Go(false), s, tx');
    labels' := Move(start, labels', s, t, tx', Go(false), s,
                    tx.(pc := PostLock(a, tx.pc.v, s.locks[StripeOf(a)].version, x)));
  }

  lemma QuietRead(start: State, labels: seq<Label>, s: State, t: Tid, tx: Tx, a: Addr) returns (labels': seq<Label>)
    requires Exec(start, labels) == Some(Put(s, t, tx)) && tx.pc == Body
    requires !s.locks[StripeOf(a)].locked && s.locks[StripeOf(a)].version <= tx.rv
    requires a !in tx.writeSet
    ensures Exec(start, labels') == Some(Put(s, t, AfterRead(s, tx, a)))
    ensures |labels'| == |labels| + 6
  {
    hide Exec;
    var v, x := s.locks[StripeOf(a)].version, Get(s.mem, a);
    labels' := QuietFetch(start, labels, s, t, tx, a);
    labels' := QuietCopy(start, labels', s, t, tx.(pc := Copy(a, v)), a);
    labels' := Move(start, labels', s, t, tx.(pc := PostLock(a, v, v, x)), Go(false), s, AfterRead(s, tx, a));
  }

  function AfterRead(s: State, tx: Tx, a: Addr): Tx {
    tx.(readSet := if tx.ro then tx.readSet else tx.readSet + {a},
        log := tx.log + [Rd(a, Get(s.mem, a), false, true)])
  }

  const Zero: State :=
    State(0, seq(NUM_LOCKS, _ => Word(0, false)), map[], {}, map[], map[], map[], {}, multiset{})

  lemma QuietWrite(start: State, labels: seq<Label>, s: State, t: Tid, tx: Tx, a: Addr, x: Val)
    returns (labels': seq<Label>)
    requires Exec(start, labels) == Some(Put(s, t, tx)) && tx.pc == Body && !tx.ro
    ensures Exec(start, labels')
         == Some(Put(s, t, tx.(writeSet := tx.writeSet[a := x], log := tx.log + [Wr(a, x)])))
    ensures |labels'| == |labels| + 1
  {
    hide Exec;
    labels' := Move(start, labels, s, t, tx, CallWrite(a, x), s,
                    tx.(writeSet := tx.writeSet[a := x], log := tx.log + [Wr(a, x)]));
  }

  function WithLock(s: State, t: Tid, l: Stripe): State {
    s.(locks := s.locks[l := s.locks[l].(locked := true)], owner := s.owner[l := t])
  }

  function WithVersion(s: State, l: Stripe, v: nat): State {
    s.(locks := s.locks[l := Word(v, false)], owner := s.owner - {l})
  }

  /** The load and the exchange that take the free stripe of the next address of the write set. */
  lemma TakeLock(start: State, labels: seq<Label>, s: State, t: Tid, tx: Tx, a: Addr) returns (labels': seq<Label>)
    requires Exec(start, labels) == Some(Put(s, t, tx)) && tx.pc.LockLoad? && a in tx.pc.todo
    requires !s.locks[StripeOf(a)].locked
    ensures Exec(start, labels')
         == Some(Put(WithLock(s, t, StripeOf(a)), t,
                     tx.(held := tx.held + {StripeOf(a)}, pc := LockLoad(tx.pc.todo - {a}))))
    ensures |labels'| == |labels| + 2
  {
    hide Exec;
    var l := StripeOf(a);
    var tx' := tx.(pc := LockCas(tx.pc.todo - {a}, a, s.locks[l].version));
    labels' := Move(start, labels, s, t, tx, Pick(a), s, tx');
    assert s.locks[l] == Word(s.locks[l].version, false);
    labels' := Move(start, labels', s, t, tx', Go(false), WithLock(s, t, l),
                    tx.(held := tx.held + {l}, pc := LockLoad(tx.pc.todo - {a})));
  }

  /** Clock increment and decision when nobody took a clock value since tm_begin. */
  lemma QuietDecide(start: State, labels: seq<Label>, s: State, t: Tid, tx: Tx) returns (labels': seq<Label>)
    requires Exec(start, labels) == Some(Put(s, t, tx)) && tx.pc == LockLoad({})
    requires tx.rv == s.gvc && s.gvc + 1 < CLOCK_SIZE
    ensures Exec(start, labels')
         == Some(Put(s.(gvc := s.gvc + 1, commits := s.commits[s.gvc + 1 := Commit(t, tx.log, tx.writeSet)]), t,
                     tx.(wv := s.gvc + 1, pc := WriteBack(tx.writeSet.Keys))))
    ensures |labels'| == |labels| + 2
  {
    hide Exec;
    var wv := s.gvc + 1;
    var tx' := tx.(wv := wv, pc := Validate({}));
    labels' := Move(start, labels, s, t, tx, Go(false), s.(gvc := wv), tx');
    labels' := Move(start, labels', s.(gvc := wv), t, tx', Go(false),
                    s.(gvc := wv, commits := s.commits[wv := Commit(t, tx.log, tx.writeSet)]),
                    tx.(wv := wv, pc := WriteBack(tx.writeSet.Keys)));
  }

  lemma QuietCopyBack(start: State, labels: seq<Label>, s: State, t: Tid, tx: Tx, a: Addr) returns (labels': seq<Label>)
    requires Exec(start, labels) == Some(Put(s, t, tx)) && tx.pc.WriteBack? && a in tx.pc.todo && a in tx.writeSet
    ensures Exec(start, labels')
         == Some(Put(s.(mem := s.mem[a := tx.writeSet[a]]), t, tx.(pc := Release(tx.pc.todo - {a}, a))))
    ensures |labels'| == |labels| + 1
  {
    hide Exec;
    labels' := Move(start, labels, s, t, tx, Pick(a), s.(mem := s.mem[a := tx.writeSet[a]]),
                    tx.(pc := Release(tx.pc.todo - {a}, a)));
  }

  lemma QuietRelease(start: State, labels: seq<Label>, s: State, t: Tid, tx: Tx) returns (labels': seq<Label>)
    requires Exec(start, labels) == Some(Put(s, t, tx)) && tx.pc.Release? && tx.wv < VERSION_LIMIT
    ensures Exec(start, labels')
         == Some(Put(WithVersion(s, StripeOf(tx.pc.addr), tx.wv), t, tx.(pc := WriteBack(tx.pc.todo))))
    ensures |labels'| == |labels| + 1
  {
    hide Exec;
    labels' := Move(start, labels, s, t, tx, Go(false), WithVersion(s, StripeOf(tx.pc.addr), tx.wv),
                    tx.(pc := WriteBack(tx.pc.todo)));
  }

  function NewTx(s: State, ro: bool): Tx {
    Tx(ro, s.gvc, 0, {}, map[], {}, {}, Body, [])
  }

  lemma QuietBegin(start: State, labels: seq<Label>, s: State, t: Tid, ro: bool) returns (labels': seq<Label>)
    requires Exec(start, labels) == Some(s) && t !in s.txs
    ensures Exec(start, labels') == Some(Put(s, t, NewTx(s, ro)))
    ensures |labels'| == |labels| + 1
  {
    labels' := Take(start, labels, s, t, Begin(ro), Put(s, t, NewTx(s, ro)));
  }

  lemma QuietEnd(start: State, labels: seq<Label>, s: State, t: Tid, tx: Tx) returns (labels': seq<Label>)
    requires Exec(start, labels) == Some(Put(s, t, tx)) && tx.pc == Body
    ensures Exec(start, labels')
         == Some(Put(s, t, tx.(pc := if tx.ro then Deleting(true) else LockLoad(tx.writeSet.Keys))))
    ensures |labels'| == |labels| + 1
  {
    hide Exec;
    labels' := Move(start, labels, s, t, tx, CallEnd, s,
                    tx.(pc := if tx.ro then Deleting(true) else LockLoad(tx.writeSet.Keys)));
  }

  lemma StartExec(s: State)
    ensures Exec(s, []) == Some(s)
  {
  }

  /** The weak or strong exchange fails on a stripe that is held: by the transaction itself, which goes on, or
      by another one. */
  lemma QuietRefused(start: State, labels: seq<Label>, s: State, t: Tid, tx: Tx, a: Addr) returns (labels': seq<Label>)
    requires Exec(start, labels) == Some(Put(s, t, tx)) && tx.pc.LockLoad? && a in tx.pc.todo
    requires s.locks[StripeOf(a)].locked
    ensures var pc := if StripeOf(a) in tx.held then LockLoad(tx.pc.todo - {a}) else UnlockLoad(tx.held);
            Exec(start, labels') == Some(Put(s, t, tx.(pc := pc)))
    ensures |labels'| == |labels| + 2
  {
    hide Exec;
    var tx' := tx.(pc := LockCas(tx.pc.todo - {a}, a, s.locks[StripeOf(a)].version));
    labels' := Move(start, labels, s, t, tx, Pick(a), s, tx');
    labels' := Move(start, labels', s, t, tx', Go(false), s,
                    tx.(pc := if StripeOf(a) in tx.held then LockLoad(tx.pc.todo - {a}) else UnlockLoad(tx.held)));
  }

  function WithUnlocked(s: State, l: Stripe): State {
    s.(locks := s.locks[l := Unlocked(s.locks[l].version)], owner := s.owner - {l})
  }

  /** Giving one stripe back on an abort path. */
  lemma QuietUnlock(start: State, labels: seq<Label>, s: State, t: Tid, tx: Tx, l: Stripe) returns (labels': seq<Label>)
    requires Exec(start, labels) == Some(Put(s, t, tx)) && tx.pc.UnlockLoad? && l in tx.pc.locks
    ensures Exec(start, labels') == Some(Put(WithUnlocked(s, l), t, tx.(pc := UnlockLoad(tx.pc.locks - {l}))))
    ensures |labels'| == |labels| + 2
  {
    hide Exec;
    var tx' := tx.(pc := UnlockStore(tx.pc.locks - {l}, l, s.locks[l].version));
    labels' := Move(start, labels, s, t, tx, PickLock(l), s, tx');
    labels' := Move(start, labels', s, t, tx', Go(false), WithUnlocked(s, l), tx.(pc := UnlockLoad(tx.pc.locks - {l})));
  }

  lemma QuietIncrement(start: State, labels: seq<Label>, s: State, t: Tid, tx: Tx) returns (labels': seq<Label>)
    requires Exec(start, labels) == Some(Put(s, t, tx)) && tx.pc == LockLoad({})
    ensures var wv := (s.gvc + 1) % CLOCK_SIZE;
            var todo := if (tx.rv + 1) % CLOCK_SIZE != wv then tx.readSet else {};
            Exec(start, labels') == Some(Put(s.(gvc := wv), t, tx.(wv := wv, pc := Validate(todo))))
    ensures |labels'| == |labels| + 1
  {
    hide Exec;
    var wv := (s.gvc + 1) % CLOCK_SIZE;
    labels' := Move(start, labels, s, t, tx, Go(false), s.(gvc := wv),
                    tx.(wv := wv, pc := Validate(if (tx.rv + 1) % CLOCK_SIZE != wv then tx.readSet else {})));
  }

  /** One word passes validation. */
  lemma QuietValidate(start: State, labels: seq<Label>, s: State, t: Tid, tx: Tx, a: Addr) returns (labels': seq<Label>)
    requires Exec(start, labels) == Some(Put(s, t, tx)) && tx.pc.Validate? && a in tx.pc.todo
    requires (StripeOf(a) in tx.held || !s.locks[StripeOf(a)].locked) && s.locks[StripeOf(a)].version <= tx.rv
    ensures Exec(start, labels') == Some(Put(s, t, tx.(pc := Validate(tx.pc.todo - {a}))))
    ensures |labels'| == |labels| + 2
  {
    hide Exec;
    var tx' := tx.(pc := ValidateVersion(tx.pc.todo - {a}, a));
    labels' := Move(start, labels, s, t, tx, Pick(a), s, tx');
    labels' := Move(start, labels', s, t, tx', Go(false), s, tx.(pc := Validate(tx.pc.todo - {a})));
  }

  lemma QuietDecision(start: State, labels: seq<Label>, s: State, t: Tid, tx: Tx) returns (labels': seq<Label>)
    requires Exec(start, labels) == Some(Put(s, t, tx)) && tx.pc == Validate({})
    ensures Exec(start, labels')
         == Some(Put(s.(commits := s.commits[tx.wv := Commit(t, tx.log, tx.writeSet)]), t,
                     tx.(pc := WriteBack(tx.writeSet.Keys))))
    ensures |labels'| == |labels| + 1
  {
    hide Exec;
    labels' := Move(start, labels, s, t, tx, Go(false),
                    s.(commits := s.commits[tx.wv := Commit(t, tx.log, tx.writeSet)]),
                    tx.(pc := WriteBack(tx.writeSet.Keys)));
  }

  /** A transaction whose words are all written back finishes. */
  lemma QuietSplice(start: State, labels: seq<Label>, s: State, t: Tid, tx: Tx) returns (labels': seq<Label>)
    requires Exec(start, labels) == Some(Put(s, t, tx)) && tx.pc == WriteBack({}) && tx.segs == {}
    ensures Exec(start, labels') == Some(Put(s, t, tx.(pc := Committed)))
    ensures |labels'| == |labels| + 1
  {
    hide Exec;
    assert s.region + {} == s.region;
    labels' := Move(start, labels, s, t, tx, Go(false), s, tx.(pc := Committed));
  }

  /** Turning to a transaction that is under way. */
  lemma Focus(s: State, t: Tid)
    requires t in s.txs
    ensures Put(s, t, s.txs[t]) == s
  {
    assert s.txs[t := s.txs[t]] == s.txs;
  }

  // ---- Whole transactions ----

  /** After a transaction that wrote one word committed alone. */
  function WordCommitted(s: State, t: Tid, a: Addr, x: Val): State {
    var l, wv := StripeOf(a), s.gvc + 1;
    Put(WithVersion(WithLock(s, t, l), l, wv)
          .(gvc := wv, mem := s.mem[a := x], commits := s.commits[wv := Commit(t, [Wr(a, x)], map[a := x])]),
        t, Tx(false, s.gvc, wv, {}, map[a := x], {l}, {}, Committed, [Wr(a, x)]))
  }

  lemma CommitWord(start: State, labels: seq<Label>, s: State, t: Tid, a: Addr, x: Val) returns (labels': seq<Label>)
    requires Exec(start, labels) == Some(s) && t !in s.txs
    requires !s.locks[StripeOf(a)].locked && s.gvc + 1 < VERSION_LIMIT
    ensures Exec(start, labels') == Some(WordCommitted(s, t, a, x))
    ensures |labels'| == |labels| + 10
  {
    hide Exec, StripeOf;
    var l, wv := StripeOf(a), s.gvc + 1;
    var log, writes := [Wr(a, x)], map[a := x];
    labels' := QuietBegin(start, labels, s, t, false);
    labels' := QuietWrite(start, labels', s, t, NewTx(s, false), a, x);
    var tx := Tx(false, s.gvc, 0, {}, writes, {}, {}, Body, log);
    assert NewTx(s, false).log + log == log && NewTx(s, false).writeSet[a := x] == writes && writes.Keys == {a};
    labels' := QuietEnd(start, labels', s, t, tx);
    labels' := TakeLock(start, labels', s, t, tx.(pc := LockLoad({a})), a);
    var none: set<Stripe> := {};
    assert none + {l} == {l} && {a} - {a} == {};
    var s1 := WithLock(s, t, l);
    labels' := QuietDecide(start, labels', s1, t, tx.(held := {l}, pc := LockLoad({})));
    var s2 := s1.(gvc := wv, commits := s.commits[wv := Commit(t, log, writes)]);
    var ending := tx.(held := {l}, wv := wv);
    labels' := QuietCopyBack(start, labels', s2, t, ending.(pc := WriteBack({a})), a);
    var s3 := s2.(mem := s.mem[a := x]);
    labels' := QuietRelease(start, labels', s3, t, ending.(pc := Release({}, a)));
    labels' := QuietSplice(start, labels', WithVersion(s3, l, wv), t, ending.(pc := WriteBack({})));
    assert WithVersion(s3, l, wv)
        == WithVersion(s1, l, wv).(gvc := wv, mem := s.mem[a := x], commits := s.commits[wv := Commit(t, log, writes)]);
  }

  // ---- What runs never undo ----

  /** Transactions write only to words in `addrs`. */
  ghost predicate WritesOnly(states: seq<State>, addrs: set<Addr>) {
    forall i :: 0 <= i < |states| ==> WritesIn(states[i], addrs)
  }

  ghost predicate WritesIn(s: State, addrs: set<Addr>) {
    forall t :: t in s.txs ==> s.txs[t].writeSet.Keys <= addrs
  }

  /** Too short for the clock to reach 2^31. */
  predicate Short(states: seq<State>) {
    |states| <= UNLOCK_LIMIT
  }

  ghost predicate Grows(s: State, s': State, u: Tid) {
    && (s'.gvc == s.gvc || s'.gvc == (s.gvc + 1) % CLOCK_SIZE)
    && (u in s.txs ==> u in s'.txs && s.txs[u].writeSet.Keys <= s'.txs[u].writeSet.Keys)
  }

  lemma PrivateGrows(s: State, t: Tid, e: Event, u: Tid)
    requires t in s.txs && Private(s, s.txs[t], e).Some?
    ensures Grows(s, Put(s, t, Private(s, s.txs[t], e).value), u)
  {
    var tx := s.txs[t];
    assert e.CallWrite? && tx.pc.Body? ==> tx.writeSet.Keys <= tx.writeSet[e.waddr := e.val].Keys;
  }

  /** Write sets only grow, transactions are never forgotten, and a step moves the clock by one at most. */
  lemma StepGrows(s: State, t: Tid, e: Event, s': State, u: Tid)
    requires Step(s, t, e) == Some(s')
    ensures Grows(s, s', u)
  {
    if t in s.txs {
      StepShape(s, t, e, s');
      if IsSharedStep(s, t, s') {
        SharedStepFrame(s, t, s');
        hide Step, IsSharedStep;
      } else {
        hide Step, IsSharedStep, Grows, Private;
        PrivateGrows(s, t, e, u);
      }
    }
  }

  lemma {:induction false} RunClock(states: seq<State>, labels: seq<Label>, i: nat)
    requires IsRun(states, labels) && i < |states|
    ensures states[i].gvc <= i
  {
    hide Step;
    if i > 0 {
      RunClock(states, labels, i - 1);
      var l := labels[i - 1];
      assert Step(states[i - 1], l.t, l.e) == Some(states[i]);
      StepGrows(states[i - 1], l.t, l.e, states[i], 0);
    }
  }

  /** In a run shorter than the clock's period the clock never goes back. */
  lemma {:induction false} RunClockGrows(states: seq<State>, labels: seq<Label>, i: nat, j: nat)
    requires IsRun(states, labels) && i <= j < |states| < CLOCK_SIZE
    ensures states[i].gvc <= states[j].gvc
  {
    hide Step;
    if i < j {
      RunClockGrows(states, labels, i, j - 1);
      RunClock(states, labels, j - 1);
      var l := labels[j - 1];
      assert Step(states[j - 1], l.t, l.e) == Some(states[j]);
      StepGrows(states[j - 1], l.t, l.e, states[j], 0);
    }
  }

  lemma {:induction false} RunWrites(states: seq<State>, labels: seq<Label>, addrs: set<Addr>, i: nat)
    requires IsRun(states, labels) && i < |states| && WritesIn(states[|labels|], addrs)
    ensures WritesIn(states[i], addrs)
    decreases |states| - i
  {
    hide Step;
    if i < |labels| {
      RunWrites(states, labels, addrs, i + 1);
      var l, s, s' := labels[i], states[i], states[i + 1];
      assert Step(s, l.t, l.e) == Some(s');
      forall u | u in s.txs
        ensures s.txs[u].writeSet.Keys <= addrs
      {
        StepGrows(s, l.t, l.e, s', u);
      }
    }
  }

  /** A short run is tame when the words it writes lie on distinct stripes. */
  lemma ShortIsTame(states: seq<State>, labels: seq<Label>, addrs: set<Addr>)
    requires IsRun(states, labels) && Short(states) && WritesOnly(states, addrs) && StripeInjective(addrs)
    ensures IsTameRun(states, labels)
  {
    forall i | 0 <= i < |states|
      ensures states[i].gvc < UNLOCK_LIMIT && InjectiveWrites(states[i])
    {
      RunClock(states, labels, i);
      assert WritesIn(states[i], addrs);
    }
    forall i | 0 <= i < |states|
      ensures Tame(states[i])
    {
      SmallClock(states, labels, i);
    }
  }

  /** The same, when what is known is where the run ends. */
  lemma EndsTame(states: seq<State>, labels: seq<Label>, addrs: set<Addr>)
    requires IsRun(states, labels) && Short(states) && WritesIn(states[|labels|], addrs) && StripeInjective(addrs)
    ensures IsTameRun(states, labels) && WritesOnly(states, addrs)
  {
    forall i | 0 <= i < |states|
      ensures WritesIn(states[i], addrs)
    {
      RunWrites(states, labels, addrs, i);
    }
    ShortIsTame(states, labels, addrs);
  }
}
