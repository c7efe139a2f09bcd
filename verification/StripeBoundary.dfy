/** Exactly how much a transaction that reads no word twice may read without every read being calm. */
module StripeBoundary {
  import opened Options
  import opened Tl2
  import opened Tl2Invariant
  import opened Serializability
  import opened SingleReads
  import opened Executions
  import opened Boundaries
  import opened StripeReads
  import opened Overtaking

  // ---- Two words on two stripes ----

  /** The first word before the commit, the second after it. */
  function BeforeAndAfter(a: Addr, b: Addr): Log {
    [Rd(a, 0, false, true), Rd(b, 1, false, false)]
  }

  /** The reader, t = 1, has read `a` and is about to copy `b`; the writer of both, t = 0, is about to end. */
  lemma BothStarted(start: State, a: Addr, b: Addr) returns (labels: seq<Label>)
    requires start == Zero && a != b
    ensures Exec(start, labels) == Some(Put(Put(start, 1, TornTx(a, Copy(b, 0))), 0, CollidingTx(a, b, 0, {}, Body)))
    ensures |labels| <= 20
  {
    hide Exec, StripeOf;
    assert Exec(start, []) == Some(start) by { StartExec(start); }
    labels := QuietBegin(start, [], start, 1, true);
    labels := QuietRead(start, labels, start, 1, NewTx(start, true), a);
    assert AfterRead(start, NewTx(start, true), a) == TornTx(a, Body);
    labels := QuietFetch(start, labels, start, 1, TornTx(a, Body), b);
    var s := Put(start, 1, TornTx(a, Copy(b, 0)));
    var w := NewTx(s, false);
    labels := QuietBegin(start, labels, s, 0, false);
    labels := QuietWrite(start, labels, s, 0, w, a, 1);
    var w1 := w.(writeSet := w.writeSet[a := 1], log := w.log + [Wr(a, 1)]);
    labels := QuietWrite(start, labels, s, 0, w1, b, 1);
    assert w1.(writeSet := w1.writeSet[b := 1], log := w1.log + [Wr(b, 1)]) == CollidingTx(a, b, 0, {}, Body);
  }

  /** The writer overtakes the reader, who accepts the new `b` and commits. */
  lemma ReaderOvertaken(start: State, a: Addr, b: Addr) returns (labels: seq<Label>, s: State)
    requires start == Zero && StripeOf(a) != StripeOf(b)
    ensures Exec(start, labels) == Some(s) && |labels| <= 50
    ensures s.commits == map[1 := Commit(0, BothWrites(a, b), BothWritten(a, b))]
    ensures 1 in s.txs && s.txs[1].ro && s.txs[1].pc.Committed? && s.txs[1].log == BeforeAndAfter(a, b)
    ensures WritesIn(s, {a, b})
  {
    hide Exec, StripeOf;
    labels := BothStarted(start, a, b);
    var reader, w := TornTx(a, Copy(b, 0)), CollidingTx(a, b, 0, {}, Body);
    var s0 := Put(start, 1, reader);
    assert BothWritten(a, b).Keys == {a, b};
    labels := CopiesBack(start, labels, s0, 0, w, a, b);
    var s1 := Put(Copied(s0, 0, w, a, b), 0, Writing(s0, w, a, b, Release({a}, b)));
    labels, s := ReadsBetween(start, labels, s1, 1, reader, 0, s1.txs[0], a, b, 1);
    var got := Accepted(reader, b, 1);
    assert got.log == BeforeAndAfter(a, b);
    Focus(s, 1);
    labels := QuietEnd(start, labels, s, 1, got);
    var ending := got.(pc := Deleting(true));
    var s2 := s.(freed := s.freed + multiset(ending.segs));
    labels := Move(start, labels, s, 1, ending, Go(false), s2, ending.(segs := {}, pc := Committed));
    s := Put(s2, 1, ending.(segs := {}, pc := Committed));
  }

  lemma BeforeAndAfterFitNoState(a: Addr, b: Addr, s: State, v: nat)
    requires a != b && s.commits == map[1 := Commit(0, BothWrites(a, b), BothWritten(a, b))]
    ensures InPlace(BeforeAndAfter(a, b), StateAt(s.commits, v)) == None
  {
    var log, m := BeforeAndAfter(a, b), StateAt(s.commits, v);
    StatesOfOne(s, v, a, b);
    assert log[..1] == [Rd(a, 0, false, true)];
    assert InPlace(log[..1][..0], m) == Some(m);
    assert InPlace(log[..1], m) == if Get(m, a) == 0 then Some(m) else None;
  }

  lemma {:induction false} StatesOfOne(s: State, v: nat, a: Addr, b: Addr)
    requires s.commits == map[1 := Commit(0, BothWrites(a, b), BothWritten(a, b))]
    ensures StateAt(s.commits, v) == if v == 0 then map[] else BothWritten(a, b)
  {
    if v > 0 {
      StatesOfOne(s, v - 1, a, b);
    }
  }

  /** Reading two words of different stripes, each once, can mix the states before and after a commit. */
  lemma TwoStripesBreakSnapshots(a: Addr, b: Addr) returns (states: seq<State>, labels: seq<Label>)
    requires StripeOf(a) != StripeOf(b)
    ensures IsTameRun(states, labels)
    ensures var s := states[|labels|];
            && 1 in s.txs && s.txs[1].ro && s.txs[1].pc.Committed? && s.txs[1].log == BeforeAndAfter(a, b)
            && forall v: nat :: InPlace(s.txs[1].log, StateAt(s.commits, v)) == None
  {
    var s;
    labels, s := ReaderOvertaken(Zero, a, b);
    states := ExecIsRun(Zero, labels);
    EndsTame(states, labels, {a, b});
    forall v: nat
      ensures InPlace(BeforeAndAfter(a, b), StateAt(s.commits, v)) == None
    {
      BeforeAndAfterFitNoState(a, b, s, v);
    }
  }

  // ---- Exactly how much may be read ----

  ghost predicate OneStripe(addrs: set<Addr>) {
    forall a, b :: a in addrs && b in addrs ==> StripeOf(a) == StripeOf(b)
  }

  /** Every transaction of a tame run that has read memory at most `n` times, no word twice, and only words in
      `addrs`, saw one committed state, no older than its begin. */
  ghost predicate SnapshotSafeOnce(addrs: set<Addr>, n: nat) {
    forall states: seq<State>, labels: seq<Label>, i: nat, t: Tid ::
      && IsTameRun(states, labels) && i < |states| && ReadsLittle(states[i], t, addrs, n)
      && ReadsOnce(states[i].txs[t].log) ==>
        SawOneState(states[i], t)
  }

  /** The same of committed read-only transactions alone, and with any committed state at all. */
  ghost predicate ReadOnlySafeOnce(addrs: set<Addr>, n: nat) {
    forall states: seq<State>, labels: seq<Label>, i: nat, t: Tid ::
      && IsTameRun(states, labels) && i < |states| && ReadsLittle(states[i], t, addrs, n)
      && ReadsOnce(states[i].txs[t].log) && states[i].txs[t].ro && states[i].txs[t].pc.Committed? ==>
        exists v: nat :: InPlace(states[i].txs[t].log, StateAt(states[i].commits, v)).Some?
  }

  lemma OneStripeSawOneState(states: seq<State>, labels: seq<Label>, i: nat, t: Tid, addrs: set<Addr>)
    requires IsTameRun(states, labels) && i < |states| && t in states[i].txs && OneStripe(addrs)
    requires ReadsIn(states[i].txs[t].log, addrs) && ReadsOnce(states[i].txs[t].log)
    ensures SawOneState(states[i], t)
  {
    var s, log := states[i], states[i].txs[t].log;
    var l: Stripe := if a :| a in addrs then StripeOf(a) else 0;
    var v := StripeIsASnapshot(states, labels, i, t, l);
    RunInv(states, labels, i);
    assert TxOk(s, t, s.txs[t]);
    BufferedIsInPlace(log, StateAt(s.commits, v));
  }

  lemma TwoOnce(a: Addr, b: Addr)
    requires a != b
    ensures MemReads(BeforeAndAfter(a, b)) == 2 && ReadsOnce(BeforeAndAfter(a, b))
  {
    var log := BeforeAndAfter(a, b);
    var first := log[..1];
    assert first == [Rd(a, 0, false, true)] && first[..0] == [] && MemReads(first[..0]) == 0;
    assert MemReads(first) == 1 && log[..|log| - 1] == first;
  }

  /** Exactly how much may be read without every read being calm, by who reads no word twice: one word, or the words
      of one stripe. */
  lemma SnapshotSafeOnceIff(addrs: set<Addr>, n: nat)
    ensures SnapshotSafeOnce(addrs, n) <==> n <= 1 || OneStripe(addrs)
    ensures ReadOnlySafeOnce(addrs, n) <==> n <= 1 || OneStripe(addrs)
  {
    if n <= 1 || OneStripe(addrs) {
      forall states: seq<State>, labels: seq<Label>, i: nat, t: Tid |
          && IsTameRun(states, labels) && i < |states| && ReadsLittle(states[i], t, addrs, n)
          && ReadsOnce(states[i].txs[t].log)
        ensures SawOneState(states[i], t)
      {
        if n <= 1 {
          OneReadIsASnapshot(states, labels, i, t);
        } else {
          OneStripeSawOneState(states, labels, i, t, addrs);
        }
      }
    } else {
      var a, b :| a in addrs && b in addrs && StripeOf(a) != StripeOf(b);
      var states, labels := TwoStripesBreakSnapshots(a, b);
      var s := states[|labels|];
      TwoOnce(a, b);
      assert ReadsLittle(s, 1, addrs, n);
      assert !SawOneState(s, 1);
    }
  }
}
