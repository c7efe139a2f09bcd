/** Runs that show that each hypothesis of the theorems is needed, and exactly when the library keeps its
    promises without it. */
module Boundaries {
  import opened Options
  import opened Tl2
  import opened Tl2Invariant
  import opened Serializability
  import opened SingleReads
  import opened Executions

  // ---- Two words of one write set on one stripe ----

  predicate Collide(a: Addr, b: Addr) {
    a != b && StripeOf(a) == StripeOf(b)
  }

  function BothWritten(a: Addr, b: Addr): Mem {
    map[a := 1, b := 1]
  }

  function BothWrites(a: Addr, b: Addr): Log {
    [Wr(a, 1), Wr(b, 1)]
  }

  function HalfRead(a: Addr, b: Addr): Log {
    [Rd(a, 1, false, true), Rd(b, 0, false, true)]
  }

  function CollidingTx(a: Addr, b: Addr, wv: nat, held: set<Stripe>, pc: Pc): Tx {
    Tx(false, 0, wv, {}, BothWritten(a, b), held, {}, pc, BothWrites(a, b))
  }

  /** The first word is written back, and its stripe is free again. */
  function ReleasedEarly(start: State, a: Addr, b: Addr): State {
    WithVersion(WithLock(start, 0, StripeOf(a)), StripeOf(a), 1)
      .(gvc := 1, mem := map[a := 1], commits := map[1 := Commit(0, BothWrites(a, b), BothWritten(a, b))])
  }

  lemma CollidingWrites(a: Addr, b: Addr) returns (labels: seq<Label>)
    requires Collide(a, b)
    ensures Exec(Zero, labels) == Some(Put(Zero, 0, CollidingTx(a, b, 0, {}, LockLoad({a, b}))))
    ensures |labels| == 4
  {
    hide Exec;
    var tx := NewTx(Zero, false);
    assert Exec(Zero, []) == Some(Zero) by { StartExec(Zero); }
    labels := QuietBegin(Zero, [], Zero, 0, false);
    labels := QuietWrite(Zero, labels, Zero, 0, tx, a, 1);
    labels := QuietWrite(Zero, labels, Zero, 0, tx.(writeSet := tx.writeSet[a := 1], log := tx.log + [Wr(a, 1)]), b, 1);
    assert tx.writeSet[a := 1][b := 1] == BothWritten(a, b) && tx.log + [Wr(a, 1)] + [Wr(b, 1)] == BothWrites(a, b);
    labels := QuietEnd(Zero, labels, Zero, 0, CollidingTx(a, b, 0, {}, Body));
    assert BothWritten(a, b).Keys == {a, b};
  }

  /** The second lock() fails on the stripe the transaction already holds, and is ignored. */
  lemma CollidingLocks(a: Addr, b: Addr) returns (labels: seq<Label>)
    requires Collide(a, b)
    ensures Exec(Zero, labels)
         == Some(Put(WithLock(Zero, 0, StripeOf(a)), 0, CollidingTx(a, b, 0, {StripeOf(a)}, LockLoad({}))))
    ensures |labels| == 8
  {
    hide Exec, StripeOf;
    var l := StripeOf(a);
    labels := CollidingWrites(a, b);
    assert {a, b} - {a} == {b} && {b} - {b} == {};
    labels := TakeLock(Zero, labels, Zero, 0, CollidingTx(a, b, 0, {}, LockLoad({a, b})), a);
    var s := WithLock(Zero, 0, l);
    var none: set<Stripe> := {};
    assert none + {l} == {l};
    labels := Move(Zero, labels, s, 0, CollidingTx(a, b, 0, {l}, LockLoad({b})), Pick(b),
                   s, CollidingTx(a, b, 0, {l}, LockCas({}, b, 0)));
    labels := Move(Zero, labels, s, 0, CollidingTx(a, b, 0, {l}, LockCas({}, b, 0)), Go(false),
                   s, CollidingTx(a, b, 0, {l}, LockLoad({})));
  }

  /** Writing back the first word releases the stripe of the second. */
  lemma CollidingReleases(a: Addr, b: Addr) returns (labels: seq<Label>)
    requires Collide(a, b)
    ensures Exec(Zero, labels)
         == Some(Put(ReleasedEarly(Zero, a, b), 0, CollidingTx(a, b, 1, {StripeOf(a)}, WriteBack({b}))))
    ensures |labels| == 12
  {
    hide Exec, StripeOf;
    var l := StripeOf(a);
    assert BothWritten(a, b).Keys == {a, b} && {a, b} - {a} == {b};
    labels := CollidingLocks(a, b);
    var s := WithLock(Zero, 0, l);
    labels := QuietDecide(Zero, labels, s, 0, CollidingTx(a, b, 0, {l}, LockLoad({})));
    var s1 := s.(gvc := 1, commits := s.commits[1 := Commit(0, BothWrites(a, b), BothWritten(a, b))]);
    labels := QuietCopyBack(Zero, labels, s1, 0, CollidingTx(a, b, 1, {l}, WriteBack({a, b})), a);
    var s2 := s1.(mem := s1.mem[a := 1]);
    labels := QuietRelease(Zero, labels, s2, 0, CollidingTx(a, b, 1, {l}, Release({b}, a)));
    assert WithVersion(s2, l, 1) == ReleasedEarly(Zero, a, b);
  }

  /** A transaction that begins now reads one new and one old word, and commits. */
  lemma CollidingReaderCommits(a: Addr, b: Addr) returns (labels: seq<Label>, s: State)
    requires Collide(a, b)
    ensures Exec(Zero, labels) == Some(s) && s.gvc == 2 && |labels| < 100
    ensures s.commits == ReleasedEarly(Zero, a, b).commits[2 := Commit(1, HalfRead(a, b), map[])]
    ensures forall t :: t in s.txs ==> s.txs[t].writeSet.Keys <= {a, b}
  {
    hide Exec, StripeOf;
    labels := CollidingReleases(a, b);
    s := Put(ReleasedEarly(Zero, a, b), 0, CollidingTx(a, b, 1, {StripeOf(a)}, WriteBack({b})));
    var tx := NewTx(s, false);
    labels := QuietBegin(Zero, labels, s, 1, false);
    labels := QuietRead(Zero, labels, s, 1, tx, a);
    labels := QuietRead(Zero, labels, s, 1, AfterRead(s, tx, a), b);
    var done := AfterRead(s, AfterRead(s, tx, a), b);
    assert done.log == HalfRead(a, b);
    labels := QuietEnd(Zero, labels, s, 1, done);
    assert done.writeSet.Keys == {};
    labels := QuietDecide(Zero, labels, s, 1, done.(pc := LockLoad({})));
    s := Put(s.(gvc := 2, commits := s.commits[2 := Commit(1, HalfRead(a, b), map[])]), 1,
             done.(wv := 2, pc := WriteBack({})));
  }

  lemma HalfReadIsNotSerial(a: Addr, b: Addr)
    requires a != b
    ensures Serial([BothWrites(a, b), HalfRead(a, b)], map[]) == None
  {
    var m: Mem := map[];
    var first, second := BothWrites(a, b), HalfRead(a, b);
    assert first[..1] == [Wr(a, 1)] && second[..1] == [Rd(a, 1, false, true)];
    assert InPlace(first[..1], m) == Some(m[a := 1]);
    assert InPlace(first, m) == Some(m[a := 1][b := 1]);
    assert InPlace(second[..1], m[a := 1][b := 1]) == Some(m[a := 1][b := 1]);
    assert InPlace(second, m[a := 1][b := 1]) == None;
    assert [first, second][..1] == [first];
    assert Serial([first], m) == Some(m[a := 1][b := 1]);
  }

  /** Any two words that share a stripe, written by one transaction, can be read half old and half new by
      another one that commits, with every read calm and a tiny clock. */
  lemma CollisionBreaksSerializability(a: Addr, b: Addr) returns (states: seq<State>, labels: seq<Label>)
    requires Collide(a, b)
    ensures IsRun(states, labels) && WritesOnly(states, {a, b}) && Short(states)
    ensures !SerializesTo(states[|labels|], states[|labels|].gvc)
  {
    var s;
    labels, s := CollidingReaderCommits(a, b);
    states := ExecIsRun(Zero, labels);
    assert LogsUpTo(s.commits, 1) == [BothWrites(a, b)] by { assert LogsUpTo(s.commits, 0) == []; }
    assert LogsUpTo(s.commits, 2) == [BothWrites(a, b), HalfRead(a, b)];
    HalfReadIsNotSerial(a, b);
    forall i | 0 <= i < |states|
      ensures WritesIn(states[i], {a, b})
    {
      RunWrites(states, labels, {a, b}, i);
    }
  }

  ghost predicate SerializesTo(s: State, v: nat) {
    Serial(LogsUpTo(s.commits, v), map[]).Some?
  }

  // ---- Exactly when write sets are safe ----

  /** Every short run whose transactions write only in `addrs` is serializable. */
  ghost predicate Safe(addrs: set<Addr>) {
    forall states: seq<State>, labels: seq<Label> ::
      IsRun(states, labels) && WritesOnly(states, addrs) && Short(states) ==>
        SerializesTo(states[|labels|], states[|labels|].gvc)
  }

  /** The library is serializable on exactly those sets of words in which no two share a stripe. */
  lemma SafeIffStripeInjective(addrs: set<Addr>)
    ensures Safe(addrs) <==> StripeInjective(addrs)
  {
    if StripeInjective(addrs) {
      forall states: seq<State>, labels: seq<Label> |
          IsRun(states, labels) && WritesOnly(states, addrs) && Short(states)
        ensures SerializesTo(states[|labels|], states[|labels|].gvc)
      {
        ShortIsTame(states, labels, addrs);
        Serializable(states, labels, |labels|);
      }
    } else {
      var a, b :| a in addrs && b in addrs && StripeOf(a) == StripeOf(b) && a != b;
      var states, labels := CollisionBreaksSerializability(a, b);
      forall i | 0 <= i < |states|
        ensures WritesIn(states[i], addrs)
      {
        assert WritesIn(states[i], {a, b});
      }
    }
  }

  // ---- Version and lock bit loaded apart ----

  function OldThenNew(a: Addr): Log {
    [Rd(a, 0, false, true), Rd(a, 1, false, false)]
  }

  /** The reader, t = 1, began before the writer and has read the word once. */
  function TornTx(a: Addr, pc: Pc): Tx {
    Tx(true, 0, 0, {}, map[], {}, {}, pc, [Rd(a, 0, false, true)])
  }

  function WriterTx(a: Addr, wv: nat, held: set<Stripe>, pc: Pc): Tx {
    Tx(false, 0, wv, {}, map[a := 1], held, {}, pc, [Wr(a, 1)])
  }

  function TwoTxs(s: State, writer: Tx, reader: Tx): State {
    Put(Put(s, 0, writer), 1, reader)
  }

  lemma Swap(s: State, x: Tx, y: Tx)
    ensures Put(Put(s, 0, x), 1, y) == Put(Put(s, 1, y), 0, x)
  {
    assert s.txs[0 := x][1 := y] == s.txs[1 := y][0 := x];
  }

  function WriterCopied(start: State, a: Addr): State {
    WithLock(start, 0, StripeOf(a))
      .(gvc := 1, mem := map[a := 1], commits := map[1 := Commit(0, [Wr(a, 1)], map[a := 1])])
  }

  /** The reader has passed the first checks for its second read; the writer is ready to lock. */
  lemma TornStart(a: Addr) returns (labels: seq<Label>)
    ensures Exec(Zero, labels) == Some(TwoTxs(Zero, WriterTx(a, 0, {}, LockLoad({a})), TornTx(a, Copy(a, 0))))
    ensures |labels| == 13
  {
    hide Exec, StripeOf;
    var w, r := NewTx(Zero, false), NewTx(Zero, true);
    assert Exec(Zero, []) == Some(Zero) by { StartExec(Zero); }
    labels := QuietBegin(Zero, [], Zero, 0, false);
    labels := QuietWrite(Zero, labels, Zero, 0, w, a, 1);
    assert w.writeSet[a := 1] == map[a := 1] && w.log + [Wr(a, 1)] == [Wr(a, 1)];
    labels := QuietEnd(Zero, labels, Zero, 0, WriterTx(a, 0, {}, Body));
    assert WriterTx(a, 0, {}, Body).writeSet.Keys == {a};
    var s := Put(Zero, 0, WriterTx(a, 0, {}, LockLoad({a})));
    labels := QuietBegin(Zero, labels, s, 1, true);
    labels := QuietRead(Zero, labels, s, 1, r, a);
    assert AfterRead(s, r, a) == TornTx(a, Body);
    labels := QuietFetch(Zero, labels, s, 1, TornTx(a, Body), a);
  }

  /** The writer locks the stripe, decides, and copies the word back. */
  lemma TornWriterCopies(a: Addr) returns (labels: seq<Label>)
    ensures Exec(Zero, labels)
         == Some(TwoTxs(WriterCopied(Zero, a), WriterTx(a, 1, {StripeOf(a)}, Release({}, a)), TornTx(a, Copy(a, 0))))
    ensures |labels| == 18
  {
    hide Exec, StripeOf;
    var l := StripeOf(a);
    var none: set<Stripe> := {};
    assert none + {l} == {l} && {a} - {a} == {};
    labels := TornStart(a);
    var r := TornTx(a, Copy(a, 0));
    Swap(Zero, WriterTx(a, 0, {}, LockLoad({a})), r);
    labels := TakeLock(Zero, labels, Put(Zero, 1, r), 0, WriterTx(a, 0, {}, LockLoad({a})), a);
    var s1 := Put(WithLock(Zero, 0, l), 1, r);
    labels := QuietDecide(Zero, labels, s1, 0, WriterTx(a, 0, {l}, LockLoad({})));
    var s2 := s1.(gvc := 1, commits := s1.commits[1 := Commit(0, [Wr(a, 1)], map[a := 1])]);
    assert WriterTx(a, 1, {l}, Body).writeSet.Keys == {a};
    labels := QuietCopyBack(Zero, labels, s2, 0, WriterTx(a, 1, {l}, WriteBack({a})), a);
    assert s2.(mem := s2.mem[a := 1]) == Put(WriterCopied(Zero, a), 1, r);
    Swap(WriterCopied(Zero, a), WriterTx(a, 1, {l}, Release({}, a)), r);
  }

  /** The reader copies and loads the old version; then the writer releases the stripe. */
  lemma TornWriterReleases(a: Addr) returns (labels: seq<Label>)
    ensures Exec(Zero, labels)
         == Some(TwoTxs(WithVersion(WriterCopied(Zero, a), StripeOf(a), 1),
                        WriterTx(a, 1, {StripeOf(a)}, WriteBack({})), TornTx(a, PostLock(a, 0, 0, 1))))
    ensures |labels| == 21
  {
    hide Exec, StripeOf;
    var l := StripeOf(a);
    labels := TornWriterCopies(a);
    var s := WriterCopied(Zero, a);
    var w := WriterTx(a, 1, {l}, Release({}, a));
    var waiting := TornTx(a, PostLock(a, 0, 0, 1));
    labels := QuietCopy(Zero, labels, Put(s, 0, w), 1, TornTx(a, Copy(a, 0)), a);
    Swap(s, w, waiting);
    labels := QuietRelease(Zero, labels, Put(s, 1, waiting), 0, w);
    assert WithVersion(Put(s, 1, waiting), l, 1) == Put(WithVersion(s, l, 1), 1, waiting);
    Swap(WithVersion(s, l, 1), WriterTx(a, 1, {l}, WriteBack({})), waiting);
  }

  /** The reader sees no lock bit any more, and commits. */
  lemma TornReadAccepted(a: Addr) returns (labels: seq<Label>, s: State)
    ensures Exec(Zero, labels) == Some(s) && s.commits == map[1 := Commit(0, [Wr(a, 1)], map[a := 1])] && |labels| == 24
    ensures 1 in s.txs && s.txs[1].ro && s.txs[1].pc.Committed? && s.txs[1].log == OldThenNew(a)
    ensures WritesIn(s, {a})
  {
    hide Exec, StripeOf;
    labels := TornWriterReleases(a);
    var waiting := TornTx(a, PostLock(a, 0, 0, 1));
    s := Put(WithVersion(WriterCopied(Zero, a), StripeOf(a), 1), 0, WriterTx(a, 1, {StripeOf(a)}, WriteBack({})));
    assert waiting.log + [Rd(a, 1, false, false)] == OldThenNew(a);
    labels := Move(Zero, labels, s, 1, waiting, Go(false), s, waiting.(pc := Body, log := OldThenNew(a)));
    labels := QuietEnd(Zero, labels, s, 1, waiting.(pc := Body, log := OldThenNew(a)));
    var done := waiting.(pc := Deleting(true), log := OldThenNew(a));
    var s' := s.(freed := s.freed + multiset(done.segs));
    labels := Move(Zero, labels, s, 1, done, Go(false), s', done.(pc := Committed));
    s := Put(s', 1, done.(pc := Committed));
  }

  lemma OldThenNewFitsNoState(a: Addr, m: Mem)
    ensures InPlace(OldThenNew(a), m) == None
  {
    var first := OldThenNew(a)[..1];
    assert first == [Rd(a, 0, false, true)];
    assert InPlace(first[..0], m) == Some(m);
    assert InPlace(first, m) == if Get(m, a) == 0 then Some(m) else None;
  }

  /** With the two loads of the post-validation apart, a read-only transaction of a tame run that reads any
      one word twice can commit although no committed state, at any version, explains what it read. */
  lemma SeparateLoadsBreakSnapshots(a: Addr) returns (states: seq<State>, labels: seq<Label>)
    ensures IsTameRun(states, labels)
    ensures var s := states[|labels|];
            && 1 in s.txs && s.txs[1].ro && s.txs[1].pc.Committed? && s.txs[1].log == OldThenNew(a)
            && !AllCalm(s.txs[1].log)
            && forall v: nat :: InPlace(s.txs[1].log, StateAt(s.commits, v)) == None
  {
    var s;
    labels, s := TornReadAccepted(a);
    states := ExecIsRun(Zero, labels);
    EndsTame(states, labels, {a});
    forall v: nat
      ensures InPlace(OldThenNew(a), StateAt(s.commits, v)) == None
    {
      OldThenNewFitsNoState(a, StateAt(s.commits, v));
    }
    assert FromMemory(OldThenNew(a)[1]) && !OldThenNew(a)[1].calm;
  }

  /** Every transaction of a tame run that has read memory at most `n` times, and only words in `addrs`, saw
      one committed state, no older than its begin. Running, committed and aborted transactions count. */
  ghost predicate SnapshotSafe(addrs: set<Addr>, n: nat) {
    forall states: seq<State>, labels: seq<Label>, i: nat, t: Tid ::
      IsTameRun(states, labels) && i < |states| && ReadsLittle(states[i], t, addrs, n) ==>
        SawOneState(states[i], t)
  }

  /** The same of committed read-only transactions alone, and with any committed state at all. */
  ghost predicate ReadOnlySafe(addrs: set<Addr>, n: nat) {
    forall states: seq<State>, labels: seq<Label>, i: nat, t: Tid ::
      && IsTameRun(states, labels) && i < |states| && ReadsLittle(states[i], t, addrs, n)
      && states[i].txs[t].ro && states[i].txs[t].pc.Committed? ==>
        exists v: nat :: InPlace(states[i].txs[t].log, StateAt(states[i].commits, v)).Some?
  }

  ghost predicate ReadsLittle(s: State, t: Tid, addrs: set<Addr>, n: nat) {
    t in s.txs && MemReads(s.txs[t].log) <= n && ReadsIn(s.txs[t].log, addrs)
  }

  ghost predicate ReadsIn(log: Log, addrs: set<Addr>) {
    forall i :: 0 <= i < |log| && FromMemory(log[i]) ==> log[i].addr in addrs
  }

  /** Exactly how much may be read without every read being calm: one word once. */
  lemma SnapshotSafeIff(addrs: set<Addr>, n: nat)
    ensures SnapshotSafe(addrs, n) <==> n <= 1 || addrs == {}
    ensures ReadOnlySafe(addrs, n) <==> n <= 1 || addrs == {}
  {
    if n <= 1 || addrs == {} {
      forall states: seq<State>, labels: seq<Label>, i: nat, t: Tid |
          IsTameRun(states, labels) && i < |states| && ReadsLittle(states[i], t, addrs, n)
        ensures SawOneState(states[i], t)
      {
        if addrs == {} {
          NoReads(states[i].txs[t].log);
        }
        OneReadIsASnapshot(states, labels, i, t);
      }
    } else {
      var a :| a in addrs;
      var states, labels := SeparateLoadsBreakSnapshots(a);
      var s := states[|labels|];
      TwoReads(a);
      assert ReadsLittle(s, 1, addrs, n);
      assert !SawOneState(s, 1);
    }
  }

  lemma {:induction false} NoReads(log: Log)
    requires forall i :: 0 <= i < |log| ==> !FromMemory(log[i])
    ensures MemReads(log) == 0
  {
    if log != [] {
      NoReads(log[..|log| - 1]);
    }
  }

  lemma TwoReads(a: Addr)
    ensures MemReads(OldThenNew(a)) == 2
  {
    var log := OldThenNew(a);
    var first := log[..1];
    assert first == [Rd(a, 0, false, true)] && first[..0] == [] && MemReads(first[..0]) == 0;
    assert MemReads(first) == 1 && log[..|log| - 1] == first;
  }

  // ---- What the validation shortcut skips ----

  /** The transaction that has read the word is about to take its write version while another one holds its
      stripe. */
  function Overlooked(start: State, a: Addr): State {
    TwoTxs(WithLock(start, 1, StripeOf(a)),
           Tx(false, 0, 0, {a}, map[], {}, {}, LockLoad({}), [Rd(a, 0, false, true)]),
           Tx(false, 0, 0, {}, map[a := 1], {StripeOf(a)}, {}, LockLoad({}), [Wr(a, 1)]))
  }

  lemma ShortcutStart(a: Addr) returns (labels: seq<Label>)
    ensures Exec(Zero, labels) == Some(Overlooked(Zero, a)) && |labels| == 13
  {
    hide Exec, StripeOf;
    var l := StripeOf(a);
    var r, w := NewTx(Zero, false), NewTx(Zero, false);
    assert Exec(Zero, []) == Some(Zero) by { StartExec(Zero); }
    labels := QuietBegin(Zero, [], Zero, 0, false);
    labels := QuietRead(Zero, labels, Zero, 0, r, a);
    var none: set<Addr> := {};
    assert none + {a} == {a} && r.log + [Rd(a, 0, false, true)] == [Rd(a, 0, false, true)];
    var read := Tx(false, 0, 0, {a}, map[], {}, {}, Body, [Rd(a, 0, false, true)]);
    labels := QuietEnd(Zero, labels, Zero, 0, read);
    assert read.writeSet.Keys == {};
    var ending := read.(pc := LockLoad({}));
    var s := Put(Zero, 0, ending);
    labels := QuietBegin(Zero, labels, s, 1, false);
    labels := QuietWrite(Zero, labels, s, 1, w, a, 1);
    assert w.writeSet[a := 1] == map[a := 1] && w.log + [Wr(a, 1)] == [Wr(a, 1)];
    var wrote := Tx(false, 0, 0, {}, map[a := 1], {}, {}, Body, [Wr(a, 1)]);
    labels := QuietEnd(Zero, labels, s, 1, wrote);
    assert wrote.writeSet.Keys == {a} && {a} - {a} == {};
    labels := TakeLock(Zero, labels, s, 1, wrote.(pc := LockLoad({a})), a);
    var noLock: set<Stripe> := {};
    assert noLock + {l} == {l};
    assert WithLock(s, 1, l) == Put(WithLock(Zero, 1, l), 0, ending);
  }

  /** The shortcut accepts more than the loop would: in this tame run it lets a transaction commit (correctly)
      while the lock-bit test of the skipped loop would fail on the word it read. */
  lemma ShortcutSkipsLockTest(a: Addr) returns (states: seq<State>, labels: seq<Label>)
    ensures IsTameRun(states, labels)
    ensures var s := states[|labels|];
            && 0 in s.txs && s.txs[0].pc == LockLoad({}) && s.txs[0].rv == s.gvc && a in s.txs[0].readSet
            && !LoopPasses(s, s.txs[0])
            && Increment(s, 0, s.txs[0]).txs[0].pc == Validate({})
  {
    labels := ShortcutStart(a);
    states := ExecIsRun(Zero, labels);
    assert WritesIn(states[|labels|], {a}) by { hide StripeOf; }
    EndsTame(states, labels, {a});
    hide StripeOf;
    assert states[|labels|].locks[StripeOf(a)].locked;
  }
}
