/** How far the clock may go: an abort clears the upper half of a lock word, so once versions reach 2^31 an
    aborting transaction can hide a commit from a validation that is under way. */
module ClockBoundary {
  import opened LockWord
  import opened Options
  import opened Tl2
  import opened Tl2Invariant
  import opened Serializability
  import opened Executions
  import opened Boundaries

  ghost predicate Within(s: State, bound: nat) {
    s.gvc <= bound && InjectiveWrites(s)
  }

  /** Every run with stripe-injective write sets whose clock never passes `bound` is serializable. */
  ghost predicate ClockSafe(bound: nat) {
    forall states: seq<State>, labels: seq<Label> ::
      IsRun(states, labels) && (forall i :: 0 <= i < |states| ==> Within(states[i], bound)) ==>
        SerializesTo(states[|labels|], states[|labels|].gvc)
  }

  // ---- Driving the clock up ----

  /** `n` empty transactions have committed, and nothing else happened. */
  ghost predicate Idle(s: State, n: nat) {
    && s.gvc == n && s.mem == map[] && s.owner == map[] && (forall l: Stripe :: s.locks[l] == Word(0, false))
    && (forall k :: k in s.commits ==> k <= n && s.commits[k] == Commit(s.commits[k].tid, [], map[]))
    && (forall t :: t in s.txs ==> t < n && s.txs[t].writeSet == map[])
  }

  lemma EmptyCommit(labels: seq<Label>, s: State, n: nat) returns (labels': seq<Label>, s': State)
    requires Exec(Zero, labels) == Some(s) && Idle(s, n) && n + 1 < VERSION_LIMIT
    ensures Exec(Zero, labels') == Some(s') && Idle(s', n + 1) && |labels'| == |labels| + 5
  {
    hide Exec, Step, StripeOf;
    var tx := NewTx(s, false);
    labels' := QuietBegin(Zero, labels, s, n, false);
    labels' := QuietEnd(Zero, labels', s, n, tx);
    assert tx.writeSet.Keys == {};
    labels' := QuietDecide(Zero, labels', s, n, tx.(pc := LockLoad({})));
    var s1 := s.(gvc := n + 1, commits := s.commits[n + 1 := Commit(n, [], map[])]);
    labels' := QuietSplice(Zero, labels', s1, n, tx.(wv := n + 1, pc := WriteBack({})));
    s' := Put(s1, n, tx.(wv := n + 1, pc := Committed));
  }

  lemma {:induction false} DriveClock(n: nat) returns (labels: seq<Label>, s: State)
    requires n < VERSION_LIMIT
    ensures Exec(Zero, labels) == Some(s) && Idle(s, n) && |labels| == 5 * n
  {
    if n == 0 {
      labels, s := [], Zero;
      StartExec(Zero);
    } else {
      hide Exec, Step, Idle;
      labels, s := DriveClock(n - 1);
      labels, s := EmptyCommit(labels, s, n - 1);
    }
  }

  // ---- A commit that is hidden ----

  const IDLE: nat := UNLOCK_LIMIT - 3

  /** The victim has read word 0 in version IDLE. */
  function Victim(wv: nat, pc: Pc): Tx {
    Tx(false, IDLE, wv, {0}, map[], {}, {}, pc, [Rd(0, 0, false, true)])
  }

  /** Word 0 is committed anew; then the victim takes its write version and is about to validate. */
  function Overtaken(s: State): State {
    var committed := WordCommitted(Put(s, IDLE, Victim(0, LockLoad({}))), IDLE + 1, 0, 1);
    Put(committed.(gvc := IDLE + 2), IDLE, Victim(IDLE + 2, Validate({0})))
  }

  lemma VictimIsOvertaken() returns (labels: seq<Label>, s: State)
    ensures Idle(s, IDLE) && Exec(Zero, labels) == Some(Overtaken(s)) && |labels| <= 5 * IDLE + 30
  {
    hide Exec;
    labels, s := DriveClock(IDLE);
    assert StripeOf(0) == 0;
    var tx := NewTx(s, false);
    labels := QuietBegin(Zero, labels, s, IDLE, false);
    labels := QuietRead(Zero, labels, s, IDLE, tx, 0);
    var none: set<Addr> := {};
    assert none + {0} == {0} && tx.log + [Rd(0, 0, false, true)] == [Rd(0, 0, false, true)];
    assert AfterRead(s, tx, 0) == Victim(0, Body);
    labels := QuietEnd(Zero, labels, s, IDLE, Victim(0, Body));
    assert Victim(0, Body).writeSet.Keys == {};
    var s1 := Put(s, IDLE, Victim(0, LockLoad({})));
    labels := CommitWord(Zero, labels, s1, IDLE + 1, 0, 1);
    var s2 := WordCommitted(s1, IDLE + 1, 0, 1);
    Focus(s2, IDLE);
    labels := Move(Zero, labels, s2, IDLE, Victim(0, LockLoad({})), Go(false),
                   s2.(gvc := IDLE + 2), Victim(IDLE + 2, Validate({0})));
  }

  const LAST: nat := UNLOCK_LIMIT

  /** Word 0 is committed once more, in version 2^31, and transaction `w` is stuck with the stripe of word 1. */
  function Blocked(s: State): State {
    var m := WordCommitted(Overtaken(s), IDLE + 2, 0, 2);
    Put(WithLock(m, IDLE + 4, 1), IDLE + 4, Blocker(LAST, {1}, LockLoad({})))
  }

  function Blocker(rv: nat, held: set<Stripe>, pc: Pc): Tx {
    Tx(false, rv, 0, {}, map[1 := 3], held, {}, pc, [Wr(1, 3)])
  }

  lemma BlockerLocks() returns (labels: seq<Label>, s: State)
    ensures Idle(s, IDLE) && Exec(Zero, labels) == Some(Blocked(s)) && |labels| <= 5 * IDLE + 45
  {
    hide Exec;
    labels, s := VictimIsOvertaken();
    assert StripeOf(0) == 0 && StripeOf(1) == 1;
    var s1 := Overtaken(s);
    labels := CommitWord(Zero, labels, s1, IDLE + 2, 0, 2);
    var m := WordCommitted(s1, IDLE + 2, 0, 2);
    var t, tx := IDLE + 4, NewTx(m, false);
    labels := QuietBegin(Zero, labels, m, t, false);
    labels := QuietWrite(Zero, labels, m, t, tx, 1, 3);
    assert tx.log + [Wr(1, 3)] == [Wr(1, 3)] && tx.writeSet[1 := 3] == map[1 := 3];
    labels := QuietEnd(Zero, labels, m, t, Blocker(LAST, {}, Body));
    var none: set<Stripe> := {};
    assert Blocker(LAST, {}, Body).writeSet.Keys == {1} && {1} - {1} == {} && none + {1} == {1};
    labels := TakeLock(Zero, labels, m, t, Blocker(LAST, {}, LockLoad({1})), 1);
  }

  /** The aborting transaction writes both words. */
  function Aborter(held: set<Stripe>, pc: Pc): Tx {
    Tx(false, LAST, 0, {}, map[0 := 4, 1 := 4], held, {}, pc, [Wr(0, 4), Wr(1, 4)])
  }

  /** It takes the stripe of word 0, fails on that of word 1, and gives the first one back: version 2^31 has
      become version 0. */
  function Truncated(s: State): State {
    WithVersion(WithLock(Blocked(s), IDLE + 3, 0), 0, 0)
  }

  lemma AborterLocks() returns (labels: seq<Label>, s: State)
    ensures Idle(s, IDLE) && |labels| <= 5 * IDLE + 55
    ensures Exec(Zero, labels) == Some(Put(WithLock(Blocked(s), IDLE + 3, 0), IDLE + 3, Aborter({0}, LockLoad({1}))))
  {
    hide Exec;
    labels, s := BlockerLocks();
    assert StripeOf(0) == 0 && StripeOf(1) == 1;
    var t, b := IDLE + 3, Blocked(s);
    var tx := NewTx(b, false);
    labels := QuietBegin(Zero, labels, b, t, false);
    labels := QuietWrite(Zero, labels, b, t, tx, 0, 4);
    labels := QuietWrite(Zero, labels, b, t, tx.(writeSet := tx.writeSet[0 := 4], log := tx.log + [Wr(0, 4)]), 1, 4);
    assert tx.writeSet[0 := 4][1 := 4] == map[0 := 4, 1 := 4];
    assert tx.log + [Wr(0, 4)] + [Wr(1, 4)] == [Wr(0, 4), Wr(1, 4)];
    labels := QuietEnd(Zero, labels, b, t, Aborter({}, Body));
    var none: set<Stripe> := {};
    assert Aborter({}, Body).writeSet.Keys == {0, 1} && {0, 1} - {0} == {1} && none + {0} == {0};
    labels := TakeLock(Zero, labels, b, t, Aborter({}, LockLoad({0, 1})), 0);
  }

  lemma AborterGivesBack() returns (labels: seq<Label>, s: State)
    ensures Idle(s, IDLE) && |labels| <= 5 * IDLE + 60
    ensures Exec(Zero, labels) == Some(Put(Truncated(s), IDLE + 3, Aborter({0}, UnlockLoad({}))))
  {
    hide Exec;
    labels, s := AborterLocks();
    assert StripeOf(0) == 0 && StripeOf(1) == 1 && {1} - {1} == {} && {0} - {0} == {};
    var t, b := IDLE + 3, WithLock(Blocked(s), IDLE + 3, 0);
    BlockedWords(s);
    labels := QuietRefused(Zero, labels, b, t, Aborter({0}, LockLoad({1})), 1);
    labels := QuietUnlock(Zero, labels, b, t, Aborter({0}, UnlockLoad({0})), 0);
    assert WithUnlocked(b, 0) == Truncated(s);
  }

  lemma BlockedWords(s: State)
    requires Idle(s, IDLE)
    ensures var b := WithLock(Blocked(s), IDLE + 3, 0);
            b.locks[0] == Word(LAST, true) && b.locks[1].locked
  {
  }

  /** The memory of the victim's version is gone. */
  lemma TruncatedFacts(s: State)
    requires Idle(s, IDLE)
    ensures var m := Put(Truncated(s), IDLE + 3, Aborter({0}, UnlockLoad({})));
            && m.locks[0] == Word(0, false) && m.gvc == LAST
            && IDLE in m.txs && m.txs[IDLE] == Victim(IDLE + 2, Validate({0}))
            && m.commits == s.commits[IDLE + 1 := Commit(IDLE + 1, [Wr(0, 1)], map[0 := 1])]
                                     [LAST := Commit(IDLE + 2, [Wr(0, 2)], map[0 := 2])]
  {
  }

  lemma TruncatedWrites(s: State)
    requires Idle(s, IDLE)
    ensures WritesIn(Put(Truncated(s), IDLE + 3, Aborter({0}, UnlockLoad({}))), {0, 1})
  {
  }

  /** The victim validates word 0 against version 0, and commits. */
  lemma VictimCommits() returns (labels: seq<Label>, s: State, end: State)
    ensures Idle(s, IDLE) && Exec(Zero, labels) == Some(end) && |labels| <= 5 * IDLE + 70
    ensures end.gvc == LAST && WritesIn(end, {0, 1})
    ensures end.commits == s.commits[IDLE + 1 := Commit(IDLE + 1, [Wr(0, 1)], map[0 := 1])]
                                    [LAST := Commit(IDLE + 2, [Wr(0, 2)], map[0 := 2])]
                                    [IDLE + 2 := Commit(IDLE, [Rd(0, 0, false, true)], map[])]
  {
    hide Exec, Truncated;
    labels, s := AborterGivesBack();
    TruncatedFacts(s);
    TruncatedWrites(s);
    hide Idle;
    assert StripeOf(0) == 0 && {0} - {0} == {} && Victim(0, Body).writeSet.Keys == {};
    var m := Put(Truncated(s), IDLE + 3, Aborter({0}, UnlockLoad({})));
    Focus(m, IDLE);
    labels := QuietValidate(Zero, labels, m, IDLE, Victim(IDLE + 2, Validate({0})), 0);
    labels := QuietDecision(Zero, labels, m, IDLE, Victim(IDLE + 2, Validate({})));
    end := Put(m.(commits := m.commits[IDLE + 2 := Commit(IDLE, [Rd(0, 0, false, true)], map[])]), IDLE,
               Victim(IDLE + 2, WriteBack({})));
  }

  // ---- Exactly how far ----

  lemma {:induction false} IdleLogs(s: State, c: map<nat, Commit>, v: nat)
    requires Idle(s, IDLE) && v <= IDLE
    requires forall k :: k <= IDLE ==> (k in c <==> k in s.commits) && (k in c ==> c[k] == s.commits[k])
    ensures Serial(LogsUpTo(c, v), map[]) == Some(map[])
  {
    if v > 0 {
      IdleLogs(s, c, v - 1);
      if v in c {
        var logs := LogsUpTo(c, v);
        assert c[v].log == [] && logs[..|logs| - 1] == LogsUpTo(c, v - 1);
      }
    }
  }

  lemma SerialSnoc(c: map<nat, Commit>, v: nat)
    requires v > 0 && v in c
    ensures Serial(LogsUpTo(c, v), map[])
         == match Serial(LogsUpTo(c, v - 1), map[])
            case None => None
            case Some(m) => InPlace(c[v].log, m)
  {
    var logs := LogsUpTo(c, v);
    assert logs[..|logs| - 1] == LogsUpTo(c, v - 1) && logs[|logs| - 1] == c[v].log;
  }

  /** The victim read word 0 before it was committed in the version just below the victim's own. */
  lemma NotSerial(s: State, c: map<nat, Commit>)
    requires Idle(s, IDLE)
    requires c == s.commits[IDLE + 1 := Commit(IDLE + 1, [Wr(0, 1)], map[0 := 1])]
                           [LAST := Commit(IDLE + 2, [Wr(0, 2)], map[0 := 2])]
                           [IDLE + 2 := Commit(IDLE, [Rd(0, 0, false, true)], map[])]
    ensures Serial(LogsUpTo(c, LAST), map[]) == None
  {
    hide Serial, LogsUpTo;
    IdleLogs(s, c, IDLE);
    SerialSnoc(c, IDLE + 1);
    SerialSnoc(c, IDLE + 2);
    SerialSnoc(c, LAST);
    var m: Mem := map[];
    var first: Log, second: Log := [Wr(0, 1)], [Rd(0, 0, false, true)];
    assert first[..0] == [] && second[..0] == [];
    assert InPlace(first, m) == Some(m[0 := 1]);
    assert InPlace(second, m[0 := 1]) == None;
  }

  /** A run with injective write sets whose clock just reaches 2^31, and which is not serializable. */
  lemma TruncationBreaksSerializability() returns (states: seq<State>, labels: seq<Label>)
    ensures IsRun(states, labels)
    ensures forall i :: 0 <= i < |states| ==> Within(states[i], LAST)
    ensures !SerializesTo(states[|labels|], states[|labels|].gvc)
  {
    var s, end;
    labels, s, end := VictimCommits();
    states := ExecIsRun(Zero, labels);
    NotSerial(s, end.commits);
    hide Idle, Exec;
    forall i | 0 <= i < |states|
      ensures Within(states[i], LAST)
    {
      RunClockGrows(states, labels, i, |labels|);
      RunWrites(states, labels, {0, 1}, i);
      SmallWrites(states[i]);
    }
  }

  lemma SmallWrites(s: State)
    requires WritesIn(s, {0, 1})
    ensures InjectiveWrites(s)
  {
  }

  /** The library is serializable, for all stripe-injective write sets, exactly below 2^31. */
  lemma ClockSafeIff(bound: nat)
    ensures ClockSafe(bound) <==> bound < UNLOCK_LIMIT
  {
    if bound < UNLOCK_LIMIT {
      forall states: seq<State>, labels: seq<Label> |
          IsRun(states, labels) && forall i :: 0 <= i < |states| ==> Within(states[i], bound)
        ensures SerializesTo(states[|labels|], states[|labels|].gvc)
      {
        forall i | 0 <= i < |states|
          ensures Tame(states[i])
        {
          assert forall j :: 0 <= j <= i ==> Within(states[j], bound);
          SmallClock(states, labels, i);
        }
        Serializable(states, labels, |labels|);
      }
    } else {
      var states, labels := TruncationBreaksSerializability();
    }
  }
}
