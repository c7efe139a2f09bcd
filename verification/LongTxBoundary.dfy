/** What long_tx does without the assumption that its reads are calm: a transfer that is written back while it
    reads makes it report an inconsistency, unless there is no money at all. */
module LongTxBoundary {
  import opened LockWord
  import opened Options
  import opened Tl2
  import opened Tl2Code
  import opened Tl2Invariant
  import opened Serializability
  import opened Executions
  import opened Bank
  import opened BankBodies
  import opened BodyRuns
  import opened BankRuns
  import opened Overtaking
  import opened BankUpdates
  import opened BankShort
  import opened BankSafety
  import opened ZeroGrant

  // ---- The transfer ----

  /** A transaction that has played short_tx, about to end. */
  ghost predicate HasMoved(cfg: Config, body: Local, s: State, tx: Tx, ws: Mem) {
    && tx.pc == Body && !tx.ro && tx.held == {} && tx.segs == {} && tx.wv == 0 && tx.rv == s.gvc && tx.writeSet == ws
    && After(cfg, body, tx.log) == Some(Done(true, 0))
  }

  lemma PlaysShort(start: State, labels: seq<Label>, s: State, u: Tid, cfg: Config, body: Local, ws: Mem, q: nat)
    returns (labels': seq<Label>, tx: Tx)
    requires Exec(start, labels) == Some(s) && u !in s.txs
    requires Smooth(cfg, s, s.gvc, false, Play(body, map[]), q)
    requires PlayN(cfg, s.mem, Play(body, map[]), q) == Play(Done(true, 0), ws)
    ensures Exec(start, labels') == Some(Put(s, u, tx)) && HasMoved(cfg, body, s, tx, ws)
    ensures |labels'| <= |labels| + 6 * q + 1
  {
    hide Exec, Smooth, PlayN;
    labels' := QuietBegin(start, labels, s, u, false);
    labels', tx := PlayAlone(start, labels', s, u, NewTx(s, false), cfg, body, Play(body, map[]), q);
  }

  // ---- The reader ----

  /** long_tx is about to read the last account, at `t`, of the last segment. */
  ghost predicate AtLast(cfg: Config, s: State, tx: Tx, seg: Addr, t: Addr, count: int, sum: int, n: int, i: nat) {
    && Stands(cfg, LongTx(cfg), tx, Play(LAccount(seg, count, sum, n, i), map[])) && tx.ro && tx.rv == s.gvc
    && tx.wv == 0 && tx.held == {} && tx.segs == {} && i + 1 == n && t == Account(seg, i) && Get(s.mem, Next(seg)) == 0
  }

  lemma PlaysLong(start: State, labels: seq<Label>, s: State, l: Tid, cfg: Config, seg: Addr, t: Addr,
                  count: int, sum: int, n: int, i: nat, p: nat) returns (labels': seq<Label>, tx: Tx)
    requires Exec(start, labels) == Some(s) && l !in s.txs
    requires Smooth(cfg, s, s.gvc, true, Play(LongTx(cfg), map[]), p)
    requires PlayN(cfg, s.mem, Play(LongTx(cfg), map[]), p) == Play(LAccount(seg, count, sum, n, i), map[])
    requires i + 1 == n && t == Account(seg, i) && Get(s.mem, Next(seg)) == 0
    ensures Exec(start, labels') == Some(Put(s, l, tx)) && AtLast(cfg, s, tx, seg, t, count, sum, n, i)
    ensures |labels'| <= |labels| + 6 * p + 1
  {
    hide Exec, Smooth, PlayN;
    labels' := QuietBegin(start, labels, s, l, true);
    labels', tx := PlayAlone(start, labels', s, l, NewTx(s, true), cfg, LongTx(cfg), Play(LongTx(cfg), map[]), p);
  }

  /** After the last account long_tx reads the next pointer, finds the end, and commits its verdict. */
  lemma LongConcludes(start: State, labels: seq<Label>, s: State, l: Tid, tx: Tx, cfg: Config,
                      seg: Addr, count: int, sum: int, n: int) returns (labels': seq<Label>, s': State)
    requires Exec(start, labels) == Some(Put(s, l, tx)) && n >= 0
    requires Stands(cfg, LongTx(cfg), tx, Play(LAccount(seg, count, sum, n, n), map[])) && tx.ro
    requires StillValid(s.locks, {}, tx.rv, Next(seg)) && Get(s.mem, Next(seg)) == 0
    ensures Exec(start, labels') == Some(s') && s'.commits == s.commits && s'.gvc == s.gvc && |labels'| <= |labels| + 8
    ensures l in s'.txs && s'.txs == s.txs[l := s'.txs[l]] && s'.txs[l].pc.Committed? && s'.txs[l].ro
    ensures s'.txs[l].writeSet == map[]
    ensures After(cfg, LongTx(cfg), s'.txs[l].log) == Some(Done(sum == cfg.grant * count, count))
  {
    hide Exec, StripeOf;
    var p := Play(LAccount(seg, count, sum, n, n), map[]);
    assert s.mem + map[] == s.mem;
    assert PlayOne(cfg, s.mem, p) == Play(Done(sum == cfg.grant * count, count), map[]);
    var tx1;
    labels', tx1 := ActOne(start, labels, s, l, tx, cfg, LongTx(cfg), p);
    hide After, Act, Resume;
    labels' := QuietEnd(start, labels', s, l, tx1);
    var ending := tx1.(pc := Deleting(true));
    var s1 := s.(freed := s.freed + multiset(ending.segs));
    labels' := Move(start, labels', s, l, ending, Go(false), s1, ending.(segs := {}, pc := Committed));
    s' := Put(s1, l, ending.(segs := {}, pc := Committed));
  }

  /** Both transactions together, from a still state `s`: afterwards the transfer `u` has been decided, and long_tx,
      `l`, has committed a verdict that counts the new value of `t` and the old values of everything else. */
  ghost predicate Overtaken(cfg: Config, body: Local, s: State, s': State, l: Tid, u: Tid, ws: Mem, log: Log,
                            verdict: bool, count: int) {
    && s'.gvc == s.gvc + 1 && s'.commits == s.commits[s.gvc + 1 := Commit(u, log, ws)]
    && After(cfg, body, log) == Some(Done(true, 0))
    && (forall v :: v in s'.txs <==> v in s.txs || v == l || v == u)
    && (forall v :: v in s.txs && v != l && v != u ==> s'.txs[v] == s.txs[v])
    && l in s'.txs && u in s'.txs && s'.txs[u].writeSet == ws && s'.txs[l].writeSet == map[]
    && s'.txs[l].ro && s'.txs[l].pc.Committed?
    && After(cfg, LongTx(cfg), s'.txs[l].log) == Some(Done(verdict, count))
  }

  lemma UpToCopyBack(start: State, labels: seq<Label>, s: State, l: Tid, u: Tid, cfg: Config, body: Local,
                     seg: Addr, f: Addr, t: Addr, x: Val, y: Val, count: int, sum: int, n: int, i: nat, p: nat, q: nat)
    returns (labels': seq<Label>, s': State, tx: Tx, w: Tx)
    requires Exec(start, labels) == Some(s) && Still(s) && l !in s.txs && u !in s.txs && l != u
    requires s.gvc + 1 < VERSION_LIMIT && StripeOf(f) != StripeOf(t)
    requires Smooth(cfg, s, s.gvc, true, Play(LongTx(cfg), map[]), p)
    requires PlayN(cfg, s.mem, Play(LongTx(cfg), map[]), p) == Play(LAccount(seg, count, sum, n, i), map[])
    requires i + 1 == n && t == Account(seg, i) && Get(s.mem, Next(seg)) == 0
    requires Smooth(cfg, s, s.gvc, false, Play(body, map[]), q)
    requires PlayN(cfg, s.mem, Play(body, map[]), q) == Play(Done(true, 0), Moved(f, x, t, y))
    ensures Exec(start, labels') == Some(s') && |labels'| <= |labels| + 6 * p + 6 * q + 15
    ensures AtLast(cfg, s, tx, seg, t, count, sum, n, i) && HasMoved(cfg, body, s, w, Moved(f, x, t, y))
    ensures var s1 := Put(s, l, tx.(pc := Copy(t, s.locks[StripeOf(t)].version)));
            s' == Put(Copied(s1, u, w, f, t), u, Writing(s1, w, f, t, Release({f}, t)))
  {
    hide Exec, Smooth, PlayN, After, StripeOf;
    labels', tx := PlaysLong(start, labels, s, l, cfg, seg, t, count, sum, n, i, p);
    labels' := QuietFetch(start, labels', s, l, tx, t);
    var s1 := Put(s, l, tx.(pc := Copy(t, s.locks[StripeOf(t)].version)));
    SmoothSame(cfg, s, s1, s.gvc, false, Play(body, map[]), q);
    labels', w := PlaysShort(start, labels', s1, u, cfg, body, Moved(f, x, t, y), q);
    assert HasMoved(cfg, body, s1, w, Moved(f, x, t, y));
    assert w.writeSet.Keys == {f, t};
    labels' := CopiesBack(start, labels', s1, u, w, f, t);
    s' := Put(Copied(s1, u, w, f, t), u, Writing(s1, w, f, t, Release({f}, t)));
  }

  lemma LongIsOvertaken(start: State, labels: seq<Label>, s: State, l: Tid, u: Tid, cfg: Config, body: Local,
                        seg: Addr, f: Addr, t: Addr, x: Val, y: Val, count: int, sum: int, n: int, i: nat, p: nat,
                        q: nat)
    returns (labels': seq<Label>, s': State, log: Log)
    requires Exec(start, labels) == Some(s) && Still(s) && l !in s.txs && u !in s.txs && l != u
    requires s.gvc + 1 < VERSION_LIMIT && StripeOf(f) != StripeOf(t)
    requires StripeOf(Next(seg)) !in {StripeOf(f), StripeOf(t)}
    requires Smooth(cfg, s, s.gvc, true, Play(LongTx(cfg), map[]), p)
    requires PlayN(cfg, s.mem, Play(LongTx(cfg), map[]), p) == Play(LAccount(seg, count, sum, n, i), map[])
    requires i + 1 == n && t == Account(seg, i) && Get(s.mem, Next(seg)) == 0 && y >= 0
    requires Smooth(cfg, s, s.gvc, false, Play(body, map[]), q)
    requires PlayN(cfg, s.mem, Play(body, map[]), q) == Play(Done(true, 0), Moved(f, x, t, y))
    ensures Exec(start, labels') == Some(s') && |labels'| <= |labels| + 6 * p + 6 * q + 30
    ensures Overtaken(cfg, body, s, s', l, u, Moved(f, x, t, y), log, sum + y + 1 == cfg.grant * count, count)
  {
    hide Exec, Smooth, PlayN, After, StripeOf;
    var s1, tx, w;
    labels', s1, tx, w := UpToCopyBack(start, labels, s, l, u, cfg, body, seg, f, t, x, y, count, sum, n, i, p, q);
    log := w.log;
    var copying := Put(s, l, tx.(pc := Copy(t, s.locks[StripeOf(t)].version)));
    CopiedFacts(copying, u, w, f, t, x, y, seg);
    hide Copied;
    var s2;
    labels', s2 := ReadsBetween(start, labels', s1, l, tx, u, Writing(copying, w, f, t, Release({f}, t)), f, t, y + 1);
    var tx2 := Accepted(tx, t, y + 1);
    AcceptsNew(cfg, tx, seg, t, count, sum, n, i, y + 1);
    Focus(s2, l);
    assert StillValid(s2.locks, {}, tx.rv, Next(seg));
    hide Stands, AtLast, Still;
    labels', s' := LongConcludes(start, labels', s2, l, tx2, cfg, seg, count, sum + y + 1, n);
  }

  lemma CopiedFacts(s: State, u: Tid, w: Tx, f: Addr, t: Addr, x: Val, y: Val, seg: Addr)
    requires Still(s) && StripeOf(f) != StripeOf(t) && StripeOf(Next(seg)) !in {StripeOf(f), StripeOf(t)}
    requires w.writeSet == Moved(f, x, t, y)
    ensures var s1 := Copied(s, u, w, f, t);
            && s1.gvc == s.gvc + 1 && s1.txs == s.txs && Get(s1.mem, t) == y + 1
            && Get(s1.mem, Next(seg)) == Get(s.mem, Next(seg))
            && s1.locks[StripeOf(t)].version == s.locks[StripeOf(t)].version
            && s1.locks[StripeOf(Next(seg))] == s.locks[StripeOf(Next(seg))]
            && s1.commits == s.commits[s.gvc + 1 := Commit(u, w.log, w.writeSet)]
  {
  }

  lemma AcceptsNew(cfg: Config, tx: Tx, seg: Addr, t: Addr, count: int, sum: int, n: int, i: nat, x: Val)
    requires Stands(cfg, LongTx(cfg), tx, Play(LAccount(seg, count, sum, n, i), map[])) && tx.ro
    requires i + 1 == n && t == Account(seg, i) && x >= 0
    ensures Stands(cfg, LongTx(cfg), Accepted(tx, t, x), Play(LAccount(seg, count, sum + x, n, n), map[]))
  {
    AfterOne(cfg, LongTx(cfg), tx.log, LAccount(seg, count, sum, n, i), Rd(t, x, false, false));
  }

  // ---- The verdict ----

  /** A tame run of the workload at whose end the read-only transaction `t` has committed a long_tx that reports a
      violation. */
  ghost predicate Violates(cfg: Config, states: seq<State>, labels: seq<Label>, v0: nat, t: Tid) {
    && IsTameRun(states, labels) && cfg.SegmentAt(cfg.start) in states[0].heap
    && var s := states[|labels|];
       && Workload(cfg, s, v0) && (v0 == 0 || v0 in s.commits) && t in s.txs && s.txs[t].ro && s.txs[t].pc.Committed?
       && Completes(cfg, LongTx(cfg), s.txs[t].log) && Returned(After(cfg, LongTx(cfg), s.txs[t].log).value, false)
  }

  lemma OvertakenViolates(cfg: Config, start: State, labels: seq<Label>, s: State, v0: nat, n: nat,
                          labels': seq<Label>, s': State, body: Local, ws: Mem, log: Log, count: int)
    returns (states: seq<State>)
    requires Reached(cfg, start, labels, s, v0, n) && v0 <= n && n <= 2 && |labels'| <= |labels| + 100000
    requires Exec(start, labels') == Some(s') && ws.Keys <= Window(cfg) && RunsShort(cfg, log)
    requires Overtaken(cfg, body, s, s', n, n + 1, ws, log, false, count)
    ensures Violates(cfg, states, labels', v0, n) && |states| == |labels'| + 1
  {
    hide Exec, After, Step, RunsInit, RunsAlloc, RunsShort, LongTx;
    states := ExecIsRun(start, labels');
    assert WritesIn(s', Window(cfg));
    WindowIsInjective(Window(cfg), cfg.start);
    EndsTame(states, labels', Window(cfg));
    assert Workload(cfg, s', v0);
  }

  /** long_tx against the transfer from the first account of the bank, `f`, to the last, `t`: all the others are
      counted before the transfer, the last one after it. */
  lemma Meet(cfg: Config, start: State, labels: seq<Label>, s: State, v0: nat, k: nat, seg: Addr, t: Addr,
             recv: nat, count: int, sum: int, n: int, i: nat, p: nat, q: nat)
    returns (states: seq<State>, labels': seq<Label>)
    requires Reached(cfg, start, labels, s, v0, k) && v0 <= k <= 2 && cfg.grant > 0
    requires i + 1 == n && t == Account(seg, i) && Get(s.mem, Next(seg)) == 0 && p <= 2000 && q <= 10
    requires (seg == cfg.start && 0 < i < MAX_SLOTS && i < cfg.slots) || (seg == Second(cfg) && i == 0)
    requires sum + cfg.grant == cfg.grant * count
    requires Smooth(cfg, s, s.gvc, true, Play(LongTx(cfg), map[]), p)
    requires PlayN(cfg, s.mem, Play(LongTx(cfg), map[]), p) == Play(LAccount(seg, count, sum, n, i), map[])
    requires Smooth(cfg, s, s.gvc, false, Play(ShortTx(cfg, 0, recv), map[]), q)
    requires PlayN(cfg, s.mem, Play(ShortTx(cfg, 0, recv), map[]), q)
          == Play(Done(true, 0), Moved(Account(cfg.start, 0), cfg.grant, t, cfg.grant))
    ensures Violates(cfg, states, labels', v0, k)
  {
    hide Exec, Smooth, PlayN, Still, Workload, Opening, After, ShortTx, LongTx, Overtaken, Violates, Window;
    var f, g, body := Account(cfg.start, 0), cfg.grant, ShortTx(cfg, 0, recv);
    MeetingWords(cfg, seg, t, i);
    var s', log;
    labels', s', log := LongIsOvertaken(start, labels, s, k, k + 1, cfg, body, seg, f, t, g, g, count, sum, n, i, p, q);
    assert RunsShort(cfg, log) by {
      OvertakenRunsShort(cfg, recv, s, s', k, k + 1, Moved(f, g, t, g), log, sum + g + 1 == g * count, count);
    }
    hide RunsShort;
    assert (sum + g + 1 == g * count) == false;
    states := OvertakenViolates(cfg, start, labels, s, v0, k, labels', s', body, Moved(f, g, t, g), log, count);
  }

  lemma OvertakenRunsShort(cfg: Config, recv: nat, s: State, s': State, l: Tid, u: Tid, ws: Mem, log: Log,
                           verdict: bool, count: int)
    requires Overtaken(cfg, ShortTx(cfg, 0, recv), s, s', l, u, ws, log, verdict, count)
    ensures RunsShort(cfg, log)
  {
    assert Completes(cfg, ShortTx(cfg, 0, recv), log);
  }

  lemma MeetingWords(cfg: Config, seg: Addr, t: Addr, i: nat)
    requires t == Account(seg, i)
    requires (seg == cfg.start && 0 < i < MAX_SLOTS && i < cfg.slots) || (seg == Second(cfg) && i == 0)
    ensures StripeOf(Account(cfg.start, 0)) != StripeOf(t)
    ensures StripeOf(Next(seg)) !in {StripeOf(Account(cfg.start, 0)), StripeOf(t)}
    ensures forall x: Val, y: Val :: Moved(Account(cfg.start, 0), x, t, y).Keys <= Window(cfg)
  {
    var f, d := Account(cfg.start, 0), if i == 0 then 32 else 8 * i;
    assert t == f + d && f in Window(cfg) && t in Window(cfg) by {
      assert i > 0 ==> t in Accounts(cfg.start, if cfg.slots < MAX_SLOTS then cfg.slots else MAX_SLOTS);
    }
    assert if i == 0 then Next(seg) == f + 16 && t == Next(seg) + 16
           else f == Next(seg) + 16 && t == Next(seg) + 16 + d;
    OtherStripe(f, d);
    OtherStripe(Next(seg), 16);
    OtherStripe(Next(seg), 16 + d);
    OtherStripe(f, 16);
  }

  lemma OtherStripe(a: Addr, d: nat)
    requires 0 < d < NUM_LOCKS
    ensures StripeOf(a) != StripeOf(a + d)
  {
  }

  lemma ZeroOpens(cfg: Config, start: State)
    requires start == Zero.(heap := {cfg.SegmentAt(cfg.start)})
    ensures Opening(cfg, start)
  {
  }

  lemma OnAccounts(cfg: Config, start: State, labels: seq<Label>, s: State, v0: nat, k: nat, n: nat)
    returns (states: seq<State>, labels': seq<Label>)
    requires Reached(cfg, start, labels, s, v0, k) && v0 <= k <= 2 && cfg.grant > 0 && OneSegment(cfg, s.mem, n)
    requires 2 <= n <= cfg.slots && n <= MAX_SLOTS
    ensures Violates(cfg, states, labels', v0, k)
  {
    hide Exec, Smooth, PlayN, Opening, Violates;
    LongOnAccounts(cfg, s, n, n - 1);
    ShortOnAccounts(cfg, s, n);
    Distribute(cfg.grant, n - 1, 1);
    hide Still, OneSegment, Workload;
    states, labels' := Meet(cfg, start, labels, s, v0, k, cfg.start, Account(cfg.start, n - 1), n - 1, n,
                            cfg.grant * (n - 1), n, n - 1, n + 1, 5);
  }

  lemma OnSegments(cfg: Config, start: State, init: bool) returns (states: seq<State>, labels: seq<Label>)
    requires Opening(cfg, start) && cfg.slots == 1 && cfg.start > 0 && cfg.grant > 0
    ensures Violates(cfg, states, labels, if init then 1 else 0, 2)
  {
    hide Exec, Smooth, PlayN, Opening, Violates;
    var s;
    labels, s := TwoLinked(cfg, start, init);
    LongOnSegments(cfg, s);
    ShortOnSegments(cfg, s);
    states, labels := Meet(cfg, start, labels, s, if init then 1 else 0, 2, Second(cfg), Account(Second(cfg), 0), 1, 2,
                           cfg.grant, 1, 0, 6, 7);
  }

  /** For every bank with money there is a tame run of its workload in which long_tx reports a violation. */
  lemma LongTxReportsViolation(cfg: Config) returns (states: seq<State>, labels: seq<Label>, t: Tid)
    requires cfg.Valid() && cfg.grant > 0
    ensures Violates(cfg, states, labels, 0, t)
  {
    hide Exec, Smooth, PlayN, Opening, Violates;
    var start := Zero.(heap := {cfg.SegmentAt(cfg.start)});
    ZeroOpens(cfg, start);
    var s;
    if cfg.slots >= 2 {
      labels, s := TwoAdded(cfg, start);
      states, labels := OnAccounts(cfg, start, labels, s, 0, 2, 2);
    } else {
      states, labels := OnSegments(cfg, start, false);
    }
    t := 2;
  }

  /** As the benchmark begins: init fills the first segment, then short_tx meets long_tx. Above 1247 slots init writes
      two words of one stripe. */
  lemma InitThenViolation(cfg: Config) returns (states: seq<State>, labels: seq<Label>, t: Tid)
    requires cfg.Valid() && cfg.grant > 0 && cfg.slots <= MAX_SLOTS
    ensures Violates(cfg, states, labels, 1, t)
  {
    hide Exec, Smooth, PlayN, Opening, Violates;
    var start := Zero.(heap := {cfg.SegmentAt(cfg.start)});
    ZeroOpens(cfg, start);
    if cfg.slots >= 2 {
      var s;
      labels, s := Initialised(cfg, start);
      states, labels := OnAccounts(cfg, start, labels, s, 1, 1, cfg.slots);
      t := 1;
    } else {
      states, labels := OnSegments(cfg, start, true);
      t := 2;
    }
  }

  // ---- Exactly when long_tx is right ----

  /** At state `i` of a tame run of the workload, `t` has completed long_tx. */
  ghost predicate Completed(cfg: Config, states: seq<State>, labels: seq<Label>, i: nat, v0: nat, t: Tid) {
    && IsTameRun(states, labels) && i < |states| && cfg.SegmentAt(cfg.start) in states[0].heap
    && Workload(cfg, states[i], v0) && t in states[i].txs && Completes(cfg, LongTx(cfg), states[i].txs[t].log)
  }

  ghost predicate FoundNoViolation(cfg: Config, s: State, t: Tid) {
    && t in s.txs && After(cfg, LongTx(cfg), s.txs[t].log).Some?
    && Returned(After(cfg, LongTx(cfg), s.txs[t].log).value, true)
  }

  predicate ReadOnlyCommitted(s: State, t: Tid) {
    t in s.txs && s.txs[t].ro && s.txs[t].pc.Committed?
  }

  /** In every tame run of the workload every completed long_tx has found no violation, whatever its reads were. */
  ghost predicate LongTxSafe(cfg: Config) {
    forall states: seq<State>, labels: seq<Label>, i: nat, v0: nat, t: Tid ::
      Completed(cfg, states, labels, i, v0, t) ==> FoundNoViolation(cfg, states[i], t)
  }

  /** The same of committed read-only transactions alone, as the benchmark runs long_tx. */
  ghost predicate CommittedLongTxSafe(cfg: Config) {
    forall states: seq<State>, labels: seq<Label>, i: nat, v0: nat, t: Tid ::
      Completed(cfg, states, labels, i, v0, t) && ReadOnlyCommitted(states[i], t) ==>
        FoundNoViolation(cfg, states[i], t)
  }

  /** ... in banks that init has filled, as the benchmark arranges. */
  ghost predicate InitialisedLongTxSafe(cfg: Config) {
    forall states: seq<State>, labels: seq<Label>, i: nat, v0: nat, t: Tid ::
      Completed(cfg, states, labels, i, v0, t) && ReadOnlyCommitted(states[i], t) && v0 in states[i].commits ==>
        FoundNoViolation(cfg, states[i], t)
  }

  /** The workload never reports a violation exactly when its accounts are granted nothing; the last line is for first
      segments that init can fill in a tame run. */
  lemma LongTxSafeIff(cfg: Config)
    requires cfg.Valid()
    ensures LongTxSafe(cfg) <==> cfg.grant == 0
    ensures CommittedLongTxSafe(cfg) <==> cfg.grant == 0
    ensures cfg.slots <= MAX_SLOTS ==> (InitialisedLongTxSafe(cfg) <==> cfg.grant == 0)
  {
    if cfg.grant == 0 {
      forall states: seq<State>, labels: seq<Label>, i: nat, v0: nat, t: Tid | Completed(cfg, states, labels, i, v0, t)
        ensures FoundNoViolation(cfg, states[i], t)
      {
        LongTxWithoutMoney(cfg, states, labels, i, v0, t);
      }
    } else {
      var states, labels, t := LongTxReportsViolation(cfg);
      Refutes(cfg, states, labels, 0, t);
      if cfg.slots <= MAX_SLOTS {
        states, labels, t := InitThenViolation(cfg);
        Refutes(cfg, states, labels, 1, t);
      }
    }
  }

  lemma Refutes(cfg: Config, states: seq<State>, labels: seq<Label>, v0: nat, t: Tid)
    requires Violates(cfg, states, labels, v0, t)
    ensures |labels| < |states| && Completed(cfg, states, labels, |labels|, v0, t)
    ensures ReadOnlyCommitted(states[|labels|], t) && !FoundNoViolation(cfg, states[|labels|], t)
    ensures v0 == 0 || v0 in states[|labels|].commits
  {
    hide Workload, After, LongTx, Tame, Step;
  }
}
