/** Small banks set up by runs of their own workload, and what the bodies do there. */
module BankRuns {
  import opened Options
  import opened Tl2
  import opened Tl2Invariant
  import opened Executions
  import opened Bank
  import opened BankBodies
  import opened BankUpdates
  import opened BankInit
  import opened BodyRuns
  import opened BankSafety

  /** The transfer of one unit from `f`, which holds `x`, to `t`, which holds `y`. */
  function Moved(f: Addr, x: Val, t: Addr, y: Val): Mem {
    map[f := x - 1, t := y + 1]
  }

  // ---- Runs of the workload, one transaction after the other ----

  /** The first segment as tm_create leaves it. */
  ghost predicate Opening(cfg: Config, start: State) {
    Initial(start) && start.heap == {cfg.SegmentAt(cfg.start)}
  }

  /** The most accounts of which one segment keeps its words on distinct stripes. */
  const MAX_SLOTS: nat := 1247

  /** Two segments of one account, or the accounts of one segment. */
  function Window(cfg: Config): set<Addr> {
    var b := cfg.start;
    {b, b + 8, b + 16, b + 24, b + 32, b + 40, b + 48, b + 56}
    + Accounts(b, if cfg.slots < MAX_SLOTS then cfg.slots else MAX_SLOTS)
  }

  function Accounts(b: Addr, n: nat): set<Addr> {
    set i: nat | i < n :: Account(b, i)
  }

  /** After `n` transactions of the workload, one after the other. */
  ghost predicate Reached(cfg: Config, start: State, labels: seq<Label>, s: State, v0: nat, n: nat) {
    && Opening(cfg, start) && Exec(start, labels) == Some(s) && |labels| <= 100000 * n
    && Still(s) && s.gvc == n && Workload(cfg, s, v0) && WritesIn(s, Window(cfg))
    && (forall t :: t in s.txs ==> t < n) && (forall k :: k in s.commits <==> 0 < k <= n)
  }

  lemma OpeningReached(cfg: Config, start: State, v0: nat)
    requires Opening(cfg, start)
    ensures Reached(cfg, start, [], start, v0, 0)
  {
  }

  lemma OneMore(cfg: Config, start: State, labels: seq<Label>, s: State, v0: nat, n: nat, labels': seq<Label>,
                s': State, ws: Mem, log: Log)
    requires Reached(cfg, start, labels, s, v0, n) && |labels'| <= |labels| + 100000
    requires Exec(start, labels') == Some(s') && IsCommit(s, s', n, ws, log) && ws.Keys <= Window(cfg)
    requires if n < v0 then RunsInit(cfg, log) else RunsAlloc(cfg, log) || RunsShort(cfg, log)
    ensures Reached(cfg, start, labels', s', v0, n + 1)
  {
    hide RunsInit, RunsAlloc, RunsShort, Exec, Window;
  }

  lemma PlaysGrant(cfg: Config, s: State, n: nat)
    ensures Smooth(cfg, s, s.gvc, false, Play(AGrant(cfg.start, n), map[]), 2)
    ensures PlayN(cfg, s.mem, Play(AGrant(cfg.start, n), map[]), 2)
         == Play(Done(true, 0), map[Account(cfg.start, n) := cfg.grant, Count(cfg.start) := n + 1])
  {
    var p := [Play(AGrant(cfg.start, n), map[]),
              Play(AGrantCount(cfg.start, n), map[Account(cfg.start, n) := cfg.grant]),
              Play(Done(true, 0), map[Account(cfg.start, n) := cfg.grant, Count(cfg.start) := n + 1])];
    assert Follows(cfg, s, false, p[0], p[1]) && Follows(cfg, s, false, p[1], p[2]);
    Script(cfg, s, false, p);
  }

  /** alloc_tx adds an account to the first segment. */
  lemma PlaysAdd(cfg: Config, s: State, n: nat)
    requires Still(s) && n <= 1 && n < cfg.slots
    requires Get(s.mem, Count(cfg.start)) == n && Get(s.mem, Next(cfg.start)) == 0
    ensures Smooth(cfg, s, s.gvc, false, Play(AllocTx(cfg, 0), map[]), 4)
    ensures PlayN(cfg, s.mem, Play(AllocTx(cfg, 0), map[]), 4)
         == Play(Done(true, 0), map[Account(cfg.start, n) := cfg.grant, Count(cfg.start) := n + 1])
  {
    var m, none: Mem := s.mem, map[];
    assert m + none == m;
    var p := [Play(AllocTx(cfg, 0), none), Play(ANext(cfg.start, 0, n, 0, n), none), Play(AGrant(cfg.start, n), none)];
    assert Follows(cfg, s, false, p[0], p[1]) && Follows(cfg, s, false, p[1], p[2]);
    Script(cfg, s, false, p);
    hide Smooth, PlayN, Still;
    PlaysGrant(cfg, s, n);
    Join(cfg, s, false, p[0], 2, p[2], 2);
  }

  /** init, up to its `i`-th account. */
  lemma {:induction false} PlaysInit(cfg: Config, s: State, i: nat)
    requires Still(s) && i <= cfg.slots
    ensures Smooth(cfg, s, s.gvc, false, Play(InitTx, map[]), i + 1)
    ensures PlayN(cfg, s.mem, Play(InitTx, map[]), i + 1) == Play(IAccount(i), InitMem(cfg, map[], i))
  {
    if i == 0 {
      var p := [Play(InitTx, map[]), Play(IAccount(0), InitMem(cfg, map[], 0))];
      assert Follows(cfg, s, false, p[0], p[1]);
      Script(cfg, s, false, p);
    } else {
      PlaysInit(cfg, s, i - 1);
      var p := [Play(IAccount(i - 1), InitMem(cfg, map[], i - 1)), Play(IAccount(i), InitMem(cfg, map[], i))];
      assert Follows(cfg, s, false, p[0], p[1]);
      Script(cfg, s, false, p);
      hide Smooth, PlayN, Still;
      Join(cfg, s, false, Play(InitTx, map[]), i, p[0], 1);
    }
  }

  lemma PlaysDebit(cfg: Config, s: State, f: Addr, x: Val, t: Addr)
    requires Still(s) && Get(s.mem, f) == x > 0
    ensures Smooth(cfg, s, s.gvc, false, Play(SSend(f, t), map[]), 2)
    ensures PlayN(cfg, s.mem, Play(SSend(f, t), map[]), 2) == Play(SRecv(t), map[f := x - 1])
  {
    assert s.mem + map[] == s.mem;
    var p := [Play(SSend(f, t), map[]), Play(SDebit(f, t, x), map[]), Play(SRecv(t), map[f := x - 1])];
    assert Follows(cfg, s, false, p[0], p[1]) && Follows(cfg, s, false, p[1], p[2]);
    Script(cfg, s, false, p);
  }

  lemma PlaysCredit(cfg: Config, s: State, f: Addr, x: Val, t: Addr, y: Val)
    requires Still(s) && Get(s.mem, t) == y && f != t
    ensures Smooth(cfg, s, s.gvc, false, Play(SRecv(t), map[f := x - 1]), 2)
    ensures PlayN(cfg, s.mem, Play(SRecv(t), map[f := x - 1]), 2) == Play(Done(true, 0), Moved(f, x, t, y))
  {
    var p := [Play(SRecv(t), map[f := x - 1]), Play(SCredit(t, y), map[f := x - 1]),
              Play(Done(true, 0), Moved(f, x, t, y))];
    assert Follows(cfg, s, false, p[0], p[1]) && Follows(cfg, s, false, p[1], p[2]);
    Script(cfg, s, false, p);
  }

  /** The transfer, once both accounts are found. */
  lemma PlaysTransfer(cfg: Config, s: State, f: Addr, x: Val, t: Addr, y: Val)
    requires Still(s) && Get(s.mem, f) == x > 0 && Get(s.mem, t) == y && f != t
    ensures Smooth(cfg, s, s.gvc, false, Play(SSend(f, t), map[]), 4)
    ensures PlayN(cfg, s.mem, Play(SSend(f, t), map[]), 4) == Play(Done(true, 0), Moved(f, x, t, y))
  {
    hide Smooth, PlayN, Still, Moved;
    PlaysDebit(cfg, s, f, x, t);
    PlaysCredit(cfg, s, f, x, t, y);
    Join(cfg, s, false, Play(SSend(f, t), map[]), 2, Play(SRecv(t), map[f := x - 1]), 2);
  }

  // ---- Accounts in one segment ----

  /** The bank has `n` accounts with the initial balance, all in the first segment. */
  ghost predicate OneSegment(cfg: Config, m: Mem, n: nat) {
    && Get(m, Count(cfg.start)) == n && Get(m, Next(cfg.start)) == 0 && Get(m, Parity(cfg.start)) == 0
    && forall i: nat :: i < n ==> Get(m, Account(cfg.start, i)) == cfg.grant
  }

  lemma LongStartsOn(cfg: Config, s: State, n: nat)
    requires Still(s) && OneSegment(cfg, s.mem, n)
    ensures Smooth(cfg, s, s.gvc, true, Play(LongTx(cfg), map[]), 2)
    ensures PlayN(cfg, s.mem, Play(LongTx(cfg), map[]), 2) == Play(LAccount(cfg.start, n, 0, n, 0), map[])
  {
    var m, none: Mem := s.mem, map[];
    assert m + none == m;
    var p := [Play(LongTx(cfg), none), Play(LParity(cfg.start, n, 0, n), none),
              Play(LAccount(cfg.start, n, 0, n, 0), none)];
    assert Follows(cfg, s, true, p[0], p[1]) && Follows(cfg, s, true, p[1], p[2]);
    Script(cfg, s, true, p);
  }

  /** long_tx, up to account `i`. */
  lemma {:induction false} LongOnAccounts(cfg: Config, s: State, n: nat, i: nat)
    requires Still(s) && OneSegment(cfg, s.mem, n) && cfg.grant >= 0 && i <= n
    ensures Smooth(cfg, s, s.gvc, true, Play(LongTx(cfg), map[]), i + 2)
    ensures PlayN(cfg, s.mem, Play(LongTx(cfg), map[]), i + 2)
         == Play(LAccount(cfg.start, n, cfg.grant * i, n, i), map[])
  {
    if i == 0 {
      LongStartsOn(cfg, s, n);
    } else {
      LongOnAccounts(cfg, s, n, i - 1);
      assert s.mem + map[] == s.mem;
      var p := [Play(LAccount(cfg.start, n, cfg.grant * (i - 1), n, i - 1), map[]),
                Play(LAccount(cfg.start, n, cfg.grant * i, n, i), map[])];
      Distribute(cfg.grant, i - 1, 1);
      assert Follows(cfg, s, true, p[0], p[1]);
      Script(cfg, s, true, p);
      hide Smooth, PlayN, Still, OneSegment;
      Join(cfg, s, true, Play(LongTx(cfg), map[]), i + 1, p[0], 1);
    }
  }

  /** short_tx from the first account to the last. */
  lemma ShortOnAccounts(cfg: Config, s: State, n: nat)
    requires Still(s) && OneSegment(cfg, s.mem, n) && cfg.grant > 0 && n >= 2
    ensures Smooth(cfg, s, s.gvc, false, Play(ShortTx(cfg, 0, n - 1), map[]), 5)
    ensures PlayN(cfg, s.mem, Play(ShortTx(cfg, 0, n - 1), map[]), 5)
         == Play(Done(true, 0), Moved(Account(cfg.start, 0), cfg.grant, Account(cfg.start, n - 1), cfg.grant))
  {
    var f, t := Account(cfg.start, 0), Account(cfg.start, n - 1);
    var m, none: Mem := s.mem, map[];
    assert m + none == m;
    var p := [Play(ShortTx(cfg, 0, n - 1), none), Play(SSend(f, t), none)];
    assert Follows(cfg, s, false, p[0], p[1]);
    Script(cfg, s, false, p);
    hide Smooth, PlayN, Still;
    PlaysTransfer(cfg, s, f, cfg.grant, t, cfg.grant);
    Join(cfg, s, false, p[0], 1, p[1], 4);
  }

  // ---- Two segments of one account ----

  function Second(cfg: Config): Addr {
    cfg.start + 32
  }

  predicate TwoSegments(cfg: Config, m: Mem) {
    var b, c := cfg.start, Second(cfg);
    && Get(m, Count(b)) == 1 && Get(m, Next(b)) == c && Get(m, Parity(b)) == 0 && Get(m, Account(b, 0)) == cfg.grant
    && Get(m, Count(c)) == 1 && Get(m, Next(c)) == 0 && Get(m, Parity(c)) == 0 && Get(m, Account(c, 0)) == cfg.grant
  }

  lemma LongOnSegments(cfg: Config, s: State)
    requires Still(s) && TwoSegments(cfg, s.mem) && cfg.grant >= 0
    ensures Smooth(cfg, s, s.gvc, true, Play(LongTx(cfg), map[]), 6)
    ensures PlayN(cfg, s.mem, Play(LongTx(cfg), map[]), 6) == Play(LAccount(Second(cfg), 2, cfg.grant, 1, 0), map[])
  {
    var m, none: Mem := s.mem, map[];
    var b, c, g := cfg.start, Second(cfg), cfg.grant;
    assert m + none == m;
    var p := [Play(LongTx(cfg), none), Play(LParity(b, 1, 0, 1), none), Play(LAccount(b, 1, 0, 1, 0), none),
              Play(LAccount(b, 1, g, 1, 1), none), Play(LCount(c, 1, g), none), Play(LParity(c, 2, g, 1), none),
              Play(LAccount(c, 2, g, 1, 0), none)];
    assert Follows(cfg, s, true, p[0], p[1]) && Follows(cfg, s, true, p[1], p[2]);
    assert Follows(cfg, s, true, p[2], p[3]) && Follows(cfg, s, true, p[3], p[4]);
    assert Follows(cfg, s, true, p[4], p[5]) && Follows(cfg, s, true, p[5], p[6]);
    Script(cfg, s, true, p);
  }

  lemma ShortOnSegments(cfg: Config, s: State)
    requires Still(s) && TwoSegments(cfg, s.mem) && cfg.grant > 0
    ensures Smooth(cfg, s, s.gvc, false, Play(ShortTx(cfg, 0, 1), map[]), 7)
    ensures PlayN(cfg, s.mem, Play(ShortTx(cfg, 0, 1), map[]), 7)
         == Play(Done(true, 0), Moved(Account(cfg.start, 0), cfg.grant, Account(Second(cfg), 0), cfg.grant))
  {
    var b, c, g := cfg.start, Second(cfg), cfg.grant;
    var f, t := Account(b, 0), Account(c, 0);
    var m, none: Mem := s.mem, map[];
    assert m + none == m;
    var p := [Play(ShortTx(cfg, 0, 1), none), Play(SNext(b, 0, 0, f, 0), none), Play(SCount(c, 0, 0, f, 0), none),
              Play(SSend(f, t), none)];
    assert Follows(cfg, s, false, p[0], p[1]) && Follows(cfg, s, false, p[1], p[2]);
    assert Follows(cfg, s, false, p[2], p[3]);
    Script(cfg, s, false, p);
    hide Smooth, PlayN, Still;
    PlaysTransfer(cfg, s, f, g, t, g);
    Join(cfg, s, false, p[0], 3, p[3], 4);
  }

  /** alloc_tx finds the first segment full. */
  lemma PlaysToFull(cfg: Config, s: State)
    requires Still(s) && cfg.slots == 1 && Get(s.mem, Count(cfg.start)) == 1 && Get(s.mem, Next(cfg.start)) == 0
    ensures Smooth(cfg, s, s.gvc, false, Play(AllocTx(cfg, 0), map[]), 2)
    ensures PlayN(cfg, s.mem, Play(AllocTx(cfg, 0), map[]), 2) == Play(ANew(cfg.start), map[])
  {
    var m, none: Mem := s.mem, map[];
    assert m + none == m;
    var p := [Play(AllocTx(cfg, 0), none), Play(ANext(cfg.start, 0, 1, 0, 1), none), Play(ANew(cfg.start), none)];
    assert Follows(cfg, s, false, p[0], p[1]) && Follows(cfg, s, false, p[1], p[2]);
    Script(cfg, s, false, p);
  }

  function Linking(cfg: Config): Mem {
    map[Next(cfg.start) := Second(cfg), Count(Second(cfg)) := 1, Account(Second(cfg), 0) := cfg.grant]
  }

  /** ... and links a new one. */
  lemma PlaysLink(cfg: Config, s: State)
    requires Still(s)
    ensures Smooth(cfg, s, s.gvc, false, Play(ALink(cfg.start, Second(cfg)), map[]), 3)
    ensures PlayN(cfg, s.mem, Play(ALink(cfg.start, Second(cfg)), map[]), 3) == Play(Done(true, 0), Linking(cfg))
  {
    var b, c, g := cfg.start, Second(cfg), cfg.grant;
    var p := [Play(ALink(b, c), map[]), Play(ANewCount(c), map[Next(b) := c]),
              Play(ANewAccount(c), map[Next(b) := c, Count(c) := 1]), Play(Done(true, 0), Linking(cfg))];
    assert Follows(cfg, s, false, p[0], p[1]) && Follows(cfg, s, false, p[1], p[2]);
    assert Follows(cfg, s, false, p[2], p[3]);
    Script(cfg, s, false, p);
  }

  // ---- Setting the bank up ----

  /** The next transaction plays a body to its end. */
  lemma PlaysNext(cfg: Config, start: State, labels: seq<Label>, s: State, v0: nat, n: nat, body: Local, k: nat,
                  st: Local, ws: Mem) returns (labels': seq<Label>, s': State)
    requires Reached(cfg, start, labels, s, v0, n) && n <= 2 && k <= 2000 && |ws.Keys| <= 2000
    requires Smooth(cfg, s, s.gvc, false, Play(body, map[]), k) && Act(cfg, st) == Return
    requires PlayN(cfg, s.mem, Play(body, map[]), k) == Play(st, ws) && ws.Keys <= Window(cfg)
    requires body == if n < v0 then InitTx else AllocTx(cfg, 0)
    ensures Reached(cfg, start, labels', s', v0, n + 1) && s'.heap == s.heap && s'.mem == s.mem + ws
  {
    hide Exec, Smooth, PlayN, Act, Window, After, InitTx, AllocTx, Workload, WritesIn;
    var log;
    labels', s', log := CommitBody(start, labels, s, n, cfg, body, k);
    assert Completes(cfg, body, log);
    hide Still;
    OneMore(cfg, start, labels, s, v0, n, labels', s', ws, log);
  }

  lemma Adds(cfg: Config, start: State, labels: seq<Label>, s: State, n: nat) returns (labels': seq<Label>, s': State)
    requires Reached(cfg, start, labels, s, 0, n) && n <= 1 && n < cfg.slots
    requires Get(s.mem, Count(cfg.start)) == n && Get(s.mem, Next(cfg.start)) == 0
    ensures Reached(cfg, start, labels', s', 0, n + 1) && s'.heap == s.heap
    ensures s'.mem == s.mem + map[Account(cfg.start, n) := cfg.grant, Count(cfg.start) := n + 1]
  {
    hide Exec, Smooth, PlayN;
    PlaysAdd(cfg, s, n);
    hide Reached, Still;
    var ws := map[Account(cfg.start, n) := cfg.grant, Count(cfg.start) := n + 1];
    assert ws.Keys == {Account(cfg.start, n), Count(cfg.start)};
    labels', s' := PlaysNext(cfg, start, labels, s, 0, n, AllocTx(cfg, 0), 4, Done(true, 0), ws);
  }

  lemma TwoAdded(cfg: Config, start: State) returns (labels: seq<Label>, s: State)
    requires Opening(cfg, start) && cfg.slots >= 2
    ensures Reached(cfg, start, labels, s, 0, 2) && OneSegment(cfg, s.mem, 2)
  {
    hide Reached;
    OpeningReached(cfg, start, 0);
    labels, s := Adds(cfg, start, [], start, 0);
    labels, s := Adds(cfg, start, labels, s, 1);
  }

  lemma AccountInWindow(cfg: Config, i: nat)
    requires i < cfg.slots && i < MAX_SLOTS
    ensures cfg.start in Window(cfg) && Account(cfg.start, i) in Window(cfg)
  {
    assert Account(cfg.start, i) in Accounts(cfg.start, if cfg.slots < MAX_SLOTS then cfg.slots else MAX_SLOTS);
  }

  lemma KeysAfter(m: Mem, a: Addr, x: Val)
    ensures m[a := x].Keys == m.Keys + {a} && |m[a := x].Keys| <= |m.Keys| + 1
  {
    assert m[a := x].Keys == m.Keys + {a};
  }

  lemma {:induction false} InitKeys(cfg: Config, i: nat)
    requires i <= cfg.slots <= MAX_SLOTS && cfg.slots > 0
    ensures InitMem(cfg, map[], i).Keys <= Window(cfg) && |InitMem(cfg, map[], i).Keys| <= i + 1
  {
    hide Window;
    AccountInWindow(cfg, if i == 0 then 0 else i - 1);
    if i == 0 {
      KeysAfter(map[], cfg.start, cfg.slots);
    } else {
      InitKeys(cfg, i - 1);
      KeysAfter(InitMem(cfg, map[], i - 1), Account(cfg.start, i - 1), cfg.grant);
    }
  }

  lemma InitFills(cfg: Config, m: Mem)
    requires m == map[]
    ensures m + InitMem(cfg, map[], cfg.slots) == InitMem(cfg, map[], cfg.slots)
    ensures OneSegment(cfg, InitMem(cfg, map[], cfg.slots), cfg.slots)
  {
    var n := InitMem(cfg, map[], cfg.slots);
    assert m + n == n;
    InitHeader(cfg, map[]);
    forall i: nat | i < cfg.slots
      ensures Get(n, Account(cfg.start, i)) == cfg.grant
    {
      InitMemValues(cfg, map[], cfg.slots, Account(cfg.start, i));
    }
  }

  lemma OpeningFacts(cfg: Config, start: State)
    requires Opening(cfg, start)
    ensures Still(start) && start.mem == map[] && start.gvc == 0 && start.heap == {cfg.SegmentAt(cfg.start)}
  {
  }

  lemma Initialised(cfg: Config, start: State) returns (labels: seq<Label>, s: State)
    requires Opening(cfg, start) && 0 < cfg.slots <= MAX_SLOTS
    ensures Reached(cfg, start, labels, s, 1, 1) && OneSegment(cfg, s.mem, cfg.slots) && s.heap == start.heap
    ensures s.mem == InitMem(cfg, map[], cfg.slots)
  {
    hide Exec, Smooth, PlayN, Reached, OneSegment, Opening, Initial, Window, InitMem, Still, StateAt;
    var n := cfg.slots;
    assert Act(cfg, IAccount(n)) == Return;
    hide Act;
    OpeningReached(cfg, start, 1);
    OpeningFacts(cfg, start);
    PlaysInit(cfg, start, n);
    InitKeys(cfg, n);
    InitFills(cfg, start.mem);
    labels, s := PlaysNext(cfg, start, [], start, 1, 0, InitTx, n + 1, IAccount(n), InitMem(cfg, map[], n));
  }

  /** alloc_tx on a full first segment, up to its end. */
  lemma LinkPlayed(cfg: Config, start: State, labels: seq<Label>, s: State, t: Tid)
    returns (labels': seq<Label>, s': State, tx: Tx)
    requires Exec(start, labels) == Some(s) && Still(s) && t !in s.txs
    requires cfg.slots == 1 && s.heap == {cfg.SegmentAt(cfg.start)} && cfg.start > 0
    requires Get(s.mem, Count(cfg.start)) == 1 && Get(s.mem, Next(cfg.start)) == 0
    ensures Exec(start, labels') == Some(Put(s', t, tx)) && |labels'| <= |labels| + 40 && s' == s.(heap := s'.heap)
    ensures Stands(cfg, AllocTx(cfg, 0), tx, Play(Done(true, 0), Linking(cfg))) && |tx.readSet| <= 5
    ensures !tx.ro && tx.held == {} && tx.rv == s.gvc
  {
    hide Exec, Smooth, PlayN, Linking;
    var body, base := AllocTx(cfg, 0), Second(cfg);
    labels' := QuietBegin(start, labels, s, t, false);
    tx := NewTx(s, false);
    PlaysToFull(cfg, s);
    assert Stands(cfg, body, tx, Play(body, map[]));
    labels', tx := PlayAlone(start, labels', s, t, tx, cfg, body, Play(body, map[]), 2);
    assert Fresh(s.heap, cfg.SegmentAt(base));
    assert Act(cfg, ANew(cfg.start)) == DoAlloc(cfg.Size());
    assert Resume(cfg, ANew(cfg.start), base) == ALink(cfg.start, base);
    assert Still(s.(heap := s.heap + {cfg.SegmentAt(base)}));
    hide Still, Stands, Fresh, After, Act, Resume, AllocTx;
    labels', s', tx := AllocAlone(start, labels', s, t, tx, cfg, body, Play(ANew(cfg.start), map[]), base);
    PlaysLink(cfg, s');
    labels', tx := PlayAlone(start, labels', s', t, tx, cfg, body, Play(ALink(cfg.start, base), map[]), 3);
  }

  lemma LinkingFacts(cfg: Config)
    requires cfg.slots == 1
    ensures Linking(cfg).Keys <= Window(cfg) && |Linking(cfg).Keys| <= 10
  {
    assert Linking(cfg).Keys == {Next(cfg.start), Count(Second(cfg)), Account(Second(cfg), 0)};
  }

  lemma LinksSegment(cfg: Config, start: State, labels: seq<Label>, s: State, v0: nat)
    returns (labels': seq<Label>, s': State)
    requires v0 <= 1 && Reached(cfg, start, labels, s, v0, 1) && cfg.slots == 1 && s.heap == {cfg.SegmentAt(cfg.start)}
    requires Get(s.mem, Count(cfg.start)) == 1 && Get(s.mem, Next(cfg.start)) == 0 && cfg.start > 0
    ensures Reached(cfg, start, labels', s', v0, 2) && s'.mem == s.mem + Linking(cfg)
  {
    hide Exec, Linking, Window, After, AllocTx, Workload, WritesIn;
    var s1, tx;
    labels', s1, tx := LinkPlayed(cfg, start, labels, s, 1);
    assert Completes(cfg, AllocTx(cfg, 0), tx.log);
    LinkingFacts(cfg);
    labels', s' := CommitStill(start, labels', s1, 1, tx);
    hide Still, Completes;
    OneMore(cfg, start, labels, s, v0, 1, labels', s', Linking(cfg), tx.log);
  }

  lemma LinkedBoth(cfg: Config, m: Mem)
    requires OneSegment(cfg, m, 1) && forall a :: a in m ==> a in {cfg.start, Account(cfg.start, 0)}
    ensures TwoSegments(cfg, m + Linking(cfg))
  {
    var b := cfg.start;
    assert Get(m, Account(b, 0)) == cfg.grant;
  }

  lemma OneFilled(cfg: Config)
    ensures InitMem(cfg, map[], 1).Keys == {cfg.start, Account(cfg.start, 0)}
  {
    assert InitMem(cfg, map[], 0).Keys == {cfg.start};
  }

  /** One account, by init or by alloc_tx, then alloc_tx again. */
  lemma TwoLinked(cfg: Config, start: State, init: bool) returns (labels: seq<Label>, s: State)
    requires Opening(cfg, start) && cfg.slots == 1 && cfg.start > 0
    ensures Reached(cfg, start, labels, s, if init then 1 else 0, 2) && TwoSegments(cfg, s.mem)
  {
    OpeningFacts(cfg, start);
    hide Reached, Opening, TwoSegments, Linking, InitMem;
    var s1;
    if init {
      labels, s1 := Initialised(cfg, start);
      OneFilled(cfg);
    } else {
      OpeningReached(cfg, start, 0);
      labels, s1 := Adds(cfg, start, [], start, 0);
    }
    LinkedBoth(cfg, s1.mem);
    labels, s := LinksSegment(cfg, start, labels, s1, if init then 1 else 0);
  }
}
