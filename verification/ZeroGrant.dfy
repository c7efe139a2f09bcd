/** A bank without money: when accounts are granted nothing, long_tx is right whatever its reads are mixed from. */
module ZeroGrant {
  import opened Options
  import opened Tl2
  import opened Tl2Invariant
  import opened Serializability
  import opened SingleReads
  import opened Snapshots
  import opened Bank
  import opened BankBodies
  import opened BankUpdates
  import opened BankShort
  import opened BankAlloc
  import opened BankInit
  import opened BankSafety

  /** What `a` may hold if it belongs to the segment at `b`: a count in range, a segment, or nothing. */
  ghost predicate TidyWord(cfg: Config, segs: set<Segment>, b: Addr, a: Addr, x: Val) {
    && (a == Count(b) ==> 0 <= x <= cfg.slots)
    && (a == Next(b) && x != 0 ==> x > 0 && cfg.SegmentAt(x) in segs)
    && (a == Parity(b) ==> x == 0)
    && (forall i: nat :: i < cfg.slots && a == Account(b, i) ==> x == 0)
  }

  ghost predicate Tidy(cfg: Config, m: Mem, segs: set<Segment>) {
    && (forall g, h :: g in segs && h in segs && g != h ==> Apart(g, h))
    && (forall b: Addr, a: Addr :: cfg.SegmentAt(b) in segs ==> TidyWord(cfg, segs, b, a, Get(m, a)))
  }

  lemma ZeroTidy(cfg: Config, g: Segment)
    ensures Tidy(cfg, map[], {g})
  {
  }

  /** Writing a word of one segment leaves the others alone. */
  lemma WriteTidy(cfg: Config, m: Mem, segs: set<Segment>, b: Addr, a: Addr, x: Val)
    requires Tidy(cfg, m, segs) && cfg.SegmentAt(b) in segs && Within(a, cfg.SegmentAt(b))
    requires TidyWord(cfg, segs, b, a, x)
    ensures Tidy(cfg, m[a := x], segs)
  {
    var n := m[a := x];
    forall c: Addr, d: Addr | cfg.SegmentAt(c) in segs
      ensures TidyWord(cfg, segs, c, d, Get(n, d))
    {
      assert TidyWord(cfg, segs, c, d, Get(m, d));
      if d == a && c != b {
        assert Apart(cfg.SegmentAt(b), cfg.SegmentAt(c));
      }
    }
  }

  lemma WriteNext(cfg: Config, m: Mem, segs: set<Segment>, b: Addr, x: Val)
    requires Tidy(cfg, m, segs) && cfg.SegmentAt(b) in segs && (x == 0 || (x > 0 && cfg.SegmentAt(x) in segs))
    ensures Tidy(cfg, m[Next(b) := x], segs)
  {
    hide Tidy;
    WriteTidy(cfg, m, segs, b, Next(b), x);
  }

  lemma WriteCount(cfg: Config, m: Mem, segs: set<Segment>, b: Addr, x: Val)
    requires Tidy(cfg, m, segs) && cfg.SegmentAt(b) in segs && 0 <= x <= cfg.slots
    ensures Tidy(cfg, m[Count(b) := x], segs)
  {
    hide Tidy;
    WriteTidy(cfg, m, segs, b, Count(b), x);
  }

  lemma WriteZero(cfg: Config, m: Mem, segs: set<Segment>, b: Addr, a: Addr)
    requires Tidy(cfg, m, segs) && cfg.SegmentAt(b) in segs
    requires a == Parity(b) || exists i: nat :: i < cfg.slots && a == Account(b, i)
    ensures Tidy(cfg, m[a := 0], segs)
  {
    hide Tidy;
    WriteTidy(cfg, m, segs, b, a, 0);
  }

  lemma TidyAt(cfg: Config, m: Mem, segs: set<Segment>, b: Addr)
    requires Tidy(cfg, m, segs) && cfg.SegmentAt(b) in segs
    ensures Get(m, Parity(b)) == 0 && forall i: nat :: i < cfg.slots ==> Get(m, Account(b, i)) == 0
  {
    assert TidyWord(cfg, segs, b, Parity(b), Get(m, Parity(b)));
    forall i: nat | i < cfg.slots
      ensures Get(m, Account(b, i)) == 0
    {
      assert TidyWord(cfg, segs, b, Account(b, i), Get(m, Account(b, i)));
    }
  }

  /** A new segment is tidy: nobody ever wrote to it. */
  lemma NewTidy(cfg: Config, m: Mem, segs: set<Segment>, base: Addr)
    requires Tidy(cfg, m, segs) && Confined(m, segs) && Fresh(segs, cfg.SegmentAt(base))
    ensures Tidy(cfg, m, segs + {cfg.SegmentAt(base)})
  {
    var g := cfg.SegmentAt(base);
    forall b: Addr, a: Addr | cfg.SegmentAt(b) in segs + {g}
      ensures TidyWord(cfg, segs + {g}, b, a, Get(m, a))
    {
      if cfg.SegmentAt(b) in segs {
        assert TidyWord(cfg, segs, b, a, Get(m, a));
      } else {
        UnwrittenTidy(cfg, m, segs, base, a);
      }
    }
  }

  lemma UnwrittenTidy(cfg: Config, m: Mem, segs: set<Segment>, b: Addr, a: Addr)
    requires Confined(m, segs) && Fresh(segs, cfg.SegmentAt(b))
    ensures forall segs' :: TidyWord(cfg, segs', b, a, Get(m, a))
  {
    if Within(a, cfg.SegmentAt(b)) {
      FreshIsZero(m, segs, cfg.SegmentAt(b), a);
    }
  }

  // ---- Every committed transaction keeps it ----

  lemma {:induction false} InitTidy(cfg: Config, m: Mem, segs: set<Segment>, i: nat)
    requires cfg.Valid() && cfg.grant == 0 && Tidy(cfg, m, segs) && cfg.SegmentAt(cfg.start) in segs && i <= cfg.slots
    ensures Tidy(cfg, InitMem(cfg, m, i), segs)
  {
    hide Tidy;
    if i == 0 {
      WriteCount(cfg, m, segs, cfg.start, cfg.slots);
    } else {
      InitTidy(cfg, m, segs, i - 1);
      WriteZero(cfg, InitMem(cfg, m, i - 1), segs, cfg.start, Account(cfg.start, i - 1));
    }
  }

  lemma RemoveTidy(cfg: Config, m: Mem, segs: set<Segment>, list: seq<Addr>)
    requires cfg.grant == 0 && Tidy(cfg, m, segs) && BankList(cfg, m, segs, list)
    ensures Get(m, Count(Last(list))) > 1 ==> Tidy(cfg, RemoveAccount(cfg, m, Last(list)), segs)
    ensures |list| > 1 ==> Tidy(cfg, RemoveSegment(cfg, m, list[|list| - 2], Last(list)), segs)
  {
    var last, c := Last(list), Get(m, Count(Last(list)));
    LastIsNatural(cfg, m, list);
    assert cfg.SegmentAt(last) in segs;
    TidyAt(cfg, m, segs, last);
    assert |list| > 1 ==> cfg.SegmentAt(list[|list| - 2]) in segs;
    assert |list| > 1 ==> Get(m, Count(last)) > 0;
    hide Tidy, BankList;
    if c > 1 {
      WriteCount(cfg, m, segs, last, c - 1);
      WriteZero(cfg, m[Count(last) := c - 1], segs, last, Parity(last));
    }
    if |list| > 1 {
      var prev := list[|list| - 2];
      var m1 := m[Next(prev) := 0];
      WriteNext(cfg, m, segs, prev, 0);
      TidyAt(cfg, m1, segs, prev);
      WriteZero(cfg, m1, segs, prev, Parity(prev));
    }
  }

  lemma AddTidy(cfg: Config, m: Mem, segs: set<Segment>, list: seq<Addr>, base: Addr)
    requires cfg.Valid() && cfg.grant == 0 && Tidy(cfg, m, segs) && BankList(cfg, m, segs, list)
    ensures 0 <= Get(m, Count(Last(list))) < cfg.slots ==> Tidy(cfg, AddAccount(cfg, m, Last(list)), segs)
    ensures Fresh(segs, cfg.SegmentAt(base)) ==>
              Tidy(cfg, AddSegment(cfg, m, Last(list), base), segs + {cfg.SegmentAt(base)})
  {
    var last, c := Last(list), Get(m, Count(Last(list)));
    assert cfg.SegmentAt(last) in segs && Confined(m, segs);
    assert Fresh(segs, cfg.SegmentAt(base)) ==> base > 0;
    hide Tidy, BankList, Confined, Fresh;
    if 0 <= c < cfg.slots {
      WriteZero(cfg, m, segs, last, Account(last, c));
      WriteCount(cfg, m[Account(last, c) := 0], segs, last, c + 1);
    }
    if Fresh(segs, cfg.SegmentAt(base)) {
      var segs' := segs + {cfg.SegmentAt(base)};
      NewTidy(cfg, m, segs, base);
      WriteNext(cfg, m, segs', last, base);
      WriteCount(cfg, m[Next(last) := base], segs', base, 1);
      WriteZero(cfg, m[Next(last) := base][Count(base) := 1], segs', base, Account(base, 0));
    }
  }

  lemma OutcomeTidy(cfg: Config, m: Mem, segs: set<Segment>, list: seq<Addr>, trigger: int, n: Mem, news: set<Segment>)
    requires cfg.Valid() && cfg.grant == 0 && Tidy(cfg, m, segs) && BankList(cfg, m, segs, list)
    requires AllocDone(cfg, segs, m, list, trigger, n, news)
    ensures Tidy(cfg, n, segs + news)
  {
    assert |list| > 0;
    hide BankList, Tidy, Fresh, RemoveAccount, AddAccount, RemoveSegment, AddSegment, Removes;
    assert segs + {} == segs;
    RemoveTidy(cfg, m, segs, list);
    AddTidy(cfg, m, segs, list, 0);
    if base :| NewAt(cfg, segs, base, news) && n == AddSegment(cfg, m, Last(list), base) {
      AddTidy(cfg, m, segs, list, base);
    }
  }

  lemma AllocTidy(cfg: Config, log: Log, m: Mem, segs: set<Segment>, n: Mem)
    requires cfg.Valid() && cfg.grant == 0 && Tidy(cfg, m, segs) && BankOk(cfg, m, segs)
    requires RunsAlloc(cfg, log) && InPlace(log, m) == Some(n) && AllocatesFresh(segs, log)
    ensures Tidy(cfg, n, segs + AllocsOf(log))
  {
    hide Tidy, InPlace, AllocatesFresh, AllocsOf, AllocDone;
    var list :| BankList(cfg, m, segs, list);
    var trigger: int :| Completes(cfg, AllocTx(cfg, trigger), log);
    var st := After(cfg, AllocTx(cfg, trigger), log).value;
    AllocRun(cfg, m, segs, list, trigger, log, n, st);
    assert AllocDone(cfg, segs, m, list, trigger, n, AllocsOf(log));
    OutcomeTidy(cfg, m, segs, list, trigger, n, AllocsOf(log));
  }

  /** Nobody has anything to transfer. */
  lemma ShortTidy(cfg: Config, log: Log, m: Mem, segs: set<Segment>, n: Mem)
    requires Tidy(cfg, m, segs) && BankOk(cfg, m, segs) && RunsShort(cfg, log) && InPlace(log, m) == Some(n)
    ensures Tidy(cfg, n, segs + AllocsOf(log))
  {
    var list :| BankList(cfg, m, segs, list);
    var send: nat, recv: nat :| Completes(cfg, ShortTx(cfg, send, recv), log);
    ShortOutcome(cfg, m, segs, list, send, recv, log, n);
    NoAllocs(log);
    assert segs + {} == segs;
    if send < |Flat(m, list)| {
      var j, i := FlatAt(m, list, send);
      assert i < cfg.slots && cfg.SegmentAt(list[j]) in segs;
      TidyAt(cfg, m, segs, list[j]);
    }
  }

  ghost predicate TidyBank(cfg: Config, v0: nat, v: nat, m: Mem, segs: set<Segment>) {
    BankAt(cfg, v0, v, m, segs) && Tidy(cfg, m, segs)
  }

  /** The next version is as tidy as this one. */
  lemma NextTidy(cfg: Config, s: State, v0: nat, k: nat, m: Mem, segs: set<Segment>, n: Mem)
    requires cfg.Valid() && cfg.grant == 0 && Workload(cfg, s, v0) && TidyBank(cfg, v0, k, m, segs)
    requires k + 1 in s.commits && InPlace(s.commits[k + 1].log, m) == Some(n)
    requires AllocatesFresh(segs, s.commits[k + 1].log)
    ensures TidyBank(cfg, v0, k + 1, n, segs + AllocsOf(s.commits[k + 1].log))
  {
    var log := s.commits[k + 1].log;
    NextBank(cfg, s, v0, k, m, segs, n);
    hide Tidy, BankList, AllocatesFresh, RunsInit, RunsAlloc, RunsShort, InPlace, AllocsOf;
    if k + 1 <= v0 {
      InitCommitTidy(cfg, log, m, segs, n);
    } else if RunsAlloc(cfg, log) {
      AllocTidy(cfg, log, m, segs, n);
    } else {
      ShortTidy(cfg, log, m, segs, n);
    }
  }

  lemma CommitTidy(cfg: Config, s: State, v0: nat, k: nat)
    requires cfg.Valid() && cfg.grant == 0 && Workload(cfg, s, v0)
    ensures CommitKeeps(s.commits, (v: nat, m: Mem, segs: set<Segment>) => TidyBank(cfg, v0, v, m, segs), k)
  {
    hide Workload, TidyBank, InPlace, AllocatesFresh, AllocsOf;
    forall m, segs, n | TidyBank(cfg, v0, k, m, segs) && k + 1 in s.commits
                        && InPlace(s.commits[k + 1].log, m) == Some(n) && AllocatesFresh(segs, s.commits[k + 1].log)
      ensures TidyBank(cfg, v0, k + 1, n, segs + AllocsOf(s.commits[k + 1].log))
    {
      NextTidy(cfg, s, v0, k, m, segs, n);
    }
    forall m, segs | TidyBank(cfg, v0, k, m, segs) && k + 1 !in s.commits
      ensures TidyBank(cfg, v0, k + 1, m, segs)
    {
      SameTidy(cfg, v0, k, m, segs);
    }
  }

  lemma SameTidy(cfg: Config, v0: nat, k: nat, m: Mem, segs: set<Segment>)
    requires TidyBank(cfg, v0, k, m, segs)
    ensures TidyBank(cfg, v0, k + 1, m, segs)
  {
    hide Tidy, BankList;
  }

  lemma InitCommitTidy(cfg: Config, log: Log, m: Mem, segs: set<Segment>, n: Mem)
    requires cfg.Valid() && cfg.grant == 0 && Tidy(cfg, m, segs) && FirstOnly(cfg, m, segs)
    requires RunsInit(cfg, log) && InPlace(log, m) == Some(n)
    ensures Tidy(cfg, n, segs + AllocsOf(log))
  {
    assert cfg.SegmentAt([cfg.start][0]) in segs;
    hide Tidy, BankList;
    InitRun(cfg, m, log, n, After(cfg, InitTx, log).value);
    InitTidy(cfg, m, segs, cfg.slots);
    NoAllocs(log);
    assert segs + {} == segs;
  }

  // ---- Words read at different versions fit together ----

  lemma {:induction false} SegsGrow(start: set<Segment>, commits: map<nat, Commit>, v: nat, w: nat)
    requires v <= w
    ensures SegsAt(start, commits, v) <= SegsAt(start, commits, w)
  {
    if v < w {
      SegsGrow(start, commits, v, w - 1);
    }
  }

  lemma MoreSegments(cfg: Config, segs: set<Segment>, segs': set<Segment>, b: Addr, a: Addr, x: Val)
    requires segs <= segs' && TidyWord(cfg, segs, b, a, x)
    ensures TidyWord(cfg, segs', b, a, x)
  {
  }

  /** The segments known at version `w`, as they were at an earlier version: tidy, or not yet allocated. */
  lemma {:induction false} EarlierTidy(cfg: Config, s: State, start: set<Segment>, v: nat, w: nat, b: Addr, a: Addr)
    requires Inv(s) && AllocsOk(start, s) && v <= w && cfg.SegmentAt(b) in SegsAt(start, s.commits, w)
    requires Tidy(cfg, StateAt(s.commits, v), SegsAt(start, s.commits, v))
    requires Confined(StateAt(s.commits, v), SegsAt(start, s.commits, v))
    ensures TidyWord(cfg, SegsAt(start, s.commits, w), b, a, ValueAt(s, v, a))
  {
    hide Inv, AllocsOk, Fresh;
    var g := cfg.SegmentAt(b);
    SegsGrow(start, s.commits, v, w);
    if g in SegsAt(start, s.commits, v) {
      MoreSegments(cfg, SegsAt(start, s.commits, v), SegsAt(start, s.commits, w), b, a, ValueAt(s, v, a));
    } else {
      NewAfter(s, start, v, w, g);
      UnwrittenTidy(cfg, StateAt(s.commits, v), SegsAt(start, s.commits, v), b, a);
    }
  }

  /** A segment that a later version knows is new to the earlier one. */
  lemma {:induction false} NewAfter(s: State, start: set<Segment>, v: nat, w: nat, g: Segment)
    requires Inv(s) && AllocsOk(start, s) && v <= w
    requires g in SegsAt(start, s.commits, w) && g !in SegsAt(start, s.commits, v)
    ensures Fresh(SegsAt(start, s.commits, v), g)
  {
    hide Inv, AllocsOk;
    if g in SegsAt(start, s.commits, w - 1) {
      NewAfter(s, start, v, w - 1, g);
    } else {
      CommitAllocatesFresh(start, s, w);
      var i := AllocsOfSource(s.commits[w].log, g);
      SegsGrow(start, s.commits, v, w - 1);
    }
  }

  // ---- long_tx ----

  /** Where long_tx can be: at a segment, with nothing found so far. */
  ghost predicate FindsNothing(cfg: Config, segs: set<Segment>, st: Local) {
    match st
    case LCount(seg, _, sum) => cfg.SegmentAt(seg) in segs && sum == 0
    case LParity(seg, _, sum, n) => cfg.SegmentAt(seg) in segs && sum == 0 && n <= cfg.slots
    case LAccount(seg, _, sum, n, i) => cfg.SegmentAt(seg) in segs && sum == 0 && n <= cfg.slots
    case Done(ok, _) => ok
    case _ => false
  }

  lemma FindsStill(cfg: Config, segs: set<Segment>, st: Local, x: Val)
    requires FindsNothing(cfg, segs, st) && Act(cfg, st).DoRead? && cfg.grant == 0
    requires TidyWord(cfg, segs, st.seg, Act(cfg, st).addr, x)
    ensures FindsNothing(cfg, segs, Resume(cfg, st, x))
  {
  }

  lemma NothingOnlyReads(cfg: Config, segs: set<Segment>, st: Local)
    requires FindsNothing(cfg, segs, st)
    ensures if st.Done? then Act(cfg, st).Return? else Act(cfg, st).DoRead?
  {
  }

  /** A log whose every answer from memory is a tidy word of the segment it asks. */
  ghost predicate ReadsTidy(cfg: Config, segs: set<Segment>, log: Log) {
    forall i, b: Addr :: 0 <= i < |log| && FromMemory(log[i]) && cfg.SegmentAt(b) in segs ==>
      TidyWord(cfg, segs, b, log[i].addr, log[i].val)
  }

  /** Whatever versions its words are from, as long as each is tidy. */
  lemma {:induction false} LongFindsNothing(cfg: Config, segs: set<Segment>, log: Log)
    requires cfg.grant == 0 && cfg.SegmentAt(cfg.start) in segs && ReadsTidy(cfg, segs, log) && WellBuffered(log)
    requires After(cfg, LongTx(cfg), log).Some?
    ensures FindsNothing(cfg, segs, After(cfg, LongTx(cfg), log).value) && WritesOf(log) == map[]
  {
    if log != [] {
      hide FindsNothing, Act, Resume;
      var p, op := log[..|log| - 1], log[|log| - 1];
      LongFindsNothing(cfg, segs, p);
      var st := After(cfg, LongTx(cfg), p).value;
      NothingOnlyReads(cfg, segs, st);
      hide After;
      assert op.Rd? && op.addr == Act(cfg, st).addr && FromMemory(op);
      AtSegment(cfg, segs, st);
      FindsStill(cfg, segs, st, op.val);
    }
  }

  lemma AtSegment(cfg: Config, segs: set<Segment>, st: Local)
    requires FindsNothing(cfg, segs, st) && Act(cfg, st).DoRead?
    ensures (st.LCount? || st.LParity? || st.LAccount?) && cfg.SegmentAt(st.seg) in segs
  {
  }

  /** Every read of a run of the workload, calm or not, is tidy. */
  lemma ReadIsTidy(cfg: Config, states: seq<State>, labels: seq<Label>, i: nat, v0: nat, t: Tid, n: nat, b: Addr)
    requires IsTameRun(states, labels) && i < |states| && cfg.Valid() && cfg.grant == 0
    requires cfg.SegmentAt(cfg.start) in states[0].heap && Workload(cfg, states[i], v0) && t in states[i].txs
    requires n < |states[i].txs[t].log| && FromMemory(states[i].txs[t].log[n])
    requires cfg.SegmentAt(b) in SegsAt({cfg.SegmentAt(cfg.start)}, states[i].commits, states[i].gvc)
    ensures var segs := SegsAt({cfg.SegmentAt(cfg.start)}, states[i].commits, states[i].gvc);
            TidyWord(cfg, segs, b, states[i].txs[t].log[n].addr, states[i].txs[t].log[n].val)
  {
    hide Workload, Tidy, TidyWord, Inv, AllocsOk, IsTameRun;
    var s := states[i];
    var v := ReadIsFresh(states, labels, i, t, n);
    TidyAtVersion(cfg, states, labels, i, v0, v);
    RunInv(states, labels, i);
    StartAllocs(cfg, states, labels, i);
    EarlierTidy(cfg, s, {cfg.SegmentAt(cfg.start)}, v, s.gvc, b, s.txs[t].log[n].addr);
  }

  lemma StartAllocs(cfg: Config, states: seq<State>, labels: seq<Label>, i: nat)
    requires IsTameRun(states, labels) && i < |states| && cfg.SegmentAt(cfg.start) in states[0].heap
    ensures AllocsOk({cfg.SegmentAt(cfg.start)}, states[i])
  {
    hide AllocsOk;
    RunAllocs(states, labels, i);
    AllocsWeaken(states[0].heap, {cfg.SegmentAt(cfg.start)}, states[i]);
  }

  lemma TidyAtVersion(cfg: Config, states: seq<State>, labels: seq<Label>, i: nat, v0: nat, v: nat)
    requires IsTameRun(states, labels) && i < |states| && cfg.Valid() && cfg.grant == 0
    requires cfg.SegmentAt(cfg.start) in states[0].heap && Workload(cfg, states[i], v0)
    ensures var segs := SegsAt({cfg.SegmentAt(cfg.start)}, states[i].commits, v);
            Tidy(cfg, StateAt(states[i].commits, v), segs) && Confined(StateAt(states[i].commits, v), segs)
  {
    var start := {cfg.SegmentAt(cfg.start)};
    var q := (v: nat, m: Mem, segs: set<Segment>) => TidyBank(cfg, v0, v, m, segs);
    ZeroIsFirstOnly(cfg);
    ZeroTidy(cfg, cfg.SegmentAt(cfg.start));
    hide Tidy, Workload, IsTameRun;
    forall k: nat
      ensures CommitKeeps(states[i].commits, q, k)
    {
      CommitTidy(cfg, states[i], v0, k);
    }
    InvariantInEverySnapshot(states, labels, i, start, q, v);
  }

  lemma {:induction false} StartIsKnown(start: set<Segment>, commits: map<nat, Commit>, v: nat)
    ensures start <= SegsAt(start, commits, v)
  {
    SegsGrow(start, commits, 0, v);
  }

  /** With no money in the bank long_tx returns true in every tame run of the workload, calm or not. */
  lemma LongTxWithoutMoney(cfg: Config, states: seq<State>, labels: seq<Label>, i: nat, v0: nat, t: Tid)
    requires IsTameRun(states, labels) && i < |states| && cfg.Valid() && cfg.grant == 0
    requires cfg.SegmentAt(cfg.start) in states[0].heap && Workload(cfg, states[i], v0)
    requires t in states[i].txs && Completes(cfg, LongTx(cfg), states[i].txs[t].log)
    ensures Returned(After(cfg, LongTx(cfg), states[i].txs[t].log).value, true)
  {
    hide Workload, TidyWord, IsTameRun, SegsAt, After;
    var s := states[i];
    var segs := SegsAt({cfg.SegmentAt(cfg.start)}, s.commits, s.gvc);
    var log := s.txs[t].log;
    forall n, b: Addr | 0 <= n < |log| && FromMemory(log[n]) && cfg.SegmentAt(b) in segs
      ensures TidyWord(cfg, segs, b, log[n].addr, log[n].val)
    {
      ReadIsTidy(cfg, states, labels, i, v0, t, n, b);
    }
    RunInv(states, labels, i);
    assert TxOk(s, t, s.txs[t]);
    StartIsKnown({cfg.SegmentAt(cfg.start)}, s.commits, s.gvc);
    LongFindsNothing(cfg, segs, log);
    NothingOnlyReads(cfg, segs, After(cfg, LongTx(cfg), log).value);
  }
}
