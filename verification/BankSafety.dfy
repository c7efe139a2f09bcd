/** End to end: the bank workload on top of the transactional memory, under every interleaving. */
module BankSafety {
  import opened Options
  import opened Tl2
  import opened Tl2Invariant
  import opened Serializability
  import opened SingleReads
  import opened Snapshots
  import opened Executions
  import opened Bank
  import opened BankBodies
  import opened BankInvariant
  import opened BankShort
  import opened BankAlloc
  import opened BankInit

  /** A log is a complete run of a body. */
  ghost predicate Completes(cfg: Config, start: Local, log: Log) {
    After(cfg, start, log).Some? && Act(cfg, After(cfg, start, log).value) == Return
  }

  ghost predicate RunsInit(cfg: Config, log: Log) {
    Completes(cfg, InitTx, log)
  }

  ghost predicate RunsAlloc(cfg: Config, log: Log) {
    exists trigger: int :: Completes(cfg, AllocTx(cfg, trigger), log)
  }

  ghost predicate RunsShort(cfg: Config, log: Log) {
    exists send: nat, recv: nat :: Completes(cfg, ShortTx(cfg, send, recv), log)
  }

  /** The workload: up to clock value `v0` workers initialise, afterwards they run alloc_tx and short_tx.
      Nothing is assumed about read-only or unfinished transactions. */
  ghost predicate Workload(cfg: Config, s: State, v0: nat) {
    forall k :: k in s.commits ==>
      if k <= v0 then RunsInit(cfg, s.commits[k].log)
      else RunsAlloc(cfg, s.commits[k].log) || RunsShort(cfg, s.commits[k].log)
  }

  /** The money invariant at version `v`. */
  ghost predicate BankAt(cfg: Config, v0: nat, v: nat, m: Mem, segs: set<Segment>) {
    if v <= v0 then FirstOnly(cfg, m, segs) else BankOk(cfg, m, segs)
  }

  lemma {:induction false} NoAllocs(log: Log)
    requires forall i :: 0 <= i < |log| ==> !log[i].Al?
    ensures AllocsOf(log) == {}
  {
    if log != [] {
      NoAllocs(log[..|log| - 1]);
    }
  }

  lemma InitCommitKeeps(cfg: Config, log: Log, m: Mem, segs: set<Segment>, n: Mem)
    requires cfg.Valid() && FirstOnly(cfg, m, segs) && RunsInit(cfg, log) && InPlace(log, m) == Some(n)
    ensures FirstOnly(cfg, n, segs + AllocsOf(log))
  {
    InitRun(cfg, m, log, n, After(cfg, InitTx, log).value);
    InitRefills(cfg, m, segs);
    NoAllocs(log);
    assert segs + {} == segs;
  }

  /** A complete run of alloc_tx on a memory with the money invariant re-establishes it. */
  lemma AllocCommitKeeps(cfg: Config, log: Log, m: Mem, segs: set<Segment>, n: Mem)
    requires cfg.Valid() && BankOk(cfg, m, segs) && RunsAlloc(cfg, log) && InPlace(log, m) == Some(n)
    requires AllocatesFresh(segs, log)
    ensures BankOk(cfg, n, segs + AllocsOf(log))
  {
    var list :| BankList(cfg, m, segs, list);
    var trigger: int :| Completes(cfg, AllocTx(cfg, trigger), log);
    var st := After(cfg, AllocTx(cfg, trigger), log).value;
    AllocRun(cfg, m, segs, list, trigger, log, n, st);
    assert st.Done?;
    var list' := AllocKeeps(cfg, m, segs, list, trigger, n, AllocsOf(log));
  }

  lemma ShortCommitKeeps(cfg: Config, log: Log, m: Mem, segs: set<Segment>, n: Mem)
    requires BankOk(cfg, m, segs) && RunsShort(cfg, log) && InPlace(log, m) == Some(n)
    ensures BankOk(cfg, n, segs + AllocsOf(log))
  {
    var list :| BankList(cfg, m, segs, list);
    var send: nat, recv: nat :| Completes(cfg, ShortTx(cfg, send, recv), log);
    hide BankList, InPlace, After, Flat, ShortResult, Act;
    ShortOutcome(cfg, m, segs, list, send, recv, log, n);
    ShortKeeps(cfg, m, segs, list, send, recv);
    NoAllocs(log);
    assert segs + {} == segs;
  }

  /** Running the next commit alone keeps the invariant. */
  lemma NextBank(cfg: Config, s: State, v0: nat, k: nat, m: Mem, segs: set<Segment>, n: Mem)
    requires cfg.Valid() && Workload(cfg, s, v0) && BankAt(cfg, v0, k, m, segs) && k + 1 in s.commits
    requires InPlace(s.commits[k + 1].log, m) == Some(n) && AllocatesFresh(segs, s.commits[k + 1].log)
    ensures BankAt(cfg, v0, k + 1, n, segs + AllocsOf(s.commits[k + 1].log))
  {
    var log := s.commits[k + 1].log;
    if k + 1 <= v0 {
      InitCommitKeeps(cfg, log, m, segs, n);
    } else if RunsAlloc(cfg, log) {
      AllocCommitKeeps(cfg, log, m, segs, n);
    } else {
      ShortCommitKeeps(cfg, log, m, segs, n);
    }
  }

  lemma WorkloadCommitKeeps(cfg: Config, s: State, v0: nat, k: nat)
    requires cfg.Valid() && Workload(cfg, s, v0)
    ensures CommitKeeps(s.commits, (v: nat, m: Mem, segs: set<Segment>) => BankAt(cfg, v0, v, m, segs), k)
  {
    if k + 1 in s.commits {
      var log := s.commits[k + 1].log;
      forall m, segs, n | BankAt(cfg, v0, k, m, segs) && InPlace(log, m) == Some(n) && AllocatesFresh(segs, log)
        ensures BankAt(cfg, v0, k + 1, n, segs + AllocsOf(log))
      {
        NextBank(cfg, s, v0, k, m, segs, n);
      }
    }
  }

  /** The money invariant holds in every snapshot of every tame run of the workload. */
  lemma BankInEverySnapshot(cfg: Config, states: seq<State>, labels: seq<Label>, i: nat, v0: nat, v: nat)
    requires IsTameRun(states, labels) && i < |states| && cfg.Valid()
    requires cfg.SegmentAt(cfg.start) in states[0].heap && Workload(cfg, states[i], v0)
    ensures BankOk(cfg, StateAt(states[i].commits, v), SegsAt({cfg.SegmentAt(cfg.start)}, states[i].commits, v))
  {
    var s := states[i];
    var start := {cfg.SegmentAt(cfg.start)};
    var q := (v: nat, m: Mem, segs: set<Segment>) => BankAt(cfg, v0, v, m, segs);
    ZeroIsFirstOnly(cfg);
    forall k: nat
      ensures CommitKeeps(s.commits, q, k)
    {
      WorkloadCommitKeeps(cfg, s, v0, k);
    }
    InvariantInEverySnapshot(states, labels, i, start, q, v);
  }

  /** long_tx never reports an inconsistency: in every tame run of the workload, a read-only transaction that
      runs long_tx with calm reads returns true and the exact number of accounts of its snapshot. */
  lemma LongTxNeverFails(cfg: Config, states: seq<State>, labels: seq<Label>, i: nat, v0: nat, t: Tid)
    requires IsTameRun(states, labels) && i < |states| && cfg.Valid()
    requires cfg.SegmentAt(cfg.start) in states[0].heap && Workload(cfg, states[i], v0)
    requires t in states[i].txs && AllCalm(states[i].txs[t].log)
    requires Completes(cfg, LongTx(cfg), states[i].txs[t].log)
    ensures var s := states[i];
            var st := After(cfg, LongTx(cfg), s.txs[t].log).value;
            st.Done? && st.ok
            && exists list :: BankList(cfg, StateAt(s.commits, s.txs[t].rv),
                                       SegsAt({cfg.SegmentAt(cfg.start)}, s.commits, s.txs[t].rv), list)
                              && st.count == |Flat(StateAt(s.commits, s.txs[t].rv), list)|
  {
    var s := states[i];
    var rv := s.txs[t].rv;
    var m := StateAt(s.commits, rv);
    var segs := SegsAt({cfg.SegmentAt(cfg.start)}, s.commits, rv);
    var st := After(cfg, LongTx(cfg), s.txs[t].log).value;
    BankInEverySnapshot(cfg, states, labels, i, v0, rv);
    Opaque(states, labels, i, t);
    var list :| BankList(cfg, m, segs, list);
    LongRun(cfg, m, segs, list, s.txs[t].log, InPlace(s.txs[t].log, m).value, st);
    LongOnlyReads(cfg, m, list, st);
  }

  /** The same with a hypothesis on where the bank lives instead of one on the run: all words that are written lie
      within a window of NUM_LOCKS bytes, or at least on distinct stripes, and the run is short. */
  lemma LongTxNeverFailsOnStripes(cfg: Config, states: seq<State>, labels: seq<Label>, i: nat, v0: nat, t: Tid,
                                  addrs: set<Addr>, base: Addr)
    requires IsRun(states, labels) && i < |states| && Short(states) && WritesOnly(states, addrs) && cfg.Valid()
    requires StripeInjective(addrs) || forall a :: a in addrs ==> base <= a < base + NUM_LOCKS
    requires cfg.SegmentAt(cfg.start) in states[0].heap && Workload(cfg, states[i], v0)
    requires t in states[i].txs && AllCalm(states[i].txs[t].log)
    requires Completes(cfg, LongTx(cfg), states[i].txs[t].log)
    ensures var st := After(cfg, LongTx(cfg), states[i].txs[t].log).value;
            st.Done? && st.ok
  {
    if !StripeInjective(addrs) {
      WindowIsInjective(addrs, base);
    }
    ShortIsTame(states, labels, addrs);
    LongTxNeverFails(cfg, states, labels, i, v0, t);
  }

  /** From the first initialisation to the last, the first account holds the initial balance. */
  lemma {:induction false} FirstAccount(cfg: Config, s: State, v0: nat, v: nat, k: nat)
    requires Inv(s) && cfg.Valid() && Workload(cfg, s, v0) && v <= v0 && k in s.commits && 0 < k <= v
    ensures ValueAt(s, v, Account(cfg.start, 0)) == cfg.grant
  {
    hide Inv, RunsInit, RunsAlloc, RunsShort, InPlace;
    if v in s.commits {
      CommitInPlace(s, v);
      FirstAccountSet(cfg, s.commits[v].log, StateAt(s.commits, v - 1), StateAt(s.commits, v));
    } else {
      FirstAccount(cfg, s, v0, v - 1, k);
    }
  }

  lemma FirstAccountSet(cfg: Config, log: Log, m: Mem, n: Mem)
    requires cfg.Valid() && RunsInit(cfg, log) && InPlace(log, m) == Some(n)
    ensures Get(n, Account(cfg.start, 0)) == cfg.grant
  {
    InitRun(cfg, m, log, n, After(cfg, InitTx, log).value);
    InitMemValues(cfg, m, cfg.slots, Account(cfg.start, 0));
  }

  /** init finds what it wrote, calm or not: in every tame run, while workers initialise, a transaction that reads the
      first account by itself after some initialisation was committed gets the initial balance. */
  lemma InitCheckSucceeds(cfg: Config, states: seq<State>, labels: seq<Label>, i: nat, v0: nat, t: Tid, k: nat)
    requires IsTameRun(states, labels) && i < |states| && cfg.Valid()
    requires Workload(cfg, states[i], v0) && states[i].gvc <= v0
    requires t in states[i].txs && k in states[i].commits && k <= states[i].txs[t].rv
    requires |states[i].txs[t].log| == 1 && FromMemory(states[i].txs[t].log[0])
    requires states[i].txs[t].log[0].addr == Account(cfg.start, 0)
    ensures states[i].txs[t].log[0].val == cfg.grant
  {
    var v := ReadIsFresh(states, labels, i, t, 0);
    RunInv(states, labels, i);
    FirstAccount(cfg, states[i], v0, v, k);
  }

  /** Committed transfers tell the truth, however they interleaved: short_tx returned true exactly when both
      accounts existed in the memory just before its own version. */
  lemma ShortTxExact(cfg: Config, states: seq<State>, labels: seq<Label>, i: nat, v0: nat, k: nat, send: nat, recv: nat)
    requires IsTameRun(states, labels) && i < |states| && cfg.Valid()
    requires cfg.SegmentAt(cfg.start) in states[0].heap && Workload(cfg, states[i], v0)
    requires k in states[i].commits && k > 0 && Completes(cfg, ShortTx(cfg, send, recv), states[i].commits[k].log)
    ensures exists list :: ShortCommitAt(cfg, states[i], k, send, recv, list)
  {
    hide Inv, IsTameRun, Workload, BankList, After, Act, InPlace, StateAt, SegsAt, Completes, ShortCommitAt;
    var s := states[i];
    var m := StateAt(s.commits, k - 1);
    var segs := SegsAt({cfg.SegmentAt(cfg.start)}, s.commits, k - 1);
    RunInv(states, labels, i);
    CommitInPlace(s, k);
    BankInEverySnapshot(cfg, states, labels, i, v0, k - 1);
    var list :| BankList(cfg, m, segs, list);
    ShortCommitHolds(cfg, s, k, send, recv, list);
  }

  lemma ShortCommitHolds(cfg: Config, s: State, k: nat, send: nat, recv: nat, list: seq<Addr>)
    requires k in s.commits && k > 0 && Completes(cfg, ShortTx(cfg, send, recv), s.commits[k].log)
    requires InPlace(s.commits[k].log, StateAt(s.commits, k - 1)) == Some(StateAt(s.commits, k))
    requires BankList(cfg, StateAt(s.commits, k - 1), SegsAt({cfg.SegmentAt(cfg.start)}, s.commits, k - 1), list)
    ensures ShortCommitAt(cfg, s, k, send, recv, list)
  {
    hide BankList;
    ShortOutcome(cfg, StateAt(s.commits, k - 1), SegsAt({cfg.SegmentAt(cfg.start)}, s.commits, k - 1), list, send,
                   recv,
                   s.commits[k].log, StateAt(s.commits, k));
  }

  /** Commit `k` is a transfer on the bank as it was just before, whose list of segments is `list`. */
  ghost predicate ShortCommitAt(cfg: Config, s: State, k: nat, send: nat, recv: nat, list: seq<Addr>)
    requires k in s.commits && k > 0 && After(cfg, ShortTx(cfg, send, recv), s.commits[k].log).Some?
  {
    var m := StateAt(s.commits, k - 1);
    && BankList(cfg, m, SegsAt({cfg.SegmentAt(cfg.start)}, s.commits, k - 1), list)
    && Returned(After(cfg, ShortTx(cfg, send, recv), s.commits[k].log).value, BothExist(m, list, send, recv))
    && StateAt(s.commits, k) == ShortResult(m, list, send, recv)
  }
}
