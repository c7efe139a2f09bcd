/** What each body of the bank workload does when it runs alone on a memory that satisfies the invariant. */
module BankInvariant {
  import opened Options
  import opened Tl2
  import opened Serializability
  import opened Bank
  import opened BankBodies

  /** Induction over a run: a property of the memory and the body that every access keeps holds at the end. */
  ghost predicate Legal(log: Log, m: Mem, m': Mem) {
    InPlace(log, m) == Some(m')
  }

  predicate Effect(op: Op, m: Mem, m': Mem) {
    match op
    case Rd(a, x, _, _) => Get(m, a) == x && m' == m
    case Wr(a, x) => m' == m[a := x]
    case Al(_) => m' == m
  }

  /** The last access of a run, on its own. */
  lemma LastAccess(cfg: Config, start: Local, log: Log, m: Mem, n: Mem, st: Local)
    requires log != [] && Legal(log, m, n) && After(cfg, start, log) == Some(st)
    ensures var p, op := log[..|log| - 1], log[|log| - 1];
            && After(cfg, start, p).Some? && InPlace(p, m).Some?
            && Performs(Act(cfg, After(cfg, start, p).value), op)
            && st == Resume(cfg, After(cfg, start, p).value, Answer(op))
            && Effect(op, InPlace(p, m).value, n)
  {
  }

  // ---- long_tx ----

  /** At segment `j`, with the running totals of everything before it. */
  ghost predicate LongAt(cfg: Config, m: Mem, list: seq<Addr>, st: Local, j: nat) {
    && (st.LCount? || st.LParity? || st.LAccount?)
    && j < |list| && st.seg == list[j]
    && st.count == |Flat(m, list[..j])| + (if st.LCount? then 0 else CountOf(m, list[j]))
    && (!st.LCount? ==> st.n == CountOf(m, list[j]))
    && (st.LAccount? ==> st.i <= st.n)
    && st.sum == Sum(m, Flat(m, list[..j])) + SumParity(m, list[..j])
                 + (if st.LAccount? then Get(m, Parity(list[j])) + Sum(m, Slots(list[j], st.i)) else 0)
  }

  ghost predicate LongInv(cfg: Config, m: Mem, list: seq<Addr>, st: Local) {
    if st.Done? then st.ok && st.count == |Flat(m, list)|
    else exists j :: LongAt(cfg, m, list, st, j)
  }

  lemma LongStarts(cfg: Config, m: Mem, segs: set<Segment>, list: seq<Addr>)
    requires BankList(cfg, m, segs, list)
    ensures LongInv(cfg, m, list, LongTx(cfg))
  {
    assert list[..0] == [];
    assert LongAt(cfg, m, list, LongTx(cfg), 0);
  }

  lemma CountIsNatural(cfg: Config, m: Mem, list: seq<Addr>, j: nat)
    requires Packed(cfg, m, list) && j < |list|
    ensures Get(m, Count(list[j])) == CountOf(m, list[j]) <= cfg.slots
  {
  }

  /** Where the running position is in the list of all accounts. */
  lemma RunningAccount(cfg: Config, m: Mem, list: seq<Addr>, j: nat, i: nat)
    requires Packed(cfg, m, list) && j < |list| && i < CountOf(m, list[j])
    ensures var k := |Flat(m, list[..j])| + i; k < |Flat(m, list)| && Flat(m, list)[k] == Account(list[j], i)
  {
    FlatPrefix(m, list, j);
    FlatIsPrefix(m, list, j + 1);
  }

  lemma LongAccountStep(cfg: Config, m: Mem, segs: set<Segment>, list: seq<Addr>, st: Local, j: nat)
    requires cfg.Valid() && BankList(cfg, m, segs, list) && LongAt(cfg, m, list, st, j) && st.LAccount? && st.i < st.n
    ensures LongInv(cfg, m, list, Resume(cfg, st, Get(m, Account(st.seg, st.i))))
  {
    var a := Account(st.seg, st.i);
    RunningAccount(cfg, m, list, j, st.i);
    assert Get(m, a) >= 0;
    hide Flat, BankList;
    assert Slots(st.seg, st.i + 1)[..st.i] == Slots(st.seg, st.i);
    assert LongAt(cfg, m, list, Resume(cfg, st, Get(m, a)), j);
  }

  /** When the last account of segment `j` was added, the running totals are those of `j + 1`. */
  lemma LongSegmentDone(cfg: Config, m: Mem, list: seq<Addr>, st: Local, j: nat)
    requires LongAt(cfg, m, list, st, j) && st.LAccount? && st.i >= st.n
    ensures st.count == |Flat(m, list[..j + 1])|
    ensures st.sum == Sum(m, Flat(m, list[..j + 1])) + SumParity(m, list[..j + 1])
  {
    FlatPrefix(m, list, j);
    SumConcat(m, Flat(m, list[..j]), Slots(st.seg, CountOf(m, st.seg)));
  }

  lemma LongNextStep(cfg: Config, m: Mem, segs: set<Segment>, list: seq<Addr>, st: Local, j: nat)
    requires cfg.Valid() && BankList(cfg, m, segs, list) && LongAt(cfg, m, list, st, j) && st.LAccount? && st.i >= st.n
    ensures LongInv(cfg, m, list, Resume(cfg, st, Get(m, Next(st.seg))))
  {
    LongSegmentDone(cfg, m, list, st, j);
    hide Flat, Sum, SumParity;
    var st' := Resume(cfg, st, Get(m, Next(st.seg)));
    if j + 1 < |list| {
      assert Linked(m, list, j) && list[j + 1] > 0;
      assert LongAt(cfg, m, list, st', j + 1);
    } else {
      assert list[..j + 1] == list;
      assert Linked(m, list, j);
    }
  }

  /** Each answer taken from a memory that satisfies the invariant keeps long_tx on track. */
  lemma LongStep(cfg: Config, m: Mem, segs: set<Segment>, list: seq<Addr>, st: Local)
    requires cfg.Valid() && BankList(cfg, m, segs, list) && LongInv(cfg, m, list, st)
    requires Act(cfg, st).DoRead?
    ensures LongInv(cfg, m, list, Resume(cfg, st, Get(m, Act(cfg, st).addr)))
  {
    var j :| LongAt(cfg, m, list, st, j);
    CountIsNatural(cfg, m, list, j);
    match st
    case LCount(seg, count, sum) =>
      assert LongAt(cfg, m, list, Resume(cfg, st, Get(m, Count(seg))), j);
    case LParity(seg, count, sum, n) =>
      assert Slots(seg, 0) == [];
      assert LongAt(cfg, m, list, Resume(cfg, st, Get(m, Parity(seg))), j);
    case LAccount(seg, count, sum, n, i) =>
      if i < n {
        LongAccountStep(cfg, m, segs, list, st, j);
      } else {
        LongNextStep(cfg, m, segs, list, st, j);
      }
    case _ =>
  }

  lemma LongOnlyReads(cfg: Config, m: Mem, list: seq<Addr>, st: Local)
    requires LongInv(cfg, m, list, st)
    ensures Act(cfg, st).DoRead? || (Act(cfg, st).Return? && st.Done?)
  {
  }

  /** Any run of long_tx whose reads agree with one memory satisfying the invariant writes nothing,
      and when it returns it found no inconsistency and counted every account. */
  lemma {:induction false} LongRun(cfg: Config, m: Mem, segs: set<Segment>, list: seq<Addr>, log: Log, m': Mem,
                                   st: Local)
    requires cfg.Valid() && BankList(cfg, m, segs, list)
    requires Legal(log, m, m') && After(cfg, LongTx(cfg), log) == Some(st)
    ensures m' == m && LongInv(cfg, m, list, st)
  {
    if log == [] {
      LongStarts(cfg, m, segs, list);
    } else {
      hide After, InPlace, LongInv, BankList, Act, Resume;
      LastAccess(cfg, LongTx(cfg), log, m, m', st);
      var p := log[..|log| - 1];
      var before := After(cfg, LongTx(cfg), p).value;
      LongRun(cfg, m, segs, list, p, InPlace(p, m).value, before);
      LongOnlyReads(cfg, m, list, before);
      LongStep(cfg, m, segs, list, before);
    }
  }
}
