/** alloc_tx run alone on a memory that satisfies the invariant: it adds or removes exactly one account. */
module BankAlloc {
  import opened Options
  import opened Tl2
  import opened Serializability
  import opened Snapshots
  import opened Bank
  import opened BankBodies
  import opened BankUpdates
  import opened BankInvariant

  ghost predicate WalkAt(m: Mem, list: seq<Addr>, trigger: int, st: Local, j: nat) {
    && j < |list|
    && var before := |Flat(m, list[..j])|;
       var prev' := if j == 0 then 0 else list[j - 1];
       match st
       case ACount(seg, prev, count, trig) =>
         seg == list[j] && prev == prev' && trig == trigger && count == before
       case ANext(seg, prev, count, trig, n) =>
         seg == list[j] && prev == prev' && trig == trigger && n == Get(m, Count(seg)) && count == before + n
       case _ => false
  }

  /** Whether alloc_tx removes an account rather than adding one. */
  predicate Removes(m: Mem, list: seq<Addr>, trigger: int) {
    |Flat(m, list)| > trigger && |Flat(m, list)| > 2
  }

  function Last(list: seq<Addr>): Addr
    requires |list| > 0
  {
    list[|list| - 1]
  }

  /** The parity of the last segment after its last account was removed. */
  function Corrected(cfg: Config, m: Mem, last: Addr): int {
    Get(m, Parity(last)) + Get(m, Account(last, Idx(Get(m, Count(last)) - 1))) - cfg.grant
  }

  /** `m` is the memory alloc_tx began with, `n` the one it has produced so far, `news` what it allocated. */
  ghost predicate AllocInv(cfg: Config, segs: set<Segment>, m: Mem, list: seq<Addr>, trigger: int,
                           st: Local, n: Mem, news: set<Segment>)
    requires |list| > 0
  {
    var last := Last(list);
    var c := Get(m, Count(last));
    match st
    case ACount(_, _, _, _) => n == m && news == {} && exists j :: WalkAt(m, list, trigger, st, j)
    case ANext(_, _, _, _, _) => n == m && news == {} && exists j :: WalkAt(m, list, trigger, st, j)
    case Done(_, _) => AllocDone(cfg, segs, m, list, trigger, n, news)
    case _ =>
      if Removes(m, list, trigger) then RemoveInv(cfg, m, list, st, n) && news == {}
      else AddInv(cfg, segs, m, list, st, n, news)
  }

  ghost predicate RemoveInv(cfg: Config, m: Mem, list: seq<Addr>, st: Local, n: Mem)
    requires |list| > 0
  {
    var last := Last(list);
    var c := Get(m, Count(last));
    var corrected := Corrected(cfg, m, last);
    match st
    case AParity(seg, prev, k) =>
      n == m && seg == last && k == c - 1 >= 0 && prev == (if |list| == 1 then 0 else list[|list| - 2])
      && (c == 1 ==> |list| > 1)
    case AAccount(seg, prev, k, parity) =>
      n == m && seg == last && k == c - 1 >= 0 && prev == (if |list| == 1 then 0 else list[|list| - 2])
      && (c == 1 ==> |list| > 1) && parity == Get(m, Parity(last))
    case ASetCount(seg, k, parity) => n == m && seg == last && c > 1 && k == c - 1 && parity == corrected
    case ASetParity(seg, parity) => c > 1 && seg == last && n == m[Count(last) := c - 1] && parity == corrected
    case AFreeRead(prev, parity) => UnlinkAt(m, list, prev) && n == m && parity == corrected
    case AFreeWrite(prev, parity) => UnlinkAt(m, list, prev) && n == m && parity == corrected
    case APrevParity(prev, parity) => UnlinkAt(m, list, prev) && n == m[Next(prev) := 0] && parity == corrected
    case APrevSetParity(prev, parity) =>
      UnlinkAt(m, list, prev) && n == m[Next(prev) := 0] && parity == Get(n, Parity(prev)) + corrected
    case _ => false
  }

  /** The deallocation branch is taken with a real predecessor. */
  predicate UnlinkAt(m: Mem, list: seq<Addr>, prev: Addr)
    requires |list| > 0
  {
    |list| > 1 && prev == list[|list| - 2] > 0 && Get(m, Count(Last(list))) == 1
  }

  ghost predicate AddInv(cfg: Config, segs: set<Segment>, m: Mem, list: seq<Addr>, st: Local, n: Mem,
                         news: set<Segment>)
    requires |list| > 0
  {
    var last := Last(list);
    var c := Get(m, Count(last));
    match st
    case AGrant(seg, k) => n == m && news == {} && seg == last && k == c && 0 <= c < cfg.slots
    case AGrantCount(seg, k) =>
      news == {} && seg == last && k == c && 0 <= c < cfg.slots && n == m[Account(last, c) := cfg.grant]
    case ANew(seg) => n == m && news == {} && seg == last && c == cfg.slots
    case ALink(seg, base) => n == m && seg == last && c == cfg.slots && NewAt(cfg, segs, base, news)
    case ANewCount(base) => n == m[Next(last) := base] && c == cfg.slots && NewAt(cfg, segs, base, news)
    case ANewAccount(base) =>
      n == m[Next(last) := base][Count(base) := 1] && c == cfg.slots && NewAt(cfg, segs, base, news)
    case _ => false
  }

  ghost predicate NewAt(cfg: Config, segs: set<Segment>, base: Addr, news: set<Segment>) {
    Fresh(segs, cfg.SegmentAt(base)) && news == {cfg.SegmentAt(base)}
  }

  /** The four outcomes. */
  ghost predicate AllocDone(cfg: Config, segs: set<Segment>, m: Mem, list: seq<Addr>, trigger: int, n: Mem,
                            news: set<Segment>)
    requires |list| > 0
  {
    var last := Last(list);
    var c := Get(m, Count(last));
    if Removes(m, list, trigger) then
      && news == {}
      && if c > 1 then n == RemoveAccount(cfg, m, last)
         else c == 1 && |list| > 1 && n == RemoveSegment(cfg, m, list[|list| - 2], last)
    else if c < cfg.slots then c >= 0 && news == {} && n == AddAccount(cfg, m, last)
    else c == cfg.slots && exists base :: NewAt(cfg, segs, base, news) && n == AddSegment(cfg, m, last, base)
  }

  lemma AllocStarts(cfg: Config, m: Mem, segs: set<Segment>, list: seq<Addr>, trigger: int)
    requires BankList(cfg, m, segs, list)
    ensures AllocInv(cfg, segs, m, list, trigger, AllocTx(cfg, trigger), m, {})
  {
    assert list[..0] == [];
    assert WalkAt(m, list, trigger, AllocTx(cfg, trigger), 0);
  }

  /** At the last segment the walk has counted every account. */
  lemma WalkTotal(cfg: Config, m: Mem, list: seq<Addr>, trigger: int, st: Local, j: nat)
    requires Packed(cfg, m, list) && WalkAt(m, list, trigger, st, j) && st.ANext?
    ensures st.count == |Flat(m, list[..j + 1])|
    ensures j + 1 == |list| ==> st.count == |Flat(m, list)|
  {
    CountIsNatural(cfg, m, list, j);
    FlatPrefix(m, list, j);
    assert j + 1 == |list| ==> list[..j + 1] == list;
  }

  /** With more than two accounts a last segment of one account is not the only segment. */
  lemma LastOfOneHasPrev(cfg: Config, m: Mem, list: seq<Addr>)
    requires Packed(cfg, m, list) && |Flat(m, list)| > 2
    ensures Get(m, Count(Last(list))) >= 1
    ensures Get(m, Count(Last(list))) == 1 ==> |list| > 1
  {
    CountIsNatural(cfg, m, list, |list| - 1);
    if |list| == 1 {
      assert list[..0] == [];
      FlatPrefix(m, list, 0);
      assert list[..1] == list;
    }
  }

  lemma AllocNextStep(cfg: Config, m: Mem, segs: set<Segment>, list: seq<Addr>, trigger: int, st: Local, j: nat)
    requires cfg.Valid() && BankList(cfg, m, segs, list) && WalkAt(m, list, trigger, st, j) && st.ANext?
    ensures AllocInv(cfg, segs, m, list, trigger, Resume(cfg, st, Get(m, Next(st.seg))), m, {})
  {
    assert Linked(m, list, j);
    WalkTotal(cfg, m, list, trigger, st, j);
    var st' := Resume(cfg, st, Get(m, Next(st.seg)));
    if j + 1 < |list| {
      assert list[j + 1] > 0;
      assert WalkAt(m, list, trigger, st', j + 1);
    } else {
      CountIsNatural(cfg, m, list, j);
      if Removes(m, list, trigger) {
        LastOfOneHasPrev(cfg, m, list);
      }
    }
  }

  lemma RemoveStep(cfg: Config, segs: set<Segment>, m: Mem, list: seq<Addr>, trigger: int, st: Local, n: Mem, op: Op,
                   n': Mem)
    requires |list| > 0 && list[0] > 0 && (|list| > 1 ==> list[|list| - 2] > 0)
    requires Removes(m, list, trigger) && RemoveInv(cfg, m, list, st, n)
    requires Performs(Act(cfg, st), op) && Effect(op, n, n')
    ensures AllocInv(cfg, segs, m, list, trigger, Resume(cfg, st, Answer(op)), n', {})
  {
  }

  lemma AddStep(cfg: Config, segs: set<Segment>, m: Mem, list: seq<Addr>, trigger: int, st: Local, n: Mem,
                news: set<Segment>,
                op: Op, n': Mem)
    requires |list| > 0 && !Removes(m, list, trigger) && AddInv(cfg, segs, m, list, st, n, news)
    requires Performs(Act(cfg, st), op) && Effect(op, n, n') && (op.Al? ==> Fresh(segs, op.seg))
    ensures AllocInv(cfg, segs, m, list, trigger, Resume(cfg, st, Answer(op)), n',
                     if op.Al? then news + {op.seg} else news)
  {
    if st.ANew? {
      assert op.seg == cfg.SegmentAt(op.seg.base);
      assert NewAt(cfg, segs, op.seg.base, news + {op.seg});
    } else if st.ANewAccount? {
      assert n' == AddSegment(cfg, m, Last(list), st.base);
    }
  }

  lemma WalkStep(cfg: Config, segs: set<Segment>, m: Mem, list: seq<Addr>, trigger: int, st: Local, op: Op, n: Mem)
    requires cfg.Valid() && BankList(cfg, m, segs, list) && (st.ACount? || st.ANext?)
    requires exists j :: WalkAt(m, list, trigger, st, j)
    requires Performs(Act(cfg, st), op) && Effect(op, m, n)
    ensures n == m && AllocInv(cfg, segs, m, list, trigger, Resume(cfg, st, Answer(op)), m, {})
  {
    var j :| WalkAt(m, list, trigger, st, j);
    if st.ACount? {
      assert WalkAt(m, list, trigger, Resume(cfg, st, Get(m, Count(st.seg))), j);
    } else {
      AllocNextStep(cfg, m, segs, list, trigger, st, j);
    }
  }

  lemma AllocStep(cfg: Config, segs: set<Segment>, m: Mem, list: seq<Addr>, trigger: int, st: Local, n: Mem,
                  news: set<Segment>,
                  op: Op, n': Mem)
    requires cfg.Valid() && BankList(cfg, m, segs, list) && AllocInv(cfg, segs, m, list, trigger, st, n, news)
    requires Performs(Act(cfg, st), op) && Effect(op, n, n') && (op.Al? ==> Fresh(segs, op.seg))
    ensures AllocInv(cfg, segs, m, list, trigger, Resume(cfg, st, Answer(op)), n',
                     if op.Al? then news + {op.seg} else news)
  {
    if st.ACount? || st.ANext? {
      WalkStep(cfg, segs, m, list, trigger, st, op, n');
    } else if !st.Done? {
      assert list[0] > 0 && (|list| > 1 ==> list[|list| - 2] > 0);
      hide BankList, Resume, RemoveInv, AddInv, Fresh, Effect;
      if Removes(m, list, trigger) {
        RemoveNeverAllocates(cfg, m, list, st, n);
        RemoveStep(cfg, segs, m, list, trigger, st, n, op, n');
      } else {
        AddStep(cfg, segs, m, list, trigger, st, n, news, op, n');
      }
    }
  }

  lemma RemoveNeverAllocates(cfg: Config, m: Mem, list: seq<Addr>, st: Local, n: Mem)
    requires |list| > 0 && RemoveInv(cfg, m, list, st, n)
    ensures !Act(cfg, st).DoAlloc?
  {
  }

  lemma FreshPrefix(segs: set<Segment>, log: Log)
    requires AllocatesFresh(segs, log) && log != []
    ensures AllocatesFresh(segs, log[..|log| - 1])
    ensures log[|log| - 1].Al? ==> Fresh(segs, log[|log| - 1].seg)
  {
    var p := log[..|log| - 1];
    forall i | 0 <= i < |p| && p[i].Al?
      ensures Fresh(segs, p[i].seg)
    {
      assert log[i] == p[i];
    }
  }

  /** Any run of alloc_tx that is legal on a memory satisfying the invariant and allocates new memory. */
  lemma {:induction false} AllocRun(cfg: Config, m: Mem, segs: set<Segment>, list: seq<Addr>, trigger: int,
                                    log: Log, n: Mem, st: Local)
    requires cfg.Valid() && BankList(cfg, m, segs, list) && AllocatesFresh(segs, log)
    requires Legal(log, m, n) && After(cfg, AllocTx(cfg, trigger), log) == Some(st)
    ensures AllocInv(cfg, segs, m, list, trigger, st, n, AllocsOf(log))
  {
    if log == [] {
      AllocStarts(cfg, m, segs, list, trigger);
    } else {
      hide After, InPlace, AllocInv, BankList, Act, Resume, AllocatesFresh, Fresh;
      LastAccess(cfg, AllocTx(cfg, trigger), log, m, n, st);
      FreshPrefix(segs, log);
      var p, op := log[..|log| - 1], log[|log| - 1];
      var before := After(cfg, AllocTx(cfg, trigger), p).value;
      var mid := InPlace(p, m).value;
      AllocRun(cfg, m, segs, list, trigger, p, mid, before);
      AllocStep(cfg, segs, m, list, trigger, before, mid, AllocsOf(p), op, n);
    }
  }

  /** The accounts `f` and their balances, before and after. */
  predicate OneLess(m: Mem, f: seq<Addr>, n: Mem, f': seq<Addr>) {
    && |f'| == |f| - 1 && f' == f[..|f'|]
    && forall k :: 0 <= k < |f'| ==> Get(n, f[k]) == Get(m, f[k])
  }

  predicate OneMore(m: Mem, f: seq<Addr>, n: Mem, f': seq<Addr>, grant: Val) {
    && |f'| == |f| + 1 && f == f'[..|f|] && Get(n, f'[|f|]) == grant
    && forall k :: 0 <= k < |f| ==> Get(n, f[k]) == Get(m, f[k])
  }

  /** With more accounts than the trigger, and than two, the last one is gone; otherwise there is one more at the end,
      with the initial balance. The others are the same, with the same balances. */
  predicate OneAccount(cfg: Config, m: Mem, f: seq<Addr>, trigger: int, n: Mem, f': seq<Addr>) {
    && (forall k :: 0 <= k < |f| && k < |f'| ==> f'[k] == f[k] && Get(n, f[k]) == Get(m, f[k]))
    && if |f| > trigger && |f| > 2 then |f'| == |f| - 1 else |f'| == |f| + 1 && Get(n, f'[|f|]) == cfg.grant
  }

  lemma RemoveOutcome(cfg: Config, m: Mem, segs: set<Segment>, list: seq<Addr>, trigger: int, n: Mem)
    returns (list': seq<Addr>)
    requires cfg.Valid() && BankList(cfg, m, segs, list) && Removes(m, list, trigger)
    requires AllocDone(cfg, segs, m, list, trigger, n, {})
    ensures BankList(cfg, n, segs, list') && OneLess(m, Flat(m, list), n, Flat(n, list'))
  {
    assert |list| > 0;
    hide BankList, Flat, OneLess, RemoveAccount, RemoveSegment, Removes;
    if Get(m, Count(Last(list))) > 1 {
      list' := list;
      RemoveAccountKeeps(cfg, m, segs, list);
      RemoveAccountFlat(cfg, m, n, segs, list);
    } else {
      list' := list[..|list| - 1];
      RemoveSegmentKeeps(cfg, m, segs, list);
      RemoveSegmentFlat(cfg, m, n, segs, list);
    }
  }

  lemma AddOutcome(cfg: Config, m: Mem, segs: set<Segment>, list: seq<Addr>, trigger: int, n: Mem, news: set<Segment>)
    returns (list': seq<Addr>)
    requires cfg.Valid() && BankList(cfg, m, segs, list) && !Removes(m, list, trigger)
    requires AllocDone(cfg, segs, m, list, trigger, n, news)
    ensures BankList(cfg, n, segs + news, list') && OneMore(m, Flat(m, list), n, Flat(n, list'), cfg.grant)
  {
    assert |list| > 0;
    hide BankList, Flat, OneMore, AddAccount, AddSegment, Removes, Fresh;
    if Get(m, Count(Last(list))) < cfg.slots {
      list' := list;
      AddAccountKeeps(cfg, m, segs, list);
      AddAccountFlat(cfg, m, n, segs, list);
      assert segs + {} == segs;
    } else {
      var base :| NewAt(cfg, segs, base, news) && n == AddSegment(cfg, m, Last(list), base);
      list' := list + [base];
      AddSegmentKeeps(cfg, m, segs, list, base);
      AddSegmentFlat(cfg, m, n, segs, list, base);
    }
  }

  /** In every outcome the invariant holds again, with exactly one account more or one less. */
  lemma AllocKeeps(cfg: Config, m: Mem, segs: set<Segment>, list: seq<Addr>, trigger: int, n: Mem, news: set<Segment>)
    returns (list': seq<Addr>)
    requires cfg.Valid() && BankList(cfg, m, segs, list) && AllocDone(cfg, segs, m, list, trigger, n, news)
    ensures BankList(cfg, n, segs + news, list')
    ensures OneAccount(cfg, m, Flat(m, list), trigger, n, Flat(n, list'))
  {
    hide BankList, Flat, RemoveAccount, RemoveSegment, AddAccount, AddSegment, Fresh;
    if Removes(m, list, trigger) {
      list' := RemoveOutcome(cfg, m, segs, list, trigger, n);
      assert segs + {} == segs;
    } else {
      list' := AddOutcome(cfg, m, segs, list, trigger, n, news);
    }
    hide AllocDone;
  }

  lemma LastShrinks(m: Mem, n: Mem, f: seq<Addr>, last: Addr, c: nat)
    requires forall k :: 0 <= k < |f| ==> Get(n, f[k]) == Get(m, f[k])
    requires forall i :: 0 <= i < c ==> Get(n, Account(last, i)) == Get(m, Account(last, i))
    ensures OneLess(m, f + Slots(last, c + 1), n, f + Slots(last, c))
  {
    assert Slots(last, c + 1)[..c] == Slots(last, c);
  }

  lemma LastGrows(m: Mem, n: Mem, f: seq<Addr>, last: Addr, c: nat, grant: Val)
    requires forall k :: 0 <= k < |f| ==> Get(n, f[k]) == Get(m, f[k])
    requires forall i :: 0 <= i < c ==> Get(n, Account(last, i)) == Get(m, Account(last, i))
    requires Get(n, Account(last, c)) == grant
    ensures OneMore(m, f + Slots(last, c), n, f + Slots(last, c + 1), grant)
  {
    assert Slots(last, c + 1)[..c] == Slots(last, c);
  }

  lemma RemoveAccountFlat(cfg: Config, m: Mem, n: Mem, segs: set<Segment>, list: seq<Addr>)
    requires cfg.Valid() && BankList(cfg, m, segs, list) && Get(m, Count(Last(list))) > 1
    requires n == RemoveAccount(cfg, m, Last(list))
    ensures OneLess(m, Flat(m, list), n, Flat(n, list))
  {
    var last, c := Last(list), Get(m, Count(Last(list)));
    LastIsNatural(cfg, m, list);
    hide Flat, BankList, Solvent, Sum, SumParity, OneLess, Slots;
    RemoveAccountLocal(cfg, m, last);
    assert LastOnly(cfg, m, n, list);
    hide RemoveAccount;
    LastOnlyKeeps(cfg, m, n, segs, list);
    hide LastOnly;
    SplitLast(cfg, m, list);
    SplitLast(cfg, n, list);
    LastShrinks(m, n, Flat(m, list[..|list| - 1]), last, c - 1);
  }

  lemma RemoveAccountLocal(cfg: Config, m: Mem, last: Addr)
    requires 1 < Get(m, Count(last)) <= cfg.slots
    ensures var c, n := Get(m, Count(last)), RemoveAccount(cfg, m, last);
            && (forall i :: 0 <= i < c ==> Get(n, Account(last, i)) == Get(m, Account(last, i)))
            && Get(n, Count(last)) == c - 1 && Get(n, Next(last)) == Get(m, Next(last))
            && (forall a :: !Within(a, cfg.SegmentAt(last)) ==> Get(n, a) == Get(m, a))
            && (forall a :: a in n ==> a in m || Within(a, cfg.SegmentAt(last)))
  {
  }

  lemma AddAccountFlat(cfg: Config, m: Mem, n: Mem, segs: set<Segment>, list: seq<Addr>)
    requires cfg.Valid() && BankList(cfg, m, segs, list) && 0 <= Get(m, Count(Last(list))) < cfg.slots
    requires n == AddAccount(cfg, m, Last(list))
    ensures OneMore(m, Flat(m, list), n, Flat(n, list), cfg.grant)
  {
    var last, c := Last(list), Get(m, Count(Last(list)));
    hide Flat, BankList, Solvent, AddAccount, Sum, SumParity, OneMore, Slots;
    AddAccountLocal(cfg, m, Last(list));
    assert LastOnly(cfg, m, n, list);
    LastOnlyKeeps(cfg, m, n, segs, list);
    hide LastOnly;
    SplitLast(cfg, m, list);
    SplitLast(cfg, n, list);
    LastGrows(m, n, Flat(m, list[..|list| - 1]), last, c, cfg.grant);
  }

  lemma RemoveSegmentFlat(cfg: Config, m: Mem, n: Mem, segs: set<Segment>, list: seq<Addr>)
    requires cfg.Valid() && BankList(cfg, m, segs, list) && |list| > 1 && Get(m, Count(Last(list))) == 1
    requires n == RemoveSegment(cfg, m, list[|list| - 2], Last(list))
    ensures OneLess(m, Flat(m, list), n, Flat(n, list[..|list| - 1]))
  {
    var front := list[..|list| - 1];
    RemoveSegmentAccounts(cfg, m, segs, list);
    SameAccountsSum(m, n, front);
    SplitLast(cfg, m, list);
    hide Flat, BankList, Solvent;
  }

  lemma AddSegmentFlat(cfg: Config, m: Mem, n: Mem, segs: set<Segment>, list: seq<Addr>, base: Addr)
    requires cfg.Valid() && BankList(cfg, m, segs, list) && Fresh(segs, cfg.SegmentAt(base))
    requires n == AddSegment(cfg, m, Last(list), base)
    ensures OneMore(m, Flat(m, list), n, Flat(n, list + [base]), cfg.grant)
  {
    var list' := list + [base];
    AddSegmentAccounts(cfg, m, segs, list, base);
    AddSegmentHeaders(cfg, m, segs, list, base);
    SameAccountsSum(m, n, list);
    assert list'[..|list'| - 1] == list;
    SplitLast(cfg, n, list');
    hide Flat, BankList, Solvent, AddSegment;
  }

  /** alloc_tx never follows the null predecessor of the first segment. */
  lemma AllocNeverUnlinksStart(cfg: Config, m: Mem, segs: set<Segment>, list: seq<Addr>, trigger: int,
                               log: Log, n: Mem, st: Local)
    requires cfg.Valid() && BankList(cfg, m, segs, list) && AllocatesFresh(segs, log)
    requires Legal(log, m, n) && After(cfg, AllocTx(cfg, trigger), log) == Some(st)
    ensures st.AFreeRead? || st.AFreeWrite? || st.APrevParity? || st.APrevSetParity? ==> st.prev != 0
  {
    AllocRun(cfg, m, segs, list, trigger, log, n, st);
  }
}
