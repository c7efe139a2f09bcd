/** The transaction bodies of the bank workload as they are written: loops over local cursors and in-place
    updates of the segments. Each access goes through a session, and the loops walk in lockstep with the
    machines of BankBodies, so that what is proved about those machines holds of these loops. */
module BankCode {
  import opened Options
  import opened Tl2
  import opened Serializability
  import opened Snapshots
  import opened Bank
  import opened BankBodies
  import opened BankUpdates
  import opened BankInvariant
  import opened BankShort
  import opened BankAlloc
  import opened BankInit

  /** One more access: what the body does next, answered by memory. */
  lemma Extend(cfg: Config, start: Local, initial: Mem, log: Log, m: Mem, st: Local, op: Op, m': Mem)
    requires Legal(log, initial, m) && After(cfg, start, log) == Some(st)
    requires Performs(Act(cfg, st), op) && BankInvariant.Effect(op, m, m')
    ensures Legal(log + [op], initial, m') && After(cfg, start, log + [op]) == Some(Resume(cfg, st, Answer(op)))
    ensures AllocsOf(log + [op]) == AllocsOf(log) + if op.Al? then {op.seg} else {}
  {
    hide Act, Resume;
    assert (log + [op])[..|log|] == log;
  }

  /** One transaction of the reference library: accesses go straight to memory. */
  class Session {
    const cfg: Config
    var mem: Mem
    ghost const start: Local
    ghost const initial: Mem
    ghost var log: Log
    ghost var st: Local

    ghost predicate Valid()
      reads this
    {
      Legal(log, initial, mem) && After(cfg, start, log) == Some(st)
    }

    constructor (c: Config, m: Mem, body: Local)
      ensures Valid() && cfg == c && mem == initial == m && start == st == body && log == []
    {
      cfg, mem, start, initial, log, st := c, m, body, m, [], body;
    }

    method Read(a: Addr) returns (x: Val)
      requires Valid() && Act(cfg, st) == DoRead(a)
      modifies this`log, this`st
      ensures Valid() && x == Get(mem, a) && st == Resume(cfg, old(st), x)
      ensures AllocsOf(log) == AllocsOf(old(log))
    {
      hide Act, Resume, After, InPlace, AllocsOf;
      x := Get(mem, a);
      ghost var op := Rd(a, x, false, true);
      Extend(cfg, start, initial, log, mem, st, op, mem);
      log, st := log + [op], Resume(cfg, st, x);
    }

    method Write(a: Addr, x: Val)
      requires Valid() && Act(cfg, st) == DoWrite(a, x)
      modifies this`mem, this`log, this`st
      ensures Valid() && mem == old(mem)[a := x] && st == Resume(cfg, old(st), 0)
      ensures AllocsOf(log) == AllocsOf(old(log))
    {
      hide Act, Resume, After, InPlace, AllocsOf;
      ghost var op := Wr(a, x);
      Extend(cfg, start, initial, log, mem, st, op, mem[a := x]);
      mem := mem[a := x];
      log, st := log + [op], Resume(cfg, st, 0);
    }

    method Alloc(size: nat, got: Segment) returns (base: Addr)
      requires Valid() && Act(cfg, st) == DoAlloc(size) && got.size == size
      modifies this`log, this`st
      ensures Valid() && base == got.base && st == Resume(cfg, old(st), base)
      ensures AllocsOf(log) == AllocsOf(old(log)) + {got}
    {
      hide Act, Resume, After, InPlace, AllocsOf;
      base := got.base;
      ghost var op := Al(got);
      Extend(cfg, start, initial, log, mem, st, op, mem);
      log, st := log + [op], Resume(cfg, st, base);
    }
  }

  /** Following `next` from `start` visits `list` and ends. Nothing is assumed about counts and balances. */
  ghost predicate Ends(m: Mem, start: Addr, list: seq<Addr>) {
    |list| > 0 && list[0] == start && forall j :: 0 <= j < |list| ==> list[j] > 0 && Linked(m, list, j)
  }

  // ---- long_tx ----

  /** The sum of the counts as they are read, negative ones included. */
  function SumCounts(m: Mem, list: seq<Addr>): int {
    if list == [] then 0 else SumCounts(m, list[..|list| - 1]) + Get(m, Count(list[|list| - 1]))
  }

  predicate NoNegative(m: Mem, addrs: seq<Addr>) {
    forall k :: 0 <= k < |addrs| ==> Get(m, addrs[k]) >= 0
  }

  /** One more segment of the list. */
  lemma OneMoreSegment(m: Mem, list: seq<Addr>, j: nat)
    requires j < |list|
    ensures var n := CountOf(m, list[j]);
            && SumCounts(m, list[..j + 1]) == SumCounts(m, list[..j]) + Get(m, Count(list[j]))
            && Sum(m, Flat(m, list[..j + 1])) == Sum(m, Flat(m, list[..j])) + Sum(m, Slots(list[j], n))
            && SumParity(m, list[..j + 1]) == SumParity(m, list[..j]) + Get(m, Parity(list[j]))
            && (NoNegative(m, Flat(m, list[..j + 1])) <==>
                  NoNegative(m, Flat(m, list[..j])) && NoNegative(m, Slots(list[j], n)))
  {
    FlatPrefix(m, list, j);
    assert list[..j + 1][..j] == list[..j];
    SumConcat(m, Flat(m, list[..j]), Slots(list[j], CountOf(m, list[j])));
    NegativeIn(m, Flat(m, list[..j]), Slots(list[j], CountOf(m, list[j])));
  }

  lemma NegativeIn(m: Mem, a: seq<Addr>, b: seq<Addr>)
    ensures NoNegative(m, a + b) <==> NoNegative(m, a) && NoNegative(m, b)
  {
    if NoNegative(m, a + b) {
      assert forall k :: 0 <= k < |a| ==> a[k] == (a + b)[k];
      assert forall k :: 0 <= k < |b| ==> b[k] == (a + b)[|a| + k];
    }
  }

  lemma OneMoreSlot(m: Mem, seg: Addr, n: nat)
    ensures NoNegative(m, Slots(seg, n + 1)) <==> NoNegative(m, Slots(seg, n)) && Get(m, Account(seg, n)) >= 0
  {
    assert Slots(seg, n + 1) == Slots(seg, n) + [Account(seg, n)];
    NegativeIn(m, Slots(seg, n), [Account(seg, n)]);
    assert [Account(seg, n)][0] == Account(seg, n);
  }

  lemma NegativeStays(m: Mem, list: seq<Addr>, j: nat)
    requires j <= |list| && !NoNegative(m, Flat(m, list[..j]))
    ensures !NoNegative(m, Flat(m, list))
  {
    FlatIsPrefix(m, list, j);
  }

  lemma LongVerdict(session: Session, segs: set<Segment>, list: seq<Addr>)
    requires session.Valid() && session.start == LongBody(session.cfg) && session.st.Done?
    requires session.cfg.Valid() && BankList(session.cfg, session.initial, segs, list)
    ensures session.st.ok && session.st.count == |Flat(session.initial, list)|
  {
    LongRun(session.cfg, session.initial, segs, list, session.log, session.mem, session.st);
  }

  lemma NothingSummed(m: Mem, list: seq<Addr>)
    ensures list[..0] == [] && NoNegative(m, Flat(m, list[..0])) && SumCounts(m, list[..0]) == 0
    ensures Sum(m, Flat(m, list[..0])) == 0 && SumParity(m, list[..0]) == 0
  {
  }

  function LongBody(cfg: Config): Local {
    BankBodies.LongTx(cfg)
  }

  /** The inner loop: fails on the first negative balance. */
  method SumAccounts(session: Session, start: Addr, segmentCount: int, count: int, before: int)
    returns (ok: bool, sum: int)
    requires session.Valid() && session.st == LAccount(start, count, before, segmentCount, 0)
    modifies session`log, session`st
    ensures session.Valid()
    ensures ok ==> session.st == LAccount(start, count, sum, segmentCount, if segmentCount < 0 then 0 else segmentCount)
    ensures !ok ==> session.st == Done(false, 0)
    ensures var slots := Slots(start, if segmentCount < 0 then 0 else segmentCount);
            && (ok <==> NoNegative(session.mem, slots)) && (ok ==> sum == before + Sum(session.mem, slots))
  {
    hide Session.Valid, AllocsOf;
    assert Slots(start, 0) == [];
    sum := before;
    var i := 0;
    while i < segmentCount
      invariant 0 <= i && (segmentCount >= 0 ==> i <= segmentCount) && (segmentCount < 0 ==> i == 0)
      invariant session.Valid() && session.st == LAccount(start, count, sum, segmentCount, i)
      invariant NoNegative(session.mem, Slots(start, i)) && sum == before + Sum(session.mem, Slots(start, i))
    {
      var local := session.Read(Account(start, i));
      SlotsSnoc(session.mem, start, i);
      OneMoreSlot(session.mem, start, i);
      if local < 0 {
        assert Slots(start, segmentCount)[i] == Account(start, i);
        return false, sum;
      }
      sum := sum + local;
      i := i + 1;
    }
    ok := true;
  }

  /** One segment: `next` is the start of the following one. */
  method SumSegment(session: Session, start: Addr, count: int, sum: int)
    returns (ok: bool, next: Val, count': int, sum': int)
    requires session.Valid() && session.st == LCount(start, count, sum)
    modifies session`log, session`st
    ensures session.Valid()
    ensures ok ==> next == Get(session.mem, Next(start))
    ensures ok ==> session.st == if next == 0 then Done(sum' == session.cfg.grant * count', count')
                                 else LCount(Ptr(next), count', sum')
    ensures !ok ==> session.st == Done(false, 0)
    ensures var m, slots := session.mem, Slots(start, CountOf(session.mem, start));
            && (ok <==> NoNegative(m, slots))
            && (ok ==> count' == count + Get(m, Count(start)) && sum' == sum + Get(m, Parity(start)) + Sum(m, slots))
  {
    hide Session.Valid, AllocsOf;
    next := 0;
    var segmentCount := session.Read(Count(start));
    count' := count + segmentCount;
    var parity := session.Read(Parity(start));
    ok, sum' := SumAccounts(session, start, segmentCount, count', sum + parity);
    if ok {
      next := session.Read(Next(start));
    }
  }

  /** Sums all balances. On any list that ends it returns true if and only if no balance is negative and balances and
      parities together are what the counts call for; on a memory with the money invariant they are, and `count` is
      the number of accounts. */
  method LongTx(session: Session, ghost segs: set<Segment>, ghost list: seq<Addr>) returns (ok: bool, count: int)
    requires session.Valid() && session.start == session.st == LongBody(session.cfg)
    requires session.mem == session.initial && Ends(session.mem, session.cfg.start, list)
    modifies session`log, session`st
    ensures session.Valid() && session.st.Done? && session.st.ok == ok && (ok ==> session.st.count == count)
    ensures var m := session.mem;
            && (ok <==> NoNegative(m, Flat(m, list))
                        && Sum(m, Flat(m, list)) + SumParity(m, list) == session.cfg.grant * SumCounts(m, list))
            && (ok ==> count == SumCounts(m, list))
    ensures session.cfg.Valid() && BankList(session.cfg, session.mem, segs, list) ==>
              ok && count == |Flat(session.mem, list)|
  {
    hide Session.Valid, BankList, Flat, Resume, Act, Sum, SumParity, SumCounts, NoNegative;
    var cfg := session.cfg;
    NothingSummed(session.mem, list);
    count, ok := 0, true;
    var sum := 0;
    var start: Val := cfg.start;
    ghost var j := 0;
    while start != 0
      invariant session.Valid() && 0 <= j <= |list|
      invariant start != 0 ==> ok && j < |list| && start == list[j] && session.st == LCount(start, count, sum)
      invariant start == 0 ==> session.st == if ok then Done(sum == cfg.grant * count, count) else Done(false, 0)
      invariant ok <==> NoNegative(session.mem, Flat(session.mem, list[..j]))
      invariant ok ==> count == SumCounts(session.mem, list[..j]) && (start == 0 ==> j == |list|)
      invariant ok ==> sum == Sum(session.mem, Flat(session.mem, list[..j])) + SumParity(session.mem, list[..j])
      decreases |list| - j
    {
      assert Linked(session.mem, list, j) && list[j] > 0;
      OneMoreSegment(session.mem, list, j);
      ok, start, count, sum := SumSegment(session, start, count, sum);
      if !ok {
        start := 0; // return false
      }
      j := j + 1;
    }
    if ok {
      assert list[..j] == list;
    } else {
      NegativeStays(session.mem, list, j);
    }
    ok := ok && sum == cfg.grant * count;
    if cfg.Valid() && BankList(cfg, session.mem, segs, list) {
      LongVerdict(session, segs, list);
    }
  }

  // ---- alloc_tx ----

  method ReadHeader(session: Session, start: Addr, prev: Addr, count: int, trigger: int)
    returns (count': int, segmentCount: int, next: Val)
    requires session.Valid() && session.st == ACount(start, prev, count, trigger)
    modifies session`log, session`st
    ensures session.Valid() && AllocsOf(session.log) == AllocsOf(old(session.log))
    ensures next == Get(session.mem, Next(start))
    ensures session.st == Resume(session.cfg, ANext(start, prev, count', trigger, segmentCount), next)
    ensures next != 0 ==> session.st == ACount(Ptr(next), start, count', trigger)
  {
    hide Session.Valid, AllocsOf;
    segmentCount := session.Read(Count(start));
    count' := count + segmentCount;
    next := session.Read(Next(start));
  }

  /** The walk to the last segment, with its predecessor and the number of accounts. */
  method FindLast(session: Session, trigger: int, ghost list: seq<Addr>)
    returns (start: Addr, prev: Addr, count: int, segmentCount: int)
    requires session.Valid() && session.st == ACount(session.cfg.start, 0, 0, trigger)
    requires Ends(session.mem, session.cfg.start, list)
    modifies session`log, session`st
    ensures session.Valid() && start == Last(list) && prev == (if |list| == 1 then 0 else list[|list| - 2])
    ensures AllocsOf(session.log) == AllocsOf(old(session.log))
    ensures session.st == Resume(session.cfg, ANext(start, prev, count, trigger, segmentCount), 0)
  {
    hide Session.Valid, AllocsOf, Resume;
    start, prev, count := session.cfg.start, 0, 0;
    ghost var j := 0;
    while true
      invariant session.Valid() && j < |list| && start == list[j] && prev == (if j == 0 then 0 else list[j - 1])
      invariant session.st == ACount(start, prev, count, trigger)
      invariant AllocsOf(session.log) == AllocsOf(old(session.log))
      decreases |list| - j
    {
      assert Linked(session.mem, list, j);
      var segmentNext;
      count, segmentCount, segmentNext := ReadHeader(session, start, prev, count, trigger);
      if segmentNext == 0 {
        return;
      }
      assert list[j + 1] > 0;
      prev, start := start, segmentNext;
      j := j + 1;
    }
  }

  /** The last segment is empty: unlinks it from `prev`, which inherits its parity. */
  method DropSegment(session: Session, prev: Addr, parity: int)
    requires session.Valid() && session.st == AFreeRead(prev, parity)
    modifies session`mem, session`log, session`st
    ensures session.Valid() && session.st == Done(true, 0) && AllocsOf(session.log) == AllocsOf(old(session.log))
  {
    hide Session.Valid, AllocsOf;
    var freed := session.Read(Next(prev));
    session.Write(Next(prev), 0);
    var prevParity := session.Read(Parity(prev));
    session.Write(Parity(prev), prevParity + parity);
  }

  /** Removes the last account; `segmentCount` is what remains in its segment. */
  method RemoveLast(session: Session, start: Addr, prev: Addr, segmentCount: int)
    requires session.Valid() && session.st == AParity(start, prev, segmentCount)
    modifies session`mem, session`log, session`st
    ensures session.Valid() && session.st == Done(true, 0) && AllocsOf(session.log) == AllocsOf(old(session.log))
  {
    hide Session.Valid, AllocsOf;
    var parity := session.Read(Parity(start));
    var last := session.Read(Account(start, Idx(segmentCount)));
    var newParity := parity + last - session.cfg.grant;
    if segmentCount > 0 {
      session.Write(Count(start), segmentCount);
      session.Write(Parity(start), newParity);
    } else {
      DropSegment(session, prev, newParity);
    }
  }

  /** Links a new segment with one account; `got` is what the allocator answers. */
  method AppendSegment(session: Session, start: Addr, got: Segment)
    requires session.Valid() && got.size == session.cfg.Size() && session.st == ANew(start)
    modifies session`mem, session`log, session`st
    ensures session.Valid() && session.st == Done(true, 0)
    ensures AllocsOf(session.log) == AllocsOf(old(session.log)) + {got}
  {
    hide Session.Valid, AllocsOf;
    var base := session.Alloc(session.cfg.Size(), got);
    session.Write(Next(start), base);
    session.Write(Count(base), 1);
    session.Write(Account(base, 0), session.cfg.grant);
  }

  /** Adds an account at the end. */
  method AddLast(session: Session, start: Addr, segmentCount: int, got: Segment)
    requires session.Valid() && got.size == session.cfg.Size()
    requires session.st == if segmentCount < session.cfg.slots then AGrant(start, segmentCount) else ANew(start)
    modifies session`mem, session`log, session`st
    ensures session.Valid() && session.st == Done(true, 0)
    ensures AllocsOf(session.log) == AllocsOf(old(session.log)) + if segmentCount < session.cfg.slots then {} else {got}
  {
    hide Session.Valid, AllocsOf;
    if segmentCount < session.cfg.slots {
      session.Write(Account(start, Idx(segmentCount)), session.cfg.grant);
      session.Write(Count(start), segmentCount + 1);
    } else {
      AppendSegment(session, start, got);
    }
  }

  lemma {:induction false} AllocsListed(log: Log, i: nat)
    requires i < |log| && log[i].Al?
    ensures log[i].seg in AllocsOf(log)
  {
    if i < |log| - 1 {
      AllocsListed(log[..|log| - 1], i);
    }
  }

  /** What alloc_tx did to a memory with the money invariant: the invariant holds again, with one account
      more or one less. */
  lemma AllocVerdict(session: Session, segs: set<Segment>, list: seq<Addr>, trigger: int) returns (list': seq<Addr>)
    requires session.Valid() && session.start == BankBodies.AllocTx(session.cfg, trigger) && session.st == Done(true, 0)
    requires session.cfg.Valid() && BankList(session.cfg, session.initial, segs, list)
    requires forall g :: g in AllocsOf(session.log) ==> Fresh(segs, g)
    ensures BankList(session.cfg, session.mem, segs + AllocsOf(session.log), list')
    ensures OneAccount(session.cfg, session.initial, Flat(session.initial, list), trigger, session.mem,
                       Flat(session.mem, list'))
  {
    forall i | 0 <= i < |session.log| && session.log[i].Al?
      ensures Fresh(segs, session.log[i].seg)
    {
      AllocsListed(session.log, i);
    }
    AllocRun(session.cfg, session.initial, segs, list, trigger, session.log, session.mem, session.st);
    hide BankList, Flat;
    list' := AllocKeeps(session.cfg, session.initial, segs, list, trigger, session.mem, AllocsOf(session.log));
  }

  method AllocTx(session: Session, trigger: int, got: Segment, ghost segs: set<Segment>, ghost list: seq<Addr>)
    returns (ghost list': seq<Addr>)
    requires session.Valid() && session.start == session.st == BankBodies.AllocTx(session.cfg, trigger)
    requires session.mem == session.initial && session.log == [] && Ends(session.mem, session.cfg.start, list)
    requires got.size == session.cfg.Size() && Fresh(segs, got)
    modifies session`mem, session`log, session`st
    ensures session.Valid() && session.st == Done(true, 0) && AllocsOf(session.log) <= {got}
    ensures session.cfg.Valid() && BankList(session.cfg, old(session.mem), segs, list) ==>
              && BankList(session.cfg, session.mem, segs + AllocsOf(session.log), list')
              && OneAccount(session.cfg, old(session.mem), Flat(old(session.mem), list), trigger, session.mem,
                            Flat(session.mem, list'))
  {
    hide Session.Valid, BankList, Flat, Fresh, OneAccount;
    var start, prev, count, segmentCount := FindLast(session, trigger, list);
    if count > trigger && count > 2 {
      RemoveLast(session, start, prev, segmentCount - 1);
    } else {
      AddLast(session, start, segmentCount, got);
    }
    list' := list;
    if session.cfg.Valid() && BankList(session.cfg, session.initial, segs, list) {
      list' := AllocVerdict(session, segs, list, trigger);
    }
  }

  // ---- short_tx ----

  /** Looks for both accounts in one segment; ids count from its first account. */
  method ScanSegment(session: Session, start: Addr, send: int, recv: int, sp: Addr, rp: Addr)
    returns (found: bool, sendId: int, recvId: int, sendPtr: Addr, recvPtr: Addr)
    requires session.Valid() && session.st == SCount(start, send, recv, sp, rp)
    modifies session`log, session`st
    ensures session.Valid()
    ensures session.st == if found then SSend(sendPtr, recvPtr) else SNext(start, sendId, recvId, sendPtr, recvPtr)
  {
    hide Session.Valid, AllocsOf;
    found, sendId, recvId, sendPtr, recvPtr := false, send, recv, sp, rp;
    var segmentCount := session.Read(Count(start));
    if sendPtr == 0 {
      if sendId < segmentCount {
        sendPtr := Account(start, Idx(sendId));
        if recvPtr != 0 {
          found := true;
          return;
        }
      } else {
        sendId := sendId - segmentCount;
      }
    }
    if recvPtr == 0 {
      if recvId < segmentCount {
        recvPtr := Account(start, Idx(recvId));
        if sendPtr != 0 {
          found := true;
          return;
        }
      } else {
        recvId := recvId - segmentCount;
      }
    }
  }

  /** Looks both accounts up, stopping at the second; fails when at least one does not exist. */
  method FindBoth(session: Session, send: nat, recv: nat, ghost list: seq<Addr>)
    returns (found: bool, sendPtr: Addr, recvPtr: Addr)
    requires session.Valid() && session.st == BankBodies.ShortTx(session.cfg, send, recv)
    requires Ends(session.mem, session.cfg.start, list)
    modifies session`log, session`st
    ensures session.Valid()
    ensures session.st == if found then SSend(sendPtr, recvPtr) else Done(false, 0)
  {
    hide Session.Valid, AllocsOf, LookUp;
    var sendId: int, recvId: int := send, recv;
    sendPtr, recvPtr := 0, 0;
    var start := session.cfg.start;
    ghost var j := 0;
    while true
      invariant session.Valid() && j < |list| && start == list[j]
      invariant session.st == SCount(start, sendId, recvId, sendPtr, recvPtr)
      decreases |list| - j
    {
      assert Linked(session.mem, list, j);
      found, sendId, recvId, sendPtr, recvPtr := ScanSegment(session, start, sendId, recvId, sendPtr, recvPtr);
      if found {
        return;
      }
      var next := session.Read(Next(start));
      if next == 0 {
        return;
      }
      assert list[j + 1] > 0;
      start := next;
      j := j + 1;
    }
  }

  lemma ShortVerdict(session: Session, segs: set<Segment>, list: seq<Addr>, send: nat, recv: nat)
    requires session.Valid() && session.start == BankBodies.ShortTx(session.cfg, send, recv) && session.st.Done?
    requires BankList(session.cfg, session.initial, segs, list)
    ensures session.mem == ShortResult(session.initial, list, send, recv)
    ensures session.st.ok <==> BothExist(session.initial, list, send, recv)
    ensures BankList(session.cfg, session.mem, segs, list)
  {
    hide BankList, BothExist, ShortResult;
    ShortOutcome(session.cfg, session.initial, segs, list, send, recv, session.log, session.mem);
    ShortKeeps(session.cfg, session.initial, segs, list, send, recv);
  }

  /** On a memory with the money invariant it reports success exactly when both accounts exist, moves one
      unit from the one to the other if there is one to move, and keeps the invariant. */
  method ShortTx(session: Session, send: nat, recv: nat, ghost segs: set<Segment>, ghost list: seq<Addr>)
    returns (ok: bool)
    requires session.Valid() && session.start == session.st == BankBodies.ShortTx(session.cfg, send, recv)
    requires session.mem == session.initial && Ends(session.mem, session.cfg.start, list)
    modifies session`mem, session`log, session`st
    ensures session.Valid() && session.st == Done(ok, 0)
    ensures BankList(session.cfg, old(session.mem), segs, list) ==>
              && (ok <==> BothExist(old(session.mem), list, send, recv))
              && session.mem == ShortResult(old(session.mem), list, send, recv)
              && BankList(session.cfg, session.mem, segs, list)
  {
    hide Session.Valid, BankList, Flat, BothExist, ShortResult, AllocsOf;
    var sender, recver;
    ok, sender, recver := FindBoth(session, send, recv, list);
    if ok {
      Transfer(session, sender, recver);
    }
    if BankList(session.cfg, session.initial, segs, list) {
      ShortVerdict(session, segs, list, send, recv);
    }
  }

  method Transfer(session: Session, sender: Addr, recver: Addr)
    requires session.Valid() && session.st == SSend(sender, recver)
    modifies session`mem, session`log, session`st
    ensures session.Valid() && session.st == Done(true, 0)
    ensures var m := old(session.mem);
            session.mem == if Get(m, sender) > 0 then BankUpdates.Transfer(m, sender, recver) else m
  {
    hide Session.Valid, AllocsOf;
    var sendVal := session.Read(sender);
    if sendVal > 0 {
      session.Write(sender, sendVal - 1);
      var recvVal := session.Read(recver);
      session.Write(recver, recvVal + 1);
    }
  }

  // ---- init ----

  /** Fills the first segment; the invariant holds afterwards, with `slots` accounts. */
  method Init(session: Session, ghost segs: set<Segment>)
    requires session.Valid() && session.start == session.st == InitTx && session.mem == session.initial
    modifies session`mem, session`log, session`st
    ensures session.Valid() && session.mem == InitMem(session.cfg, old(session.mem), session.cfg.slots)
    ensures session.cfg.Valid() && FirstOnly(session.cfg, old(session.mem), segs) ==>
              && FirstOnly(session.cfg, session.mem, segs)
              && |Flat(session.mem, [session.cfg.start])| == session.cfg.slots
  {
    hide Session.Valid, AllocsOf, FirstOnly, Flat;
    var start := session.cfg.start;
    session.Write(Count(start), session.cfg.slots);
    var i := 0;
    while i < session.cfg.slots
      invariant session.Valid() && i <= session.cfg.slots && session.st == IAccount(i)
      invariant session.mem == InitMem(session.cfg, old(session.mem), i)
    {
      session.Write(Account(start, i), session.cfg.grant);
      i := i + 1;
    }
    if session.cfg.Valid() && FirstOnly(session.cfg, session.initial, segs) {
      InitRefills(session.cfg, session.initial, segs);
    }
  }
}
