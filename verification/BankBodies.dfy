/** The transaction bodies of the bank workload, one access to shared memory at a time. A body is a
    machine: `Act` is its next access, `Resume` the rest of the body once that access was answered. */
module BankBodies {
  import opened Options
  import opened Tl2
  import opened Bank

  datatype Action =
    | DoRead(addr: Addr)
    | DoWrite(addr: Addr, val: Val)
    | DoAlloc(size: nat)
    | Return

  /** Local variables at each access. A null pointer is 0. */
  datatype Local =
    // long_tx
    | LCount(seg: Addr, count: int, sum: int)
    | LParity(seg: Addr, count: int, sum: int, n: int)
    | LAccount(seg: Addr, count: int, sum: int, n: int, i: nat)
    // alloc_tx: the walk to the last segment
    | ACount(seg: Addr, prev: Addr, count: int, trigger: int)
    | ANext(seg: Addr, prev: Addr, count: int, trigger: int, n: int)
    // ... removing an account; n is already decremented
    | AParity(seg: Addr, prev: Addr, n: int)
    | AAccount(seg: Addr, prev: Addr, n: int, parity: int)
    | ASetCount(seg: Addr, n: int, parity: int)
    | ASetParity(seg: Addr, parity: int)
    | AFreeRead(prev: Addr, parity: int)
    | AFreeWrite(prev: Addr, parity: int)
    | APrevParity(prev: Addr, parity: int)
    | APrevSetParity(prev: Addr, parity: int)
    // ... adding an account
    | AGrant(seg: Addr, n: int)
    | AGrantCount(seg: Addr, n: int)
    | ANew(seg: Addr)
    | ALink(seg: Addr, base: Addr)
    | ANewCount(base: Addr)
    | ANewAccount(base: Addr)
    // short_tx: the walk that looks both accounts up
    | SCount(seg: Addr, send: int, recv: int, sp: Addr, rp: Addr)
    | SNext(seg: Addr, send: int, recv: int, sp: Addr, rp: Addr)
    // ... the transfer
    | SSend(sp: Addr, rp: Addr)
    | SDebit(sp: Addr, rp: Addr, val: int)
    | SRecv(rp: Addr)
    | SCredit(rp: Addr, val: int)
    // init
    | ICount
    | IAccount(i: nat)
    | Done(ok: bool, count: int)

  function Idx(n: int): nat {
    if n < 0 then 0 else n
  }

  function LongTx(cfg: Config): Local { LCount(cfg.start, 0, 0) }
  function AllocTx(cfg: Config, trigger: int): Local { ACount(cfg.start, 0, 0, trigger) }
  function ShortTx(cfg: Config, send: nat, recv: nat): Local { SCount(cfg.start, send, recv, 0, 0) }
  const InitTx: Local := ICount

  function Act(cfg: Config, st: Local): Action {
    match st
    case LCount(seg, _, _) => DoRead(Count(seg))
    case LParity(seg, _, _, _) => DoRead(Parity(seg))
    case LAccount(seg, _, _, n, i) => if i < n then DoRead(Account(seg, i)) else DoRead(Next(seg))
    case ACount(seg, _, _, _) => DoRead(Count(seg))
    case ANext(seg, _, _, _, _) => DoRead(Next(seg))
    case AParity(seg, _, _) => DoRead(Parity(seg))
    case AAccount(seg, _, n, _) => DoRead(Account(seg, Idx(n)))
    case ASetCount(seg, n, _) => DoWrite(Count(seg), n)
    case ASetParity(seg, parity) => DoWrite(Parity(seg), parity)
    case AFreeRead(prev, _) => DoRead(Next(prev))
    case AFreeWrite(prev, _) => DoWrite(Next(prev), 0)
    case APrevParity(prev, _) => DoRead(Parity(prev))
    case APrevSetParity(prev, parity) => DoWrite(Parity(prev), parity)
    case AGrant(seg, n) => DoWrite(Account(seg, Idx(n)), cfg.grant)
    case AGrantCount(seg, n) => DoWrite(Count(seg), n + 1)
    case ANew(_) => DoAlloc(cfg.Size())
    case ALink(seg, base) => DoWrite(Next(seg), base)
    case ANewCount(base) => DoWrite(Count(base), 1)
    case ANewAccount(base) => DoWrite(Account(base, 0), cfg.grant)
    case SCount(seg, _, _, _, _) => DoRead(Count(seg))
    case SNext(seg, _, _, _, _) => DoRead(Next(seg))
    case SSend(sp, _) => DoRead(sp)
    case SDebit(sp, _, val) => DoWrite(sp, val - 1)
    case SRecv(rp) => DoRead(rp)
    case SCredit(rp, val) => DoWrite(rp, val + 1)
    case ICount => DoWrite(Count(cfg.start), cfg.slots)
    case IAccount(i) => if i < cfg.slots then DoWrite(Account(cfg.start, i), cfg.grant) else Return
    case Done(_, _) => Return
  }

  /** Addresses and sizes are read back from memory as values. */
  function Ptr(x: Val): Addr {
    if x < 0 then 0 else x
  }

  function Resume(cfg: Config, st: Local, x: Val): Local {
    match st
    case LCount(seg, count, sum) => LParity(seg, count + x, sum, x)
    case LParity(seg, count, sum, n) => LAccount(seg, count, sum + x, n, 0)
    case LAccount(seg, count, sum, n, i) =>
      if i < n then
        if x < 0 then Done(false, 0) else LAccount(seg, count, sum + x, n, i + 1)
      else if x == 0 then Done(sum == cfg.grant * count, count)
      else LCount(Ptr(x), count, sum)
    case ACount(seg, prev, count, trigger) => ANext(seg, prev, count + x, trigger, x)
    case ANext(seg, prev, count, trigger, n) =>
      if x != 0 then ACount(Ptr(x), seg, count, trigger)
      else if count > trigger && count > 2 then AParity(seg, prev, n - 1)
      else if n < cfg.slots then AGrant(seg, n)
      else ANew(seg)
    case AParity(seg, prev, n) => AAccount(seg, prev, n, x)
    case AAccount(seg, prev, n, parity) =>
      var corrected := parity + x - cfg.grant;
      if n > 0 then ASetCount(seg, n, corrected) else AFreeRead(prev, corrected)
    case ASetCount(seg, n, parity) => ASetParity(seg, parity)
    case ASetParity(_, _) => Done(true, 0)
    case AFreeRead(prev, parity) => AFreeWrite(prev, parity) // tm_free does nothing
    case AFreeWrite(prev, parity) => APrevParity(prev, parity)
    case APrevParity(prev, parity) => APrevSetParity(prev, x + parity)
    case APrevSetParity(_, _) => Done(true, 0)
    case AGrant(seg, n) => AGrantCount(seg, n)
    case AGrantCount(_, _) => Done(true, 0)
    case ANew(seg) => ALink(seg, Ptr(x))
    case ALink(_, base) => ANewCount(base)
    case ANewCount(base) => ANewAccount(base)
    case ANewAccount(_) => Done(true, 0)
    case SCount(seg, send, recv, sp, rp) => LookUp(seg, send, recv, sp, rp, x)
    case SNext(seg, send, recv, sp, rp) =>
      if x == 0 then Done(false, 0) else SCount(Ptr(x), send, recv, sp, rp)
    case SSend(sp, rp) => if x > 0 then SDebit(sp, rp, x) else Done(true, 0)
    case SDebit(_, rp, _) => SRecv(rp)
    case SRecv(rp) => SCredit(rp, x)
    case SCredit(_, _) => Done(true, 0)
    case ICount => IAccount(0)
    case IAccount(i) => IAccount(i + 1)
    case Done(_, _) => st
  }

  /** The body of short_tx's loop between the read of the count and the read of the next pointer. */
  function LookUp(seg: Addr, send: int, recv: int, sp: Addr, rp: Addr, n: int): Local {
    var found := sp == 0 && send < n;
    var sp' := if found then Account(seg, Idx(send)) else sp;
    var send' := if sp == 0 && !found then send - n else send;
    if found && rp != 0 then SSend(sp', rp)
    else
      var found' := rp == 0 && recv < n;
      var rp' := if found' then Account(seg, Idx(recv)) else rp;
      var recv' := if rp == 0 && !found' then recv - n else recv;
      if found' && sp' != 0 then SSend(sp', rp')
      else SNext(seg, send', recv', sp', rp')
  }

  // ---- A log is a run of a body ----

  predicate Performs(act: Action, op: Op) {
    match act
    case DoRead(a) => op.Rd? && op.addr == a
    case DoWrite(a, x) => op == Wr(a, x)
    case DoAlloc(n) => op.Al? && op.seg.size == n
    case Return => false
  }

  function Answer(op: Op): Val {
    match op
    case Rd(_, x, _, _) => x
    case Wr(_, _) => 0
    case Al(g) => g.base
  }

  /** Where the body is after the accesses in `log`; None when the log is not a run of the body. */
  function After(cfg: Config, st: Local, log: Log): Option<Local> {
    if log == [] then Some(st)
    else
      match After(cfg, st, log[..|log| - 1])
      case None => None
      case Some(st') =>
        if Performs(Act(cfg, st'), log[|log| - 1]) then Some(Resume(cfg, st', Answer(log[|log| - 1]))) else None
  }
}
