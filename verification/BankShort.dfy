/** short_tx run alone on a memory that satisfies the invariant: it finds exactly the two accounts it
    was asked for and moves one unit, or reports that one of them does not exist. */
module BankShort {
  import opened Options
  import opened Tl2
  import opened Serializability
  import opened Bank
  import opened BankBodies
  import opened BankUpdates
  import opened BankInvariant

  /** The lookup of account `id` after `j` segments: found, or still that many accounts ahead. */
  ghost predicate Located(m: Mem, list: seq<Addr>, j: nat, id: nat, cur: int, ptr: Addr)
    requires j <= |list|
  {
    if id < |Flat(m, list[..j])| then id < |Flat(m, list)| && ptr == Flat(m, list)[id] && ptr > 0
    else ptr == 0 && cur == id - |Flat(m, list[..j])|
  }

  ghost predicate ShortAt(m: Mem, list: seq<Addr>, send: nat, recv: nat, st: Local, j: nat) {
    && (st.SCount? || st.SNext?)
    && j < |list| && st.seg == list[j]
    && (st.sp == 0 || st.rp == 0)
    && (st.SCount? ==> Located(m, list, j, send, st.send, st.sp) && Located(m, list, j, recv, st.recv, st.rp))
    && (st.SNext? ==> Located(m, list, j + 1, send, st.send, st.sp) && Located(m, list, j + 1, recv, st.recv, st.rp))
  }

  predicate BothExist(m: Mem, list: seq<Addr>, send: nat, recv: nat) {
    send < |Flat(m, list)| && recv < |Flat(m, list)|
  }

  /** The memory after short_tx. */
  function ShortResult(m: Mem, list: seq<Addr>, send: nat, recv: nat): Mem {
    if BothExist(m, list, send, recv) && Get(m, Flat(m, list)[send]) > 0
    then Transfer(m, Flat(m, list)[send], Flat(m, list)[recv])
    else m
  }

  /** `m` is the memory the transaction began with, `n` the one it has produced so far. */
  ghost predicate ShortInv(m: Mem, list: seq<Addr>, send: nat, recv: nat, st: Local, n: Mem) {
    if st.SCount? || st.SNext? then n == m && exists j :: ShortAt(m, list, send, recv, st, j)
    else if st.Done? then (st.ok <==> BothExist(m, list, send, recv)) && n == ShortResult(m, list, send, recv)
    else BothExist(m, list, send, recv) && MovingInv(m, Flat(m, list)[send], Flat(m, list)[recv], st, n)
  }

  /** Between the lookup and the end: `f` pays `t`. */
  predicate MovingInv(m: Mem, f: Addr, t: Addr, st: Local, n: Mem) {
    if st.SSend? then n == m && st.sp == f && st.rp == t
    else
      && (st.SDebit? || st.SRecv? || st.SCredit?)
      && Get(m, f) > 0 && st.rp == t
      && n == (if st.SDebit? then m else m[f := Get(m, f) - 1])
      && (st.SDebit? ==> st.sp == f && st.val == Get(m, f))
      && (st.SCredit? ==> st.val == Get(n, t))
  }

  lemma ShortStarts(cfg: Config, m: Mem, segs: set<Segment>, list: seq<Addr>, send: nat, recv: nat)
    requires BankList(cfg, m, segs, list)
    ensures ShortInv(m, list, send, recv, ShortTx(cfg, send, recv), m)
  {
    assert list[..0] == [];
    assert ShortAt(m, list, send, recv, ShortTx(cfg, send, recv), 0);
  }

  /** Looking an account up in one more segment. */
  lemma LocateNext(cfg: Config, m: Mem, list: seq<Addr>, j: nat, id: nat, cur: int, ptr: Addr)
    requires Packed(cfg, m, list) && j < |list| && Located(m, list, j, id, cur, ptr)
    ensures var n := Get(m, Count(list[j]));
            var found := ptr == 0 && cur < n;
            && (ptr == 0 ==> cur >= 0)
            && Located(m, list, j + 1, id, if ptr == 0 && !found then cur - n else cur,
                       if found then Account(list[j], Idx(cur)) else ptr)
  {
    CountIsNatural(cfg, m, list, j);
    FlatPrefix(m, list, j);
    FlatIsPrefix(m, list, j);
    FlatIsPrefix(m, list, j + 1);
    var n := Get(m, Count(list[j]));
    if ptr == 0 && cur < n {
      assert Flat(m, list[..j + 1])[id] == Slots(list[j], n)[cur];
    }
  }

  /** An account located within a prefix of the list is the account. */
  lemma LocatedFound(m: Mem, list: seq<Addr>, j: nat, id: nat, cur: int, ptr: Addr)
    requires j <= |list| && Located(m, list, j, id, cur, ptr) && ptr != 0
    ensures id < |Flat(m, list)| && ptr == Flat(m, list)[id]
  {
  }

  lemma LookUpStep(cfg: Config, m: Mem, list: seq<Addr>, send: nat, recv: nat, st: Local, j: nat)
    requires Packed(cfg, m, list) && st.SCount? && ShortAt(m, list, send, recv, st, j)
    ensures ShortInv(m, list, send, recv, Resume(cfg, st, Get(m, Count(st.seg))), m)
  {
    var n := Get(m, Count(st.seg));
    LocateNext(cfg, m, list, j, send, st.send, st.sp);
    LocateNext(cfg, m, list, j, recv, st.recv, st.rp);
    var foundS := st.sp == 0 && st.send < n;
    var foundR := st.rp == 0 && st.recv < n;
    var sp := if foundS then Account(st.seg, Idx(st.send)) else st.sp;
    var rp := if foundR then Account(st.seg, Idx(st.recv)) else st.rp;
    var send' := if st.sp == 0 && !foundS then st.send - n else st.send;
    var recv' := if st.rp == 0 && !foundR then st.recv - n else st.recv;
    var st' := Resume(cfg, st, n);
    hide Located, Flat;
    if sp != 0 && rp != 0 {
      LocatedFound(m, list, j + 1, send, send', sp);
      LocatedFound(m, list, j + 1, recv, recv', rp);
      assert st' == SSend(sp, rp);
    } else {
      assert ShortAt(m, list, send, recv, st', j);
    }
  }

  lemma NextStep(cfg: Config, m: Mem, segs: set<Segment>, list: seq<Addr>, send: nat, recv: nat, st: Local, j: nat)
    requires BankList(cfg, m, segs, list) && st.SNext? && ShortAt(m, list, send, recv, st, j)
    ensures ShortInv(m, list, send, recv, Resume(cfg, st, Get(m, Next(st.seg))), m)
  {
    assert Linked(m, list, j);
    var st' := Resume(cfg, st, Get(m, Next(st.seg)));
    if j + 1 < |list| {
      assert list[j + 1] > 0;
      assert ShortAt(m, list, send, recv, st', j + 1);
    } else {
      assert list[..j + 1] == list;
    }
  }

  /** One access of the transfer. */
  lemma MovingStep(cfg: Config, m: Mem, f: Addr, t: Addr, st: Local, n: Mem, op: Op, n': Mem)
    requires MovingInv(m, f, t, st, n) && Performs(Act(cfg, st), op) && Effect(op, n, n')
    ensures var st' := Resume(cfg, st, Answer(op));
            if st'.Done? then st'.ok && n' == (if Get(m, f) > 0 then Transfer(m, f, t) else m)
            else MovingInv(m, f, t, st', n') && !st'.SCount? && !st'.SNext?
  {
  }

  /** One access of the lookup. */
  lemma WalkStep(cfg: Config, m: Mem, segs: set<Segment>, list: seq<Addr>, send: nat, recv: nat, st: Local, op: Op,
                 n: Mem)
    requires BankList(cfg, m, segs, list) && (st.SCount? || st.SNext?)
    requires exists j :: ShortAt(m, list, send, recv, st, j)
    requires Performs(Act(cfg, st), op) && Effect(op, m, n)
    ensures ShortInv(m, list, send, recv, Resume(cfg, st, Answer(op)), n)
  {
    var j :| ShortAt(m, list, send, recv, st, j);
    if st.SCount? {
      assert n == m && Answer(op) == Get(m, Count(st.seg));
      assert Packed(cfg, m, list);
      hide BankList, ShortAt, ShortInv, Resume, Performs, Act, Effect, Packed;
      LookUpStep(cfg, m, list, send, recv, st, j);
    } else {
      assert n == m && Answer(op) == Get(m, Next(st.seg));
      hide BankList, ShortAt, ShortInv, Resume, Performs, Act, Effect;
      NextStep(cfg, m, segs, list, send, recv, st, j);
    }
  }

  /** One access of short_tx: the memory before it is `n`, after it `n'`. */
  lemma ShortStep(cfg: Config, m: Mem, segs: set<Segment>, list: seq<Addr>, send: nat, recv: nat,
                  st: Local, n: Mem, op: Op, n': Mem)
    requires BankList(cfg, m, segs, list) && ShortInv(m, list, send, recv, st, n)
    requires Performs(Act(cfg, st), op) && Effect(op, n, n')
    ensures ShortInv(m, list, send, recv, Resume(cfg, st, Answer(op)), n')
  {
    hide BankList, Flat, ShortAt, MovingInv, Resume, Transfer, Effect, Performs, Answer;
    if st.SCount? || st.SNext? {
      hide ShortInv, Act;
      WalkStep(cfg, m, segs, list, send, recv, st, op, n');
    } else if st.Done? {
      assert Act(cfg, st).Return?;
      NothingAfterReturn(cfg, st, op);
    } else {
      hide Act;
      MovingStep(cfg, m, Flat(m, list)[send], Flat(m, list)[recv], st, n, op, n');
    }
  }

  lemma NothingAfterReturn(cfg: Config, st: Local, op: Op)
    requires Act(cfg, st).Return?
    ensures !Performs(Act(cfg, st), op)
  {
  }

  /** The states of short_tx. */
  predicate InShort(st: Local) {
    st.SCount? || st.SNext? || st.SSend? || st.SDebit? || st.SRecv? || st.SCredit? || st.Done?
  }

  /** short_tx never allocates, and returns only when it is done. */
  lemma {:induction false} ShortStates(cfg: Config, send: nat, recv: nat, log: Log)
    requires After(cfg, ShortTx(cfg, send, recv), log).Some?
    ensures InShort(After(cfg, ShortTx(cfg, send, recv), log).value)
    ensures forall i :: 0 <= i < |log| ==> !log[i].Al?
  {
    if log != [] {
      var p := log[..|log| - 1];
      ShortStates(cfg, send, recv, p);
      forall i | 0 <= i < |log|
        ensures !log[i].Al?
      {
        assert i < |p| ==> log[i] == p[i];
      }
    }
  }

  /** Any run of short_tx that is legal on a memory satisfying the invariant: when it returns, it returned
      true exactly when both accounts exist, and the memory is the transfer's result. */
  lemma {:induction false} ShortRun(cfg: Config, m: Mem, segs: set<Segment>, list: seq<Addr>, send: nat, recv: nat,
                                    log: Log, n: Mem, st: Local)
    requires BankList(cfg, m, segs, list)
    requires Legal(log, m, n) && After(cfg, ShortTx(cfg, send, recv), log) == Some(st)
    ensures ShortInv(m, list, send, recv, st, n)
  {
    if log == [] {
      ShortStarts(cfg, m, segs, list, send, recv);
    } else {
      hide After, InPlace, ShortInv, BankList, Act, Resume, Performs, Effect, Answer;
      LastAccess(cfg, ShortTx(cfg, send, recv), log, m, n, st);
      var p, op := log[..|log| - 1], log[|log| - 1];
      var before := After(cfg, ShortTx(cfg, send, recv), p).value;
      var mid := InPlace(p, m).value;
      ShortRun(cfg, m, segs, list, send, recv, p, mid, before);
      ShortStep(cfg, m, segs, list, send, recv, before, mid, op, n);
    }
  }

  /** Among its states only the final one returns. */
  lemma ReturnsDone(cfg: Config, st: Local)
    requires InShort(st) && Act(cfg, st) == Return
    ensures st.Done?
  {
  }

  /** How a complete run of short_tx on a memory satisfying the invariant ends. */
  lemma ShortOutcome(cfg: Config, m: Mem, segs: set<Segment>, list: seq<Addr>, send: nat, recv: nat, log: Log, n: Mem)
    requires BankList(cfg, m, segs, list) && InPlace(log, m) == Some(n)
    requires After(cfg, ShortTx(cfg, send, recv), log).Some?
    requires Act(cfg, After(cfg, ShortTx(cfg, send, recv), log).value) == Return
    ensures n == ShortResult(m, list, send, recv)
    ensures Returned(After(cfg, ShortTx(cfg, send, recv), log).value, BothExist(m, list, send, recv))
    ensures forall i :: 0 <= i < |log| ==> !log[i].Al?
  {
    hide After, InPlace, BankList, Act, InShort, ShortResult, BothExist, MovingInv, ShortAt, ShortTx;
    var st := After(cfg, ShortTx(cfg, send, recv), log).value;
    ShortRun(cfg, m, segs, list, send, recv, log, n, st);
    ShortStates(cfg, send, recv, log);
    ReturnsDone(cfg, st);
  }

  /** One unit, and nothing else. */
  lemma ShortExact(m: Mem, list: seq<Addr>, send: nat, recv: nat)
    ensures var f, n := Flat(m, list), ShortResult(m, list, send, recv);
            if send < |f| && recv < |f| && Get(m, f[send]) > 0
            then forall a :: Get(n, a) == Get(m, a) - (if a == f[send] then 1 else 0) + (if a == f[recv] then 1 else 0)
            else n == m
  {
    hide Flat;
  }

  /** A complete run of short_tx on a memory satisfying the invariant: true iff both accounts exist, and if the sender
      has something, exactly one unit moves. */
  lemma ShortCompletes(cfg: Config, m: Mem, segs: set<Segment>, list: seq<Addr>, send: nat, recv: nat, log: Log, n: Mem)
    requires BankList(cfg, m, segs, list) && InPlace(log, m) == Some(n)
    requires After(cfg, ShortTx(cfg, send, recv), log).Some?
    requires Act(cfg, After(cfg, ShortTx(cfg, send, recv), log).value) == Return
    ensures n == ShortResult(m, list, send, recv)
    ensures var f := Flat(m, list);
            if send < |f| && recv < |f| && Get(m, f[send]) > 0
            then forall a :: Get(n, a) == Get(m, a) - (if a == f[send] then 1 else 0) + (if a == f[recv] then 1 else 0)
            else n == m
    ensures Returned(After(cfg, ShortTx(cfg, send, recv), log).value, BothExist(m, list, send, recv))
    ensures forall i :: 0 <= i < |log| ==> !log[i].Al?
  {
    hide BankList, InPlace, After, Act, ShortResult, BothExist;
    ShortOutcome(cfg, m, segs, list, send, recv, log, n);
    ShortExact(m, list, send, recv);
  }

  predicate Returned(st: Local, ok: bool) {
    st.Done? && st.ok == ok
  }

  /** short_tx keeps the invariant: no account disappears, none goes negative, no money is made or lost,
      even when sender and receiver are one account. */
  lemma ShortKeeps(cfg: Config, m: Mem, segs: set<Segment>, list: seq<Addr>, send: nat, recv: nat)
    requires BankList(cfg, m, segs, list)
    ensures BankList(cfg, ShortResult(m, list, send, recv), segs, list)
    ensures Flat(ShortResult(m, list, send, recv), list) == Flat(m, list)
  {
    if BothExist(m, list, send, recv) && Get(m, Flat(m, list)[send]) > 0 {
      TransferKeeps(cfg, m, segs, list, send, recv);
    }
  }
}
