/** The initialisation transaction: it fills the first segment, and may be run by every worker. */
module BankInit {
  import opened Options
  import opened Tl2
  import opened Serializability
  import opened Bank
  import opened BankBodies
  import opened BankUpdates
  import opened BankInvariant

  /** Only the first segment is in use, and no account was ever removed. */
  ghost predicate FirstOnly(cfg: Config, m: Mem, segs: set<Segment>) {
    BankList(cfg, m, segs, [cfg.start]) && Get(m, Parity(cfg.start)) == 0
  }

  /** The memory after the count and `i` accounts were written. */
  function InitMem(cfg: Config, m: Mem, i: nat): Mem {
    if i == 0 then m[Count(cfg.start) := cfg.slots]
    else InitMem(cfg, m, i - 1)[Account(cfg.start, i - 1) := cfg.grant]
  }

  ghost predicate InitInv(cfg: Config, m: Mem, st: Local, n: Mem) {
    match st
    case ICount => n == m
    case IAccount(i) => i <= cfg.slots && n == InitMem(cfg, m, i)
    case _ => false
  }

  lemma {:induction false} InitRun(cfg: Config, m: Mem, log: Log, n: Mem, st: Local)
    requires Legal(log, m, n) && After(cfg, InitTx, log) == Some(st)
    ensures InitInv(cfg, m, st, n)
    ensures forall i :: 0 <= i < |log| ==> !log[i].Al?
  {
    if log != [] {
      hide After, InPlace;
      LastAccess(cfg, InitTx, log, m, n, st);
      var p, op := log[..|log| - 1], log[|log| - 1];
      InitRun(cfg, m, p, InPlace(p, m).value, After(cfg, InitTx, p).value);
      forall i | 0 <= i < |log|
        ensures !log[i].Al?
      {
        assert i < |p| ==> log[i] == p[i];
      }
    }
  }

  lemma {:induction false} InitMemValues(cfg: Config, m: Mem, i: nat, a: Addr)
    requires i <= cfg.slots
    ensures a == Count(cfg.start) ==> Get(InitMem(cfg, m, i), a) == cfg.slots
    ensures forall k :: 0 <= k < i && a == Account(cfg.start, k) ==> Get(InitMem(cfg, m, i), a) == cfg.grant
    ensures a in {Next(cfg.start), Parity(cfg.start)} ==> Get(InitMem(cfg, m, i), a) == Get(m, a)
    ensures a in InitMem(cfg, m, i) ==> a in m || Within(a, cfg.SegmentAt(cfg.start))
    ensures a != Count(cfg.start) && (forall k :: 0 <= k < i ==> a != Account(cfg.start, k)) ==>
              Get(InitMem(cfg, m, i), a) == Get(m, a)
  {
    if i > 0 {
      InitMemValues(cfg, m, i - 1, a);
    }
  }

  lemma {:induction false} SumConstant(m: Mem, seg: Addr, n: nat, x: int)
    requires forall k :: 0 <= k < n ==> Get(m, Account(seg, k)) == x
    ensures Sum(m, Slots(seg, n)) == x * n
  {
    if n > 0 {
      SumConstant(m, seg, n - 1, x);
      SlotsSnoc(m, seg, n - 1);
      Distribute(x, n - 1, 1);
    } else {
      assert Slots(seg, 0) == [];
    }
  }

  lemma FlatOne(cfg: Config, m: Mem)
    ensures Flat(m, [cfg.start]) == Slots(cfg.start, CountOf(m, cfg.start))
    ensures SumParity(m, [cfg.start]) == Get(m, Parity(cfg.start))
  {
    assert [cfg.start][..0] == [];
    assert [cfg.start][..|[cfg.start]| - 1] == [];
  }

  /** The count and the accounts of the first segment, and nothing else. */
  ghost predicate Initialises(cfg: Config, m: Mem, n: Mem) {
    && Get(n, Count(cfg.start)) == cfg.slots
    && (forall k: nat :: k < cfg.slots ==> Get(n, Account(cfg.start, k)) == cfg.grant)
    && forall a: Addr ::
         a != Count(cfg.start) && (forall k: nat :: k < cfg.slots ==> a != Account(cfg.start, k)) ==>
           Get(n, a) == Get(m, a)
  }

  lemma InitExact(cfg: Config, m: Mem)
    ensures Initialises(cfg, m, InitMem(cfg, m, cfg.slots))
  {
    hide InitMem;
    var n := InitMem(cfg, m, cfg.slots);
    InitHeader(cfg, m);
    forall k: nat | k < cfg.slots
      ensures Get(n, Account(cfg.start, k)) == cfg.grant
    {
      InitMemValues(cfg, m, cfg.slots, Account(cfg.start, k));
    }
    forall a: Addr | a != Count(cfg.start) && forall k: nat :: k < cfg.slots ==> a != Account(cfg.start, k)
      ensures Get(n, a) == Get(m, a)
    {
      InitMemValues(cfg, m, cfg.slots, a);
    }
  }

  lemma InitStaysInside(cfg: Config, m: Mem, segs: set<Segment>)
    requires Confined(m, segs) && cfg.SegmentAt(cfg.start) in segs
    ensures Confined(InitMem(cfg, m, cfg.slots), segs)
  {
    var n := InitMem(cfg, m, cfg.slots);
    hide InitMem;
    forall a | a in n
      ensures exists g :: g in segs && Within(a, g)
    {
      InitMemValues(cfg, m, cfg.slots, a);
    }
  }

  /** One full segment without parity. */
  lemma FullSegment(cfg: Config, n: Mem, segs: set<Segment>)
    requires cfg.Valid() && cfg.SegmentAt(cfg.start) in segs && Confined(n, segs)
    requires Get(n, Count(cfg.start)) == cfg.slots && Get(n, Next(cfg.start)) == 0 && Get(n, Parity(cfg.start)) == 0
    requires forall k: nat :: k < cfg.slots ==> Get(n, Account(cfg.start, k)) == cfg.grant
    ensures FirstOnly(cfg, n, segs) && |Flat(n, [cfg.start])| == cfg.slots
  {
    hide Confined, Solvent, Sum, Flat;
    FullSolvent(cfg, n);
  }

  lemma FullSolvent(cfg: Config, n: Mem)
    requires Get(n, Count(cfg.start)) == cfg.slots && Get(n, Parity(cfg.start)) == 0 && cfg.grant >= 0
    requires forall k: nat :: k < cfg.slots ==> Get(n, Account(cfg.start, k)) == cfg.grant
    ensures Solvent(cfg, n, [cfg.start]) && |Flat(n, [cfg.start])| == cfg.slots
  {
    hide Flat, Sum, SumParity;
    FlatOne(cfg, n);
    SumConstant(n, cfg.start, cfg.slots, cfg.grant);
  }

  lemma FirstSegment(cfg: Config, m: Mem, segs: set<Segment>)
    requires FirstOnly(cfg, m, segs)
    ensures cfg.SegmentAt(cfg.start) in segs && Confined(m, segs)
    ensures Get(m, Next(cfg.start)) == 0 && Get(m, Parity(cfg.start)) == 0
  {
    assert Linked(m, [cfg.start], 0);
    assert cfg.SegmentAt([cfg.start][0]) in segs;
  }

  /** Initialising fills the first segment. */
  lemma InitRefills(cfg: Config, m: Mem, segs: set<Segment>)
    requires cfg.Valid() && FirstOnly(cfg, m, segs)
    ensures FirstOnly(cfg, InitMem(cfg, m, cfg.slots), segs)
    ensures |Flat(InitMem(cfg, m, cfg.slots), [cfg.start])| == cfg.slots
  {
    hide FirstOnly, InitMem, Confined, Flat;
    FirstSegment(cfg, m, segs);
    InitHeader(cfg, m);
    InitExact(cfg, m);
    InitStaysInside(cfg, m, segs);
    FullSegment(cfg, InitMem(cfg, m, cfg.slots), segs);
  }

  /** Initialising gives every slot of the first segment the initial balance, and changes nothing else. */
  lemma InitKeeps(cfg: Config, m: Mem, segs: set<Segment>)
    requires cfg.Valid() && FirstOnly(cfg, m, segs)
    ensures FirstOnly(cfg, InitMem(cfg, m, cfg.slots), segs)
    ensures |Flat(InitMem(cfg, m, cfg.slots), [cfg.start])| == cfg.slots
    ensures Initialises(cfg, m, InitMem(cfg, m, cfg.slots))
  {
    hide FirstOnly, InitMem, Flat;
    InitRefills(cfg, m, segs);
    InitExact(cfg, m);
  }

  lemma InitHeader(cfg: Config, m: Mem)
    ensures var n := InitMem(cfg, m, cfg.slots);
            && Get(n, Count(cfg.start)) == cfg.slots
            && Get(n, Next(cfg.start)) == Get(m, Next(cfg.start))
            && Get(n, Parity(cfg.start)) == Get(m, Parity(cfg.start))
  {
    InitMemValues(cfg, m, cfg.slots, Count(cfg.start));
    InitMemValues(cfg, m, cfg.slots, Next(cfg.start));
    InitMemValues(cfg, m, cfg.slots, Parity(cfg.start));
  }

  /** The zeroed memory of tm_create is a bank without accounts. */
  lemma ZeroIsFirstOnly(cfg: Config)
    requires cfg.Valid()
    ensures FirstOnly(cfg, map[], {cfg.SegmentAt(cfg.start)})
  {
    FlatOne(cfg, map[]);
    assert Slots(cfg.start, 0) == [];
  }
}
