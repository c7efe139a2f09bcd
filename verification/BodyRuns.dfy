/** The bodies of the bank workload carried out by one transaction of Tl2 while nobody else moves. */
module BodyRuns {
  import opened LockWord
  import opened Options
  import opened Tl2
  import opened Tl2Invariant
  import opened Tl2Code
  import opened Executions
  import opened CodeRuns
  import opened Bank
  import opened BankBodies

  /** A body and what it has buffered. */
  datatype Play = Play(st: Local, ws: Mem)

  /** Its next read or write, over memory `m`. */
  function PlayOne(cfg: Config, m: Mem, p: Play): Play {
    match Act(cfg, p.st)
    case DoRead(a) => p.(st := Resume(cfg, p.st, Get(m + p.ws, a)))
    case DoWrite(a, x) => Play(Resume(cfg, p.st, 0), p.ws[a := x])
    case _ => p
  }

  function PlayN(cfg: Config, m: Mem, p: Play, n: nat): Play
    decreases n
  {
    if n == 0 then p else PlayN(cfg, m, PlayOne(cfg, m, p), n - 1)
  }

  /** The next `n` actions are reads that the library accepts, and writes of a transaction that may write. */
  ghost predicate Smooth(cfg: Config, s: State, rv: nat, ro: bool, p: Play, n: nat)
    decreases n
  {
    n == 0
    || (&& SmoothOne(cfg, s, rv, ro, p)
        && Smooth(cfg, s, rv, ro, PlayOne(cfg, s.mem, p), n - 1))
  }

  predicate SmoothOne(cfg: Config, s: State, rv: nat, ro: bool, p: Play) {
    match Act(cfg, p.st)
    case DoRead(a) => StillValid(s.locks, {}, rv, a)
    case DoWrite(_, _) => !ro
    case _ => false
  }

  /** Only lock words and memory matter. */
  lemma {:induction false} SmoothSame(cfg: Config, s: State, s': State, rv: nat, ro: bool, p: Play, n: nat)
    requires Smooth(cfg, s, rv, ro, p, n) && s'.locks == s.locks && s'.mem == s.mem
    ensures Smooth(cfg, s', rv, ro, p, n)
    decreases n
  {
    if n > 0 {
      SmoothSame(cfg, s, s', rv, ro, PlayOne(cfg, s.mem, p), n - 1);
    }
  }

  /** In a still state whatever a transaction of the present does is smooth. */
  lemma StillIsSmooth(cfg: Config, s: State, p: Play)
    requires Still(s) && (Act(cfg, p.st).DoRead? || Act(cfg, p.st).DoWrite?)
    ensures SmoothOne(cfg, s, s.gvc, false, p)
    ensures Act(cfg, p.st).DoRead? ==> SmoothOne(cfg, s, s.gvc, true, p)
  {
  }

  predicate Follows(cfg: Config, s: State, ro: bool, p: Play, p': Play) {
    SmoothOne(cfg, s, s.gvc, ro, p) && PlayOne(cfg, s.mem, p) == p'
  }

  /** A whole script of actions. */
  lemma {:induction false} Script(cfg: Config, s: State, ro: bool, p: seq<Play>)
    requires |p| > 0 && forall i: nat :: i < |p| - 1 ==> Follows(cfg, s, ro, p[i], p[i + 1])
    ensures Smooth(cfg, s, s.gvc, ro, p[0], |p| - 1) && PlayN(cfg, s.mem, p[0], |p| - 1) == p[|p| - 1]
  {
    hide SmoothOne, PlayOne;
    if |p| > 1 {
      assert Follows(cfg, s, ro, p[0], p[1]);
      forall i: nat | i < |p[1..]| - 1
        ensures Follows(cfg, s, ro, p[1..][i], p[1..][i + 1])
      {
        assert Follows(cfg, s, ro, p[i + 1], p[i + 2]);
      }
      Script(cfg, s, ro, p[1..]);
    }
  }

  /** Actions after actions. */
  lemma {:induction false} Join(cfg: Config, s: State, ro: bool, p: Play, a: nat, q: Play, b: nat)
    requires Smooth(cfg, s, s.gvc, ro, p, a) && PlayN(cfg, s.mem, p, a) == q && Smooth(cfg, s, s.gvc, ro, q, b)
    ensures Smooth(cfg, s, s.gvc, ro, p, a + b) && PlayN(cfg, s.mem, p, a + b) == PlayN(cfg, s.mem, q, b)
    decreases a
  {
    hide SmoothOne, PlayOne;
    if a > 0 {
      Join(cfg, s, ro, PlayOne(cfg, s.mem, p), a - 1, q, b);
    }
  }

  lemma AfterOne(cfg: Config, body: Local, log: Log, st: Local, op: Op)
    requires After(cfg, body, log) == Some(st) && Performs(Act(cfg, st), op)
    ensures After(cfg, body, log + [op]) == Some(Resume(cfg, st, Answer(op)))
  {
    assert (log + [op])[..|log|] == log;
  }

  /** `tx` stands where the body stands at `p`. */
  ghost predicate Stands(cfg: Config, body: Local, tx: Tx, p: Play) {
    tx.pc == Body && After(cfg, body, tx.log) == Some(p.st) && tx.writeSet == p.ws && (tx.ro ==> p.ws == map[])
  }

  predicate SameButLog(tx: Tx, tx': Tx) {
    tx' == tx.(readSet := tx'.readSet, writeSet := tx'.writeSet, log := tx'.log)
  }

  lemma ActOne(start: State, labels: seq<Label>, s: State, t: Tid, tx: Tx, cfg: Config, body: Local, p: Play)
    returns (labels': seq<Label>, tx': Tx)
    requires Exec(start, labels) == Some(Put(s, t, tx)) && Stands(cfg, body, tx, p)
    requires SmoothOne(cfg, s, tx.rv, tx.ro, p)
    ensures Exec(start, labels') == Some(Put(s, t, tx')) && Stands(cfg, body, tx', PlayOne(cfg, s.mem, p))
    ensures SameButLog(tx, tx') && |labels'| <= |labels| + 6 && |tx'.readSet| <= |tx.readSet| + 1
  {
    hide Exec, After, Act, Resume, StripeOf;
    match Act(cfg, p.st)
    case DoRead(a) =>
      labels' := CodeRuns.ReadOne(start, labels, s, t, tx, a);
      tx' := CodeRuns.Read(s, tx, a);
      var op := tx'.log[|tx.log|];
      assert tx'.log == tx.log + [op] && op.val == Get(s.mem + p.ws, a);
      AfterOne(cfg, body, tx.log, p.st, op);
    case DoWrite(a, x) =>
      labels' := QuietWrite(start, labels, s, t, tx, a, x);
      tx' := tx.(writeSet := tx.writeSet[a := x], log := tx.log + [Wr(a, x)]);
      AfterOne(cfg, body, tx.log, p.st, Wr(a, x));
    case _ =>
  }

  /** The next `n` actions. */
  lemma {:induction false} PlayAlone(start: State, labels: seq<Label>, s: State, t: Tid, tx: Tx, cfg: Config,
                                     body: Local, p: Play, n: nat) returns (labels': seq<Label>, tx': Tx)
    requires Exec(start, labels) == Some(Put(s, t, tx)) && Stands(cfg, body, tx, p)
    requires Smooth(cfg, s, tx.rv, tx.ro, p, n)
    ensures Exec(start, labels') == Some(Put(s, t, tx')) && Stands(cfg, body, tx', PlayN(cfg, s.mem, p, n))
    ensures SameButLog(tx, tx') && |labels'| <= |labels| + 6 * n && |tx'.readSet| <= |tx.readSet| + n
    decreases n
  {
    hide Exec, Stands, SmoothOne, PlayOne;
    if n == 0 {
      labels', tx' := labels, tx;
    } else {
      labels', tx' := ActOne(start, labels, s, t, tx, cfg, body, p);
      labels', tx' := PlayAlone(start, labels', s, t, tx', cfg, body, PlayOne(cfg, s.mem, p), n - 1);
    }
  }

  /** An allocation answered with the segment at `base`. */
  lemma AllocAlone(start: State, labels: seq<Label>, s: State, t: Tid, tx: Tx, cfg: Config, body: Local, p: Play,
                   base: Addr)
    returns (labels': seq<Label>, s': State, tx': Tx)
    requires Exec(start, labels) == Some(Put(s, t, tx)) && Stands(cfg, body, tx, p) && !tx.ro
    requires Act(cfg, p.st) == DoAlloc(cfg.Size()) && Fresh(s.heap, cfg.SegmentAt(base))
    ensures s' == s.(heap := s.heap + {cfg.SegmentAt(base)})
    ensures tx' == tx.(segs := tx.segs + {cfg.SegmentAt(base)}, log := tx'.log)
    ensures Exec(start, labels') == Some(Put(s', t, tx'))
    ensures Stands(cfg, body, tx', Play(Resume(cfg, p.st, base), p.ws)) && |labels'| <= |labels| + 1
  {
    hide Exec, After, Resume;
    var g := cfg.SegmentAt(base);
    s' := s.(heap := s.heap + {g});
    tx' := tx.(segs := tx.segs + {g}, log := tx.log + [Al(g)]);
    AfterOne(cfg, body, tx.log, p.st, Al(g));
    labels' := Move(start, labels, s, t, tx, CallAlloc(g), s', tx');
  }

  /** What the commit of a transaction that wrote `ws` makes of a still state. */
  ghost predicate IsCommit(s: State, s': State, t: Tid, ws: Mem, log: Log) {
    && Still(s') && s'.gvc == s.gvc + 1 && s'.mem == s.mem + ws
    && s'.commits == s.commits[s.gvc + 1 := Commit(t, log, ws)]
    && t in s'.txs && s'.txs == s.txs[t := s'.txs[t]] && s'.txs[t].writeSet == ws
  }

  lemma CommitStill(start: State, labels: seq<Label>, s: State, t: Tid, tx: Tx) returns (labels': seq<Label>, s': State)
    requires Exec(start, labels) == Some(Put(s, t, tx)) && tx.pc == Body && !tx.ro && tx.held == {} && tx.rv == s.gvc
    requires Still(s) && s.gvc + 1 < VERSION_LIMIT
    ensures Exec(start, labels') == Some(s') && IsCommit(s, s', t, tx.writeSet, tx.log) && s'.heap == s.heap
    ensures |labels'| <= |labels| + 4 * |tx.writeSet.Keys| + 2 * |tx.readSet| + 4
  {
    hide Exec, StripeOf, Stripes;
    var own, wv := Stripes(tx.writeSet.Keys), NextVersion(s.gvc);
    assert wv == s.gvc + 1;
    var s1;
    labels', s1 := CommitIsARun(start, labels, s, t, tx);
    s' := Put(s1, t, Deleted(tx.(held := own, wv := wv), true));
  }

  /** A whole body, begun and committed in a still state. */
  lemma CommitBody(start: State, labels: seq<Label>, s: State, t: Tid, cfg: Config, body: Local, n: nat)
    returns (labels': seq<Label>, s': State, log: Log)
    requires Exec(start, labels) == Some(s) && t !in s.txs && Still(s) && s.gvc + 1 < VERSION_LIMIT
    requires Smooth(cfg, s, s.gvc, false, Play(body, map[]), n)
    ensures var q := PlayN(cfg, s.mem, Play(body, map[]), n);
            && Exec(start, labels') == Some(s') && IsCommit(s, s', t, q.ws, log) && s'.heap == s.heap
            && After(cfg, body, log) == Some(q.st)
            && |labels'| <= |labels| + 8 * n + 4 * |q.ws.Keys| + 5
  {
    hide Exec, Smooth, PlayN;
    labels' := QuietBegin(start, labels, s, t, false);
    var tx := NewTx(s, false);
    labels', tx := PlayAlone(start, labels', s, t, tx, cfg, body, Play(body, map[]), n);
    log := tx.log;
    labels', s' := CommitStill(start, labels', s, t, tx);
  }
}
