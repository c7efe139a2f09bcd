/** The correctness check of the workload on top of the transactional memory: what CounterCheck takes for granted
    of one-step transactions holds of the transactions of every tame run, under every interleaving. */
module CounterRuns {
  import opened Options
  import opened Tl2
  import opened Tl2Invariant
  import opened Serializability
  import opened SingleReads
  import CounterCheck

  /** What a worker's read-write transaction does that finds the counter at most at its last read. */
  predicate IsDecrement(c: Addr, log: Log) {
    && |log| == 2 && log[0].Rd? && log[0].addr == c && !log[0].buffered && log[0].val >= 0
    && log[1] == Wr(c, CounterCheck.Pred(log[0].val))
  }

  /** After version `v0`, which initialised it, the counter is only decremented. */
  ghost predicate CounterWorkload(s: State, c: Addr, v0: nat) {
    forall k :: k in s.commits && k > v0 ==> IsDecrement(c, s.commits[k].log) || c !in s.commits[k].writes
  }

  /** How many commits after version `v0`, up to version `v`, decremented the counter. */
  function Decrements(commits: map<nat, Commit>, c: Addr, v0: nat, v: nat): nat {
    if v <= v0 then 0
    else Decrements(commits, c, v0, v - 1) + if v in commits && IsDecrement(c, commits[v].log) then 1 else 0
  }

  lemma {:induction false} DecrementsGrow(commits: map<nat, Commit>, c: Addr, v0: nat, v: nat, w: nat)
    requires v <= w
    ensures Decrements(commits, c, v0, v) <= Decrements(commits, c, v0, w)
  {
    if v < w {
      DecrementsGrow(commits, c, v0, v, w - 1);
    }
  }

  /** The workers decrement no more often than the counter was set to. */
  ghost predicate Bounded(s: State, c: Addr, v0: nat, total: nat) {
    && v0 <= s.gvc && ValueAt(s, v0, c) == total < CounterCheck.SIZE_MODULUS && CounterWorkload(s, c, v0)
    && Decrements(s.commits, c, v0, s.gvc) <= total
  }

  lemma OneDecrement(c: Addr, log: Log, m: Mem, m': Mem)
    requires IsDecrement(c, log) && InPlace(log, m) == Some(m')
    ensures Get(m, c) == log[0].val && Get(m', c) == CounterCheck.Pred(log[0].val)
  {
    assert log[..1] == [log[0]] && log[..1][..0] == [];
    assert InPlace(log[..1][..0], m) == Some(m);
    assert InPlace(log[..1], m) == if Get(m, c) == log[0].val then Some(m) else None;
  }

  /** Conservation: at every version the counter is what it was set to, less the decrements so far. */
  lemma {:induction false} CounterAt(s: State, c: Addr, v0: nat, total: nat, v: nat)
    requires Inv(s) && Bounded(s, c, v0, total) && v0 <= v <= s.gvc
    ensures ValueAt(s, v, c) == total - Decrements(s.commits, c, v0, v)
  {
    if v > v0 {
      CounterAt(s, c, v0, total, v - 1);
      DecrementsGrow(s.commits, c, v0, v, s.gvc);
      hide Inv;
      if v in s.commits && IsDecrement(c, s.commits[v].log) {
        CommitInPlace(s, v);
        OneDecrement(c, s.commits[v].log, StateAt(s.commits, v - 1), StateAt(s.commits, v));
        CounterCheck.PredExact(s.commits[v].log[0].val);
      }
    }
  }

  /** A read-only transaction that began after the initialisation read the counter as it was at some version. */
  lemma LastRead(states: seq<State>, labels: seq<Label>, i: nat, j: nat, t: Tid, c: Addr, v0: nat, total: nat)
    returns (v: nat)
    requires IsTameRun(states, labels) && i <= j < |states| && Bounded(states[j], c, v0, total)
    requires t in states[i].txs && v0 <= states[i].txs[t].rv
    requires |states[i].txs[t].log| == 1 && FromMemory(states[i].txs[t].log[0]) && states[i].txs[t].log[0].addr == c
    ensures states[i].txs[t].rv <= v <= states[i].gvc <= states[j].gvc
    ensures states[i].txs[t].log[0].val == total - Decrements(states[j].commits, c, v0, v)
  {
    var op := states[i].txs[t].log[0];
    v := ReadIsFresh(states, labels, i, t, 0);
    SeenForEver(states, labels, i, j, v, c, op.val);
    ClockGrows(states, labels, i, j);
    RunInv(states, labels, j);
    CounterAt(states[j], c, v0, total, v);
  }

  lemma {:induction false} ClockGrows(states: seq<State>, labels: seq<Label>, i: nat, j: nat)
    requires IsTameRun(states, labels) && i <= j < |states|
    ensures states[i].gvc <= states[j].gvc
  {
    hide Step;
    if i < j {
      ClockGrows(states, labels, i, j - 1);
      var l := labels[j - 1];
      assert Step(states[j - 1], l.t, l.e) == Some(states[j]);
      StepModerate(states[j - 1], l.t, l.e, states[j], 0);
    }
  }

  /** No worker finds the counter above its last read. In every tame run: `t` read the counter at `last` by itself,
      however its read was validated; `u` began when `t` had done so, and committed; then `u` found the counter
      positive and at most `last`, if it decremented it, and at most `last` in any case. */
  lemma NeverAboveLastRead(states: seq<State>, labels: seq<Label>, i: nat, j: nat, t: Tid, u: Tid, c: Addr, v0: nat,
                           total: nat)
    requires IsTameRun(states, labels) && i <= j < |states| && Bounded(states[j], c, v0, total)
    requires t in states[i].txs && v0 <= states[i].txs[t].rv
    requires |states[i].txs[t].log| == 1 && FromMemory(states[i].txs[t].log[0]) && states[i].txs[t].log[0].addr == c
    requires u !in states[i].txs && u in states[j].txs && !states[j].txs[u].ro && states[j].txs[u].pc.Committed?
    requires states[j].txs[u].log != [] && FromMemory(states[j].txs[u].log[0]) && states[j].txs[u].log[0].addr == c
    ensures states[j].txs[u].log[0].val <= states[i].txs[t].log[0].val
    ensures IsDecrement(c, states[j].txs[u].log) ==> 0 < states[j].txs[u].log[0].val
  {
    var s := states[j];
    var v := LastRead(states, labels, i, j, t, c, v0, total);
    LaterBeginsLater(states, labels, i, j, u);
    SerialOrderIsCommits(states, labels, j);
    RunInv(states, labels, j);
    var k := s.txs[u].wv;
    assert k in s.commits && s.commits[k].log == s.txs[u].log && v < k <= s.gvc;
    CommittedRead(s, k, 0);
    CounterAt(s, c, v0, total, k - 1);
    DecrementsGrow(s.commits, c, v0, v, k - 1);
    DecrementsGrow(s.commits, c, v0, k, s.gvc);
  }

  /** Once every decrement is in the snapshot a transaction began with, it reads 0. */
  lemma FinallyZero(states: seq<State>, labels: seq<Label>, i: nat, t: Tid, c: Addr, v0: nat, total: nat)
    requires IsTameRun(states, labels) && i < |states| && Bounded(states[i], c, v0, total)
    requires t in states[i].txs && v0 <= states[i].txs[t].rv
    requires |states[i].txs[t].log| == 1 && FromMemory(states[i].txs[t].log[0]) && states[i].txs[t].log[0].addr == c
    requires Decrements(states[i].commits, c, v0, states[i].txs[t].rv) == total
    ensures states[i].txs[t].log[0].val == 0
  {
    var v := LastRead(states, labels, i, i, t, c, v0, total);
    DecrementsGrow(states[i].commits, c, v0, states[i].txs[t].rv, v);
    DecrementsGrow(states[i].commits, c, v0, v, states[i].gvc);
  }
}
