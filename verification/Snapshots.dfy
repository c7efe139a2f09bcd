/** Whatever every committed transaction keeps when it runs alone holds in every snapshot of every run. */
module Snapshots {
  import opened Options
  import opened Tl2
  import opened Tl2Invariant
  import opened Serializability
  import opened SingleReads

  // ---- Allocations in logs ----

  /** Every allocation is recorded in the heap, lies apart from the initial segments, and from every other one. */
  ghost predicate AllocsOk(start: set<Segment>, s: State) {
    && start <= s.heap
    && (forall t, i, g :: Allocated(s, t, i, g) ==> g in s.heap && Fresh(start, g))
    && (forall t, i, g, u, j, h :: Allocated(s, t, i, g) && Allocated(s, u, j, h) && (t != u || i != j) ==> Apart(g, h))
  }

  /** A step that adds no allocation to any log. */
  ghost predicate NoNewAllocs(s: State, s': State) {
    s.heap == s'.heap && forall t, i, g :: Allocated(s', t, i, g) ==> Allocated(s, t, i, g)
  }

  lemma NoNewAllocsKeep(start: set<Segment>, s: State, s': State)
    requires AllocsOk(start, s) && NoNewAllocs(s, s')
    ensures AllocsOk(start, s')
  {
  }

  lemma PrivateAllocs(s: State, t: Tid, e: Event)
    requires t in s.txs && Private(s, s.txs[t], e).Some?
    ensures NoNewAllocs(s, Put(s, t, Private(s, s.txs[t], e).value))
  {
    var log, log' := s.txs[t].log, Private(s, s.txs[t], e).value.log;
    assert log' == log || (|log'| == |log| + 1 && log'[..|log|] == log && !log'[|log|].Al?);
    forall i: nat | i < |log'| && log'[i].Al?
      ensures i < |log| && log[i] == log'[i]
    {
      if log' != log && i < |log| {
        assert log'[..|log|][i] == log[i];
      }
    }
  }

  lemma AllocateAllocs(start: set<Segment>, s: State, t: Tid, g: Segment)
    requires AllocsOk(start, s) && t in s.txs && Fresh(s.heap, g)
    ensures AllocsOk(start, Allocate(s, t, s.txs[t], g))
  {
    var s' := Allocate(s, t, s.txs[t], g);
    var n := |s.txs[t].log|;
    forall u, i, h | Allocated(s', u, i, h)
      ensures (u == t && i == n && h == g) || Allocated(s, u, i, h)
    {
    }
    forall u, i, h | Allocated(s', u, i, h)
      ensures h in s'.heap && Fresh(start, h)
    {
    }
  }

  lemma SharedAllocs(s: State, t: Tid, s': State)
    requires t in s.txs && IsSharedStep(s, t, s') && !s.txs[t].pc.Body?
    ensures NoNewAllocs(s, s')
  {
    SharedStepFrame(s, t, s');
    hide IsSharedStep;
    forall u, i, g | Allocated(s', u, i, g)
      ensures Allocated(s, u, i, g)
    {
      assert u != t ==> s'.txs[u] == s.txs[u];
    }
  }

  lemma StepAllocs(start: set<Segment>, s: State, t: Tid, e: Event, s': State)
    requires AllocsOk(start, s) && Step(s, t, e) == Some(s')
    ensures AllocsOk(start, s')
  {
    if t !in s.txs {
      NoNewAllocsKeep(start, s, s');
    } else if s.txs[t].pc.Body? && e.CallAlloc? {
      AllocateAllocs(start, s, t, e.seg);
    } else if s.txs[t].pc.Body? {
      PrivateAllocs(s, t, e);
      NoNewAllocsKeep(start, s, s');
    } else {
      StepShape(s, t, e, s');
      hide Step, IsSharedStep, AllocsOk;
      if IsSharedStep(s, t, s') {
        SharedAllocs(s, t, s');
      } else {
        PrivateAllocs(s, t, e);
      }
      NoNewAllocsKeep(start, s, s');
    }
  }

  lemma {:induction false} RunAllocs(states: seq<State>, labels: seq<Label>, i: nat)
    requires IsRun(states, labels) && i < |states|
    ensures AllocsOk(states[0].heap, states[i])
  {
    if i > 0 {
      hide Step;
      RunAllocs(states, labels, i - 1);
      var l := labels[i - 1];
      assert Step(states[i - 1], l.t, l.e) == Some(states[i]);
      StepAllocs(states[0].heap, states[i - 1], l.t, l.e, states[i]);
    }
  }

  // ---- The segments a snapshot knows ----

  function AllocsOf(log: Log): set<Segment> {
    if log == [] then {}
    else if log[|log| - 1].Al? then AllocsOf(log[..|log| - 1]) + {log[|log| - 1].seg}
    else AllocsOf(log[..|log| - 1])
  }

  /** Segments a log allocates are new. */
  ghost predicate AllocatesFresh(segs: set<Segment>, log: Log) {
    forall i :: 0 <= i < |log| && log[i].Al? ==> Fresh(segs, log[i].seg)
  }

  /** `start` and what the commits up to `v` allocated. */
  function SegsAt(start: set<Segment>, commits: map<nat, Commit>, v: nat): set<Segment> {
    if v == 0 then start
    else if v in commits then SegsAt(start, commits, v - 1) + AllocsOf(commits[v].log)
    else SegsAt(start, commits, v - 1)
  }

  lemma {:induction false} AllocsOfSource(log: Log, g: Segment) returns (i: nat)
    requires g in AllocsOf(log)
    ensures i < |log| && log[i] == Al(g)
  {
    if log[|log| - 1] == Al(g) {
      i := |log| - 1;
    } else {
      i := AllocsOfSource(log[..|log| - 1], g);
    }
  }

  lemma {:induction false} SegsAtSource(start: set<Segment>, commits: map<nat, Commit>, v: nat, g: Segment)
    returns (k: nat, i: nat)
    requires g in SegsAt(start, commits, v) && g !in start
    ensures k in commits && k <= v && i < |commits[k].log| && commits[k].log[i] == Al(g)
  {
    if v in commits && g in AllocsOf(commits[v].log) {
      k := v;
      i := AllocsOfSource(commits[v].log, g);
    } else {
      k, i := SegsAtSource(start, commits, v - 1, g);
    }
  }

  /** A commit is its transaction's whole log, at its version. */
  lemma CommitOf(s: State, k: nat) returns (t: Tid)
    requires Inv(s) && k in s.commits
    ensures t == s.commits[k].tid && t in s.txs && s.txs[t].log == s.commits[k].log && s.txs[t].wv == k > 0
  {
    t := s.commits[k].tid;
    assert TxOk(s, t, s.txs[t]);
  }

  /** What a commit allocated is new to the snapshot just before it. */
  lemma CommitAllocatesFresh(start: set<Segment>, s: State, k: nat)
    requires Inv(s) && AllocsOk(start, s) && k in s.commits
    ensures AllocatesFresh(SegsAt(start, s.commits, k - 1), s.commits[k].log)
  {
    var t := CommitOf(s, k);
    hide Inv, SegsAt;
    forall i | 0 <= i < |s.commits[k].log| && s.commits[k].log[i].Al?
      ensures Fresh(SegsAt(start, s.commits, k - 1), s.commits[k].log[i].seg)
    {
      var g := s.commits[k].log[i].seg;
      assert Allocated(s, t, i, g);
      forall h | h in SegsAt(start, s.commits, k - 1)
        ensures Apart(g, h)
      {
        if h !in start {
          var k', j := SegsAtSource(start, s.commits, k - 1, h);
          var u := CommitOf(s, k');
          assert Allocated(s, u, j, h);
        }
      }
    }
  }

  // ---- The principle ----

  /** Running the commit `k + 1` alone takes a memory with property `q` at `k` to one with it at `k + 1`. */
  ghost predicate CommitKeeps(commits: map<nat, Commit>, q: (nat, Mem, set<Segment>) -> bool, k: nat) {
    if k + 1 in commits then
      forall m, segs, n ::
        q(k, m, segs) && InPlace(commits[k + 1].log, m) == Some(n) && AllocatesFresh(segs, commits[k + 1].log) ==>
        q(k + 1, n, segs + AllocsOf(commits[k + 1].log))
    else forall m, segs :: q(k, m, segs) ==> q(k + 1, m, segs)
  }

  lemma {:induction false} EverySnapshot(s: State, start: set<Segment>, q: (nat, Mem, set<Segment>) -> bool, v: nat)
    requires Inv(s) && AllocsOk(start, s)
    requires q(0, map[], start) && forall k: nat :: CommitKeeps(s.commits, q, k)
    ensures q(v, StateAt(s.commits, v), SegsAt(start, s.commits, v))
  {
    if v > 0 {
      EverySnapshot(s, start, q, v - 1);
      assert CommitKeeps(s.commits, q, v - 1);
      if v in s.commits {
        CommitInPlace(s, v);
        CommitAllocatesFresh(start, s, v);
      }
    }
  }

  /** If every committed read-write transaction of a tame run keeps `q` when it runs alone, then `q` holds of every
      version of the memory, read calmly or not. */
  lemma InvariantInEverySnapshot(states: seq<State>, labels: seq<Label>, i: nat, start: set<Segment>,
                                 q: (nat, Mem, set<Segment>) -> bool, v: nat)
    requires IsTameRun(states, labels) && i < |states| && start <= states[0].heap
    requires q(0, map[], start) && forall k: nat :: CommitKeeps(states[i].commits, q, k)
    ensures q(v, StateAt(states[i].commits, v), SegsAt(start, states[i].commits, v))
  {
    RunInv(states, labels, i);
    RunAllocs(states, labels, i);
    AllocsWeaken(states[0].heap, start, states[i]);
    EverySnapshot(states[i], start, q, v);
  }

  /** A transaction that read memory only once, or whose reads were all calm, is a run on such a version. */
  lemma SeesInvariant(states: seq<State>, labels: seq<Label>, i: nat, start: set<Segment>,
                      q: (nat, Mem, set<Segment>) -> bool, t: Tid) returns (v: nat)
    requires IsTameRun(states, labels) && i < |states| && start <= states[0].heap
    requires q(0, map[], start) && forall k: nat :: CommitKeeps(states[i].commits, q, k)
    requires t in states[i].txs && (AllCalm(states[i].txs[t].log) || MemReads(states[i].txs[t].log) <= 1)
    ensures states[i].txs[t].rv <= v <= states[i].gvc
    ensures q(v, StateAt(states[i].commits, v), SegsAt(start, states[i].commits, v))
    ensures InPlace(states[i].txs[t].log, StateAt(states[i].commits, v)).Some?
  {
    var s := states[i];
    if AllCalm(s.txs[t].log) {
      Opaque(states, labels, i, t);
      RunInv(states, labels, i);
      assert TxOk(s, t, s.txs[t]);
      v := s.txs[t].rv;
    } else {
      OneReadIsASnapshot(states, labels, i, t);
      v :| s.txs[t].rv <= v <= s.gvc && InPlace(s.txs[t].log, StateAt(s.commits, v)).Some?;
    }
    InvariantInEverySnapshot(states, labels, i, start, q, v);
  }

  lemma AllocsWeaken(heap: set<Segment>, start: set<Segment>, s: State)
    requires AllocsOk(heap, s) && start <= heap
    ensures AllocsOk(start, s)
  {
  }
}
