/** Every allocated segment is, at any time, in exactly one place: the list of the transaction that
    allocated it, the region's list, or the freed ones. */
module SegmentOwnership {
  import opened LockWord
  import opened Options
  import opened Tl2
  import opened Tl2Invariant
  import opened Serializability

  predicate Listed(s: State, t: Tid, g: Segment) {
    t in s.txs && g in s.txs[t].segs
  }

  /** `start`: the segments that existed before the first transaction. */
  ghost predicate SegmentsOk(start: set<Segment>, s: State) {
    && (forall g :: g in s.heap && g !in start ==> SomewhereOnce(s, g))
    && (forall t, g :: Listed(s, t, g) ==> g in s.heap && g !in start && g !in s.region && g !in s.freed)
    && (forall g :: g in s.region || g in s.freed ==> g in s.heap && g !in start)
    && (forall t, u, g :: Listed(s, t, g) && Listed(s, u, g) ==> t == u)
  }

  ghost predicate SomewhereOnce(s: State, g: Segment) {
    && (g in s.region || g in s.freed || exists t :: Listed(s, t, g))
    && !(g in s.region && g in s.freed)
    && s.freed[g] <= 1
  }

  /** New segments never overlap earlier ones. */
  ghost predicate SegmentsApart(start: set<Segment>, s: State) {
    && start <= s.heap
    && (forall g, h :: g in s.heap && h in s.heap && g !in start && g != h ==> Apart(g, h))
  }

  /** Nothing about segments changed. */
  ghost predicate SameSegments(s: State, s': State) {
    && s'.heap == s.heap && s'.region == s.region && s'.freed == s.freed
    && (forall t, g :: Listed(s', t, g) <==> Listed(s, t, g))
  }

  lemma SameSegmentsKeep(start: set<Segment>, s: State, s': State)
    requires SegmentsOk(start, s) && SegmentsApart(start, s) && SameSegments(s, s')
    ensures SegmentsOk(start, s') && SegmentsApart(start, s')
  {
    forall g | g in s'.heap && g !in start
      ensures SomewhereOnce(s', g)
    {
      assert SomewhereOnce(s, g);
      if t :| Listed(s, t, g) {
        assert Listed(s', t, g);
      }
    }
  }

  lemma PrivateSegments(s: State, t: Tid, e: Event)
    requires t in s.txs && Private(s, s.txs[t], e).Some?
    ensures SameSegments(s, Put(s, t, Private(s, s.txs[t], e).value))
  {
    assert Private(s, s.txs[t], e).value.segs == s.txs[t].segs;
  }

  lemma AllocateSegments(start: set<Segment>, s: State, t: Tid, g: Segment)
    requires SegmentsOk(start, s) && SegmentsApart(start, s) && t in s.txs && Fresh(s.heap, g)
    ensures SegmentsOk(start, Allocate(s, t, s.txs[t], g)) && SegmentsApart(start, Allocate(s, t, s.txs[t], g))
  {
    var s' := Allocate(s, t, s.txs[t], g);
    assert !Apart(g, g);
    forall h | h in s'.heap && h !in start
      ensures SomewhereOnce(s', h)
    {
      if h == g {
        assert Listed(s', t, g);
      } else {
        assert SomewhereOnce(s, h);
        if u :| Listed(s, u, h) {
          assert Listed(s', u, h);
        }
      }
    }
    forall u, h | Listed(s', u, h)
      ensures (h == g && u == t) || Listed(s, u, h)
    {
    }
  }

  lemma SpliceSegments(start: set<Segment>, s: State, t: Tid)
    requires SegmentsOk(start, s) && SegmentsApart(start, s) && t in s.txs
    ensures SegmentsOk(start, Splice(s, t, s.txs[t])) && SegmentsApart(start, Splice(s, t, s.txs[t]))
  {
    var s' := Splice(s, t, s.txs[t]);
    forall u, h | Listed(s', u, h)
      ensures u != t && Listed(s, u, h)
    {
    }
    forall h | h in s.txs[t].segs
      ensures Listed(s, t, h)
    {
    }
    forall h | h in s'.heap && h !in start
      ensures SomewhereOnce(s', h)
    {
      assert SomewhereOnce(s, h);
      if u :| Listed(s, u, h) {
        assert u != t ==> Listed(s', u, h);
      }
    }
  }

  lemma DeleteSegments(start: set<Segment>, s: State, t: Tid, ok: bool)
    requires SegmentsOk(start, s) && SegmentsApart(start, s) && t in s.txs
    ensures SegmentsOk(start, Delete(s, t, s.txs[t], ok)) && SegmentsApart(start, Delete(s, t, s.txs[t], ok))
  {
    var s' := Delete(s, t, s.txs[t], ok);
    forall u, h | Listed(s', u, h)
      ensures u != t && Listed(s, u, h)
    {
    }
    forall h | h in s.txs[t].segs
      ensures Listed(s, t, h)
    {
    }
    forall h | h in s'.heap && h !in start
      ensures SomewhereOnce(s', h)
    {
      assert SomewhereOnce(s, h);
      if u :| Listed(s, u, h) {
        assert u != t ==> Listed(s', u, h);
      }
    }
  }

  lemma StepSegments(start: set<Segment>, s: State, t: Tid, e: Event, s': State)
    requires SegmentsOk(start, s) && SegmentsApart(start, s) && Step(s, t, e) == Some(s')
    ensures SegmentsOk(start, s') && SegmentsApart(start, s')
  {
    if t !in s.txs {
      SameSegmentsKeep(start, s, s');
    } else if s.txs[t].pc.Body? && e.CallAlloc? {
      AllocateSegments(start, s, t, e.seg);
    } else if s.txs[t].pc.Deleting? {
      DeleteSegments(start, s, t, s.txs[t].pc.ok);
    } else if s.txs[t].pc == WriteBack({}) {
      SpliceSegments(start, s, t);
    } else {
      OtherStepSegments(s, t, e, s');
      SameSegmentsKeep(start, s, s');
    }
  }

  lemma OtherStepSegments(s: State, t: Tid, e: Event, s': State)
    requires t in s.txs && Step(s, t, e) == Some(s')
    requires !(s.txs[t].pc.Body? && e.CallAlloc?) && !s.txs[t].pc.Deleting? && s.txs[t].pc != WriteBack({})
    ensures SameSegments(s, s')
  {
    if s.txs[t].pc.Body? {
      PrivateSegments(s, t, e);
    } else {
      StepShape(s, t, e, s');
      hide Step;
      if IsSharedStep(s, t, s') {
        SharedStepFrame(s, t, s');
        hide IsSharedStep;
      } else {
        PrivateSegments(s, t, e);
      }
    }
  }

  lemma {:induction false} RunSegments(states: seq<State>, labels: seq<Label>, i: nat)
    requires IsRun(states, labels) && i < |states|
    ensures SegmentsOk(states[0].heap, states[i]) && SegmentsApart(states[0].heap, states[i])
  {
    if i > 0 {
      hide Step;
      RunSegments(states, labels, i - 1);
      var l := labels[i - 1];
      assert Step(states[i - 1], l.t, l.e) == Some(states[i]);
      StepSegments(states[0].heap, states[i - 1], l.t, l.e, states[i]);
    }
  }

  /** In every state of every run, a segment allocated by some transaction is in exactly one place and
      was freed at most once, and segments do not overlap. */
  lemma SegmentInOnePlace(states: seq<State>, labels: seq<Label>, i: nat, g: Segment)
    requires IsRun(states, labels) && i < |states| && g in states[i].heap && g !in states[0].heap
    ensures var s := states[i];
            && ((g in s.region && g !in s.freed && forall t :: !Listed(s, t, g))
                || (g !in s.region && s.freed[g] == 1 && forall t :: !Listed(s, t, g))
                || (g !in s.region && g !in s.freed
                    && exists t :: Listed(s, t, g) && forall u :: Listed(s, u, g) ==> u == t))
            && forall h :: h in s.heap && h != g ==> Apart(g, h)
  {
    RunSegments(states, labels, i);
    var s := states[i];
    assert SomewhereOnce(s, g);
    if t :| Listed(s, t, g) {
    }
  }

  /** tm_destroy frees the segments of the region's list. */
  function Destroy(s: State): State {
    s.(freed := s.freed + multiset(s.region), region := {})
  }

  /** After tm_destroy with no running transaction every allocated segment was freed, exactly once. */
  lemma DestroyFreesAll(states: seq<State>, labels: seq<Label>, i: nat, g: Segment)
    requires IsRun(states, labels) && i < |states| && g in states[i].heap && g !in states[0].heap
    requires forall k :: 0 <= k < |states| ==> states[k].gvc < VERSION_LIMIT
    requires forall t :: t in states[i].txs ==> Finished(states[i].txs[t].pc)
    ensures Destroy(states[i]).freed[g] == 1
  {
    forall t
      ensures !Listed(states[i], t, g)
    {
      if t in states[i].txs {
        FinishedSegments(states, labels, i, t);
      }
    }
    SegmentInOnePlace(states, labels, i, g);
  }

  // ---- Where the segments of one transaction go ----

  /** A segment a transaction allocated is in its list while it runs; afterwards it is in the region's list if the
      transaction committed, and freed if it aborted. */
  predicate WellPlaced(s: State, tx: Tx, g: Segment) {
    match tx.pc
    case Committed => g in s.region
    case Aborted => g in s.freed
    case _ => g in tx.segs
  }

  ghost predicate PlacesOk(start: set<Segment>, s: State) {
    && start <= s.heap
    && (forall t, i, g :: Allocated(s, t, i, g) ==>
          !s.txs[t].ro && g in s.heap && g !in start && WellPlaced(s, s.txs[t], g))
    && (forall t :: t in s.txs && s.txs[t].pc == Deleting(true) ==> s.txs[t].ro)
  }

  /** What a private step does to a record, as far as segments go. */
  predicate PrivateFrame(tx: Tx, tx': Tx) {
    && tx'.segs == tx.segs && tx'.ro == tx.ro && !Finished(tx.pc) && !Finished(tx'.pc)
    && (tx'.pc == Deleting(true) ==> tx.ro)
    && (tx'.log == tx.log
        || (|tx'.log| == |tx.log| + 1 && tx'.log[..|tx.log|] == tx.log && !tx'.log[|tx.log|].Al?))
  }

  lemma PrivateIsFramed(s: State, t: Tid, e: Event)
    requires t in s.txs && Private(s, s.txs[t], e).Some?
    ensures PrivateFrame(s.txs[t], Private(s, s.txs[t], e).value)
  {
  }

  lemma PrivatePlaces(start: set<Segment>, s: State, t: Tid, e: Event)
    requires PlacesOk(start, s) && t in s.txs && Private(s, s.txs[t], e).Some?
    ensures PlacesOk(start, Put(s, t, Private(s, s.txs[t], e).value))
  {
    PrivateIsFramed(s, t, e);
    hide Private;
    var tx, tx' := s.txs[t], Private(s, s.txs[t], e).value;
    forall u: Tid, i: nat, g | Allocated(Put(s, t, tx'), u, i, g)
      ensures Allocated(s, u, i, g)
    {
      if u == t && tx'.log != tx.log && i < |tx.log| {
        assert tx'.log[..|tx.log|][i] == tx'.log[i];
      }
    }
  }

  lemma AllocatePlaces(start: set<Segment>, s: State, t: Tid, g: Segment)
    requires PlacesOk(start, s) && t in s.txs && s.txs[t].pc.Body? && !s.txs[t].ro && Fresh(s.heap, g)
    ensures PlacesOk(start, Allocate(s, t, s.txs[t], g))
  {
    var s' := Allocate(s, t, s.txs[t], g);
    assert !Apart(g, g);
    forall u, i, h | Allocated(s', u, i, h)
      ensures !s'.txs[u].ro && h in s'.heap && h !in start && WellPlaced(s', s'.txs[u], h)
    {
      assert Allocated(s, u, i, h) || (u == t && h == g);
    }
  }

  /** What a step of `t` other than an allocation does to its segments. */
  ghost predicate Places(s: State, t: Tid, s': State)
    requires t in s.txs
  {
    && t in s'.txs && s'.txs == s.txs[t := s'.txs[t]]
    && s'.txs[t].log == s.txs[t].log && s'.txs[t].ro == s.txs[t].ro && !Finished(s.txs[t].pc)
    && s.heap <= s'.heap && s.region <= s'.region && (forall g :: g in s.freed ==> g in s'.freed)
    && s'.txs[t].pc != Deleting(true)
    && (s'.txs[t].pc.Committed? ==> s.txs[t].pc == Deleting(true) || s.txs[t].segs <= s'.region)
    && (s'.txs[t].pc.Aborted? ==> forall g :: g in s.txs[t].segs ==> g in s'.freed)
    && (!Finished(s'.txs[t].pc) ==> s'.txs[t].segs == s.txs[t].segs)
  }

  lemma FinishPlaces(s: State, t: Tid, s': State)
    requires t in s.txs && IsSharedStep(s, t, s') && !KeepsSegments(s.txs[t].pc)
    ensures Places(s, t, s')
  {
    SharedStepFrame(s, t, s');
    if s.txs[t].pc.Deleting? {
      assert s'.freed == s.freed + multiset(s.txs[t].segs) && s'.region == s.region;
    } else {
      assert s'.region == s.region + s.txs[t].segs && s'.freed == s.freed;
    }
  }

  lemma OtherPlaces(s: State, t: Tid, s': State)
    requires t in s.txs && IsSharedStep(s, t, s') && KeepsSegments(s.txs[t].pc) && !s.txs[t].pc.Body?
    ensures Places(s, t, s')
  {
    SharedStepFrame(s, t, s');
    assert !Finished(s'.txs[t].pc) && !s'.txs[t].pc.Deleting?;
    hide IsSharedStep;
  }

  lemma PlacesKeep(start: set<Segment>, s: State, t: Tid, s': State)
    requires PlacesOk(start, s) && t in s.txs && Places(s, t, s')
    ensures PlacesOk(start, s')
  {
    forall u, i, g | Allocated(s', u, i, g)
      ensures !s'.txs[u].ro && g in s'.heap && g !in start && WellPlaced(s', s'.txs[u], g)
    {
      assert Allocated(s, u, i, g);
    }
  }

  lemma SharedPlaces(start: set<Segment>, s: State, t: Tid, s': State)
    requires PlacesOk(start, s) && t in s.txs && IsSharedStep(s, t, s') && !s.txs[t].pc.Body?
    ensures PlacesOk(start, s')
  {
    hide IsSharedStep, PlacesOk, Places;
    if KeepsSegments(s.txs[t].pc) {
      OtherPlaces(s, t, s');
    } else {
      FinishPlaces(s, t, s');
    }
    PlacesKeep(start, s, t, s');
  }

  lemma {:induction false} RunPlaces(states: seq<State>, labels: seq<Label>, i: nat)
    requires IsRun(states, labels) && i < |states|
    ensures PlacesOk(states[0].heap, states[i])
  {
    if i > 0 {
      RunPlaces(states, labels, i - 1);
      var l, s, s' := labels[i - 1], states[i - 1], states[i];
      assert Step(s, l.t, l.e) == Some(s');
      if l.t in s.txs && s.txs[l.t].pc.Body? && l.e.CallAlloc? {
        AllocatePlaces(states[0].heap, s, l.t, l.e.seg);
      } else if l.t in s.txs && s.txs[l.t].pc.Body? {
        PrivatePlaces(states[0].heap, s, l.t, l.e);
      } else if l.t in s.txs {
        StepShape(s, l.t, l.e, s');
        hide Step, PlacesOk, IsSharedStep;
        if IsSharedStep(s, l.t, s') {
          SharedPlaces(states[0].heap, s, l.t, s');
        } else {
          PrivatePlaces(states[0].heap, s, l.t, l.e);
        }
      } else {
        StartPlaces(states[0].heap, s, l.t, l.e.ro);
      }
    }
  }

  lemma StartPlaces(start: set<Segment>, s: State, t: Tid, ro: bool)
    requires PlacesOk(start, s) && t !in s.txs
    ensures PlacesOk(start, Start(s, t, ro))
  {
    var s' := Start(s, t, ro);
    forall u, i, g | Allocated(s', u, i, g)
      ensures Allocated(s, u, i, g)
    {
    }
  }

  /** Every segment an aborted transaction allocated was freed, exactly once, and every segment of a committed
      one is in the region's list. */
  lemma FinishedPlaces(states: seq<State>, labels: seq<Label>, i: nat, t: Tid, n: nat, g: Segment)
    requires IsRun(states, labels) && i < |states| && Allocated(states[i], t, n, g)
    ensures states[i].txs[t].pc.Aborted? ==> states[i].freed[g] == 1 && g !in states[i].region
    ensures states[i].txs[t].pc.Committed? ==> g in states[i].region && g !in states[i].freed
  {
    RunPlaces(states, labels, i);
    SegmentInOnePlace(states, labels, i, g);
  }

  /** After an abort nothing of the transaction is left: no commit, no lock, an empty list, and each segment it
      allocated was given back exactly once. */
  lemma AbortedLeavesNothing(states: seq<State>, labels: seq<Label>, i: nat, t: Tid)
    requires IsTameRun(states, labels) && i < |states| && t in states[i].txs && states[i].txs[t].pc.Aborted?
    ensures forall k :: k in states[i].commits ==> states[i].commits[k].tid != t
    ensures forall l: Stripe :: !Own(states[i], t, l)
    ensures states[i].txs[t].segs == {}
    ensures forall n, g :: Allocated(states[i], t, n, g) ==> states[i].freed[g] == 1 && g !in states[i].region
  {
    AbortedHoldsNothing(states, labels, i, t);
    forall n, g | Allocated(states[i], t, n, g)
      ensures states[i].freed[g] == 1 && g !in states[i].region
    {
      FinishedPlaces(states, labels, i, t, n, g);
    }
  }
}
