/** The ring of procon4.c: a mutex and one condition variable. */
module CondvarRing {
  import opened Ring
  import opened Counting

  /** Both threads run the same sequence of accesses; only what they wait for and what they copy differs. */
  datatype Pc =
    | Acquire   // lock_acquire: blocked until the mutex is free
    | Check     // holding the mutex: about to test the condition
    | Asleep    // lock_wait: mutex released, waiting for a wake-up
    | Woken     // ... woken, blocked until the mutex is free
    | Copy      // holding the mutex: about to copy the item
    | Advance   // ... about to increment the counter
    | Release   // ... about to release the mutex
    | Notify    // about to wake the other thread up
    | Over

  datatype Side = Producing | Consuming

  datatype Shared = Shared(
    size: nat,
    runs: nat,
    producedUntil: nat,
    consumedUntil: nat,
    buffer: seq<int>,
    produced: seq<int>,
    consumed: seq<int>,
    holder: set<Side>,   // who holds the mutex
    p: Pc,
    c: Pc)

  /** `item`: the random text, if the step copies one; `spurious`: a sleeper wakes up by itself. */
  datatype Label = Label(side: Side, item: int, spurious: bool)

  predicate Sized(s: Shared) {
    s.size > 0 && |s.buffer| == s.size
  }

  predicate Initial(s: Shared) {
    && Sized(s) && s.producedUntil == 0 && s.consumedUntil == 0 && s.produced == [] && s.consumed == []
    && s.holder == {} && s.p == s.c == (if s.runs == 0 then Over else Acquire)
  }

  function At(s: Shared, side: Side): Pc {
    if side.Producing? then s.p else s.c
  }

  function Goto(s: Shared, side: Side, pc: Pc): Shared {
    if side.Producing? then s.(p := pc) else s.(c := pc)
  }

  function Other(side: Side): Side {
    if side.Producing? then Consuming else Producing
  }

  /** The round a thread is in: it has advanced its counter once per round. */
  function Round(s: Shared, side: Side): nat {
    if side.Producing? then s.producedUntil else s.consumedUntil
  }

  /** The condition a thread waits for in round `r`. */
  predicate May(s: Shared, side: Side, r: nat) {
    if side.Producing? then s.consumedUntil + s.size > r else s.producedUntil > r
  }

  function CopyItem(s: Shared, side: Side, item: int): Shared
    requires Sized(s)
  {
    var k := Slot(s.size, Round(s, side));
    if side.Producing? then s.(produced := s.produced + [item], buffer := s.buffer[k := item])
    else s.(consumed := s.consumed + [s.buffer[k]])
  }

  function Count(s: Shared, side: Side): Shared {
    if side.Producing? then s.(producedUntil := s.producedUntil + 1) else s.(consumedUntil := s.consumedUntil + 1)
  }

  /** The broadcast reaches whoever is asleep now. */
  function Wake(s: Shared, side: Side): Shared {
    if At(s, Other(side)).Asleep? then Goto(s, Other(side), Woken) else s
  }

  function Step(s: Shared, l: Label): Shared
    requires Sized(s)
  {
    var side := l.side;
    match At(s, side)
    case Acquire => if s.holder == {} then Goto(s.(holder := {side}), side, Check) else s
    case Check =>
      if May(s, side, Round(s, side)) then Goto(s, side, Copy) else Goto(s.(holder := {}), side, Asleep)
    case Asleep => if l.spurious then Goto(s, side, Woken) else s
    case Woken => if s.holder == {} then Goto(s.(holder := {side}), side, Check) else s
    case Copy => Goto(CopyItem(s, side, l.item), side, Advance)
    case Advance => Goto(Count(s, side), side, Pc.Release)
    case Release => Goto(s.(holder := {}), side, Notify)
    case Notify => Goto(Wake(s, side), side, if Round(s, side) < s.runs then Acquire else Over)
    case Over => s
  }

  ghost predicate IsRun(states: seq<Shared>, labels: seq<Label>) {
    && |states| == |labels| + 1
    && Initial(states[0])
    && forall i :: 0 <= i < |labels| ==> Sized(states[i]) && states[i + 1] == Step(states[i], labels[i])
  }

  // ---- The invariant ----

  predicate Holds(pc: Pc) {
    pc.Check? || pc.Copy? || pc.Advance? || pc.Release?
  }

  predicate Notifies(pc: Pc) {
    pc.Release? || pc.Notify?
  }

  /** One thread: it holds the mutex when it should, it only passes the test when it may, it is over only
      after the last round, and when it sleeps although it may proceed, the other is about to wake it. */
  predicate SideOk(s: Shared, side: Side) {
    var pc, r := At(s, side), Round(s, side);
    && (Holds(pc) <==> side in s.holder)
    && (pc.Over? ==> r == s.runs)
    && (!pc.Over? && !Notifies(pc) ==> r < s.runs)
    && (pc.Copy? || pc.Advance? ==> May(s, side, r))
    && (pc.Asleep? && May(s, side, r) ==> Notifies(At(s, Other(side))))
  }

  predicate InSlot(s: Shared, k: nat)
    requires Sized(s) && k < |s.produced|
  {
    s.buffer[Slot(s.size, k)] == s.produced[k]
  }

  ghost predicate Inv(s: Shared) {
    && Sized(s) && SideOk(s, Producing) && SideOk(s, Consuming)
    && !(Producing in s.holder && Consuming in s.holder)
    && s.consumedUntil <= s.producedUntil <= s.consumedUntil + s.size && s.producedUntil <= s.runs
    && |s.produced| == s.producedUntil + (if s.p.Advance? then 1 else 0)
    && |s.consumed| == s.consumedUntil + (if s.c.Advance? then 1 else 0)
    && (forall k :: s.consumedUntil <= k < |s.produced| ==> InSlot(s, k))
    && (|s.consumed| <= |s.produced| && forall k :: 0 <= k < |s.consumed| ==> s.consumed[k] == s.produced[k])
  }

  lemma CopyKeeps(s: Shared, l: Label)
    requires Inv(s) && At(s, l.side).Copy?
    ensures Inv(Step(s, l))
  {
    hide Slot;
    var s' := Step(s, l);
    assert l.side.Consuming? ==> InSlot(s, s.consumedUntil);
    forall k | s'.consumedUntil <= k < |s'.produced|
      ensures InSlot(s', k)
    {
      if k < s.producedUntil {
        assert InSlot(s, k);
        if l.side.Producing? {
          SlotsDiffer(s.size, k, s.producedUntil);
        }
      }
    }
  }

  lemma AdvanceKeeps(s: Shared, l: Label)
    requires Inv(s) && At(s, l.side).Advance?
    ensures Inv(Step(s, l))
  {
    hide Slot;
    var s' := Step(s, l);
    forall k | s'.consumedUntil <= k < |s'.produced|
      ensures InSlot(s', k)
    {
      assert InSlot(s, k);
    }
  }

  /** The accesses that leave the items and the counters alone. */
  lemma ControlKeeps(s: Shared, l: Label)
    requires Inv(s) && !At(s, l.side).Copy? && !At(s, l.side).Advance?
    ensures Inv(Step(s, l))
  {
    hide Slot;
    var s' := Step(s, l);
    assert s'.producedUntil == s.producedUntil && s'.consumedUntil == s.consumedUntil && s'.runs == s.runs;
    assert s'.buffer == s.buffer && s'.produced == s.produced && s'.consumed == s.consumed && s'.size == s.size;
    assert SideOk(s', Producing) && SideOk(s', Consuming);
    forall k | s'.consumedUntil <= k < |s'.produced|
      ensures InSlot(s', k)
    {
      assert InSlot(s, k);
    }
  }

  lemma {:induction false} RunInv(states: seq<Shared>, labels: seq<Label>, i: nat)
    requires IsRun(states, labels) && i < |states|
    ensures Inv(states[i])
  {
    if i > 0 {
      hide Inv, Step;
      RunInv(states, labels, i - 1);
      if At(states[i - 1], labels[i - 1].side).Copy? {
        CopyKeeps(states[i - 1], labels[i - 1]);
      } else if At(states[i - 1], labels[i - 1].side).Advance? {
        AdvanceKeeps(states[i - 1], labels[i - 1]);
      } else {
        ControlKeeps(states[i - 1], labels[i - 1]);
      }
    }
  }

  // ---- What it means ----

  /** In every interleaving at most a buffer full of items is in flight, the threads exclude each other, and
      what was consumed is what was produced. */
  lemma FirstInFirstOut(states: seq<Shared>, labels: seq<Label>, i: nat)
    requires IsRun(states, labels) && i < |states|
    ensures 0 <= states[i].producedUntil - states[i].consumedUntil <= states[i].size
    ensures !(Holds(states[i].p) && Holds(states[i].c))
    ensures states[i].consumed <= states[i].produced
    ensures states[i].p.Over? && states[i].c.Over? ==>
              states[i].consumed == states[i].produced && |states[i].consumed| == states[i].runs
  {
    RunInv(states, labels, i);
  }

  /** No wake-up is lost: producer and consumer never both sleep, and a thread sleeps while its condition
      holds only as long as the other is on its way to wake it. */
  lemma NoLostWakeUp(states: seq<Shared>, labels: seq<Label>, i: nat)
    requires IsRun(states, labels) && i < |states|
    ensures !(states[i].p.Asleep? && states[i].c.Asleep?)
    ensures states[i].p.Asleep? && May(states[i], Producing, states[i].producedUntil) ==> Notifies(states[i].c)
    ensures states[i].c.Asleep? && May(states[i], Consuming, states[i].consumedUntil) ==> Notifies(states[i].p)
  {
    RunInv(states, labels, i);
  }

  /** Without counting on spurious wake-ups, some thread can always go on until both are over. */
  lemma NeverStuck(states: seq<Shared>, labels: seq<Label>, i: nat) returns (side: Side)
    requires IsRun(states, labels) && i < |states| && !(states[i].p.Over? && states[i].c.Over?)
    ensures Sized(states[i]) && At(Step(states[i], Label(side, 0, false)), side) != At(states[i], side)
  {
    RunInv(states, labels, i);
    var s := states[i];
    assert Producing !in s.holder && Consuming !in s.holder ==> s.holder == {} by {
      assert forall x :: x in s.holder ==> x == Producing || x == Consuming;
    }
    side := if Holds(s.p) || (!Holds(s.c) && !s.p.Asleep? && !s.p.Over?) then Producing else Consuming;
  }

  /** A thread that holds the mutex and tests its condition goes on exactly when there is room, or an item. */
  lemma GoesOnIff(states: seq<Shared>, labels: seq<Label>, i: nat, l: Label)
    requires IsRun(states, labels) && i < |states| && At(states[i], l.side).Check?
    ensures Sized(states[i])
    ensures var s := states[i];
            && (l.side.Producing? ==>
                  (At(Step(s, l), Producing).Copy? <==> s.producedUntil - s.consumedUntil < s.size))
            && (l.side.Consuming? ==> (At(Step(s, l), Consuming).Copy? <==> s.consumedUntil < s.producedUntil))
            && (!At(Step(s, l), l.side).Copy? ==> At(Step(s, l), l.side).Asleep?)
  {
    RunInv(states, labels, i);
  }

  // ---- It ends ----

  /** What a thread has left in its round; once it has advanced its counter, what the wake-up may cost as well. */
  function Rank(pc: Pc): nat {
    match pc
    case Acquire => 8
    case Woken => 7
    case Check => 6
    case Asleep => 1
    case Copy => 5
    case Advance => 4
    case Release => 33
    case Notify => 32
    case Over => 0
  }

  function Left(s: Shared, side: Side): int {
    30 * (s.runs - Round(s, side)) + Rank(At(s, side))
  }

  function AllLeft(s: Shared): int {
    Left(s, Producing) + Left(s, Consuming)
  }

  /** Each access that changes something costs; a spurious wake-up costs six accesses at most. */
  lemma StepCosts(s: Shared, l: Label)
    requires Inv(s) && Step(s, l) != s
    ensures AllLeft(Step(s, l)) < AllLeft(s) + if l.spurious then 7 else 0
  {
    hide Slot;
  }

  /** How many of the first `i` wake-ups were spurious. */
  function Spurious(labels: seq<Label>, i: nat): nat
    requires i <= |labels|
  {
    if i == 0 then 0 else Spurious(labels, i - 1) + if labels[i - 1].spurious then 1 else 0
  }

  /** Only so many accesses change anything, apart from what spurious wake-ups cost; and by NeverStuck some access does
      until both threads are over. */
  lemma {:induction false} ComesToRest(states: seq<Shared>, labels: seq<Label>, i: nat)
    requires IsRun(states, labels) && i < |states|
    ensures Changes(states, i) + AllLeft(states[i]) <= 60 * states[0].runs + 16 + 7 * Spurious(labels, i)
    ensures Changes(states, i) <= 60 * states[0].runs + 16 + 7 * Spurious(labels, i)
  {
    hide Inv, Step;
    RunInv(states, labels, i);
    NothingNegative(states[i]);
    if i > 0 {
      ComesToRest(states, labels, i - 1);
      RunInv(states, labels, i - 1);
      hide AllLeft;
      assert states[i] == Step(states[i - 1], labels[i - 1]);
      if states[i] != states[i - 1] {
        StepCosts(states[i - 1], labels[i - 1]);
      }
    }
  }

  lemma NothingNegative(s: Shared)
    requires Inv(s)
    ensures AllLeft(s) >= 0
  {
  }
}
