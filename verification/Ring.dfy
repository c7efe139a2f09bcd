/** The lock-free ring of procon3.c: one producer, one consumer, two counters. Items are copied character
    by character while the other side runs. */
module Ring {
  import opened Counting

  type Item = seq<int>

  datatype Producer =
    | Awaits             // spinning until there is room
    | Copies(i: nat)     // about to copy character `i` into the slot
    | Publishes          // about to increment produced_until
    | Finished

  datatype Consumer =
    | Expects            // spinning until there is an item
    | Fetches(got: Item) // has copied these characters out of the slot
    | Frees              // about to increment consumed_until
    | Satisfied

  /** `size` slots of `width` characters; `runs` items in all. */
  datatype State = State(
    size: nat,
    width: nat,
    runs: nat,
    producedUntil: nat,
    consumedUntil: nat,
    buffer: seq<Item>,
    produced: seq<Item>,
    consumed: seq<Item>,
    p: Producer,
    c: Consumer)

  datatype Event = Produce(item: Item) | Consume

  predicate Sized(s: State) {
    s.size > 0 && |s.buffer| == s.size && forall k :: 0 <= k < s.size ==> |s.buffer[k]| == s.width
  }

  predicate Initial(s: State) {
    && Sized(s) && s.producedUntil == 0 && s.consumedUntil == 0 && s.produced == [] && s.consumed == []
    && s.p == (if s.runs == 0 then Finished else Awaits)
    && s.c == (if s.runs == 0 then Satisfied else Expects)
  }

  /** The slot of the round a thread is in. */
  function Slot(size: nat, r: nat): (k: nat)
    requires size > 0
    ensures k < size
  {
    r % size
  }

  /** The producer's next access in round producedUntil; `item` is the random text. */
  function ProducerStep(s: State, item: Item): State
    requires Sized(s)
  {
    var r := s.producedUntil;
    match s.p
    case Awaits =>
      if s.consumedUntil + s.size > r then s.(produced := s.produced + [item], p := Copies(0)) else s
    case Copies(i) =>
      if r < |s.produced| && i < |s.produced[r]| && i < s.width then
        s.(buffer := s.buffer[Slot(s.size, r) := s.buffer[Slot(s.size, r)][i := s.produced[r][i]]], p := Copies(i + 1))
      else s.(p := Publishes)
    case Publishes => s.(producedUntil := r + 1, p := if r + 1 < s.runs then Awaits else Finished)
    case Finished => s
  }

  /** The consumer's next access in round consumedUntil. */
  function ConsumerStep(s: State): State
    requires Sized(s)
  {
    var r := s.consumedUntil;
    match s.c
    case Expects => if s.producedUntil > r then s.(c := Fetches([])) else s
    case Fetches(got) =>
      if |got| < s.width then s.(c := Fetches(got + [s.buffer[Slot(s.size, r)][|got|]]))
      else s.(consumed := s.consumed + [got], c := Frees)
    case Frees => s.(consumedUntil := r + 1, c := if r + 1 < s.runs then Expects else Satisfied)
    case Satisfied => s
  }

  function Step(s: State, e: Event): State
    requires Sized(s)
  {
    match e
    case Produce(item) => ProducerStep(s, item)
    case Consume => ConsumerStep(s)
  }

  ghost predicate IsRun(states: seq<State>, events: seq<Event>) {
    && |states| == |events| + 1
    && Initial(states[0])
    && forall i :: 0 <= i < |events| ==>
         && Sized(states[i]) && (events[i].Produce? ==> |events[i].item| == states[i].width)
         && states[i + 1] == Step(states[i], events[i])
  }

  // ---- The invariant ----

  predicate InSlot(s: State, k: nat)
    requires Sized(s) && k < |s.produced|
  {
    s.buffer[Slot(s.size, k)] == s.produced[k]
  }

  predicate ProducerOk(s: State)
    requires Sized(s)
  {
    var r := s.producedUntil;
    match s.p
    case Awaits => r < s.runs && |s.produced| == r
    case Copies(i) =>
      && r < s.runs && |s.produced| == r + 1 && r < s.consumedUntil + s.size
      && |s.produced[r]| == s.width && i <= s.width
      && s.buffer[Slot(s.size, r)][..i] == s.produced[r][..i]
    case Publishes => r < s.runs && |s.produced| == r + 1 && r < s.consumedUntil + s.size && InSlot(s, r)
    case Finished => r == s.runs == |s.produced|
  }

  predicate ConsumerOk(s: State) {
    var r := s.consumedUntil;
    match s.c
    case Expects => r < s.runs && |s.consumed| == r
    case Fetches(got) =>
      && r < s.runs && |s.consumed| == r && r < s.producedUntil <= |s.produced|
      && |s.produced[r]| == s.width && |got| <= s.width && got == s.produced[r][..|got|]
    case Frees => r < s.runs && |s.consumed| == r + 1 && r < s.producedUntil
    case Satisfied => r == s.runs == |s.consumed|
  }

  ghost predicate Inv(s: State) {
    && Sized(s) && ProducerOk(s) && ConsumerOk(s)
    && s.consumedUntil <= s.producedUntil <= s.consumedUntil + s.size
    && |s.consumed| <= s.producedUntil <= |s.produced|
    && (forall k :: 0 <= k < |s.produced| ==> |s.produced[k]| == s.width)
    && (forall k :: s.consumedUntil <= k < s.producedUntil ==> InSlot(s, k))
    && (forall k :: 0 <= k < |s.consumed| ==> s.consumed[k] == s.produced[k])
  }

  /** Rounds less than a whole buffer apart use different slots. */
  lemma SlotsDiffer(size: nat, k: nat, r: nat)
    requires size > 0 && k < r < k + size
    ensures Slot(size, k) != Slot(size, r)
  {
    var q := r / size - k / size;
    assert r - k == size * q + Slot(size, r) - Slot(size, k);
    MultipleOutside(size, q);
  }

  lemma MultipleOutside(n: nat, q: int)
    ensures n * q >= n || n * q <= 0
  {
  }

  lemma ProducerKeeps(s: State, item: Item)
    requires Inv(s) && |item| == s.width
    ensures Inv(ProducerStep(s, item))
  {
    hide Slot;
    var s' := ProducerStep(s, item);
    var r := s.producedUntil;
    if s.p.Copies? && s.p.i < s.width {
      forall k | s.consumedUntil <= k < r
        ensures InSlot(s', k)
      {
        assert InSlot(s, k);
        SlotsDiffer(s.size, k, r);
      }
    } else {
      forall k | s.consumedUntil <= k < r
        ensures InSlot(s', k)
      {
        assert InSlot(s, k);
      }
      if s.p.Copies? {
        assert s.buffer[Slot(s.size, r)][..s.width] == s.buffer[Slot(s.size, r)];
      }
    }
  }

  lemma ConsumerKeeps(s: State)
    requires Inv(s)
    ensures Inv(ConsumerStep(s))
  {
    hide Slot;
    var s' := ConsumerStep(s);
    assert s.c.Fetches? ==> InSlot(s, s.consumedUntil);
    forall k | s'.consumedUntil <= k < s'.producedUntil
      ensures InSlot(s', k)
    {
      assert InSlot(s, k);
    }
  }

  lemma {:induction false} RunInv(states: seq<State>, events: seq<Event>, i: nat)
    requires IsRun(states, events) && i < |states|
    ensures Inv(states[i])
  {
    if i > 0 {
      hide Inv, ProducerStep, ConsumerStep;
      RunInv(states, events, i - 1);
      if events[i - 1].Produce? {
        ProducerKeeps(states[i - 1], events[i - 1].item);
      } else {
        ConsumerKeeps(states[i - 1]);
      }
    }
  }

  // ---- What it means ----

  /** In every interleaving at most a buffer full of items is in flight, and what was consumed is, item by
      item and character by character, what was produced. */
  lemma FirstInFirstOut(states: seq<State>, events: seq<Event>, i: nat)
    requires IsRun(states, events) && i < |states|
    ensures 0 <= states[i].producedUntil - states[i].consumedUntil <= states[i].size
    ensures states[i].consumed <= states[i].produced
    ensures states[i].p.Finished? && states[i].c.Satisfied? ==>
              states[i].consumed == states[i].produced && |states[i].consumed| == states[i].runs
  {
    RunInv(states, events, i);
  }

  /** Until all is consumed, one side's next access changes something. */
  lemma NeverStuck(states: seq<State>, events: seq<Event>, i: nat, item: Item)
    requires IsRun(states, events) && i < |states|
    requires !(states[i].p.Finished? && states[i].c.Satisfied?)
    ensures Sized(states[i])
    ensures ProducerStep(states[i], item) != states[i] || ConsumerStep(states[i]) != states[i]
  {
    RunInv(states, events, i);
  }

  /** The producer goes on exactly when there is room, and the consumer exactly when there is an item. */
  lemma GoesOnIff(states: seq<State>, events: seq<Event>, i: nat, item: Item)
    requires IsRun(states, events) && i < |states|
    ensures Sized(states[i])
    ensures var s := states[i];
            && (s.p.Awaits? ==> (!ProducerStep(s, item).p.Awaits? <==> s.producedUntil - s.consumedUntil < s.size))
            && (s.c.Expects? ==> (!ConsumerStep(s).c.Expects? <==> s.consumedUntil < s.producedUntil))
  {
    RunInv(states, events, i);
  }

  // ---- It ends ----

  /** The accesses that one item costs each side at most. */
  function ItemCost(s: State): nat {
    s.width + 4
  }

  function ProducerLeft(s: State): int {
    var all := (s.runs - s.producedUntil) * ItemCost(s);
    match s.p
    case Copies(i) => all - 1 - i
    case Publishes => all - s.width - 2
    case _ => all
  }

  function ConsumerLeft(s: State): int {
    var all := (s.runs - s.consumedUntil) * ItemCost(s);
    match s.c
    case Fetches(got) => all - 1 - |got|
    case Frees => all - s.width - 2
    case _ => all
  }

  lemma ItemDone(n: int, k: int)
    ensures (n - 1) * k == n * k - k
  {
  }

  lemma ProducerCosts(s: State, item: Item)
    requires Inv(s) && |item| == s.width && ProducerStep(s, item) != s
    ensures ProducerLeft(ProducerStep(s, item)) < ProducerLeft(s)
    ensures ConsumerLeft(ProducerStep(s, item)) == ConsumerLeft(s)
  {
    ItemDone(s.runs - s.producedUntil, ItemCost(s));
  }

  lemma ConsumerCosts(s: State)
    requires Inv(s) && ConsumerStep(s) != s
    ensures ConsumerLeft(ConsumerStep(s)) < ConsumerLeft(s)
    ensures ProducerLeft(ConsumerStep(s)) == ProducerLeft(s)
  {
    ItemDone(s.runs - s.consumedUntil, ItemCost(s));
  }

  lemma SomethingLeft(s: State)
    requires Inv(s)
    ensures ProducerLeft(s) >= 0 && ConsumerLeft(s) >= 0
  {
    var n, k := s.runs - s.producedUntil, s.runs - s.consumedUntil;
    assert n > 0 ==> n * ItemCost(s) >= ItemCost(s);
    assert k > 0 ==> k * ItemCost(s) >= ItemCost(s);
  }

  /** Only so many accesses change anything, and by NeverStuck some access does until all is consumed. */
  lemma {:induction false} ComesToRest(states: seq<State>, events: seq<Event>, i: nat)
    requires IsRun(states, events) && i < |states|
    ensures Changes(states, i) + ProducerLeft(states[i]) + ConsumerLeft(states[i])
         <= 2 * states[0].runs * (states[0].width + 4)
    ensures Changes(states, i) <= 2 * states[0].runs * (states[0].width + 4)
  {
    hide Inv, ProducerStep, ConsumerStep;
    RunInv(states, events, i);
    SomethingLeft(states[i]);
    if i > 0 {
      ComesToRest(states, events, i - 1);
      RunInv(states, events, i - 1);
      hide ProducerLeft, ConsumerLeft;
      var s, e := states[i - 1], events[i - 1];
      assert states[i] == Step(s, e);
      if states[i] != s {
        if e.Produce? {
          ProducerCosts(s, e.item);
        } else {
          ConsumerCosts(s);
        }
      }
    }
  }
}
