/** Without interference the transactional memory refines the reference library: the same calls get the
    same answers, the transaction commits, and shared memory ends up the same. */
module Solo {
  import opened LockWord
  import opened Options
  import opened Tl2
  import opened Tl2Code
  import Reference

  /** `got` is what the system allocator answers. */
  datatype Call =
    | ReadCall(source: Addr, n: nat)
    | WriteCall(words: seq<Val>, target: Addr)
    | AllocCall(got: Option<Segment>)

  datatype Answer = Words(words: seq<Val>) | Written | Base(base: Option<Addr>)

  // ---- What the calls mean, executed in place ----

  function Effect(c: Call, m: Mem, align: nat): Mem
    requires align > 0
  {
    match c
    case ReadCall(_, _) => m
    case WriteCall(xs, a) => Store(m, a, xs, align)
    case AllocCall(got) => if got.Some? then Cleared(m, got.value, align) else m
  }

  function AnswerTo(c: Call, m: Mem, align: nat): Answer {
    match c
    case ReadCall(a, n) => Words(Load(m, a, n, align))
    case WriteCall(_, _) => Written
    case AllocCall(got) => Base(if got.Some? then Some(got.value.base) else None)
  }

  function MemAfter(calls: seq<Call>, m: Mem, align: nat): Mem
    requires align > 0
  {
    if calls == [] then m else Effect(calls[|calls| - 1], MemAfter(calls[..|calls| - 1], m, align), align)
  }

  function Answers(calls: seq<Call>, m: Mem, align: nat): seq<Answer>
    requires align > 0
  {
    if calls == [] then []
    else
      Answers(calls[..|calls| - 1], m, align)
      + [AnswerTo(calls[|calls| - 1], MemAfter(calls[..|calls| - 1], m, align), align)]
  }

  function NewSegment(c: Call): seq<Segment> {
    if c.AllocCall? && c.got.Some? then [c.got.value] else []
  }

  function Allocated(calls: seq<Call>): seq<Segment> {
    if calls == [] then [] else Allocated(calls[..|calls| - 1]) + NewSegment(calls[|calls| - 1])
  }

  function WordsOf(c: Call, align: nat): set<Addr> {
    if c.WriteCall? then WordAddrs(c.target, |c.words|, align) else {}
  }

  /** The words written so far. */
  function WrittenWords(calls: seq<Call>, align: nat): set<Addr> {
    if calls == [] then {}
    else WrittenWords(calls[..|calls| - 1], align) + WordsOf(calls[|calls| - 1], align)
  }

  /** What the interface allows: a read-only transaction only reads, and memory that was just allocated
      was not written before. */
  ghost predicate Proper(calls: seq<Call>, ro: bool, align: nat)
    requires align > 0
  {
    forall i :: 0 <= i < |calls| ==> ProperCall(calls[i], ro, WrittenWords(calls[..i], align), align)
  }

  predicate ProperCall(c: Call, ro: bool, written: set<Addr>, align: nat)
    requires align > 0
  {
    && (ro ==> c.ReadCall?)
    && (c.AllocCall? && c.got.Some? ==> WordAddrs(c.got.value.base, c.got.value.size / align, align) !! written)
  }

  // ---- Words stored and loaded ----

  /** Laying a buffer over memory after buffering a write is writing in place. */
  lemma {:induction false} StoreOverlay(m: Mem, ws: Mem, a: Addr, xs: seq<Val>, align: nat)
    ensures m + Store(ws, a, xs, align) == Store(m + ws, a, xs, align)
  {
    if xs != [] {
      StoreOverlay(m, ws, a, xs[..|xs| - 1], align);
    }
  }

  /** Writing memory under a buffer that does not cover those words is writing in place. */
  lemma {:induction false} StoreUnder(m: Mem, ws: Mem, a: Addr, xs: seq<Val>, align: nat)
    requires WordAddrs(a, |xs|, align) !! ws.Keys
    ensures Store(m, a, xs, align) + ws == Store(m + ws, a, xs, align)
  {
    if xs != [] {
      var p := xs[..|xs| - 1];
      assert WordAddr(a, |p|, align) in WordAddrs(a, |xs|, align);
      assert WordAddrs(a, |p|, align) <= WordAddrs(a, |xs|, align);
      StoreUnder(m, ws, a, p, align);
    }
  }

  /** Last write wins, word by word, on overlapping writes: the second write is read back in full, and the
      first one where the second did not reach. */
  lemma OverlappingWrites(m: Mem, a: Addr, xs: seq<Val>, b: Addr, ys: seq<Val>, align: nat)
    requires align > 0
    ensures var n := Store(Store(m, a, xs, align), b, ys, align);
            && Load(n, b, |ys|, align) == ys
            && forall k :: 0 <= k < |xs| && WordAddr(a, k, align) !in WordAddrs(b, |ys|, align) ==>
                 Load(n, a, |xs|, align)[k] == xs[k]
  {
    var m1 := Store(m, a, xs, align);
    forall k | 0 <= k < |ys|
      ensures Get(Store(m1, b, ys, align), WordAddr(b, k, align)) == ys[k]
    {
      StoreGet(m1, b, ys, align, WordAddr(b, k, align));
    }
    forall k | 0 <= k < |xs| && WordAddr(a, k, align) !in WordAddrs(b, |ys|, align)
      ensures Get(Store(m1, b, ys, align), WordAddr(a, k, align)) == xs[k]
    {
      StoreGet(m1, b, ys, align, WordAddr(a, k, align));
      StoreGet(m, a, xs, align, WordAddr(a, k, align));
    }
  }

  // ---- The two libraries ----

  method RunReference(region: Reference.Region, calls: seq<Call>) returns (answers: seq<Answer>)
    requires region.Valid()
    modifies region, region.nodes
    ensures answers == Answers(calls, old(region.mem), region.align)
    ensures region.mem == MemAfter(calls, old(region.mem), region.align)
  {
    answers := [];
    var i := 0;
    while i < |calls|
      invariant i <= |calls| && region.Valid()
      invariant forall k :: 0 <= k < |region.nodes| ==> fresh(region.nodes[k]) || region.nodes[k] in old(region.nodes)
      invariant answers == Answers(calls[..i], old(region.mem), region.align)
      invariant region.mem == MemAfter(calls[..i], old(region.mem), region.align)
    {
      assert calls[..i + 1][..i] == calls[..i];
      match calls[i] {
        case ReadCall(a, n) =>
          var xs := region.TmRead(a, n);
          answers := answers + [Words(xs)];
        case WriteCall(xs, a) =>
          region.TmWrite(xs, a);
          answers := answers + [Written];
        case AllocCall(got) =>
          var base := region.TmAlloc(got);
          forall k | 0 <= k < |region.nodes|
            ensures fresh(region.nodes[k]) || region.nodes[k] in old(region.nodes)
          {
            assert region.nodes[k] in region.nodes;
          }
          answers := answers + [Base(base)];
      }
      i := i + 1;
    }
    assert calls[..i] == calls;
  }

  /** No lock is held and no version is ahead of the clock. */
  predicate Unheld(words: Locks, gvc: Raw) {
    forall l: Stripe :: !words[l].locked && words[l].version <= gvc
  }

  /** One call of a transaction that began at the present clock value: it succeeds, and acts on memory under
      the write set as the call acts in place. */
  method Issue(region: MemoryRegion, heap: Heap, txn: Transaction, c: Call) returns (ok: bool, answer: Answer)
    requires region.Valid() && ProperCall(c, txn.isRo, txn.writeSet.Keys, region.align)
    requires Unheld(region.Words(), region.gvc) && txn.rv == region.gvc && (txn.isRo ==> txn.writeSet == map[])
    modifies region`mem, txn, heap
    ensures ok && answer == AnswerTo(c, old(region.mem + txn.writeSet), region.align)
    ensures region.mem + txn.writeSet == Effect(c, old(region.mem + txn.writeSet), region.align)
    ensures txn.writeSet.Keys == old(txn.writeSet.Keys) + WordsOf(c, region.align)
    ensures txn.segList == old(txn.segList) + NewSegment(c) && heap.freed == old(heap.freed)
  {
    hide IsWord, Get, Store;
    ok := true;
    match c {
      case ReadCall(a, n) =>
        var xs;
        ok, xs := region.TmRead(txn, heap, a, n);
        answer := Words(xs);
      case WriteCall(xs, a) =>
        StoreOverlay(region.mem, txn.writeSet, a, xs, region.align);
        StoreKeys(txn.writeSet, a, xs, region.align);
        region.TmWrite(txn, xs, a);
        answer := Written;
      case AllocCall(got) =>
        if got.Some? {
          StoreUnder(region.mem, txn.writeSet, got.value.base, Zeros(got.value.size / region.align), region.align);
        }
        var base := region.TmAlloc(txn, got);
        answer := Base(base);
    }
  }

  lemma UnheldCommits(words: Locks, gvc: Raw, ro: bool, readSet: set<Addr>, writeSet: Mem)
    requires Unheld(words, gvc)
    ensures Commits(words, gvc, ro, gvc, readSet, writeSet)
  {
  }

  lemma CommitIsUnheld(words: Locks, gvc: Raw, held: set<Stripe>)
    requires Unheld(words, gvc) && gvc + 1 < VERSION_LIMIT
    ensures NextVersion(gvc) == gvc + 1 && Unheld(ReleasedAt(words, held, NextVersion(gvc)), NextVersion(gvc))
  {
  }

  /** The calls of one transaction, in order. */
  method IssueAll(region: MemoryRegion, heap: Heap, txn: Transaction, calls: seq<Call>)
    returns (ok: bool, answers: seq<Answer>)
    requires region.Valid() && Proper(calls, txn.isRo, region.align)
    requires Unheld(region.Words(), region.gvc) && txn.rv == region.gvc
    requires txn.writeSet == map[] && txn.segList == []
    modifies region`mem, txn, heap
    ensures ok && answers == Answers(calls, old(region.mem), region.align)
    ensures region.mem + txn.writeSet == MemAfter(calls, old(region.mem), region.align)
    ensures txn.segList == Allocated(calls) && (txn.isRo ==> txn.writeSet == map[] && txn.segList == [])
    ensures heap.freed == old(heap.freed)
  {
    hide Effect, AnswerTo, NewSegment, Unheld, ProperCall;
    ok, answers := true, [];
    var i := 0;
    while i < |calls|
      invariant i <= |calls| && ok
      invariant region.mem + txn.writeSet == MemAfter(calls[..i], old(region.mem), region.align)
      invariant answers == Answers(calls[..i], old(region.mem), region.align)
      invariant txn.writeSet.Keys == WrittenWords(calls[..i], region.align) && (txn.isRo ==> txn.writeSet == map[])
      invariant txn.segList == Allocated(calls[..i]) && (txn.isRo ==> txn.segList == [])
      invariant heap.freed == old(heap.freed)
    {
      assert calls[..i + 1][..i] == calls[..i];
      ReadOnlyWritesNothing(calls[i], txn.isRo, txn.writeSet.Keys, region.align);
      var answer;
      ok, answer := Issue(region, heap, txn, calls[i]);
      answers := answers + [answer];
      i := i + 1;
    }
    assert calls[..i] == calls;
  }

  /** One transaction from a state in which no lock is held, alone: it commits, and both its answers and the
      memory it leaves are those of the calls executed in place. No lock is held afterwards. */
  method RunTl2(region: MemoryRegion, heap: Heap, ro: bool, calls: seq<Call>) returns (ok: bool, answers: seq<Answer>)
    requires region.Valid() && Proper(calls, ro, region.align)
    requires Unheld(region.Words(), region.gvc) && region.gvc + 1 < VERSION_LIMIT
    modifies region, region.locks, heap
    ensures ok && answers == Answers(calls, old(region.mem), region.align)
    ensures region.mem == MemAfter(calls, old(region.mem), region.align)
    ensures region.segList == old(region.segList) + Allocated(calls) && heap.freed == old(heap.freed)
    ensures Unheld(region.Words(), region.gvc)
    ensures region.gvc == old(region.gvc) + if ro then 0 else 1
  {
    hide MemAfter, Answers, Allocated, Proper, ReleasedAt, Unheld, Commits, GivenBack;
    var txn := region.TmBegin(ro);
    ok, answers := IssueAll(region, heap, txn, calls);
    CommitIsUnheld(region.Words(), region.gvc, Stripes(txn.writeSet.Keys));
    UnheldCommits(region.Words(), region.gvc, ro, txn.readSet, txn.writeSet);
    ok := region.TmEnd(txn, heap, {});
  }

  lemma ReadOnlyWritesNothing(c: Call, ro: bool, written: set<Addr>, align: nat)
    requires align > 0 && ProperCall(c, ro, written, align)
    ensures ro ==> WordsOf(c, align) == {} && NewSegment(c) == []
  {
  }
}
