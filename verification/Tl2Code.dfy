/** The library as it is written: loops over the write set and the read set that update the clock, the
    lock words and shared memory in place. Here one caller runs at a time; Tl2 is the same code cut
    into atomic steps for any number of callers. */
module Tl2Code {
  import opened LockWord
  import opened Options
  import opened Tl2

  // ---- Words of an access, `align` bytes each ----

  function WordAddr(a: Addr, k: nat, align: nat): Addr {
    a + k * align
  }

  /** The `n` words of `m` from `a` on. */
  function Load(m: Mem, a: Addr, n: nat, align: nat): seq<Val> {
    seq(n, k requires k >= 0 => Get(m, WordAddr(a, k, align)))
  }

  /** `m` after storing `xs` from `a` on. */
  function Store(m: Mem, a: Addr, xs: seq<Val>, align: nat): Mem {
    if xs == [] then m
    else Store(m, a, xs[..|xs| - 1], align)[WordAddr(a, |xs| - 1, align) := xs[|xs| - 1]]
  }

  function WordAddrs(a: Addr, n: nat, align: nat): set<Addr> {
    set k | 0 <= k < n :: WordAddr(a, k, align)
  }

  function Zeros(n: nat): seq<Val> {
    seq(n, _ => 0)
  }

  /** `m` with every word of a segment zeroed. */
  function Cleared(m: Mem, g: Segment, align: nat): Mem
    requires align > 0
  {
    Store(m, g.base, Zeros(g.size / align), align)
  }

  /** `a` is the address of one of the `n` words from `base` on. */
  predicate IsWord(base: Addr, n: nat, align: nat, a: Addr)
    requires align > 0
  {
    base <= a && (a - base) % align == 0 && (a - base) / align < n
  }

  lemma WordOf(base: Addr, k: nat, align: nat, a: Addr)
    requires align > 0
    ensures a == base + k * align <==> base <= a && (a - base) % align == 0 && (a - base) / align == k
  {
    if a >= base {
      var q, r := (a - base) / align, (a - base) % align;
      assert a - base == q * align + r;
      if a == base + k * align {
        assert (q - k) * align + r == 0;
        Multiple(align, q - k);
      }
    }
  }

  lemma Multiple(n: int, q: int)
    requires n >= 0
    ensures q >= 1 ==> q * n >= n
    ensures q <= -1 ==> q * n <= -n
  {
  }

  lemma WordsAre(base: Addr, n: nat, align: nat)
    requires align > 0
    ensures forall a: Addr :: a in WordAddrs(base, n, align) <==> IsWord(base, n, align, a)
  {
    forall a: Addr
      ensures a in WordAddrs(base, n, align) <==> IsWord(base, n, align, a)
    {
      if IsWord(base, n, align, a) {
        WordOf(base, (a - base) / align, align, a);
        assert a == WordAddr(base, (a - base) / align, align);
      }
      if k: nat :| k < n && a == WordAddr(base, k, align) {
        WordOf(base, k, align, a);
      }
    }
  }

  lemma {:induction false} StoreKeys(m: Mem, a: Addr, xs: seq<Val>, align: nat)
    ensures Store(m, a, xs, align).Keys == m.Keys + WordAddrs(a, |xs|, align)
  {
    if xs != [] {
      StoreKeys(m, a, xs[..|xs| - 1], align);
    }
  }

  /** Reading back what was stored; other words keep their values. */
  lemma {:induction false} StoreGet(m: Mem, a: Addr, xs: seq<Val>, align: nat, b: Addr)
    requires align > 0
    ensures forall k :: 0 <= k < |xs| && b == WordAddr(a, k, align) ==> Get(Store(m, a, xs, align), b) == xs[k]
    ensures b !in WordAddrs(a, |xs|, align) ==> Get(Store(m, a, xs, align), b) == Get(m, b)
  {
    if xs != [] {
      var p := xs[..|xs| - 1];
      StoreGet(m, a, p, align, b);
      assert WordAddrs(a, |p|, align) <= WordAddrs(a, |xs|, align);
      assert WordAddr(a, |p|, align) in WordAddrs(a, |xs|, align);
      forall k | 0 <= k < |xs| && b == WordAddr(a, k, align)
        ensures Get(Store(m, a, xs, align), b) == xs[k]
      {
        if k < |p| {
          assert k * align < |p| * align;
        }
      }
    }
  }

  /** What a store of several words does, word by word. */
  lemma StoreWords(m: Mem, a: Addr, xs: seq<Val>, align: nat)
    requires align > 0
    ensures var n := Store(m, a, xs, align);
            && (forall k :: 0 <= k < |xs| ==> a + k * align in n && n[a + k * align] == xs[k])
            && (forall b :: !IsWord(a, |xs|, align, b) ==> (b in n <==> b in m) && (b in m ==> n[b] == m[b]))
  {
    var n := Store(m, a, xs, align);
    StoreKeys(m, a, xs, align);
    WordsAre(a, |xs|, align);
    forall k | 0 <= k < |xs|
      ensures a + k * align in n && n[a + k * align] == xs[k]
    {
      WordOf(a, k, align, a + k * align);
      StoreGet(m, a, xs, align, a + k * align);
    }
    forall b | !IsWord(a, |xs|, align, b) && b in m
      ensures n[b] == m[b]
    {
      StoreGet(m, a, xs, align, b);
    }
  }

  /** What a load of several words answers, word by word. */
  lemma LoadWords(words: Locks, rv: nat, m: Mem, a: Addr, n: nat, align: nat)
    requires align > 0
    ensures Readable(words, rv, a, n, align) == forall k :: 0 <= k < n ==> StillValid(words, {}, rv, a + k * align)
    ensures forall k :: 0 <= k < n ==> Load(m, a, n, align)[k] == Get(m, a + k * align)
    ensures forall b: Addr :: b in WordAddrs(a, n, align) <==> IsWord(a, n, align, b)
  {
    hide StillValid;
    WordsAre(a, n, align);
    if forall k :: 0 <= k < n ==> StillValid(words, {}, rv, a + k * align) {
      forall k | 0 <= k < n
        ensures StillValid(words, {}, rv, WordAddr(a, k, align))
      {
        assert WordAddr(a, k, align) == a + k * align;
      }
    } else {
      var k :| 0 <= k < n && !StillValid(words, {}, rv, a + k * align);
      assert !StillValid(words, {}, rv, WordAddr(a, k, align));
    }
  }

  // ---- What the methods below promise, as functions of the old state ----

  /** The lock words with those of `held` locked. */
  function LockedAt(words: Locks, held: set<Stripe>): Locks {
    seq(NUM_LOCKS, l requires 0 <= l < NUM_LOCKS => if l in held then words[l].(locked := true) else words[l])
  }

  /** The lock words after the stripes of `held` were unlocked, whatever their bits were. */
  function UnlockedAt(words: Locks, held: set<Stripe>): Locks {
    seq(NUM_LOCKS, l requires 0 <= l < NUM_LOCKS => if l in held then Unlocked(words[l].version) else words[l])
  }

  /** The lock words after a commit with version `wv` over the stripes of `held`. */
  function ReleasedAt(words: Locks, held: set<Stripe>, wv: nat): Locks {
    seq(NUM_LOCKS, l requires 0 <= l < NUM_LOCKS => if l in held then Released(wv) else words[l])
  }

  /** After an abort: some free stripes among `own` went through lock and unlock, all others are untouched. */
  ghost predicate GivenBack(words: Locks, after: Locks, own: set<Stripe>) {
    forall l: Stripe ::
      after[l] == words[l] || (l in own && !words[l].locked && after[l] == Unlocked(words[l].version))
  }

  predicate AllFree(words: Locks, addrs: set<Addr>) {
    forall a :: a in addrs ==> !words[StripeOf(a)].locked
  }

  /** `a` may still be relied on: no one else holds its stripe, and nobody committed to it since `rv`. */
  predicate StillValid(words: Locks, own: set<Stripe>, rv: nat, a: Addr) {
    (StripeOf(a) in own || !words[StripeOf(a)].locked) && words[StripeOf(a)].version <= rv
  }

  predicate AllValid(words: Locks, own: set<Stripe>, rv: nat, addrs: set<Addr>) {
    forall a :: a in addrs ==> StillValid(words, own, rv, a)
  }

  /** Every word from `a` on may be read at `rv`. */
  predicate Readable(words: Locks, rv: nat, a: Addr, n: nat, align: nat) {
    forall k :: 0 <= k < n ==> StillValid(words, {}, rv, WordAddr(a, k, align))
  }

  function NextVersion(v: Raw): Raw {
    (v + 1) % CLOCK_SIZE
  }

  /** Exactly when tm_end commits. */
  predicate Commits(words: Locks, gvc: Raw, ro: bool, rv: Raw, readSet: set<Addr>, writeSet: Mem) {
    ro || (AllFree(words, writeSet.Keys)
           && (NextVersion(rv) == NextVersion(gvc) || AllValid(words, Stripes(writeSet.Keys), rv, readSet)))
  }

  /** `a` is refused while `held` is held: its stripe is another one, and not free or not given. */
  predicate Refused(words: Locks, addrs: set<Addr>, spurious: set<Addr>, held: set<Stripe>, a: Addr) {
    && a in addrs && StripeOf(a) !in held && (words[StripeOf(a)].locked || a in spurious)
    && held <= Stripes(addrs) && forall l :: l in held ==> !words[l].locked
  }

  /** What tm_end may do to the lock words, the clock and memory, and what it then returns. */
  ghost predicate EndOutcome(words: Locks, gvc: Raw, m: Mem, ro: bool, rv: Raw, readSet: set<Addr>, writeSet: Mem,
                             spurious: set<Addr>, words': Locks, gvc': Raw, m': Mem, ok: bool) {
    var own := Stripes(writeSet.Keys);
    if ro then ok && words' == words && gvc' == gvc && m' == m
    else if ok then
      && Commits(words, gvc, ro, rv, readSet, writeSet)
      && gvc' == NextVersion(gvc) && m' == m + writeSet && words' == ReleasedAt(words, own, gvc')
    else
      && m' == m
      && if gvc' == gvc then
           exists held, a :: Refused(words, writeSet.Keys, spurious, held, a) && words' == UnlockedAt(words, held)
         else
           && gvc' == NextVersion(gvc) && AllFree(words, writeSet.Keys) && words' == UnlockedAt(words, own)
           && NextVersion(rv) != gvc' && !AllValid(words, own, rv, readSet)
  }

  // ---- The library ----

  /** The system allocator, as far as the library calls it back. */
  class Heap {
    var freed: seq<Segment>

    constructor ()
      ensures freed == []
    {
      freed := [];
    }

    method Free(g: Segment)
      modifies this
      ensures freed == old(freed) + [g]
    {
      freed := freed + [g];
    }
  }

  class Transaction {
    const rv: Raw
    const isRo: bool
    var readSet: set<Addr>
    var writeSet: Mem
    var segList: seq<Segment>

    constructor (gvc: Raw, ro: bool)
      ensures rv == gvc && isRo == ro && readSet == {} && writeSet == map[] && segList == []
    {
      rv, isRo := gvc, ro;
      readSet, writeSet, segList := {}, map[], [];
    }

    /** The destructor: every segment still listed goes back to the allocator, once and in order. */
    method Delete(heap: Heap)
      modifies this`segList, heap
      ensures heap.freed == old(heap.freed) + old(segList) && segList == []
    {
      var i := 0;
      while i < |segList|
        invariant i <= |segList| && segList == old(segList)
        invariant heap.freed == old(heap.freed) + segList[..i]
      {
        heap.Free(segList[i]);
        i := i + 1;
      }
      segList := [];
    }
  }

  class MemoryRegion {
    var gvc: Raw
    const locks: array<Raw>
    var mem: Mem
    var segList: seq<Segment>
    const align: nat
    const start: Segment

    ghost predicate Valid() {
      locks.Length == NUM_LOCKS && align > 0
    }

    /** The lock words, decoded. */
    ghost function Words(): (words: Locks)
      requires Valid()
      reads locks
      ensures forall l: Stripe :: words[l] == Decode(locks[l])
    {
      seq(NUM_LOCKS, l requires 0 <= l < locks.Length reads locks => Decode(locks[l]))
    }

    constructor (size: nat, al: nat, base: Addr)
      requires al > 0
      ensures Valid() && fresh(locks) && align == al && start == Segment(base, size)
      ensures gvc == 0 && mem == map[] && segList == []
      ensures Words() == seq(NUM_LOCKS, _ => Word(0, false))
    {
      gvc, mem, segList, align, start := 0, map[], [], al, Segment(base, size);
      locks := new Raw[NUM_LOCKS](_ => 0);
    }

    // ---- One lock ----

    /** Takes the stripe exactly when it is free, unless the weak exchange fails spuriously. */
    method TryLock(l: Stripe, spurious: bool) returns (ok: bool)
      requires Valid()
      modifies locks
      ensures ok == (!spurious && !old(Words())[l].locked)
      ensures Words() == if ok then old(Words())[l := old(Words())[l].(locked := true)] else old(Words())
    {
      var loaded := locks[l];
      LockOnDecoded(loaded, locks[l], spurious);
      var exchange := RawLock(loaded, locks[l], spurious);
      locks[l] := exchange.0;
      ok := exchange.1;
    }

    method UnlockOne(l: Stripe)
      requires Valid()
      modifies locks
      ensures Words() == old(Words())[l := Unlocked(old(Words())[l].version)]
    {
      UnlockOnDecoded(locks[l]);
      locks[l] := RawUnlock(locks[l]);
    }

    method SetVersion(l: Stripe, v: Raw)
      requires Valid()
      modifies locks
      ensures Words() == old(Words())[l := Released(v)]
    {
      SetVersionOnDecoded(v);
      locks[l] := RawSetVersion(v);
    }

    function GetVersion(l: Stripe): (v: nat)
      requires Valid()
      reads locks
      ensures v == Words()[l].version
    {
      locks[l] / 2
    }

    predicate IsLocked(l: Stripe)
      requires Valid()
      reads locks
      ensures IsLocked(l) == Words()[l].locked
    {
      locks[l] % 2 == 1
    }

    // ---- The calls ----

    method TmBegin(ro: bool) returns (txn: Transaction)
      ensures fresh(txn) && txn.rv == gvc && txn.isRo == ro
      ensures txn.readSet == {} && txn.writeSet == map[] && txn.segList == []
    {
      txn := new Transaction(gvc, ro);
    }

    /** Succeeds exactly when every stripe read is free and no newer than the snapshot. The values are
        those of shared memory under the transaction's own writes. */
    method TmRead(txn: Transaction, heap: Heap, source: Addr, n: nat) returns (ok: bool, target: seq<Val>)
      requires Valid() && (txn.isRo ==> txn.writeSet == map[])
      modifies txn`readSet, txn`segList, heap
      ensures ok == forall k :: 0 <= k < n ==> StillValid(Words(), {}, txn.rv, source + k * align)
      ensures ok ==> |target| == n
      ensures ok ==> forall k :: 0 <= k < n ==> target[k] == Get(mem + txn.writeSet, source + k * align)
      ensures ok ==> forall a :: a in txn.readSet <==>
                a in old(txn.readSet) || (!txn.isRo && IsWord(source, n, align, a))
      ensures ok == Readable(Words(), txn.rv, source, n, align)
      ensures ok ==> target == Load(mem + txn.writeSet, source, n, align)
      ensures ok ==> txn.readSet == old(txn.readSet) + if txn.isRo then {} else WordAddrs(source, n, align)
      ensures ok ==> heap.freed == old(heap.freed) && txn.segList == old(txn.segList)
      ensures !ok ==> heap.freed == old(heap.freed) + old(txn.segList) && txn.segList == []
    {
      hide IsWord;
      target := [];
      ok := true;
      var k := 0;
      while k < n
        invariant k <= n && ok
        invariant Readable(Words(), txn.rv, source, k, align)
        invariant target == Load(mem + txn.writeSet, source, k, align)
        invariant txn.readSet == old(txn.readSet) + if txn.isRo then {} else WordAddrs(source, k, align)
        invariant heap.freed == old(heap.freed) && txn.segList == old(txn.segList)
      {
        var a := WordAddr(source, k, align);
        var l := StripeOf(a);
        var version := GetVersion(l);
        if IsLocked(l) || version > txn.rv {
          txn.Delete(heap);
          LoadWords(Words(), txn.rv, mem + txn.writeSet, source, n, align);
          return false, [];
        }
        var x := if !txn.isRo && a in txn.writeSet then txn.writeSet[a] else Get(mem, a);
        var newVersion := GetVersion(l);
        if IsLocked(l) || newVersion != version || (txn.isRo && newVersion > txn.rv) {
          assert false; // needs another caller between the two checks
        }
        target := target + [x];
        if !txn.isRo {
          txn.readSet := txn.readSet + {a};
        }
        k := k + 1;
      }
      LoadWords(Words(), txn.rv, mem + txn.writeSet, source, n, align);
    }

    /** Buffers the words: of several writes to one word the last wins. */
    method TmWrite(txn: Transaction, source: seq<Val>, target: Addr)
      requires Valid()
      modifies txn`writeSet
      ensures forall k :: 0 <= k < |source| ==>
                target + k * align in txn.writeSet && txn.writeSet[target + k * align] == source[k]
      ensures forall a :: !IsWord(target, |source|, align, a) ==>
                && (a in txn.writeSet <==> a in old(txn.writeSet))
                && (a in txn.writeSet ==> txn.writeSet[a] == old(txn.writeSet)[a])
      ensures txn.writeSet == Store(old(txn.writeSet), target, source, align)
    {
      StoreWords(txn.writeSet, target, source, align);
      var k := 0;
      while k < |source|
        invariant k <= |source|
        invariant txn.writeSet == Store(old(txn.writeSet), target, source[..k], align)
      {
        txn.writeSet := txn.writeSet[WordAddr(target, k, align) := source[k]];
        k := k + 1;
        assert source[..k][..k - 1] == source[..k - 1];
      }
      assert source[..k] == source;
    }

    /** `got` is the allocator's answer: the whole segment is zeroed. */
    method TmAlloc(txn: Transaction, got: Option<Segment>) returns (target: Option<Addr>)
      requires Valid()
      modifies this`mem, txn`segList
      ensures got.Some? ==>
                && (forall k :: 0 <= k < got.value.size / align ==> Get(mem, got.value.base + k * align) == 0)
                && (forall a :: !IsWord(got.value.base, got.value.size / align, align, a) ==>
                      Get(mem, a) == Get(old(mem), a))
      ensures got.None? ==> target == None && mem == old(mem) && txn.segList == old(txn.segList)
      ensures got.Some? ==> target == Some(got.value.base) && txn.segList == old(txn.segList) + [got.value]
                            && mem == Cleared(old(mem), got.value, align)
    {
      if got.None? {
        return None;
      }
      var n := got.value.size / align;
      StoreWords(mem, got.value.base, Zeros(n), align);
      var k := 0;
      while k < n
        invariant k <= n && mem == Store(old(mem), got.value.base, Zeros(k), align)
        invariant txn.segList == old(txn.segList)
      {
        mem := mem[WordAddr(got.value.base, k, align) := 0];
        k := k + 1;
        assert Zeros(k)[..k - 1] == Zeros(k - 1);
      }
      txn.segList := txn.segList + [got.value];
      target := Some(got.value.base);
    }

    /** The lock loop: all stripes of the write set, or those taken before one was refused. A word whose stripe is
        already held for another word is skipped. `spurious`: the words on which the weak exchange fails. */
    method LockWriteSet(addrs: set<Addr>, spurious: set<Addr>) returns (ok: bool, held: set<Stripe>)
      requires Valid()
      modifies locks
      ensures ok ==> AllFree(old(Words()), addrs) && held == Stripes(addrs)
      ensures !ok ==> exists a :: Refused(old(Words()), addrs, spurious, held, a)
      ensures Words() == LockedAt(old(Words()), held)
      ensures held <= Stripes(addrs) && forall l :: l in held ==> !old(Words())[l].locked
    {
      ghost var words := Words();
      held := {};
      var todo := addrs;
      while todo != {}
        invariant todo <= addrs
        invariant held == Stripes(addrs - todo)
        invariant Words() == LockedAt(words, held)
        invariant forall l :: l in held ==> !words[l].locked
      {
        var a :| a in todo;
        ghost var before := Words();
        assert a !in addrs - todo && addrs - (todo - {a}) == addrs - todo + {a};
        ok := TryLock(StripeOf(a), a in spurious);
        if !ok && StripeOf(a) !in held {
          assert Refused(words, addrs, spurious, held, a);
          return;
        }
        held := held + {StripeOf(a)};
        todo := todo - {a};
      }
      assert addrs - todo == addrs;
      ok := true;
    }

    /** Gives the stripes back on the abort paths. */
    method UnlockAll(held: set<Stripe>)
      requires Valid()
      modifies locks
      ensures Words() == UnlockedAt(old(Words()), held)
    {
      ghost var words := Words();
      var todo := held;
      while todo != {}
        invariant todo <= held && Words() == UnlockedAt(words, held - todo)
      {
        var l :| l in todo;
        UnlockOne(l);
        todo := todo - {l};
      }
      assert held - todo == held;
    }

    /** The read-set loop. */
    method ValidateReads(addrs: set<Addr>, held: set<Stripe>, rv: Raw) returns (ok: bool)
      requires Valid()
      ensures ok == AllValid(Words(), held, rv, addrs)
    {
      var todo := addrs;
      while todo != {}
        invariant todo <= addrs && AllValid(Words(), held, rv, addrs - todo)
      {
        var a :| a in todo;
        var l := StripeOf(a);
        if (l !in held && IsLocked(l)) || GetVersion(l) > rv {
          assert !StillValid(Words(), held, rv, a);
          return false;
        }
        todo := todo - {a};
      }
      assert addrs - todo == addrs;
      ok := true;
    }

    /** The write-back loop: each word is copied and its stripe released, so when two words share a
        stripe it is released before the second copy. */
    method WriteBack(writeSet: Mem, wv: Raw)
      requires Valid()
      modifies this`mem, locks
      ensures mem == old(mem) + writeSet
      ensures Words() == ReleasedAt(old(Words()), Stripes(writeSet.Keys), wv)
    {
      ghost var words, m := Words(), mem;
      var todo := writeSet.Keys;
      ghost var done: set<Addr> := {};
      while todo != {}
        invariant todo !! done && todo + done == writeSet.Keys
        invariant mem == m + (map a | a in done :: writeSet[a])
        invariant Words() == ReleasedAt(words, Stripes(done), wv)
      {
        var a :| a in todo;
        mem := mem[a := writeSet[a]];
        SetVersion(StripeOf(a), wv);
        todo := todo - {a};
        done := done + {a};
      }
      assert (map a | a in done :: writeSet[a]) == writeSet;
    }

    /** Without spurious failures it commits exactly when the stripes of the write set are free and, unless the
        clock stood still since the transaction began, nothing it read was overtaken. A commit is the write set
        laid over memory. An abort leaves memory alone and gives back the stripes it took. */
    method TmEnd(txn: Transaction, heap: Heap, spurious: set<Addr>) returns (ok: bool)
      requires Valid()
      modifies this, locks, txn`segList, heap
      ensures EndOutcome(old(Words()), old(gvc), old(mem), txn.isRo, txn.rv, txn.readSet, txn.writeSet, spurious,
                         Words(), gvc, mem, ok)
      ensures ok ==> Commits(old(Words()), old(gvc), txn.isRo, txn.rv, txn.readSet, txn.writeSet)
      ensures spurious !! txn.writeSet.Keys ==>
                ok == Commits(old(Words()), old(gvc), txn.isRo, txn.rv, txn.readSet, txn.writeSet)
      ensures !ok ==> GivenBack(old(Words()), Words(), Stripes(txn.writeSet.Keys))
      ensures segList == old(segList) + (if ok && !txn.isRo then old(txn.segList) else [])
      ensures heap.freed == old(heap.freed) + (if ok && !txn.isRo then [] else old(txn.segList))
      ensures txn.segList == []
    {
      hide LockedAt, UnlockedAt, ReleasedAt, AllFree, AllValid, Stripes, GivenBack, Refused, StripeOf;
      ghost var words, m := Words(), mem;
      if !txn.isRo {
        var held;
        ok, held := LockWriteSet(txn.writeSet.Keys, spurious);
        if !ok {
          UnlockAll(held);
          BackAsBefore(words, held, Stripes(txn.writeSet.Keys));
          ghost var a :| Refused(words, txn.writeSet.Keys, spurious, held, a);
          RefusedIsFatal(words, txn.writeSet.Keys, spurious, held, a);
          txn.Delete(heap);
          return;
        }
        gvc := NextVersion(gvc);
        var wv := gvc;
        if NextVersion(txn.rv) != wv {
          ok := ValidateReads(txn.readSet, held, txn.rv);
          ValidWhileHeld(words, held, txn.rv, txn.readSet);
          if !ok {
            UnlockAll(held);
            BackAsBefore(words, held, held);
            txn.Delete(heap);
            return;
          }
        }
        WriteBack(txn.writeSet, wv);
        ReleaseWhileHeld(words, held, wv);
        segList := segList + txn.segList;
        txn.segList := [];
      }
      txn.Delete(heap);
      ok := true;
    }

    /** tm_destroy: the region's segments and the first one go back to the allocator. */
    method TmDestroy(heap: Heap)
      modifies this`segList, heap
      ensures heap.freed == old(heap.freed) + old(segList) + [start] && segList == []
    {
      var i := 0;
      while i < |segList|
        invariant i <= |segList| && segList == old(segList)
        invariant heap.freed == old(heap.freed) + segList[..i]
      {
        heap.Free(segList[i]);
        i := i + 1;
      }
      segList := [];
      heap.Free(start);
    }
  }

  /** Holding one's own stripes does not change what validation says. */
  lemma ValidWhileHeld(words: Locks, held: set<Stripe>, rv: nat, addrs: set<Addr>)
    ensures AllValid(LockedAt(words, held), held, rv, addrs) == AllValid(words, held, rv, addrs)
  {
    forall a
      ensures StillValid(LockedAt(words, held), held, rv, a) == StillValid(words, held, rv, a)
    {
    }
  }

  lemma BackAsBefore(words: Locks, held: set<Stripe>, own: set<Stripe>)
    requires held <= own && forall l :: l in held ==> !words[l].locked
    ensures UnlockedAt(LockedAt(words, held), held) == UnlockedAt(words, held)
    ensures GivenBack(words, UnlockedAt(words, held), own)
  {
  }

  lemma RefusedIsFatal(words: Locks, addrs: set<Addr>, spurious: set<Addr>, held: set<Stripe>, a: Addr)
    requires Refused(words, addrs, spurious, held, a)
    ensures spurious !! addrs ==> !AllFree(words, addrs)
  {
  }

  /** Below version 2^31 nobody can tell an aborted commit from one that never ran. */
  lemma AbortRestores(words: Locks, after: Locks, own: set<Stripe>)
    requires GivenBack(words, after, own) && forall l: Stripe :: words[l].version < UNLOCK_LIMIT
    ensures after == words
  {
  }

  lemma ReleaseWhileHeld(words: Locks, held: set<Stripe>, wv: nat)
    ensures ReleasedAt(LockedAt(words, held), held, wv) == ReleasedAt(words, held, wv)
  {
  }
}
