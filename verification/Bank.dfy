/** The bank workload's shared data: a linked list of account segments, and its money invariant. */
module Bank {
  import opened Tl2

  /** `slots`: accounts per segment; `grant`: the initial balance of an account. */
  datatype Config = Config(start: Addr, slots: nat, grant: int) {
    ghost predicate Valid() {
      start > 0 && slots > 0 && grant >= 0
    }

    function Size(): nat {
      24 + 8 * slots
    }

    function SegmentAt(base: Addr): Segment {
      Segment(base, Size())
    }
  }

  // ---- Layout of a segment: count, next, parity, accounts ----

  function Count(seg: Addr): Addr { seg }
  function Next(seg: Addr): Addr { seg + 8 }
  function Parity(seg: Addr): Addr { seg + 16 }
  function Account(seg: Addr, i: nat): Addr { seg + 24 + 8 * i }

  /** The fields of a segment fill it, word by word, and no two of them share a word. */
  lemma FieldsTile(cfg: Config, base: Addr, a: Addr)
    ensures Within(a, cfg.SegmentAt(base)) && (a - base) % 8 == 0 <==>
              a in {Count(base), Next(base), Parity(base)} || exists i: nat :: i < cfg.slots && a == Account(base, i)
    ensures Count(base) != Next(base) && Next(base) != Parity(base) && Count(base) != Parity(base)
    ensures forall i: nat :: Account(base, i) !in {Count(base), Next(base), Parity(base)}
    ensures forall i: nat, j: nat :: Account(base, i) == Account(base, j) ==> i == j
  {
    if Within(a, cfg.SegmentAt(base)) && (a - base) % 8 == 0 && a >= base + 24 {
      assert a == Account(base, (a - base - 24) / 8);
    }
  }

  function CountOf(m: Mem, seg: Addr): nat {
    var c := Get(m, Count(seg));
    if c < 0 then 0 else c
  }

  // ---- The list, flattened ----

  function Slots(seg: Addr, n: nat): seq<Addr> {
    seq(n, i requires i >= 0 => Account(seg, i))
  }

  /** The addresses of all accounts, in list order. */
  function Flat(m: Mem, list: seq<Addr>): seq<Addr> {
    if list == [] then []
    else Flat(m, list[..|list| - 1]) + Slots(list[|list| - 1], CountOf(m, list[|list| - 1]))
  }

  function Sum(m: Mem, addrs: seq<Addr>): int {
    if addrs == [] then 0 else Sum(m, addrs[..|addrs| - 1]) + Get(m, addrs[|addrs| - 1])
  }

  function SumParity(m: Mem, list: seq<Addr>): int {
    if list == [] then 0 else SumParity(m, list[..|list| - 1]) + Get(m, Parity(list[|list| - 1]))
  }

  // ---- The invariant ----

  /** `list` is what following `next` from the start visits: distinct, separate, allocated segments. */
  ghost predicate Chain(cfg: Config, m: Mem, segs: set<Segment>, list: seq<Addr>) {
    && |list| > 0 && list[0] == cfg.start
    && (forall j :: 0 <= j < |list| ==> list[j] > 0 && cfg.SegmentAt(list[j]) in segs)
    && (forall i, j :: 0 <= i < j < |list| ==> Apart(cfg.SegmentAt(list[i]), cfg.SegmentAt(list[j])))
    && (forall j :: 0 <= j < |list| ==> Linked(m, list, j))
  }

  predicate Linked(m: Mem, list: seq<Addr>, j: nat)
    requires j < |list|
  {
    Get(m, Next(list[j])) == if j + 1 < |list| then list[j + 1] else 0
  }

  /** All segments but the last are full; the last has room for its count, and is empty only when alone. */
  ghost predicate Packed(cfg: Config, m: Mem, list: seq<Addr>) {
    && |list| > 0
    && (forall j :: 0 <= j < |list| - 1 ==> Get(m, Count(list[j])) == cfg.slots)
    && 0 <= Get(m, Count(list[|list| - 1])) <= cfg.slots
    && (|list| > 1 ==> Get(m, Count(list[|list| - 1])) > 0)
  }

  ghost predicate Solvent(cfg: Config, m: Mem, list: seq<Addr>) {
    && (forall k :: 0 <= k < |Flat(m, list)| ==> Get(m, Flat(m, list)[k]) >= 0)
    && Sum(m, Flat(m, list)) + SumParity(m, list) == cfg.grant * |Flat(m, list)|
  }

  /** Every word ever written lies in an allocated segment. */
  ghost predicate Confined(m: Mem, segs: set<Segment>) {
    forall a :: a in m ==> exists g :: g in segs && Within(a, g)
  }

  predicate Within(a: Addr, g: Segment) {
    g.base <= a < g.base + g.size
  }

  ghost predicate BankList(cfg: Config, m: Mem, segs: set<Segment>, list: seq<Addr>) {
    Chain(cfg, m, segs, list) && Packed(cfg, m, list) && Solvent(cfg, m, list) && Confined(m, segs)
  }

  ghost predicate BankOk(cfg: Config, m: Mem, segs: set<Segment>) {
    exists list :: BankList(cfg, m, segs, list)
  }

  // ---- Lemmas about the list ----

  /** The accounts of segment `j` follow those of the segments before it. */
  lemma FlatPrefix(m: Mem, list: seq<Addr>, j: nat)
    requires j < |list|
    ensures Flat(m, list[..j + 1]) == Flat(m, list[..j]) + Slots(list[j], CountOf(m, list[j]))
    ensures SumParity(m, list[..j + 1]) == SumParity(m, list[..j]) + Get(m, Parity(list[j]))
  {
    assert list[..j + 1][..j] == list[..j];
  }

  lemma {:induction false} FlatIsPrefix(m: Mem, list: seq<Addr>, j: nat)
    requires j <= |list|
    ensures Flat(m, list[..j]) <= Flat(m, list)
    decreases |list| - j
  {
    if j < |list| {
      FlatPrefix(m, list, j);
      FlatIsPrefix(m, list, j + 1);
    } else {
      assert list[..j] == list;
    }
  }

  lemma {:induction false} SumConcat(m: Mem, a: seq<Addr>, b: seq<Addr>)
    ensures Sum(m, a + b) == Sum(m, a) + Sum(m, b)
  {
    if b == [] {
      assert a + b == a;
    } else {
      assert (a + b)[..|a + b| - 1] == a + b[..|b| - 1];
      SumConcat(m, a, b[..|b| - 1]);
    }
  }

  lemma {:induction false} SumAgree(m: Mem, n: Mem, addrs: seq<Addr>)
    requires forall k :: 0 <= k < |addrs| ==> Get(m, addrs[k]) == Get(n, addrs[k])
    ensures Sum(m, addrs) == Sum(n, addrs)
  {
    if addrs != [] {
      SumAgree(m, n, addrs[..|addrs| - 1]);
    }
  }

  /** Changing one of several distinct addresses changes the sum by the difference. */
  lemma {:induction false} SumUpdate(m: Mem, addrs: seq<Addr>, k: nat, x: Val)
    requires k < |addrs|
    requires forall i, j :: 0 <= i < j < |addrs| ==> addrs[i] != addrs[j]
    ensures Sum(m[addrs[k] := x], addrs) == Sum(m, addrs) + x - Get(m, addrs[k])
  {
    var p := addrs[..|addrs| - 1];
    if k < |p| {
      SumUpdate(m, p, k, x);
    } else {
      SumAgree(m, m[addrs[k] := x], p);
    }
  }

  lemma {:induction false} FlatAgree(m: Mem, n: Mem, list: seq<Addr>)
    requires forall j :: 0 <= j < |list| ==> CountOf(m, list[j]) == CountOf(n, list[j])
    ensures Flat(m, list) == Flat(n, list)
  {
    if list != [] {
      FlatAgree(m, n, list[..|list| - 1]);
    }
  }

  lemma {:induction false} ParityAgree(m: Mem, n: Mem, list: seq<Addr>)
    requires forall j :: 0 <= j < |list| ==> Get(m, Parity(list[j])) == Get(n, Parity(list[j]))
    ensures SumParity(m, list) == SumParity(n, list)
  {
    if list != [] {
      ParityAgree(m, n, list[..|list| - 1]);
    }
  }

  /** Where the k-th account is: segment `j`, slot `i`. */
  lemma {:induction false} FlatAt(m: Mem, list: seq<Addr>, k: nat) returns (j: nat, i: nat)
    requires k < |Flat(m, list)|
    ensures j < |list| && i < CountOf(m, list[j]) && Flat(m, list)[k] == Account(list[j], i)
    ensures k == |Flat(m, list[..j])| + i
  {
    var p := list[..|list| - 1];
    if k < |Flat(m, p)| {
      j, i := FlatAt(m, p, k);
      assert p[..j] == list[..j];
    } else {
      j, i := |p|, k - |Flat(m, p)|;
    }
  }

  /** Accounts are distinct words, and none is a count, next or parity word. */
  ghost predicate Separate(cfg: Config, list: seq<Addr>) {
    forall i, j :: 0 <= i < j < |list| ==> Apart(cfg.SegmentAt(list[i]), cfg.SegmentAt(list[j]))
  }

  lemma FlatDistinct(cfg: Config, m: Mem, list: seq<Addr>, k: nat, l: nat)
    requires Separate(cfg, list) && Packed(cfg, m, list)
    requires k < l < |Flat(m, list)|
    ensures Flat(m, list)[k] != Flat(m, list)[l]
  {
    var j, i := FlatAt(m, list, k);
    var j', i' := FlatAt(m, list, l);
    assert i < cfg.slots && i' < cfg.slots;
    if j == j' {
      assert i != i';
    } else if j < j' {
      assert Apart(cfg.SegmentAt(list[j]), cfg.SegmentAt(list[j']));
    } else {
      assert Apart(cfg.SegmentAt(list[j']), cfg.SegmentAt(list[j]));
    }
  }

  lemma FlatApartFromHeaders(cfg: Config, m: Mem, list: seq<Addr>, k: nat, j: nat)
    requires Separate(cfg, list) && Packed(cfg, m, list)
    requires k < |Flat(m, list)| && j < |list|
    ensures Flat(m, list)[k] !in {Count(list[j]), Next(list[j]), Parity(list[j])}
  {
    var j', i := FlatAt(m, list, k);
    assert i < cfg.slots;
    if j < j' {
      assert Apart(cfg.SegmentAt(list[j]), cfg.SegmentAt(list[j']));
    } else if j' < j {
      assert Apart(cfg.SegmentAt(list[j']), cfg.SegmentAt(list[j]));
    }
  }

  lemma HeadersApart(cfg: Config, list: seq<Addr>, i: nat, j: nat)
    requires Separate(cfg, list) && i < |list| && j < |list| && i != j
    ensures {Count(list[i]), Next(list[i]), Parity(list[i])} !! {Count(list[j]), Next(list[j]), Parity(list[j])}
  {
    if i < j {
      assert Apart(cfg.SegmentAt(list[i]), cfg.SegmentAt(list[j]));
    } else {
      assert Apart(cfg.SegmentAt(list[j]), cfg.SegmentAt(list[i]));
    }
  }

  /** In a packed list all segments before the last are full. */
  lemma {:induction false} FlatLength(cfg: Config, m: Mem, list: seq<Addr>, j: nat)
    requires Packed(cfg, m, list) && j < |list|
    ensures |Flat(m, list[..j])| == j * cfg.slots
  {
    if j > 0 {
      FlatPrefix(m, list, j - 1);
      FlatLength(cfg, m, list, j - 1);
    }
  }
}
