/** The five ways a transaction of the bank changes memory, and that each keeps the invariant. */
module BankUpdates {
  import opened Tl2
  import opened Bank

  // ---- short_tx: one unit from one account to another ----

  /** Sequential on purpose: the receiver's balance is read after the sender's was written. */
  function Transfer(m: Mem, sp: Addr, rp: Addr): Mem {
    var m1 := m[sp := Get(m, sp) - 1];
    m1[rp := Get(m1, rp) + 1]
  }

  lemma AccountsDistinct(cfg: Config, m: Mem, list: seq<Addr>)
    requires Separate(cfg, list) && Packed(cfg, m, list)
    ensures forall k, l :: 0 <= k < l < |Flat(m, list)| ==> Flat(m, list)[k] != Flat(m, list)[l]
  {
    forall k, l | 0 <= k < l < |Flat(m, list)|
      ensures Flat(m, list)[k] != Flat(m, list)[l]
    {
      FlatDistinct(cfg, m, list, k, l);
    }
  }

  /** Writing an account changes no header, hence neither the list nor its flattening. */
  lemma AccountWriteKeepsList(cfg: Config, m: Mem, segs: set<Segment>, list: seq<Addr>, k: nat, x: Val)
    requires Chain(cfg, m, segs, list) && Packed(cfg, m, list) && k < |Flat(m, list)|
    ensures var n := m[Flat(m, list)[k] := x];
            Chain(cfg, n, segs, list) && Packed(cfg, n, list) && Flat(n, list) == Flat(m, list)
            && SumParity(n, list) == SumParity(m, list)
  {
    var n := m[Flat(m, list)[k] := x];
    forall j | 0 <= j < |list|
      ensures Get(n, Count(list[j])) == Get(m, Count(list[j]))
      ensures Get(n, Next(list[j])) == Get(m, Next(list[j]))
      ensures Get(n, Parity(list[j])) == Get(m, Parity(list[j]))
    {
      FlatApartFromHeaders(cfg, m, list, k, j);
    }
    forall j | 0 <= j < |list|
      ensures Linked(n, list, j)
    {
      assert Linked(m, list, j);
    }
    FlatAgree(m, n, list);
    ParityAgree(m, n, list);
  }

  lemma AccountWriteConfined(cfg: Config, m: Mem, segs: set<Segment>, list: seq<Addr>, k: nat, x: Val)
    requires Chain(cfg, m, segs, list) && Packed(cfg, m, list) && k < |Flat(m, list)| && Confined(m, segs)
    ensures Confined(m[Flat(m, list)[k] := x], segs)
  {
    var j, i := FlatAt(m, list, k);
    assert i < cfg.slots;
    assert Within(Flat(m, list)[k], cfg.SegmentAt(list[j]));
  }

  lemma TransferKeeps(cfg: Config, m: Mem, segs: set<Segment>, list: seq<Addr>, k: nat, l: nat)
    requires BankList(cfg, m, segs, list) && k < |Flat(m, list)| && l < |Flat(m, list)|
    requires Get(m, Flat(m, list)[k]) > 0
    ensures var n := Transfer(m, Flat(m, list)[k], Flat(m, list)[l]);
            && BankList(cfg, n, segs, list) && Flat(n, list) == Flat(m, list)
            && forall a :: Get(n, a) == Get(m, a) - (if a == Flat(m, list)[k] then 1 else 0)
                                                  + (if a == Flat(m, list)[l] then 1 else 0)
  {
    var f := Flat(m, list);
    var m1 := m[f[k] := Get(m, f[k]) - 1];
    var n := Transfer(m, f[k], f[l]);
    AccountsDistinct(cfg, m, list);
    AccountWriteKeepsList(cfg, m, segs, list, k, Get(m, f[k]) - 1);
    AccountWriteConfined(cfg, m, segs, list, k, Get(m, f[k]) - 1);
    SumUpdate(m, f, k, Get(m, f[k]) - 1);
    AccountWriteKeepsList(cfg, m1, segs, list, l, Get(m1, f[l]) + 1);
    AccountWriteConfined(cfg, m1, segs, list, l, Get(m1, f[l]) + 1);
    SumUpdate(m1, f, l, Get(m1, f[l]) + 1);
    forall i | 0 <= i < |f|
      ensures Get(n, f[i]) >= 0
    {
      assert Get(m, f[i]) >= 0;
    }
  }

  // ---- alloc_tx, last segment: remove or add an account in place ----

  function RemoveAccount(cfg: Config, m: Mem, last: Addr): Mem
    requires Get(m, Count(last)) > 0
  {
    var n := Get(m, Count(last)) - 1;
    m[Count(last) := n][Parity(last) := Get(m, Parity(last)) + Get(m, Account(last, n)) - cfg.grant]
  }

  function AddAccount(cfg: Config, m: Mem, last: Addr): Mem
    requires Get(m, Count(last)) >= 0
  {
    var n := Get(m, Count(last));
    m[Account(last, n) := cfg.grant][Count(last) := n + 1]
  }

  /** `n` differs from `m` only inside the last segment, and not in its next pointer. */
  ghost predicate LastOnly(cfg: Config, m: Mem, n: Mem, list: seq<Addr>)
    requires |list| > 0
  {
    var last := list[|list| - 1];
    && Get(n, Next(last)) == Get(m, Next(last))
    && (forall a :: !Within(a, cfg.SegmentAt(last)) ==> Get(n, a) == Get(m, a))
    && (forall a :: a in n ==> a in m || Within(a, cfg.SegmentAt(last)))
  }

  lemma LastOnlyKeeps(cfg: Config, m: Mem, n: Mem, segs: set<Segment>, list: seq<Addr>)
    requires cfg.Valid() && BankList(cfg, m, segs, list) && LastOnly(cfg, m, n, list)
    ensures Chain(cfg, n, segs, list) && Confined(n, segs)
    ensures var front := list[..|list| - 1];
            && Flat(n, front) == Flat(m, front) && SumParity(n, front) == SumParity(m, front)
            && Sum(n, Flat(n, front)) == Sum(m, Flat(m, front))
            && (forall k :: 0 <= k < |Flat(m, front)| ==> Get(n, Flat(m, front)[k]) == Get(m, Flat(m, front)[k]))
            && (forall j :: 0 <= j < |front| ==> Get(n, Count(list[j])) == Get(m, Count(list[j])))
  {
    var front := list[..|list| - 1];
    var last := list[|list| - 1];
    forall j | 0 <= j < |front|
      ensures Get(n, Count(list[j])) == Get(m, Count(list[j]))
      ensures Get(n, Next(list[j])) == Get(m, Next(list[j]))
      ensures Get(n, Parity(list[j])) == Get(m, Parity(list[j]))
    {
      assert Apart(cfg.SegmentAt(list[j]), cfg.SegmentAt(last));
    }
    forall j | 0 <= j < |list|
      ensures Linked(n, list, j)
    {
      assert Linked(m, list, j);
    }
    FlatAgree(m, n, front);
    ParityAgree(m, n, front);
    forall k | 0 <= k < |Flat(m, front)|
      ensures Get(n, Flat(m, front)[k]) == Get(m, Flat(m, front)[k])
    {
      var j, i := FlatAt(m, front, k);
      assert front[j] == list[j] && i < cfg.slots;
      assert Apart(cfg.SegmentAt(list[j]), cfg.SegmentAt(last));
    }
    SumAgree(m, n, Flat(m, front));
    assert cfg.SegmentAt(last) in segs;
  }

  lemma Distribute(g: int, a: int, b: int)
    ensures g * (a + b) == g * a + g * b
  {
  }

  /** The accounts and the money, split at the last segment. */
  lemma SplitLast(cfg: Config, m: Mem, list: seq<Addr>)
    requires |list| > 0 && Get(m, Count(list[|list| - 1])) >= 0
    ensures var front, last := list[..|list| - 1], list[|list| - 1];
            var c := Get(m, Count(last));
            && Flat(m, list) == Flat(m, front) + Slots(last, c)
            && Sum(m, Flat(m, list)) == Sum(m, Flat(m, front)) + Sum(m, Slots(last, c))
            && SumParity(m, list) == SumParity(m, front) + Get(m, Parity(last))
            && cfg.grant * |Flat(m, list)| == cfg.grant * |Flat(m, front)| + cfg.grant * c
  {
    var front, last := list[..|list| - 1], list[|list| - 1];
    var c := Get(m, Count(last));
    SumConcat(m, Flat(m, front), Slots(last, c));
    Distribute(cfg.grant, |Flat(m, front)|, c);
  }

  /** What is left to check when only the last segment changed: its count and the money in it. */
  lemma LastSegmentKeeps(cfg: Config, m: Mem, n: Mem, segs: set<Segment>, list: seq<Addr>)
    requires cfg.Valid() && BankList(cfg, m, segs, list) && LastOnly(cfg, m, n, list)
    requires var last := list[|list| - 1];
             var c, c' := Get(m, Count(last)), Get(n, Count(last));
             && (if |list| > 1 then 0 < c' <= cfg.slots else 0 <= c' <= cfg.slots)
             && 0 <= c
             && (forall i :: 0 <= i < c' ==> Get(n, Account(last, i)) >= 0)
             && Sum(n, Slots(last, c')) + Get(n, Parity(last)) - cfg.grant * c'
                == Sum(m, Slots(last, c)) + Get(m, Parity(last)) - cfg.grant * c
    ensures BankList(cfg, n, segs, list)
  {
    LastOnlyKeeps(cfg, m, n, segs, list);
    SplitLast(cfg, m, list);
    SplitLast(cfg, n, list);
    hide Sum, SumParity, Flat;
    var front := list[..|list| - 1];
    forall k | 0 <= k < |Flat(n, list)|
      ensures Get(n, Flat(n, list)[k]) >= 0
    {
      if k < |Flat(m, front)| {
        assert Flat(m, list)[k] == Flat(m, front)[k];
      }
    }
  }

  lemma LastIsNatural(cfg: Config, m: Mem, list: seq<Addr>)
    requires Packed(cfg, m, list)
    ensures 0 <= Get(m, Count(list[|list| - 1])) <= cfg.slots
  {
  }

  lemma SlotsSnoc(m: Mem, seg: Addr, n: nat)
    ensures Sum(m, Slots(seg, n + 1)) == Sum(m, Slots(seg, n)) + Get(m, Account(seg, n))
  {
    assert Slots(seg, n + 1)[..n] == Slots(seg, n);
  }

  lemma SlotsAgree(m: Mem, n: Mem, seg: Addr, c: nat)
    requires forall i :: 0 <= i < c ==> Get(m, Account(seg, i)) == Get(n, Account(seg, i))
    ensures Sum(m, Slots(seg, c)) == Sum(n, Slots(seg, c))
  {
    SumAgree(m, n, Slots(seg, c));
  }

  lemma LastAccountsNatural(cfg: Config, m: Mem, segs: set<Segment>, list: seq<Addr>, i: nat)
    requires BankList(cfg, m, segs, list) && i < Get(m, Count(list[|list| - 1]))
    ensures Get(m, Account(list[|list| - 1], i)) >= 0
  {
    var k := |Flat(m, list[..|list| - 1])| + i;
    assert Flat(m, list)[k] == Account(list[|list| - 1], i);
  }

  /** Removing the last account of a segment that keeps others: its money moves into the parity. */
  lemma RemoveAccountKeeps(cfg: Config, m: Mem, segs: set<Segment>, list: seq<Addr>)
    requires cfg.Valid() && BankList(cfg, m, segs, list) && Get(m, Count(list[|list| - 1])) > 1
    ensures BankList(cfg, RemoveAccount(cfg, m, list[|list| - 1]), segs, list)
  {
    var last := list[|list| - 1];
    var c := Get(m, Count(last)) - 1;
    var n := RemoveAccount(cfg, m, last);
    LastIsNatural(cfg, m, list);
    assert LastOnly(cfg, m, n, list);
    SlotsSnoc(m, last, c);
    SlotsAgree(m, n, last, c);
    forall i | 0 <= i < c
      ensures Get(n, Account(last, i)) >= 0
    {
      LastAccountsNatural(cfg, m, segs, list, i);
    }
    Distribute(cfg.grant, c, 1);
    LastSegmentKeeps(cfg, m, n, segs, list);
  }

  lemma AddAccountLocal(cfg: Config, m: Mem, last: Addr)
    requires 0 <= Get(m, Count(last)) < cfg.slots
    ensures var c, n := Get(m, Count(last)), AddAccount(cfg, m, last);
            && (forall i :: 0 <= i < c ==> Get(n, Account(last, i)) == Get(m, Account(last, i)))
            && Get(n, Account(last, c)) == cfg.grant && Get(n, Count(last)) == c + 1
            && Get(n, Parity(last)) == Get(m, Parity(last)) && Get(n, Next(last)) == Get(m, Next(last))
            && (forall a :: !Within(a, cfg.SegmentAt(last)) ==> Get(n, a) == Get(m, a))
            && (forall a :: a in n ==> a in m || Within(a, cfg.SegmentAt(last)))
  {
  }

  lemma AddAccountKeeps(cfg: Config, m: Mem, segs: set<Segment>, list: seq<Addr>)
    requires cfg.Valid() && BankList(cfg, m, segs, list) && Get(m, Count(list[|list| - 1])) < cfg.slots
    ensures Get(m, Count(list[|list| - 1])) >= 0
    ensures BankList(cfg, AddAccount(cfg, m, list[|list| - 1]), segs, list)
  {
    var last := list[|list| - 1];
    var c := Get(m, Count(last));
    LastIsNatural(cfg, m, list);
    var n := AddAccount(cfg, m, last);
    AddAccountLocal(cfg, m, last);
    assert LastOnly(cfg, m, n, list);
    SlotsSnoc(n, last, c);
    SlotsAgree(m, n, last, c);
    forall i | 0 <= i < c + 1
      ensures Get(n, Account(last, i)) >= 0
    {
      if i < c {
        LastAccountsNatural(cfg, m, segs, list, i);
      }
    }
    Distribute(cfg.grant, c, 1);
    hide Sum, Flat, SumParity, Slots, Solvent, Chain, LastOnly, AddAccount;
    LastSegmentKeeps(cfg, m, n, segs, list);
  }

  // ---- alloc_tx: remove or add a whole segment ----

  function RemoveSegment(cfg: Config, m: Mem, prev: Addr, last: Addr): Mem {
    var moved := Get(m, Parity(last)) + Get(m, Account(last, 0)) - cfg.grant;
    var m1 := m[Next(prev) := 0];
    m1[Parity(prev) := Get(m1, Parity(prev)) + moved]
  }

  function AddSegment(cfg: Config, m: Mem, last: Addr, base: Addr): Mem {
    m[Next(last) := base][Count(base) := 1][Account(base, 0) := cfg.grant]
  }

  /** `n` has the same accounts and counts as `m` in all segments of `list`, which is not changed otherwise. */
  ghost predicate SameAccounts(m: Mem, n: Mem, list: seq<Addr>) {
    && (forall j :: 0 <= j < |list| ==> Get(n, Count(list[j])) == Get(m, Count(list[j])))
    && (forall k :: 0 <= k < |Flat(m, list)| ==> Get(n, Flat(m, list)[k]) == Get(m, Flat(m, list)[k]))
  }

  lemma SameAccountsSum(m: Mem, n: Mem, list: seq<Addr>)
    requires SameAccounts(m, n, list)
    ensures Flat(n, list) == Flat(m, list) && Sum(n, Flat(n, list)) == Sum(m, Flat(m, list))
  {
    FlatAgree(m, n, list);
    SumAgree(m, n, Flat(m, list));
  }

  lemma {:induction false} ParityUpdate(cfg: Config, m: Mem, list: seq<Addr>, x: Val)
    requires |list| > 0 && Separate(cfg, list)
    ensures var p := Parity(list[|list| - 1]);
            SumParity(m[p := x], list) == SumParity(m, list) + x - Get(m, p)
  {
    var front := list[..|list| - 1];
    forall j | 0 <= j < |front|
      ensures Get(m[Parity(list[|list| - 1]) := x], Parity(front[j])) == Get(m, Parity(front[j]))
    {
      HeadersApart(cfg, list, j, |list| - 1);
    }
    ParityAgree(m, m[Parity(list[|list| - 1]) := x], front);
  }

  /** The list without its last segment, and the last segment's single account. */
  lemma RemoveSegmentAccounts(cfg: Config, m: Mem, segs: set<Segment>, list: seq<Addr>)
    requires cfg.Valid() && BankList(cfg, m, segs, list) && |list| > 1 && Get(m, Count(list[|list| - 1])) == 1
    ensures var front := list[..|list| - 1];
            var n := RemoveSegment(cfg, m, list[|list| - 2], list[|list| - 1]);
            SameAccounts(m, n, front) && Packed(cfg, n, front)
  {
    var front := list[..|list| - 1];
    var prev, last := list[|list| - 2], list[|list| - 1];
    var n := RemoveSegment(cfg, m, prev, last);
    assert Packed(cfg, m, front);
    assert Separate(cfg, front);
    forall j | 0 <= j < |front|
      ensures Get(n, Count(front[j])) == Get(m, Count(front[j]))
    {
      if j < |front| - 1 {
        HeadersApart(cfg, front, j, |front| - 1);
      }
    }
    forall k | 0 <= k < |Flat(m, front)|
      ensures Get(n, Flat(m, front)[k]) == Get(m, Flat(m, front)[k])
    {
      FlatApartFromHeaders(cfg, m, front, k, |front| - 1);
    }
  }

  lemma RemoveSegmentChain(cfg: Config, m: Mem, segs: set<Segment>, list: seq<Addr>)
    requires cfg.Valid() && BankList(cfg, m, segs, list) && |list| > 1
    ensures var n := RemoveSegment(cfg, m, list[|list| - 2], list[|list| - 1]);
            Chain(cfg, n, segs, list[..|list| - 1]) && Confined(n, segs)
  {
    var front := list[..|list| - 1];
    var prev := list[|list| - 2];
    var n := RemoveSegment(cfg, m, prev, list[|list| - 1]);
    assert Separate(cfg, front);
    forall j | 0 <= j < |front|
      ensures Linked(n, front, j)
    {
      assert Linked(m, list, j);
      if j < |front| - 1 {
        HeadersApart(cfg, front, j, |front| - 1);
      }
    }
    assert cfg.SegmentAt(prev) in segs && Within(Next(prev), cfg.SegmentAt(prev));
    assert Within(Parity(prev), cfg.SegmentAt(prev));
  }

  /** Removing the last account of the last segment unlinks the segment; the money moves one segment up. */
  lemma RemoveSegmentKeeps(cfg: Config, m: Mem, segs: set<Segment>, list: seq<Addr>)
    requires cfg.Valid() && BankList(cfg, m, segs, list) && |list| > 1 && Get(m, Count(list[|list| - 1])) == 1
    ensures BankList(cfg, RemoveSegment(cfg, m, list[|list| - 2], list[|list| - 1]), segs, list[..|list| - 1])
  {
    var front := list[..|list| - 1];
    var prev, last := list[|list| - 2], list[|list| - 1];
    var n := RemoveSegment(cfg, m, prev, last);
    RemoveSegmentChain(cfg, m, segs, list);
    RemoveSegmentAccounts(cfg, m, segs, list);
    SameAccountsSum(m, n, front);
    SplitLast(cfg, m, list);
    SlotsSnoc(m, last, 0);
    assert Slots(last, 0) == [];
    RemoveSegmentParity(cfg, m, list);
    forall k | 0 <= k < |Flat(n, front)|
      ensures Get(n, Flat(n, front)[k]) >= 0
    {
      assert Flat(m, list)[k] == Flat(m, front)[k];
    }
  }

  lemma RemoveSegmentParity(cfg: Config, m: Mem, list: seq<Addr>)
    requires |list| > 1 && Separate(cfg, list)
    ensures SumParity(RemoveSegment(cfg, m, list[|list| - 2], list[|list| - 1]), list[..|list| - 1])
         == SumParity(m, list[..|list| - 1])
            + Get(m, Parity(list[|list| - 1])) + Get(m, Account(list[|list| - 1], 0)) - cfg.grant
  {
    var front := list[..|list| - 1];
    var prev := list[|list| - 2];
    var m1 := m[Next(prev) := 0];
    assert Separate(cfg, front);
    forall j | 0 <= j < |front|
      ensures Get(m1, Parity(front[j])) == Get(m, Parity(front[j]))
    {
      if j < |front| - 1 {
        HeadersApart(cfg, front, j, |front| - 1);
      }
    }
    ParityAgree(m, m1, front);
    ParityUpdate(cfg, m1, front, Get(RemoveSegment(cfg, m, prev, list[|list| - 1]), Parity(prev)));
  }

  /** Nothing was ever written to a fresh segment: it is zero. */
  lemma FreshIsZero(m: Mem, segs: set<Segment>, g: Segment, a: Addr)
    requires Confined(m, segs) && Fresh(segs, g) && Within(a, g)
    ensures a !in m
  {
  }

  lemma AddSegmentChain(cfg: Config, m: Mem, segs: set<Segment>, list: seq<Addr>, base: Addr)
    requires cfg.Valid() && BankList(cfg, m, segs, list) && Fresh(segs, cfg.SegmentAt(base))
    ensures var n := AddSegment(cfg, m, list[|list| - 1], base);
            Chain(cfg, n, segs + {cfg.SegmentAt(base)}, list + [base]) && Confined(n, segs + {cfg.SegmentAt(base)})
  {
    var g := cfg.SegmentAt(base);
    var last := list[|list| - 1];
    var n := AddSegment(cfg, m, last, base);
    var list' := list + [base];
    forall i, j | 0 <= i < j < |list'|
      ensures Apart(cfg.SegmentAt(list'[i]), cfg.SegmentAt(list'[j]))
    {
      if j == |list| {
        assert Apart(g, cfg.SegmentAt(list[i]));
      } else {
        assert Apart(cfg.SegmentAt(list[i]), cfg.SegmentAt(list[j]));
      }
    }
    assert Separate(cfg, list');
    forall j | 0 <= j < |list'|
      ensures Linked(n, list', j)
    {
      if j < |list| {
        assert Linked(m, list, j);
        HeadersApart(cfg, list', j, |list|);
        if j < |list| - 1 {
          HeadersApart(cfg, list', j, |list| - 1);
        }
      } else {
        assert Within(Next(base), g);
        FreshIsZero(m, segs, g, Next(base));
        HeadersApart(cfg, list', |list| - 1, |list|);
      }
    }
    assert Within(Next(last), cfg.SegmentAt(last)) && cfg.SegmentAt(last) in segs;
    assert Within(Count(base), g) && Within(Account(base, 0), g);
  }

  lemma AddSegmentAccounts(cfg: Config, m: Mem, segs: set<Segment>, list: seq<Addr>, base: Addr)
    requires cfg.Valid() && BankList(cfg, m, segs, list) && Fresh(segs, cfg.SegmentAt(base))
    ensures var n := AddSegment(cfg, m, list[|list| - 1], base);
            SameAccounts(m, n, list)
  {
    var g := cfg.SegmentAt(base);
    var last := list[|list| - 1];
    var n := AddSegment(cfg, m, last, base);
    assert Separate(cfg, list);
    AddSegmentHeaders(cfg, m, segs, list, base);
    forall k | 0 <= k < |Flat(m, list)|
      ensures Get(n, Flat(m, list)[k]) == Get(m, Flat(m, list)[k])
    {
      FlatApartFromHeaders(cfg, m, list, k, |list| - 1);
      var j, i := FlatAt(m, list, k);
      assert i < cfg.slots;
      assert Apart(g, cfg.SegmentAt(list[j]));
    }
  }

  lemma AddSegmentHeaders(cfg: Config, m: Mem, segs: set<Segment>, list: seq<Addr>, base: Addr)
    requires cfg.Valid() && BankList(cfg, m, segs, list) && Fresh(segs, cfg.SegmentAt(base))
    ensures var n := AddSegment(cfg, m, list[|list| - 1], base);
            && (forall j :: 0 <= j < |list| ==> Get(n, Count(list[j])) == Get(m, Count(list[j])))
            && SumParity(n, list) == SumParity(m, list)
            && Get(n, Parity(base)) == 0 && Get(n, Count(base)) == 1 && Get(n, Account(base, 0)) == cfg.grant
  {
    var g := cfg.SegmentAt(base);
    var last := list[|list| - 1];
    var n := AddSegment(cfg, m, last, base);
    assert Separate(cfg, list);
    forall j | 0 <= j < |list|
      ensures Get(n, Count(list[j])) == Get(m, Count(list[j]))
      ensures Get(n, Parity(list[j])) == Get(m, Parity(list[j]))
    {
      assert Apart(g, cfg.SegmentAt(list[j]));
      if j < |list| - 1 {
        HeadersApart(cfg, list, j, |list| - 1);
      }
    }
    ParityAgree(m, n, list);
    assert Within(Parity(base), g);
    FreshIsZero(m, segs, g, Parity(base));
    assert Apart(g, cfg.SegmentAt(last));
  }

  /** A full last segment gets a successor with one account. */
  lemma AddSegmentKeeps(cfg: Config, m: Mem, segs: set<Segment>, list: seq<Addr>, base: Addr)
    requires cfg.Valid() && BankList(cfg, m, segs, list) && Fresh(segs, cfg.SegmentAt(base))
    requires Get(m, Count(list[|list| - 1])) == cfg.slots
    ensures BankList(cfg, AddSegment(cfg, m, list[|list| - 1], base), segs + {cfg.SegmentAt(base)}, list + [base])
  {
    var n := AddSegment(cfg, m, list[|list| - 1], base);
    var list' := list + [base];
    AddSegmentChain(cfg, m, segs, list, base);
    AddSegmentAccounts(cfg, m, segs, list, base);
    AddSegmentHeaders(cfg, m, segs, list, base);
    SameAccountsSum(m, n, list);
    assert list'[..|list'| - 1] == list;
    SplitLast(cfg, n, list');
    SlotsSnoc(n, base, 0);
    assert Slots(base, 0) == [];
    forall k | 0 <= k < |Flat(n, list')|
      ensures Get(n, Flat(n, list')[k]) >= 0
    {
      if k < |Flat(n, list)| {
        assert Flat(n, list')[k] == Flat(m, list)[k];
        assert Get(m, Flat(m, list)[k]) >= 0;
      }
    }
  }
}
