/** The reference library: one coarse lock, memory accessed in place, and the allocated segments on a
    doubly linked list. */
module Reference {
  import opened Options
  import opened Tl2
  import opened Tl2Code

  class SegmentNode {
    var prev: SegmentNode?
    var next: SegmentNode?
    const segment: Segment

    constructor (g: Segment)
      ensures segment == g && prev == null && next == null
    {
      segment, prev, next := g, null, null;
    }
  }

  function Segments(nodes: seq<SegmentNode>): seq<Segment> {
    seq(|nodes|, i requires 0 <= i < |nodes| => nodes[i].segment)
  }

  ghost predicate Distinct(nodes: seq<SegmentNode>) {
    forall i, j :: 0 <= i < j < |nodes| ==> nodes[i] != nodes[j]
  }

  ghost function At(nodes: seq<SegmentNode>, i: int): SegmentNode? {
    if 0 <= i < |nodes| then nodes[i] else null
  }

  ghost predicate LinkedAt(nodes: seq<SegmentNode>, i: nat)
    requires i < |nodes|
    reads nodes
  {
    nodes[i].next == At(nodes, i + 1) && nodes[i].prev == At(nodes, i - 1)
  }

  /** The links of node `i` once the neighbours of node `k` point past it. */
  ghost predicate LinkedPast(nodes: seq<SegmentNode>, k: nat, i: nat)
    requires i < |nodes|
    reads nodes
  {
    && nodes[i].next == (if i + 1 == k then At(nodes, k + 1) else At(nodes, i + 1))
    && nodes[i].prev == (if i - 1 == k then At(nodes, k - 1) else At(nodes, i - 1))
  }

  /** The other nodes, in their order. */
  ghost function Without(nodes: seq<SegmentNode>, sn: SegmentNode): seq<SegmentNode>
    requires sn in nodes
  {
    var k :| 0 <= k < |nodes| && nodes[k] == sn;
    nodes[..k] + nodes[k + 1..]
  }

  /** When node `k` is bypassed, the others are linked among themselves. */
  lemma Unlinked(nodes: seq<SegmentNode>, k: nat)
    requires k < |nodes| && Distinct(nodes)
    requires forall i :: 0 <= i < |nodes| && i != k ==> LinkedPast(nodes, k, i)
    ensures var rest := nodes[..k] + nodes[k + 1..];
            Distinct(rest) && forall i :: 0 <= i < |rest| ==> LinkedAt(rest, i)
  {
    var rest := nodes[..k] + nodes[k + 1..];
    forall i | 0 <= i < |rest|
      ensures LinkedAt(rest, i)
    {
      assert LinkedPast(nodes, k, if i < k then i else i + 1);
    }
  }

  class Region {
    const start: Segment
    const align: nat
    var mem: Mem
    var allocs: SegmentNode?
    ghost var nodes: seq<SegmentNode>

    /** `nodes` is what following `next` from `allocs` visits, each node once, and `prev` goes back. */
    ghost predicate Valid()
      reads this, nodes
    {
      && align > 0 && Distinct(nodes) && allocs == At(nodes, 0)
      && forall i :: 0 <= i < |nodes| ==> LinkedAt(nodes, i)
    }

    constructor (size: nat, al: nat, base: Addr)
      requires al > 0
      ensures Valid() && nodes == [] && mem == map[] && align == al && start == Segment(base, size)
    {
      start, align, mem, allocs, nodes := Segment(base, size), al, map[], null, [];
    }

    method TmRead(source: Addr, n: nat) returns (target: seq<Val>)
      ensures |target| == n && forall k :: 0 <= k < n ==> target[k] == Get(mem, source + k * align)
      ensures target == Load(mem, source, n, align)
    {
      target := Load(mem, source, n, align);
    }

    method TmWrite(source: seq<Val>, target: Addr)
      requires Valid()
      modifies this`mem
      ensures forall k :: 0 <= k < |source| ==> Get(mem, target + k * align) == source[k]
      ensures forall a :: !IsWord(target, |source|, align, a) ==> Get(mem, a) == Get(old(mem), a)
      ensures mem == Store(old(mem), target, source, align)
      ensures Valid()
    {
      StoreWords(mem, target, source, align);
      mem := Store(mem, target, source, align);
    }

    /** The new node goes to the front, and the whole segment is zeroed; `got` is the allocator's answer. */
    method TmAlloc(got: Option<Segment>) returns (target: Option<Addr>)
      requires Valid()
      modifies this, nodes
      ensures Valid() && forall node :: node in nodes && node !in old(nodes) ==> fresh(node)
      ensures got.Some? ==>
                && (forall k :: 0 <= k < got.value.size / align ==> Get(mem, got.value.base + k * align) == 0)
                && (forall a :: !IsWord(got.value.base, got.value.size / align, align, a) ==>
                      Get(mem, a) == Get(old(mem), a))
      ensures got.None? ==> target == None && mem == old(mem) && nodes == old(nodes)
      ensures got.Some? ==> target == Some(got.value.base) && mem == Cleared(old(mem), got.value, align)
                            && |nodes| == |old(nodes)| + 1 && nodes[1..] == old(nodes) && nodes[0].segment == got.value
    {
      if got.None? {
        return None;
      }
      assert nodes != [] ==> LinkedAt(nodes, 0);
      var sn := new SegmentNode(got.value);
      sn.prev := null;
      sn.next := allocs;
      if sn.next != null {
        sn.next.prev := sn;
      }
      allocs := sn;
      StoreWords(mem, got.value.base, Zeros(got.value.size / align), align);
      mem := Cleared(mem, got.value, align);
      nodes := [sn] + nodes;
      forall i | 0 <= i < |nodes|
        ensures LinkedAt(nodes, i)
      {
        assert i > 0 ==> nodes[i] == old(nodes)[i - 1] && old(LinkedAt(nodes, i - 1));
      }
      target := Some(got.value.base);
    }

    /** Unlinks a live node: the others keep their order, and its segment goes back to the allocator. */
    method TmFree(sn: SegmentNode, heap: Heap)
      requires Valid() && sn in nodes
      modifies this`allocs, this`nodes, nodes, heap
      ensures Valid() && nodes == Without(old(nodes), sn)
      ensures heap.freed == old(heap.freed) + [sn.segment]
    {
      ghost var k :| 0 <= k < |nodes| && nodes[k] == sn;
      assert Without(nodes, sn) == nodes[..k] + nodes[k + 1..];
      assert LinkedAt(nodes, k) && (k > 0 ==> LinkedAt(nodes, k - 1)) && (k + 1 < |nodes| ==> LinkedAt(nodes, k + 1));
      if sn.prev != null {
        sn.prev.next := sn.next;
      } else {
        allocs := sn.next;
      }
      if sn.next != null {
        sn.next.prev := sn.prev;
      }
      heap.Free(sn.segment);
      forall i | 0 <= i < |nodes| && i != k
        ensures LinkedPast(nodes, k, i)
      {
        assert old(LinkedAt(nodes, i));
      }
      Unlinked(nodes, k);
      nodes := nodes[..k] + nodes[k + 1..];
    }

    /** Every segment still listed is freed, once, in list order, and then the first one. */
    method TmDestroy(heap: Heap)
      requires Valid()
      modifies this`allocs, heap
      ensures allocs == null
      ensures heap.freed == old(heap.freed) + Segments(nodes) + [start]
    {
      ghost var k := 0;
      while allocs != null
        invariant k <= |nodes| && allocs == At(nodes, k)
        invariant heap.freed == old(heap.freed) + Segments(nodes[..k])
        decreases |nodes| - k
      {
        assert LinkedAt(nodes, k);
        assert nodes[..k + 1] == nodes[..k] + [nodes[k]];
        var tail := allocs.next;
        heap.Free(allocs.segment);
        allocs := tail;
        k := k + 1;
      }
      assert nodes[..k] == nodes;
      heap.Free(start);
    }
  }

  // ---- Any sequence of allocations and valid frees ----

  datatype Request = Allocate(seg: Segment) | Release(seg: Segment)

  /** The live segments, newest first. */
  function Live(ops: seq<Request>): seq<Segment> {
    if ops == [] then []
    else
      var before := Live(ops[..|ops| - 1]);
      match ops[|ops| - 1]
      case Allocate(g) => [g] + before
      case Release(g) => Removed(before, g)
  }

  function Removed(segs: seq<Segment>, g: Segment): seq<Segment> {
    if segs == [] then [] else if segs[0] == g then segs[1..] else [segs[0]] + Removed(segs[1..], g)
  }

  function Allocations(ops: seq<Request>): seq<Segment> {
    if ops == [] then []
    else Allocations(ops[..|ops| - 1]) + if ops[|ops| - 1].Allocate? then [ops[|ops| - 1].seg] else []
  }

  function Releases(ops: seq<Request>): seq<Segment> {
    if ops == [] then []
    else Releases(ops[..|ops| - 1]) + if ops[|ops| - 1].Release? then [ops[|ops| - 1].seg] else []
  }

  /** The allocator hands out no live segment, and only live segments are freed. */
  predicate ValidRequests(ops: seq<Request>) {
    ops == [] || (ValidRequests(ops[..|ops| - 1])
                  && (ops[|ops| - 1].Allocate? <==> ops[|ops| - 1].seg !in Live(ops[..|ops| - 1])))
  }

  lemma {:induction false} RemovedAt(segs: seq<Segment>, k: nat)
    requires k < |segs| && segs[k] !in segs[..k]
    ensures Removed(segs, segs[k]) == segs[..k] + segs[k + 1..]
  {
    if k > 0 {
      assert segs[0] in segs[..k] && segs[1..][..k - 1] == segs[..k][1..];
      RemovedAt(segs[1..], k - 1);
    }
  }

  lemma {:induction false} RemovedConserves(segs: seq<Segment>, g: Segment)
    requires g in segs
    ensures multiset(Removed(segs, g)) + multiset{g} == multiset(segs)
  {
    assert segs == [segs[0]] + segs[1..];
    if segs[0] != g {
      RemovedConserves(segs[1..], g);
    }
  }

  /** Nothing is lost and nothing is freed twice: what was allocated is live or was freed. */
  lemma {:induction false} Conserved(ops: seq<Request>)
    requires ValidRequests(ops)
    ensures multiset(Allocations(ops)) == multiset(Live(ops)) + multiset(Releases(ops))
  {
    if ops != [] {
      var p := ops[..|ops| - 1];
      Conserved(p);
      if ops[|ops| - 1].Release? {
        RemovedConserves(Live(p), ops[|ops| - 1].seg);
      }
    }
  }

  /** The client finds the node of every live segment: in the source, by pointer arithmetic. */
  ghost predicate Handles(nodes: seq<SegmentNode>, handles: map<Segment, SegmentNode>) {
    forall node :: node in nodes ==> node.segment in handles && handles[node.segment] == node
  }

  /** The segments of a list of nodes after one of them was unlinked. */
  lemma WithoutSegments(nodes: seq<SegmentNode>, handles: map<Segment, SegmentNode>, sn: SegmentNode)
    requires sn in nodes && Handles(nodes, handles)
    requires Distinct(nodes)
    ensures Segments(Without(nodes, sn)) == Removed(Segments(nodes), sn.segment)
    ensures Handles(Without(nodes, sn), handles)
  {
    var k :| 0 <= k < |nodes| && Without(nodes, sn) == nodes[..k] + nodes[k + 1..] && nodes[k] == sn;
    forall j | 0 <= j < k
      ensures Segments(nodes)[j] != sn.segment
    {
      assert nodes[j] in nodes && nodes[j] != nodes[k];
    }
    RemovedAt(Segments(nodes), k);
    assert Segments(Without(nodes, sn)) == Segments(nodes)[..k] + Segments(nodes)[k + 1..];
  }

  lemma LiveNode(nodes: seq<SegmentNode>, handles: map<Segment, SegmentNode>, g: Segment)
    requires Handles(nodes, handles) && g in Segments(nodes)
    ensures g in handles && handles[g] in nodes && handles[g].segment == g
  {
    var j :| 0 <= j < |nodes| && Segments(nodes)[j] == g;
    assert nodes[j] in nodes;
  }

  /** One request of the client. */
  method Serve(region: Region, heap: Heap, handles: map<Segment, SegmentNode>, op: Request)
    returns (handles': map<Segment, SegmentNode>)
    requires region.Valid() && Handles(region.nodes, handles)
    requires op.Allocate? <==> op.seg !in Segments(region.nodes)
    modifies region, region.nodes, heap
    ensures region.Valid() && Handles(region.nodes, handles')
    ensures forall node :: node in region.nodes && node !in old(region.nodes) ==> fresh(node)
    ensures Segments(region.nodes) == if op.Allocate? then [op.seg] + old(Segments(region.nodes))
                                      else Removed(old(Segments(region.nodes)), op.seg)
    ensures heap.freed == old(heap.freed) + if op.Release? then [op.seg] else []
  {
    ghost var before := region.nodes;
    if op.Allocate? {
      forall node | node in before
        ensures node.segment != op.seg
      {
        var j :| 0 <= j < |before| && before[j] == node;
        assert Segments(before)[j] == node.segment;
      }
      var target := region.TmAlloc(Some(op.seg));
      assert region.nodes == [region.nodes[0]] + before;
      assert Segments(region.nodes) == [op.seg] + Segments(before);
      handles' := handles[op.seg := region.allocs];
    } else {
      LiveNode(before, handles, op.seg);
      var sn := handles[op.seg];
      WithoutSegments(before, handles, sn);
      region.TmFree(sn, heap);
      handles' := handles;
    }
  }

  lemma NextRequest(ops: seq<Request>, i: nat)
    requires ValidRequests(ops) && i < |ops|
    ensures var p, q := ops[..i], ops[..i + 1];
            && (ops[i].Allocate? <==> ops[i].seg !in Live(p))
            && Live(q) == (if ops[i].Allocate? then [ops[i].seg] + Live(p) else Removed(Live(p), ops[i].seg))
            && Releases(q) == Releases(p) + if ops[i].Release? then [ops[i].seg] else []
  {
    assert ops[..i + 1][..i] == ops[..i];
    ValidPrefix(ops, i);
  }

  lemma NoRequests(nodes: seq<SegmentNode>, ops: seq<Request>)
    requires nodes == []
    ensures Handles(nodes, map[]) && Segments(nodes) == Live(ops[..0]) && Releases(ops[..0]) == []
  {
  }

  /** After any sequence of requests the list holds exactly the live segments, and the others were freed. */
  method ServeAll(region: Region, heap: Heap, ops: seq<Request>)
    requires region.Valid() && region.nodes == [] && heap.freed == [] && ValidRequests(ops)
    modifies region, heap
    ensures region.Valid() && Segments(region.nodes) == Live(ops) && heap.freed == Releases(ops)
    ensures forall node :: node in region.nodes ==> fresh(node)
  {
    hide ValidRequests, Handles, Removed, Live, Releases, Distinct, LinkedAt;
    var handles: map<Segment, SegmentNode> := map[];
    var i := 0;
    NoRequests(region.nodes, ops);
    while i < |ops|
      invariant i <= |ops| && region.Valid() && forall k :: 0 <= k < |region.nodes| ==> fresh(region.nodes[k])
      invariant Segments(region.nodes) == Live(ops[..i]) && heap.freed == Releases(ops[..i])
      invariant Handles(region.nodes, handles)
    {
      NextRequest(ops, i);
      handles := Serve(region, heap, handles, ops[i]);
      forall k | 0 <= k < |region.nodes|
        ensures fresh(region.nodes[k])
      {
        assert region.nodes[k] in region.nodes;
      }
      i := i + 1;
    }
    assert ops[..i] == ops;
  }

  /** The whole life of a region: when it is destroyed every segment it ever allocated, and its first one,
      has been freed exactly once. */
  method Lifetime(region: Region, heap: Heap, ops: seq<Request>)
    requires region.Valid() && region.nodes == [] && heap.freed == [] && ValidRequests(ops)
    modifies region, heap
    ensures multiset(heap.freed) == multiset(Allocations(ops)) + multiset{region.start}
  {
    ServeAll(region, heap, ops);
    Conserved(ops);
    region.TmDestroy(heap);
  }

  lemma {:induction false} ValidPrefix(ops: seq<Request>, i: nat)
    requires ValidRequests(ops) && i < |ops|
    ensures ops[i].Allocate? <==> ops[i].seg !in Live(ops[..i])
  {
    if i < |ops| - 1 {
      ValidPrefix(ops[..|ops| - 1], i);
      assert ops[..|ops| - 1][..i] == ops[..i];
    }
  }
}
