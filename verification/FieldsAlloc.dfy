/** The reference-counted bump allocator `static_pool` behind `fields_alloc`. */
module FieldsAlloc {
  import opened Wire

  // ------------------------------------------------------------ pure pool steps

  /** A block handed out: where it starts in the pool's memory and how long it is. */
  datatype Block = Block(start: nat, size: nat)

  /** The pool: memory size, bump position, count of unfreed blocks; `live` says which blocks those are, by the
      serial number of the allocation. */
  datatype Pool = Pool(size: nat, top: nat, count: nat, live: map<nat, Block>, serial: nat)

  datatype Request = Alloc(bytes: nat) | Dealloc(which: nat)

  /** `alloc`: a block that would end at the end of the pool is already refused. */
  function AfterAlloc(p: Pool, bytes: nat): Pool {
    if p.top + bytes >= p.size then p
    else Pool(p.size, p.top + bytes, p.count + 1, p.live[p.serial := Block(p.top, bytes)], p.serial + 1)
  }

  /** `dealloc`: it is not told which block is freed, and resets the bump position with the last one. */
  function AfterFree(p: Pool, which: nat): Pool
    requires p.count > 0
  {
    Pool(p.size, if p.count == 1 then 0 else p.top, p.count - 1, p.live - {which}, p.serial)
  }

  predicate Disjoint(a: Block, b: Block) { a.start + a.size <= b.start || b.start + b.size <= a.start }

  ghost predicate PoolOk(p: Pool) {
    && p.count == |p.live|
    && p.top <= p.size && (p.count == 0 ==> p.top == 0)
    && (forall i :: i in p.live ==> i < p.serial && p.live[i].start + p.live[i].size <= p.top)
    && (forall i, j :: i in p.live && j in p.live && i != j ==> Disjoint(p.live[i], p.live[j]))
  }

  lemma AllocateKeepsOk(p: Pool, bytes: nat)
    requires PoolOk(p)
    ensures PoolOk(AfterAlloc(p, bytes))
  {
  }

  lemma FreeKeepsOk(p: Pool, which: nat)
    requires PoolOk(p) && which in p.live
    ensures p.count > 0 && PoolOk(AfterFree(p, which))
  {
    assert p.live.Keys == (p.live - {which}).Keys + {which};
    assert |(p.live - {which}).Keys| == |p.live.Keys| - 1;
    if p.count == 1 {
      assert (p.live - {which}).Keys == {};
    }
  }

  /** Every live block is freed at most once. */
  predicate ValidRun(p: Pool, requests: seq<Request>)
    decreases |requests|
  {
    requests == [] ||
    match requests[0]
    case Alloc(bytes) => ValidRun(AfterAlloc(p, bytes), requests[1..])
    case Dealloc(which) => which in p.live && p.count > 0 && ValidRun(AfterFree(p, which), requests[1..])
  }

  function Final(p: Pool, requests: seq<Request>): Pool
    requires ValidRun(p, requests)
    decreases |requests|
  {
    if requests == [] then p
    else
      match requests[0]
      case Alloc(bytes) => Final(AfterAlloc(p, bytes), requests[1..])
      case Dealloc(which) => Final(AfterFree(p, which), requests[1..])
  }

  /** Over all interleavings of allocations and frees, across resets: the count is the number of live blocks, they
      lie inside the pool and no two overlap. */
  lemma {:induction false} RunKeepsOk(p: Pool, requests: seq<Request>)
    requires PoolOk(p) && ValidRun(p, requests)
    ensures PoolOk(Final(p, requests))
    decreases |requests|
  {
    if requests != [] {
      match requests[0] {
        case Alloc(bytes) =>
          AllocateKeepsOk(p, bytes);
          RunKeepsOk(AfterAlloc(p, bytes), requests[1..]);
        case Dealloc(which) =>
          FreeKeepsOk(p, which);
          RunKeepsOk(AfterFree(p, which), requests[1..]);
      }
    }
  }

  lemma LiveBlocksNeverOverlap(size: nat, requests: seq<Request>, i: nat, j: nat)
    requires ValidRun(Pool(size, 0, 0, map[], 0), requests)
    ensures var p := Final(Pool(size, 0, 0, map[], 0), requests);
      && p.count == |p.live|
      && (i in p.live ==> p.live[i].start + p.live[i].size <= p.size)
      && (i in p.live && j in p.live && i != j ==> Disjoint(p.live[i], p.live[j]))
  {
    RunKeepsOk(Pool(size, 0, 0, map[], 0), requests);
    FinalKeepsSize(Pool(size, 0, 0, map[], 0), requests);
  }

  lemma {:induction false} FinalKeepsSize(p: Pool, requests: seq<Request>)
    requires ValidRun(p, requests)
    ensures Final(p, requests).size == p.size
    decreases |requests|
  {
    if requests != [] {
      match requests[0] {
        case Alloc(bytes) => FinalKeepsSize(AfterAlloc(p, bytes), requests[1..]);
        case Dealloc(which) => FinalKeepsSize(AfterFree(p, which), requests[1..]);
      }
    }
  }

  // ------------------------------------------------------------- one after the other

  function Total(sizes: seq<nat>): nat {
    if sizes == [] then 0 else Total(sizes[..|sizes| - 1]) + sizes[|sizes| - 1]
  }

  /** The sizes of the blocks handed out since the pool was last empty, the serial number of the first of them, and
      how many of them are unfreed. */
  datatype Handout = Handout(sizes: seq<nat>, first: nat, unfreed: nat)

  /** A request fits if what was handed out since the last reset and the request together stay below the pool size. */
  predicate Fits(size: nat, h: Handout, bytes: nat) { Total(h.sizes) + bytes < size }

  function AfterRequest(size: nat, h: Handout, r: Request): Handout {
    match r
    case Alloc(bytes) => if Fits(size, h, bytes) then Handout(h.sizes + [bytes], h.first, h.unfreed + 1) else h
    case Dealloc(_) =>
      if h.unfreed <= 1 then Handout([], h.first + |h.sizes|, 0) else h.(unfreed := h.unfreed - 1)
  }

  function HandedOut(size: nat, requests: seq<Request>): Handout {
    if requests == [] then Handout([], 0, 0)
    else AfterRequest(size, HandedOut(size, requests[..|requests| - 1]), requests[|requests| - 1])
  }

  /** The block is number `i` of those handed out one after the other. */
  predicate IsBlock(h: Handout, i: nat, b: Block) {
    h.first <= i < h.first + |h.sizes| && b == Block(Total(h.sizes[..i - h.first]), h.sizes[i - h.first])
  }

  ghost predicate LiveAreBlocks(live: map<nat, Block>, h: Handout) {
    forall i :: i in live ==> IsBlock(h, i, live[i])
  }

  /** The pool has handed out these blocks, one after the other from the start of its memory. */
  ghost predicate Stacked(p: Pool, h: Handout) {
    p.top == Total(h.sizes) && p.count == h.unfreed && h.first + |h.sizes| == p.serial && LiveAreBlocks(p.live, h)
  }

  lemma BlockStays(h: Handout, bytes: nat, i: nat, b: Block)
    requires IsBlock(h, i, b)
    ensures IsBlock(h.(sizes := h.sizes + [bytes]), i, b)
  {
    assert (h.sizes + [bytes])[..i - h.first] == h.sizes[..i - h.first];
  }

  lemma NewBlock(h: Handout, bytes: nat)
    ensures IsBlock(h.(sizes := h.sizes + [bytes]), h.first + |h.sizes|, Block(Total(h.sizes), bytes))
    ensures Total(h.sizes + [bytes]) == Total(h.sizes) + bytes
  {
    assert (h.sizes + [bytes])[..|h.sizes|] == h.sizes;
  }

  lemma BlocksStay(live: map<nat, Block>, h: Handout, bytes: nat, b: Block)
    requires LiveAreBlocks(live, h) && b == Block(Total(h.sizes), bytes)
    ensures LiveAreBlocks(live[h.first + |h.sizes| := b], h.(sizes := h.sizes + [bytes]))
  {
    var next, h' := h.first + |h.sizes|, h.(sizes := h.sizes + [bytes]);
    var live' := live[next := b];
    NewBlock(h, bytes);
    forall i | i in live' ensures IsBlock(h', i, live'[i]) {
      if i != next {
        assert IsBlock(h, i, live[i]);
        BlockStays(h, bytes, i, live[i]);
      }
    }
  }

  lemma AllocationStacks(p: Pool, h: Handout, bytes: nat)
    requires Stacked(p, h)
    ensures Stacked(AfterAlloc(p, bytes), AfterRequest(p.size, h, Alloc(bytes)))
  {
    if Fits(p.size, h, bytes) {
      NewBlock(h, bytes);
      BlocksStay(p.live, h, bytes, Block(p.top, bytes));
      assert LiveAreBlocks(AfterAlloc(p, bytes).live, AfterRequest(p.size, h, Alloc(bytes))) by {
        assert h.(sizes := h.sizes + [bytes]).(unfreed := h.unfreed + 1) == AfterRequest(p.size, h, Alloc(bytes));
        SameBlocks(AfterAlloc(p, bytes).live, h.(sizes := h.sizes + [bytes]), AfterRequest(p.size, h, Alloc(bytes)));
      }
    }
  }

  lemma SameBlocks(live: map<nat, Block>, h: Handout, h': Handout)
    requires LiveAreBlocks(live, h) && h'.sizes == h.sizes && h'.first == h.first
    ensures LiveAreBlocks(live, h')
  {
    forall i | i in live ensures IsBlock(h', i, live[i]) {
      assert IsBlock(h, i, live[i]);
    }
  }

  lemma LastIsFreed(live: map<nat, Block>, which: nat)
    requires which in live && |live| == 1
    ensures live - {which} == map[]
  {
    assert live.Keys == (live - {which}).Keys + {which};
    assert |(live - {which}).Keys| == 0;
  }

  lemma FreeingStacks(p: Pool, h: Handout, which: nat)
    requires Stacked(p, h) && p.count == |p.live| && which in p.live && p.count > 0
    ensures Stacked(AfterFree(p, which), AfterRequest(p.size, h, Dealloc(which)))
  {
    if p.count == 1 {
      LastIsFreed(p.live, which);
    } else {
      assert LiveAreBlocks(p.live - {which}, h);
      SameBlocks(p.live - {which}, h, AfterRequest(p.size, h, Dealloc(which)));
    }
  }

  lemma {:induction false} FinalSplit(p: Pool, a: seq<Request>, r: Request)
    requires ValidRun(p, a + [r])
    ensures ValidRun(p, a) && ValidRun(Final(p, a), [r]) && Final(p, a + [r]) == Final(Final(p, a), [r])
    decreases |a|
  {
    if a == [] {
      assert [] + [r] == [r];
    } else {
      assert (a + [r])[0] == a[0] && (a + [r])[1..] == a[1..] + [r];
      match a[0] {
        case Alloc(bytes) => FinalSplit(AfterAlloc(p, bytes), a[1..], r);
        case Dealloc(which) => FinalSplit(AfterFree(p, which), a[1..], r);
      }
    }
  }

  /** One request on a stacked pool. */
  lemma RequestStacks(p: Pool, h: Handout, r: Request)
    requires ValidRun(p, [r]) && Stacked(p, h) && p.count == |p.live|
    ensures Stacked(Final(p, [r]), AfterRequest(p.size, h, r))
  {
    assert [r][1..] == [];
    match r {
      case Alloc(bytes) =>
        AllocationStacks(p, h, bytes);
        assert Final(p, [r]) == AfterAlloc(p, bytes);
      case Dealloc(which) =>
        FreeingStacks(p, h, which);
        assert Final(p, [r]) == AfterFree(p, which);
    }
  }

  /** Over all interleavings: since the last reset the blocks handed out lie one after the other from 0, and the bump
      position is the sum of their sizes.  So a request is refused exactly if that sum and the request together reach
      the pool size. */
  lemma {:induction false} BlocksAreStacked(size: nat, requests: seq<Request>)
    requires ValidRun(Pool(size, 0, 0, map[], 0), requests)
    ensures Stacked(Final(Pool(size, 0, 0, map[], 0), requests), HandedOut(size, requests))
    decreases |requests|
  {
    if requests != [] {
      var front, r := requests[..|requests| - 1], requests[|requests| - 1];
      assert requests == front + [r];
      FinalSplit(Pool(size, 0, 0, map[], 0), front, r);
      BlocksAreStacked(size, front);
      StackedOneMore(Pool(size, 0, 0, map[], 0), HandedOut(size, front), front, r);
    }
  }

  lemma StackedOneMore(start: Pool, h: Handout, front: seq<Request>, r: Request)
    requires PoolOk(start) && ValidRun(start, front) && ValidRun(Final(start, front), [r])
    requires Stacked(Final(start, front), h)
    ensures Stacked(Final(Final(start, front), [r]), AfterRequest(start.size, h, r))
  {
    RunKeepsOk(start, front);
    FinalKeepsSize(start, front);
    RequestStacks(Final(start, front), h, r);
  }

  // --------------------------------------------------------------- the pool itself

  class StaticPool {
    const size: nat
    var refs: nat
    var count: nat
    var top: nat
    /** Whether the memory has been given back. */
    var released: bool
    ghost var live: map<nat, Block>
    ghost var serial: nat
    /** The allocator objects that share the pool. */
    ghost var handles: set<nat>

    ghost function View(): Pool
      reads this
    {
      Pool(size, top, count, live, serial)
    }

    ghost predicate Valid()
      reads this
    {
      && refs == |handles| && (released <==> handles == {})
      && (!released ==> PoolOk(View()))
    }

    /** `construct`, for one allocator. */
    constructor (size: nat, ghost handle: nat)
      ensures Valid() && !released && handles == {handle} && View() == Pool(size, 0, 0, map[], 0)
    {
      this.size := size;
      refs, count, top := 1, 0, 0;
      released := false;
      live, serial, handles := map[], 0, {handle};
    }

    /** `share`, on behalf of a new allocator. */
    method Share(ghost handle: nat)
      requires Valid() && !released && handle !in handles
      modifies this
      ensures Valid() && !released && handles == old(handles) + {handle} && View() == old(View())
    {
      refs := refs + 1;
      handles := handles + {handle};
    }

    /** `destroy`, on behalf of an allocator: the memory goes exactly with the last one. */
    method Destroy(ghost handle: nat)
      requires Valid() && handle in handles
      modifies this
      ensures Valid() && handles == old(handles) - {handle}
      ensures released <==> old(handles) == {handle}
      ensures !released ==> View() == old(View())
    {
      refs := refs - 1;
      handles := handles - {handle};
      if refs != 0 {
        return;
      }
      released := true;
    }

    /** `alloc`: None where the source throws. */
    method Allocate(bytes: nat) returns (start: Option<nat>)
      requires Valid() && !released
      modifies this
      ensures Valid() && !released && handles == old(handles)
      ensures View() == AfterAlloc(old(View()), bytes)
      ensures start.None? <==> old(top) + bytes >= size
      ensures start.Some? ==> start.value == old(top) && top == old(top) + bytes && count == old(count) + 1
      ensures start.None? ==> top == old(top) && count == old(count) && live == old(live)
      ensures start.Some? ==> live == old(live)[old(serial) := Block(start.value, bytes)]
      ensures start.Some? ==>
        forall i :: i in old(live) ==> i in live && Disjoint(live[i], Block(start.value, bytes))
    {
      AllocateKeepsOk(View(), bytes);
      var last := top + bytes;
      if last >= size {
        return None;
      }
      count := count + 1;
      start := Some(top);
      live := live[serial := Block(top, bytes)];
      serial := serial + 1;
      top := last;
    }

    /** `dealloc`, of a live block. */
    method Deallocate(ghost which: nat)
      requires Valid() && !released && which in live
      modifies this
      ensures Valid() && !released && handles == old(handles)
      ensures live == old(live) - {which} && count == old(count) - 1
      ensures top == if count == 0 then 0 else old(top)
      ensures old(count) > 0 && View() == AfterFree(old(View()), which)
    {
      FreeKeepsOk(View(), which);
      count := count - 1;
      live := live - {which};
      if count != 0 {
        return;
      }
      top := 0;
    }
  }
}
