/** What `memheap.c` promises over whole runs, and where its tests are off. */
module MemHeapTheorems {
  import opened Wrappers
  import opened Tiling
  import opened Queues
  import opened MemHeaps

  /** The heap after rt_memheap_init: one free block and the used block at the end. */
  function Initial(pool: nat): Heap
    requires pool >= 2 * HEADER
  {
    Heap(pool, [Chunk(0, false), Chunk(pool - HEADER, true)], [0], pool - 2 * HEADER, 2 * HEADER)
  }

  lemma InitialInv(pool: nat)
    requires 2 * HEADER <= pool < TWO_32
    ensures Inv(Initial(pool))
  {
    var cs := Initial(pool).chunks;
    assert FreePayload(cs[1..], pool) == 0;
    assert BorderOk(cs, 0);
    forall x: nat ensures Chunk(x, false) in cs <==> x in [0] {
      assert cs[0] in cs;
    }
  }

  predicate LegalRun(h: Heap, ops: seq<Op>)
    decreases |ops|
  {
    ops == [] || (Legal(h, ops[0]) && LegalRun(Apply(h, ops[0]), ops[1..]))
  }

  function Run(h: Heap, ops: seq<Op>): Heap
    requires LegalRun(h, ops)
    decreases |ops|
  {
    if ops == [] then h else Run(Apply(h, ops[0]), ops[1..])
  }

  /** Through every run of allocations, releases, in-place growing and shrinking and moves, blocks
      tile the pool, no two neighbours are free, the free list is exactly the set of free blocks
      and available_size the sum of their payloads. */
  lemma {:induction false} EveryRun(h: Heap, ops: seq<Op>)
    requires Inv(h) && LegalRun(h, ops)
    ensures Inv(Run(h, ops))
    decreases |ops|
  {
    if ops != [] {
      StepKeeps(h, ops[0]);
      EveryRun(Apply(h, ops[0]), ops[1..]);
    }
  }

  /** Every call of the run is given null or the pointer of a block that is live by then. */
  predicate CalledRun(h: Heap, ops: seq<Op>)
    decreases |ops|
  {
    ops == [] || (Called(h, ops[0]) && CalledRun(Apply(h, ops[0]), ops[1..]))
  }

  /** The heap is in order at every moment of the run. */
  ghost predicate InOrder(h: Heap, ops: seq<Op>)
    requires CalledRun(h, ops)
    decreases |ops|
  {
    Inv(h) && (ops != [] ==> InOrder(Apply(h, ops[0]), ops[1..]))
  }

  lemma StepExact(h: Heap, op: Op)
    requires Inv(h) && Called(h, op)
    ensures Inv(Apply(h, op)) <==> Legal(h, op)
  {
    hide Inv, Live, Realloc, GrowWraps, IndexAt, Alloc, Free;
    if Legal(h, op) {
      StepKeeps(h, op);
    } else {
      assert Some(op.ptr.value - HEADER + HEADER) == op.ptr;
      ReallocExact(h, op.ptr.value - HEADER, op.size);
    }
  }

  /** The heap is in order at every moment of a run if and only if no resize of the run passes the test
      for growing by wrapping. */
  lemma {:induction false} RunExact(h: Heap, ops: seq<Op>)
    requires Inv(h) && CalledRun(h, ops)
    ensures InOrder(h, ops) <==> LegalRun(h, ops)
    decreases |ops|
  {
    if ops != [] {
      StepExact(h, ops[0]);
      hide Inv, Apply, Legal, Called;
      if Legal(h, ops[0]) {
        RunExact(Apply(h, ops[0]), ops[1..]);
      }
    }
  }

  // ---- the peak -----------------------------------------------------------------------------

  /** The bytes in use, headers included, as max_used_size counts them. */
  function Used(h: Heap): int {
    h.pool - h.available
  }

  /** The states an operation passes through: a block that moves is in both places for a while. */
  function Passes(h: Heap, op: Op): (r: seq<Heap>)
    requires Legal(h, op)
    ensures r != [] && r[|r| - 1] == Apply(h, op)
  {
    match op
    case Resize(Some(ptr), size) =>
      var k := IndexAt(h.chunks, ptr - HEADER);
      if size > 0 && Need(size) > Payload(h.chunks, h.pool, k) && !CanGrow(h, k, Need(size)) then
        [Alloc(h, Need(size)).0, Apply(h, op)]
      else [Apply(h, op)]
    case _ => [Apply(h, op)]
  }

  /** max_used_size has been raised to the bytes in use, or not at all. */
  ghost predicate Raises(h: Heap, h': Heap) {
    Inv(h') && h'.pool == h.pool && (h'.maxUsed == h.maxUsed || (h'.maxUsed > h.maxUsed && h'.maxUsed == Used(h')))
  }

  lemma AfterRaise(h: Heap, x: Heap)
    requires Inv(Raise(x)) && x.pool == h.pool && x.maxUsed == h.maxUsed
    ensures Raises(h, Raise(x))
  {
    var h' := Raise(x);
    FreePayloadBounds(h'.chunks, h'.pool, 0);
    assert h'.chunks[0..] == h'.chunks;
  }

  lemma AllocRaises(h: Heap, size: nat)
    requires Inv(h)
    ensures Raises(h, Alloc(h, size).0)
  {
    var need := Need(size);
    var i := FirstFit(h, need, 0);
    AllocKeeps(h, size);
    if need < h.available && i < |h.free| {
      FoundFree(h, i);
      CarveRaises(h, IndexAt(h.chunks, h.free[i]), need);
    }
  }

  lemma CarveRaises(h: Heap, k: nat, need: nat)
    requires k < |h.chunks| && Inv(Carve(h, k, need))
    ensures Raises(h, Carve(h, k, need))
  {
    hide Inv, Without, Split, Mark, Payload, Raises, Raise;
    var start, size, at := h.chunks[k].start, Payload(h.chunks, h.pool, k), h.chunks[k].start + HEADER + need;
    if size >= need + HEADER + MINI {
      AfterRaise(h, h.(chunks := Split(h.chunks, k, true, at), free := [at] + Without(h.free, start),
                       available := h.available - need - HEADER));
    } else {
      AfterRaise(h, h.(chunks := Mark(h.chunks, k, true), free := Without(h.free, start),
                       available := h.available - size));
    }
  }

  lemma GrowRaises(h: Heap, k: nat, need: nat)
    requires k + 1 < |h.chunks| && Inv(Grow(h, k, need))
    ensures Raises(h, Grow(h, k, need))
  {
    var at := (h.chunks[k].start + HEADER + need) % TWO_32;
    hide Inv, Without, Payload, Raises;
    AfterRaise(h, h.(chunks := h.chunks[k + 1 := Chunk(at, false)],
                     free := [at] + Without(h.free, h.chunks[k + 1].start),
                     available := (h.available - (need - Payload(h.chunks, h.pool, k))) % TWO_32));
  }

  /** The operation raises the peak no further than what it passes through. */
  ghost predicate Peaks(h: Heap, op: Op)
    requires Legal(h, op)
  {
    var h', ps := Apply(h, op), Passes(h, op);
    && h'.pool == h.pool && h.maxUsed <= h'.maxUsed
    && (forall v <- ps :: Inv(v) && v.pool == h.pool && v.maxUsed <= h'.maxUsed)
    && (h'.maxUsed == h.maxUsed || exists v <- ps :: Used(v) == h'.maxUsed)
  }

  lemma PlainPeak(h: Heap, op: Op)
    requires Legal(h, op) && Passes(h, op) == [Apply(h, op)] && Raises(h, Apply(h, op))
    ensures Peaks(h, op)
  {
    hide Legal, Apply, Passes, Inv;
    var ps := Passes(h, op);
    assert ps[0] in ps;
  }

  lemma StepPeak(h: Heap, op: Op)
    requires Inv(h) && Legal(h, op)
    ensures Inv(Apply(h, op)) && Peaks(h, op)
  {
    StepKeeps(h, op);
    hide Inv, Alloc, Realloc, Peaks, Live, GrowWraps, FreeAt, ListAfter, Regained;
    match op
    case Allocate(size) =>
      AllocRaises(h, size);
      PlainPeak(h, op);
    case Release(_) => PlainPeak(h, op);
    case Resize(None, size) =>
      NullPeak(h, size);
    case Resize(Some(ptr), size) =>
      assert op == Resize(Some(ptr - HEADER + HEADER), size);
      ResizePeak(h, ptr - HEADER, size);
  }

  lemma NullPeak(h: Heap, size: nat)
    requires Inv(h) && Inv(Apply(h, Resize(None, size)))
    ensures Peaks(h, Resize(None, size))
  {
    hide Inv, Alloc, Peaks;
    if size > 0 { AllocRaises(h, Need(size)); }
    PlainPeak(h, Resize(None, size));
  }

  lemma ResizePeak(h: Heap, p: nat, size: nat)
    requires Inv(h) && Legal(h, Resize(Some(p + HEADER), size)) && Inv(Apply(h, Resize(Some(p + HEADER), size)))
    ensures Peaks(h, Resize(Some(p + HEADER), size))
  {
    var k, need, ps := IndexAt(h.chunks, p), Need(size), Passes(h, Resize(Some(p + HEADER), size));
    assert ps[|ps| - 1] in ps;
    hide Inv, Alloc, Carve, IndexAt, Payload, FreeAt, ListAfter, Regained, Live, GrowWraps;
    if size > 0 && need > Payload(h.chunks, h.pool, k) {
      if CanGrow(h, k, need) {
        GrowRaises(h, k, need);
      } else {
        AllocRaises(h, need);
        assert ps[0] in ps;
      }
    }
  }

  function Visited(h: Heap, ops: seq<Op>): seq<Heap>
    requires LegalRun(h, ops)
    decreases |ops|
  {
    if ops == [] then [h] else [h] + Passes(h, ops[0]) + Visited(Apply(h, ops[0]), ops[1..])
  }

  /** In every run max_used_size bounds the bytes in use at every moment, and is one of these values
      unless it has not been raised at all. */
  lemma {:induction false} PeakExact(h: Heap, ops: seq<Op>)
    requires Inv(h) && LegalRun(h, ops)
    ensures var h' := Run(h, ops);
      && (forall v <- Visited(h, ops) :: Inv(v) && Used(v) <= h'.maxUsed) && h.maxUsed <= h'.maxUsed
      && (h'.maxUsed == h.maxUsed || exists v <- Visited(h, ops) :: Used(v) == h'.maxUsed)
    decreases |ops|
  {
    if ops != [] {
      var ps, rest := Passes(h, ops[0]), Visited(Apply(h, ops[0]), ops[1..]);
      StepPeak(h, ops[0]);
      PeakExact(Apply(h, ops[0]), ops[1..]);
      hide Apply, Passes;
      assert forall v :: v in Visited(h, ops) <==> v == h || v in ps || v in rest;
    }
  }

  /** From the fresh heap on it is exactly the largest number of bytes in use. */
  lemma FreshPeak(pool: nat, ops: seq<Op>)
    requires 2 * HEADER <= pool < TWO_32 && LegalRun(Initial(pool), ops)
    ensures var peak := Run(Initial(pool), ops).maxUsed;
      && (forall v <- Visited(Initial(pool), ops) :: Used(v) <= peak)
      && (exists v <- Visited(Initial(pool), ops) :: Used(v) == peak)
  {
    InitialInv(pool);
    PeakExact(Initial(pool), ops);
    assert Visited(Initial(pool), ops)[0] == Initial(pool);
  }

  // ---- when allocation fails ----------------------------------------------------------------

  /** Block k is free and large enough. */
  predicate Suits(h: Heap, need: nat, k: nat)
    requires k < |h.chunks|
  {
    !h.chunks[k].used && Payload(h.chunks, h.pool, k) >= need
  }

  lemma SuitableIsListed(h: Heap, need: nat, k: nat)
    requires Inv(h) && k < |h.chunks| && Suits(h, need, k)
    ensures FirstFit(h, need, 0) < |h.free|
  {
    var c := h.chunks[k];
    assert c in h.chunks && c == Chunk(c.start, false);
    assert c.start in h.free;
    FoundAt(h.chunks, h.pool, k);
    var i :| 0 <= i < |h.free| && h.free[i] == c.start;
    assert PayloadAt(h.chunks, h.pool, h.free[i]) >= need;
  }

  /** An allocation fails exactly when no free block is large enough, or when the (rounded)
      request is not less than all the available bytes together. */
  lemma AllocFails(h: Heap, size: nat)
    requires Inv(h)
    ensures Alloc(h, size).1.None? <==>
            Need(size) >= h.available || forall k :: 0 <= k < |h.chunks| ==> !Suits(h, Need(size), k)
  {
    var need := Need(size);
    var i := FirstFit(h, need, 0);
    if i < |h.free| {
      FoundFree(h, i);
      assert Suits(h, need, IndexAt(h.chunks, h.free[i]));
    }
    forall k | 0 <= k < |h.chunks| && Suits(h, need, k) ensures i < |h.free| {
      SuitableIsListed(h, need, k);
    }
  }

  /** Although a block suits, the allocation fails exactly when the request would use up every
      available byte. */
  lemma AllocMisses(h: Heap, size: nat, k: nat)
    requires Inv(h) && k < |h.chunks| && Suits(h, Need(size), k)
    ensures Alloc(h, size).1.None? <==> Need(size) == h.available
    ensures Need(size) == h.available ==> Payload(h.chunks, h.pool, k) == h.available
  {
    AllocFails(h, size);
    FreePayloadBounds(h.chunks, h.pool, 0);
    assert h.chunks[0..] == h.chunks;
  }

  /** A fresh heap refuses to hand out all of its payload. */
  lemma FreshHeapRefusesAll(pool: nat)
    requires 2 * HEADER + MINI <= pool < TWO_32 && pool % 4 == 0
    ensures Alloc(Initial(pool), pool - 2 * HEADER).1 == None
  {}

  /** The block handed out is as large as the request exactly for requests that do not wrap when
      they are rounded up. */
  lemma RequestCovered(size: nat)
    requires size < TWO_32
    ensures Need(size) >= size <==> size <= TWO_32 - 4
  {}

  /** The 32-bit test for growing in place agrees with the intended one exactly when the addition
      does not wrap or there is too little room anyway. */
  lemma GrowTest(h: Heap, k: nat, need: nat)
    requires Inv(h) && k < |h.chunks| && RightFree(h.chunks, k) && need < TWO_32
    ensures var room := Payload(h.chunks, h.pool, k + 1) + Payload(h.chunks, h.pool, k);
      (CanGrow(h, k, need) <==> room > need + MINI) <==> (need + MINI < TWO_32 || room <= need + MINI - TWO_32)
  {
    assert Apart(h.chunks, HEADER, k, k + 1);
  }

  /** A pool of 120 bytes after one allocation. */
  function Small(): Heap {
    Run(Initial(120), [Allocate(12)])
  }

  lemma FirstAllocation()
    ensures Alloc(Initial(120), 12).0 == Heap(120, [Chunk(0, true), Chunk(36, false), Chunk(96, true)], [36], 36, 84)
  {
    var h := Initial(120);
    assert IndexAt(h.chunks, 0) == 0;
    assert Payload(h.chunks, 120, 0) == 72;
    assert FirstFit(h, 12, 0) == 0;
    assert Without([0], 0) == [];
    assert Split(h.chunks, 0, true, 36) == [Chunk(0, true), Chunk(36, false), Chunk(96, true)];
  }

  lemma SmallIs()
    ensures Inv(Small()) && Small() == Heap(120, [Chunk(0, true), Chunk(36, false), Chunk(96, true)], [36], 36, 84)
  {
    InitialInv(120);
    AllocKeeps(Initial(120), 12);
    FirstAllocation();
    hide Inv, Alloc, Initial;
    assert Run(Initial(120), [Allocate(12)]) == Run(Alloc(Initial(120), 12).0, []);
  }

  /** Resizing its one block to just under 4 GiB succeeds in place, and the heap is no longer in
      order: the free block behind it starts inside its header, and more bytes than before are
      said to be available. */
  lemma SmallHeapBreaks()
    ensures Inv(Small()) && Live(Small(), 0)
    ensures var (h', r) := Realloc(Small(), Some(HEADER), TWO_32 - 4);
      && r == Some(HEADER) && !Inv(h') && h'.available > Small().available
      && h'.chunks == [Chunk(0, true), Chunk(HEADER - 4, false), Chunk(96, true)]
  {
    SmallIs();
    SmallGrows();
    hide *;
    GrowBreaks(Small(), 0, TWO_32 - 4);
  }

  lemma SmallGrows()
    requires Small() == Heap(120, [Chunk(0, true), Chunk(36, false), Chunk(96, true)], [36], 36, 84)
    ensures Live(Small(), 0)
    ensures Realloc(Small(), Some(HEADER), TWO_32 - 4) == (Grow(Small(), 0, TWO_32 - 4), Some(HEADER))
    ensures Grow(Small(), 0, TWO_32 - 4).available == 52
    ensures Grow(Small(), 0, TWO_32 - 4).chunks == [Chunk(0, true), Chunk(HEADER - 4, false), Chunk(96, true)]
  {
    hide Small, Realloc;
    var h := Small();
    assert IndexAt(h.chunks, 0) == 0;
    assert Payload(h.chunks, 120, 0) == 12 && Payload(h.chunks, 120, 1) == 36;
    WrappedGrows(h, 0, TWO_32 - 4);
    assert h.chunks[1 := Chunk(HEADER - 4, false)] == [Chunk(0, true), Chunk(HEADER - 4, false), Chunk(96, true)];
  }

  // ---- where blocks are ---------------------------------------------------------------------

  predicate InPayload(h: Heap, k: nat, a: nat)
    requires k < |h.chunks|
  {
    h.chunks[k].start + HEADER <= a < StartAt(h.chunks, h.pool, k + 1)
  }

  /** The payloads of different blocks do not meet, nor do they meet any header. */
  lemma PayloadsDisjoint(h: Heap, i: nat, j: nat, a: nat)
    requires Inv(h) && i < |h.chunks| && j < |h.chunks| && InPayload(h, i, a)
    ensures i != j ==> !InPayload(h, j, a)
    ensures !(h.chunks[j].start <= a < h.chunks[j].start + HEADER)
    ensures a < h.pool
  {
    var cs := h.chunks;
    if i < j {
      assert Apart(cs, HEADER, i, j);
      if i + 1 < j { assert Apart(cs, HEADER, i + 1, j); }
    } else if j < i {
      assert Apart(cs, HEADER, j, i);
      if j + 1 < i { assert Apart(cs, HEADER, j + 1, i); }
    }
    if i + 1 < |cs| { assert cs[i + 1].start + HEADER <= h.pool; }
  }

  /** A block that is large enough, or can grow, stays where it is and has the requested room. */
  lemma ReallocInPlace(h: Heap, p: nat, size: nat)
    requires Inv(h) && Live(h, p) && size > 0 && !GrowWraps(h, IndexAt(h.chunks, p), size)
    requires Payload(h.chunks, h.pool, IndexAt(h.chunks, p)) >= Need(size)
               || CanGrow(h, IndexAt(h.chunks, p), Need(size))
    ensures var (h', r) := Realloc(h, Some(p + HEADER), size); var k := IndexAt(h.chunks, p);
      && r == Some(p + HEADER)
      && k < |h'.chunks| && h'.chunks[k] == Chunk(p, true) && Payload(h'.chunks, h.pool, k) >= Need(size)
  {
    var k, need := IndexAt(h.chunks, p), Need(size);
    LiveInside(h, p);
    assert h.chunks[k] == Chunk(p, true);
    InPlaceIs(h, p, size, k, need);
    ShrinkStays(h, k, need);
    GrowStays(h, k, need);
    hide *;
  }

  lemma InPlaceIs(h: Heap, p: nat, size: nat, k: nat, need: nat)
    requires k == IndexAt(h.chunks, p) && k < |h.chunks| && need == Need(size) && size > 0
    requires !GrowWraps(h, k, size) && (Payload(h.chunks, h.pool, k) >= need || CanGrow(h, k, need))
    ensures Realloc(h, Some(p + HEADER), size) ==
            (if need > Payload(h.chunks, h.pool, k) then Grow(h, k, need)
             else if need + HEADER + MINI >= Payload(h.chunks, h.pool, k) then h
             else Shrink(h, k, need),
             Some(p + HEADER))
    ensures need > Payload(h.chunks, h.pool, k) ==> CanGrow(h, k, need) && need + MINI < TWO_32
  {
    hide IndexAt, Payload, Grow, Shrink, Alloc, Free;
  }

  lemma GrowStays(h: Heap, k: nat, need: nat)
    requires Inv(h) && k + 1 < |h.chunks| && h.chunks[k].used
    ensures CanGrow(h, k, need) && need + MINI < TWO_32 ==>
      var cs := Grow(h, k, need).chunks;
      k < |cs| && cs[k] == h.chunks[k] && Payload(cs, h.pool, k) == need
  {
    hide NoTwoFree, ListOk, FreePayload, TailOk;
    assert k + 2 < |h.chunks| ==> h.chunks[k + 2].start + HEADER <= h.pool;
  }

  lemma ShrinkStays(h: Heap, k: nat, need: nat)
    requires k + 1 < |h.chunks| && h.chunks[k].used
    ensures var cs := Shrink(h, k, need).chunks;
      k < |cs| && cs[k] == h.chunks[k] && Payload(cs, h.pool, k) == need
  {}

  // ---- giving everything back ---------------------------------------------------------------

  /** Free the blocks at ps one after the other. */
  function FreeAll(h: Heap, ps: seq<nat>): Heap
    decreases |ps|
  {
    if ps == [] then h else FreeAll(Free(h, ps[0]), ps[1..])
  }

  lemma NothingUsed(h: Heap)
    requires Inv(h) && UsedStarts(h.chunks) == {h.pool - HEADER}
    ensures h.chunks == Initial(h.pool).chunks && h.free == [0] && h.available == h.pool - 2 * HEADER
  {
    var cs := h.chunks;
    forall i | 0 <= i < |cs| - 1 ensures !cs[i].used {
      SameStart(cs, h.pool, i, |cs| - 1);
      UsedIn(cs, i);
    }
    NoTwoFreeAt(cs, 0);
    assert |cs| == 2 && cs[0] == Chunk(0, false);
    assert FreePayload(cs[1..], h.pool) == 0;
    OneFree(h.chunks, h.free);
  }

  lemma HasElement(s: seq<nat>)
    ensures s != [] ==> exists x :: x in s
  {
    if s != [] { assert s[0] in s; }
  }

  lemma UsedIn(cs: seq<Chunk>, i: nat)
    requires i < |cs|
    ensures cs[i].used ==> cs[i].start in UsedStarts(cs)
  {
    assert cs[i] in cs;
  }

  lemma OneFree(cs: seq<Chunk>, free: seq<nat>)
    requires ListOk(cs, free) && |cs| == 2 && cs[0] == Chunk(0, false) && cs[1].used
    ensures free == [0]
  {
    assert cs[0] in cs;
    assert 0 in free && free[0] in free;
    var rest := Without(free, 0);
    WithoutElems(free, 0);
    TailWithout(free);
    HasElement(rest);
  }

  /** Freeing all blocks in use, in any order, rebuilds the initial heap up to the peak of use. */
  lemma {:induction false} FreeingEverything(h: Heap, ps: seq<nat>)
    requires Inv(h) && Distinct(ps) && (forall p: nat :: p in ps <==> p in UsedStarts(h.chunks) && p != h.pool - HEADER)
    ensures Inv(FreeAll(h, ps))
    ensures h.pool >= 2 * HEADER && FreeAll(h, ps).pool == h.pool && FreeAll(h, ps).chunks == Initial(h.pool).chunks
    ensures FreeAll(h, ps).free == [0] && FreeAll(h, ps).available == h.pool - 2 * HEADER
    decreases |ps|
  {
    if ps == [] {
      OnlyTheEnd(h);
      NothingUsed(h);
    } else {
      hide UsedStarts, Inv, Live, Free, Initial;
      assert ps[0] in ps;
      LiveByUse(h, ps[0]);
      FreeKeeps(h, ps[0]);
      OneLess(ps);
      FreeSamePool(h, ps[0]);
      FreeingEverything(Free(h, ps[0]), ps[1..]);
    }
  }

  lemma OnlyTheEnd(h: Heap)
    requires Inv(h) && forall p: nat :: !(p in UsedStarts(h.chunks) && p != h.pool - HEADER)
    ensures UsedStarts(h.chunks) == {h.pool - HEADER}
  {
    var cs := h.chunks;
    assert cs[|cs| - 1] in cs;
  }

  lemma OneLess(ps: seq<nat>)
    requires ps != [] && Distinct(ps)
    ensures Distinct(ps[1..]) && forall p: nat :: p in ps[1..] <==> p in ps && p != ps[0]
  {
    TailWithout(ps);
    WithoutElems(ps, ps[0]);
    WithoutDistinct(ps, ps[0]);
  }

  lemma FreeSamePool(h: Heap, p: nat)
    ensures Free(h, p).pool == h.pool
  {}
}
