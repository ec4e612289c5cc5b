/** How large the blocks are that a memory heap hands out, and which ones it takes. */
module MemHeapSizes {
  import opened Wrappers
  import opened Tiling
  import opened Queues
  import opened MemHeaps
  import opened MemHeapTheorems
  import opened MemHeapRuns

  /** The block at p is in use and its payload has n bytes. */
  ghost predicate Holds(h: Heap, p: nat, n: int) {
    n >= 0 && Lies(h, p, p + HEADER + n)
  }

  /** What becomes of a free block with `has` bytes of payload that is to give `need` of them. */
  function Given(has: int, need: nat): int {
    if has >= need + HEADER + MINI then need else has
  }

  // ---- the request --------------------------------------------------------------------------

  /** A request is rounded to the least multiple of four that has room for it and for twelve. */
  lemma NeedLeast(size: nat, n: nat)
    requires size <= TWO_32 - 4
    ensures Need(size) % 4 == 0 && size <= Need(size) && 12 <= Need(size) < TWO_32
    ensures n % 4 == 0 && size <= n && 12 <= n ==> Need(size) <= n
  {}

  lemma NeedTwice(size: nat)
    ensures Need(Need(size)) == Need(size)
  {}

  // ---- allocation ---------------------------------------------------------------------------

  lemma CarveGives(h: Heap, k: nat, need: nat)
    requires Inv(h) && k + 1 < |h.chunks| && Payload(h.chunks, h.pool, k) >= need
    ensures Holds(Carve(h, k, need), h.chunks[k].start, Given(Payload(h.chunks, h.pool, k), need))
  {
    var cs := Carve(h, k, need).chunks;
    var start := h.chunks[k].start;
    assert cs[k] == Chunk(start, true);
    BlockIs(cs, h.pool, start, start + HEADER + Given(Payload(h.chunks, h.pool, k), need), k);
  }

  /** The block handed out was free and large enough. It is exactly as large as the rounded request if the
      rest could hold a block of its own, and is otherwise what it was before. */
  lemma AllocGives(h: Heap, size: nat)
    requires Inv(h) && Alloc(h, size).1.Some?
    ensures var (h', r) := Alloc(h, size); var p := r.value - HEADER;
      && p >= 0 && Chunk(p, false) in h.chunks && PayloadAt(h.chunks, h.pool, p) >= Need(size)
      && Holds(h', p, Given(PayloadAt(h.chunks, h.pool, p), Need(size)))
      && Need(size) <= Given(PayloadAt(h.chunks, h.pool, p), Need(size)) < Need(size) + 36
  {
    var need := Need(size);
    var i := FirstFit(h, need, 0);
    hide Holds, Carve, Need;
    FoundFree(h, i);
    var k := IndexAt(h.chunks, h.free[i]);
    assert h.chunks[k] in h.chunks;
    UsedBehind(h.chunks, h.pool, k);
    CarveGives(h, k, need);
  }

  // ---- resizing -----------------------------------------------------------------------------

  /** A block is large enough, or can grow. */
  predicate Stays(h: Heap, p: nat, need: nat) {
    var k := IndexAt(h.chunks, p);
    k < |h.chunks| && (need <= Payload(h.chunks, h.pool, k) || CanGrow(h, k, need))
  }

  /** What becomes of `has` bytes of payload in place: a rest too small for a block of its own stays. */
  function Resized(has: int, need: nat): int {
    if need <= has <= need + HEADER + MINI then has else need
  }

  /** It then stays where it is, with exactly this payload. */
  lemma StaysGives(h: Heap, p: nat, size: nat)
    requires Inv(h) && Live(h, p) && size > 0 && !GrowWraps(h, IndexAt(h.chunks, p), size) && Stays(h, p, Need(size))
    ensures var (h', r) := Realloc(h, Some(p + HEADER), size);
      r == Some(p + HEADER) && Holds(h', p, Resized(PayloadAt(h.chunks, h.pool, p), Need(size)))
  {
    var k, need := IndexAt(h.chunks, p), Need(size);
    var (h', r) := Realloc(h, Some(p + HEADER), size);
    LiveInside(h, p);
    assert h.chunks[k] == Chunk(p, true);
    InPlaceIs(h, p, size, k, need);
    ShrinkStays(h, k, need);
    GrowStays(h, k, need);
    hide Realloc, Grow, Shrink, CanGrow, GrowWraps, Need, Inv;
    var n := Resized(PayloadAt(h.chunks, h.pool, p), need);
    assert k < |h'.chunks| && h'.chunks[k] == Chunk(p, true) && Payload(h'.chunks, h.pool, k) == n;
    BlockIs(h'.chunks, h.pool, p, p + HEADER + n, k);
  }

  lemma MoveIs(h: Heap, p: nat, size: nat)
    requires IndexAt(h.chunks, p) < |h.chunks| && size > 0 && !Stays(h, p, Need(size))
    ensures var (h1, r) := Alloc(h, Need(size));
      Realloc(h, Some(p + HEADER), size) == (if r.None? then h1 else Free(h1, p), r)
  {
    hide Alloc, Free, Grow, Shrink, Need, IndexAt, Payload, CanGrow;
  }

  /** The block at p has made room for one at q, which was free. */
  ghost predicate MovedTo(h: Heap, h': Heap, p: int, q: nat, need: nat) {
    && q != p && Chunk(q, false) in h.chunks && PayloadAt(h.chunks, h.pool, q) >= need
    && Holds(h', q, Given(PayloadAt(h.chunks, h.pool, q), need))
    && UsedStarts(h'.chunks) == UsedStarts(h.chunks) - {p} + {q}
  }

  lemma InUse(h: Heap, p: nat)
    requires Inv(h) && Live(h, p)
    ensures p in UsedStarts(h.chunks)
  {
    LiveByUse(h, p);
  }

  lemma FreedBehind(h1: Heap, p: nat, q: nat, n: int)
    requires Holds(h1, q, n) && q != p
    ensures Holds(Free(h1, p), q, n)
  {
    FreeLies(h1, p, q, q + HEADER + n);
  }

  lemma Moves(h: Heap, p: nat, need: nat, q: nat)
    requires Inv(h) && Live(h, p) && Alloc(h, need).1 == Some(q + HEADER) && Need(need) == need
    ensures MovedTo(h, Free(Alloc(h, need).0, p), p, q, need)
  {
    hide Inv, Live, Alloc, Free, Holds, Given, Need, IndexAt, PayloadAt, UsedStarts;
    AllocGives(h, need);
    AllocUses(h, need);
    InUse(h, p);
    StillLive(h, need, p);
    AllocKeeps(h, need);
    FreeKeeps(Alloc(h, need).0, p);
    FreedBehind(Alloc(h, need).0, p, q, Given(PayloadAt(h.chunks, h.pool, q), need));
  }

  /** A block that can neither stay nor grow moves to a free block that is large enough, which is given as
      in an allocation, and is freed; if there is none nothing has changed. */
  lemma MoveGives(h: Heap, p: nat, size: nat)
    requires Inv(h) && Live(h, p) && size > 0 && !Stays(h, p, Need(size))
    ensures var (h', r) := Realloc(h, Some(p + HEADER), size);
      && r == Alloc(h, Need(size)).1
      && (if r.None? then h' == h else r.value >= HEADER && MovedTo(h, h', p, r.value - HEADER, Need(size)))
  {
    var need := Need(size);
    LiveInside(h, p);
    NeedTwice(size);
    hide Inv, Live, Alloc, Free, Realloc, Stays, MovedTo, Need, IndexAt;
    MoveIs(h, p, size);
    AllocKeeps(h, need);
    if Alloc(h, need).1.Some? {
      AllocUses(h, need);
      Moves(h, p, need, Alloc(h, need).1.value - HEADER);
    }
  }

  /** Resizing to 0 frees the block. */
  lemma ResizeFrees(h: Heap, p: nat)
    requires Inv(h) && Live(h, p)
    ensures var (h', r) := Realloc(h, Some(p + HEADER), 0);
      r.None? && Inv(h') && UsedStarts(h'.chunks) == UsedStarts(h.chunks) - {p}
  {
    assert Some(p + HEADER).value - HEADER == p;
    LiveInside(h, p);
    hide Inv, Live, Free, UsedStarts, Alloc, Grow, Shrink;
    FreeKeeps(h, p);
  }

  /** Without a block to resize it is an allocation. */
  lemma ResizeNull(h: Heap, size: nat)
    ensures Realloc(h, None, size) == if size == 0 then (h, None) else Alloc(h, size)
  {
    NeedTwice(size);
    hide Need, FirstFit, Carve, Free, Grow, Shrink;
  }

  /** Memory that was given back is used first: if nothing free lies in front of the freed block, the next
      allocation that fits into it, and is not of everything, takes it. */
  lemma ReusedFirst(h: Heap, p: nat, size: nat)
    requires Inv(h) && Live(h, p) && !LeftFree(h.chunks, IndexAt(h.chunks, p))
    requires PayloadAt(Free(h, p).chunks, h.pool, p) >= Need(size) && Need(size) < Free(h, p).available
    ensures Alloc(Free(h, p), size).1 == Some(p + HEADER)
  {
    hide *;
    FreedFirst(h, p);
    FreeKeeps(h, p);
    TakenFirst(Free(h, p), size);
  }

  lemma FreedFirst(h: Heap, p: nat)
    requires Inv(h) && Live(h, p) && !LeftFree(h.chunks, IndexAt(h.chunks, p))
    ensures var h' := Free(h, p); h'.free != [] && h'.free[0] == p && h'.pool == h.pool
  {
    LiveInside(h, p);
    hide Inv, Live, FreeAt, Regained, DropRight;
  }

  lemma TakenFirst(h: Heap, size: nat)
    requires Inv(h) && h.free != [] && PayloadAt(h.chunks, h.pool, h.free[0]) >= Need(size) && Need(size) < h.available
    ensures Alloc(h, size).1 == Some(h.free[0] + HEADER)
  {
    FoundFree(h, 0);
    hide Inv, PayloadAt, IndexAt, Need, Carve;
    assert FirstFit(h, Need(size), 0) == 0;
  }
}
