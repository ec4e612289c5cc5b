/** The memory heaps of `memheap.c`, block by block.

    Blocks tile the pool; a used block of length 0 at its end stops merging. Unlike `mem.c` the
    free blocks are also on a list of their own, newest first, and a block can grow in place into
    the free block behind it. Sizes count bytes.
 */
module MemHeaps {
  import opened Wrappers
  import opened Tiling
  import opened Queues

  const HEADER: nat := 24             // RT_MEMHEAP_SIZE
  const MINI: nat := 12               // RT_MEMHEAP_MINIALLOC
  const TWO_32: nat := 0x1_0000_0000

  /** `free` is the free list from its head on; addresses are offsets into the pool. */
  datatype Heap = Heap(pool: nat, chunks: seq<Chunk>, free: seq<nat>, available: int, maxUsed: int)

  /** RT_ALIGN on a 32-bit size, then the minimum; the addition in RT_ALIGN wraps. */
  function Need(size: nat): nat {
    var aligned := (size + 3) % TWO_32 / 4 * 4;
    if aligned < MINI then MINI else aligned
  }

  /** MEMITEM_SIZE. */
  function Payload(cs: seq<Chunk>, pool: nat, k: nat): int
    requires k < |cs|
  {
    Length(cs, pool, k) - HEADER
  }

  function PayloadAt(cs: seq<Chunk>, pool: nat, start: nat): int {
    var k := IndexAt(cs, start);
    if k < |cs| then Payload(cs, pool, k) else 0
  }

  /** The payload bytes of all free blocks together. */
  function FreePayload(cs: seq<Chunk>, pool: nat): int {
    if cs == [] then 0
    else (if cs[0].used then 0 else Payload(cs, pool, 0)) + FreePayload(cs[1..], pool)
  }

  /** max_used_size is raised whenever a block is taken or grown; the subtraction is one of 32-bit
      numbers. */
  function Raise(h: Heap): Heap {
    h.(maxUsed := Max(h.maxUsed, (h.pool - h.available) % TWO_32))
  }

  // ---- operations ---------------------------------------------------------------------------

  /** Position in the free list of the first block that is large enough, or its length. */
  function FirstFit(h: Heap, need: nat, i: nat): (r: nat)
    requires i <= |h.free|
    ensures i <= r <= |h.free|
    ensures forall j :: i <= j < r ==> PayloadAt(h.chunks, h.pool, h.free[j]) < need
    ensures r < |h.free| ==> PayloadAt(h.chunks, h.pool, h.free[r]) >= need
    decreases |h.free| - i
  {
    if i == |h.free| || PayloadAt(h.chunks, h.pool, h.free[i]) >= need then i else FirstFit(h, need, i + 1)
  }

  /** Free block k is handed out, cut in two if the rest can hold a block of its own. */
  function Carve(h: Heap, k: nat, need: nat): Heap
    requires k < |h.chunks|
  {
    var start := h.chunks[k].start;
    var size := Payload(h.chunks, h.pool, k);
    if size >= need + HEADER + MINI then
      var at := start + HEADER + need;
      Raise(h.(chunks := Split(h.chunks, k, true, at), free := [at] + Without(h.free, start),
               available := h.available - need - HEADER))
    else
      Raise(h.(chunks := Mark(h.chunks, k, true), free := Without(h.free, start), available := h.available - size))
  }

  /** rt_memheap_alloc: the new heap and the address of the payload. */
  function Alloc(h: Heap, size: nat): (Heap, Option<nat>) {
    var need := Need(size);
    if need >= h.available then (h, None)
    else
      var i := FirstFit(h, need, 0);
      if i == |h.free| then (h, None)
      else
        var k := IndexAt(h.chunks, h.free[i]);
        if k < |h.chunks| then (Carve(h, k, need), Some(h.free[i] + HEADER)) else (h, None)
  }

  predicate RightFree(cs: seq<Chunk>, k: nat) {
    k + 1 < |cs| && !cs[k + 1].used
  }

  predicate LeftFree(cs: seq<Chunk>, k: nat) {
    0 < k <= |cs| && !cs[k - 1].used
  }

  /** The free list without the block behind block k, if that one is free. */
  function DropRight(cs: seq<Chunk>, free: seq<nat>, k: nat): seq<nat> {
    if RightFree(cs, k) then Without(free, cs[k + 1].start) else free
  }

  /** The available bytes that come back with block k: its own and those of the headers that vanish. */
  function Regained(cs: seq<Chunk>, pool: nat, k: nat): int
    requires k < |cs|
  {
    Payload(cs, pool, k) + (if LeftFree(cs, k) then HEADER else 0) + (if RightFree(cs, k) then HEADER else 0)
  }

  /** The free list after block k became free. */
  function ListAfter(cs: seq<Chunk>, free: seq<nat>, k: nat): seq<nat>
    requires k < |cs|
  {
    if LeftFree(cs, k) then DropRight(cs, free, k) else [cs[k].start] + DropRight(cs, free, k)
  }

  /** rt_memheap_free of the block whose header is at p: it merges with free neighbours. */
  function Free(h: Heap, p: nat): Heap {
    var k := IndexAt(h.chunks, p);
    if k == |h.chunks| then h
    else
      h.(chunks := FreeAt(h.chunks, p), free := ListAfter(h.chunks, h.free, k),
         available := h.available + Regained(h.chunks, h.pool, k))
  }

  /** The free block behind block k is large enough to give what block k lacks; the addition on
      the right is one of 32-bit numbers. */
  predicate CanGrow(h: Heap, k: nat, need: nat)
    requires k < |h.chunks|
  {
    && RightFree(h.chunks, k)
    && Payload(h.chunks, h.pool, k + 1) + Payload(h.chunks, h.pool, k) > (need + MINI) % TWO_32
  }

  /** Block k grows to `need` bytes; the free block behind it starts later. Addresses and the
      available bytes are 32-bit numbers. */
  function Grow(h: Heap, k: nat, need: nat): Heap
    requires k + 1 < |h.chunks|
  {
    var at := (h.chunks[k].start + HEADER + need) % TWO_32;
    Raise(h.(chunks := h.chunks[k + 1 := Chunk(at, false)],
             free := [at] + Without(h.free, h.chunks[k + 1].start),
             available := (h.available - (need - Payload(h.chunks, h.pool, k))) % TWO_32))
  }

  /** Block k is cut down to `need` bytes; the rest merges with a free block behind it. */
  function Shrink(h: Heap, k: nat, need: nat): Heap
    requires k < |h.chunks|
  {
    var at := h.chunks[k].start + HEADER + need;
    var merged := JoinRight(Split(h.chunks, k, true, at), k + 1);
    h.(chunks := merged,
       free := [at] + DropRight(h.chunks, h.free, k),
       available := h.available - (if RightFree(h.chunks, k) then Payload(h.chunks, h.pool, k + 1) else 0)
                  + (StartAt(merged, h.pool, k + 2) - at - HEADER))
  }

  /** rt_memheap_realloc. */
  function Realloc(h: Heap, ptr: Option<nat>, size: nat): (Heap, Option<nat>)
    requires ptr.Some? ==> ptr.value >= HEADER && IndexAt(h.chunks, ptr.value - HEADER) < |h.chunks|
  {
    if size == 0 then (if ptr.Some? then Free(h, ptr.value - HEADER) else h, None)
    else if ptr.None? then Alloc(h, Need(size))
    else
      var p, need := ptr.value - HEADER, Need(size);
      var k := IndexAt(h.chunks, p);
      var has := Payload(h.chunks, h.pool, k);
      if need > has then
        if CanGrow(h, k, need) then (Grow(h, k, need), ptr)
        else
          var (h', r) := Alloc(h, need);
          if r.None? then (h', None) else (Free(h', p), r)
      else if need + HEADER + MINI >= has then (h, ptr)
      else (Shrink(h, k, need), ptr)
  }

  // ---- the invariant ------------------------------------------------------------------------

  /** The free list holds the free blocks of the pool, each once. */
  ghost predicate ListOk(cs: seq<Chunk>, free: seq<nat>) {
    Distinct(free) && forall x: nat :: x in free <==> Chunk(x, false) in cs
  }

  ghost predicate TailOk(cs: seq<Chunk>, pool: nat) {
    |cs| >= 2 && pool >= 2 * HEADER && cs[|cs| - 1] == Chunk(pool - HEADER, true)
  }

  ghost predicate Shape(cs: seq<Chunk>, pool: nat) {
    pool < TWO_32 && Tiles(cs, pool, HEADER) && TailOk(cs, pool)
  }

  /** Blocks tile the pool, no two neighbours are free, the free list is exactly the free blocks,
      and available_size is the sum of their payloads. */
  ghost predicate Inv(h: Heap) {
    && Shape(h.chunks, h.pool)
    && NoTwoFree(h.chunks)
    && ListOk(h.chunks, h.free)
    && h.available == FreePayload(h.chunks, h.pool)
    && h.pool - h.available <= h.maxUsed
  }

  // ---- free payload -------------------------------------------------------------------------

  lemma {:induction false} FreePayloadConcat(a: seq<Chunk>, b: seq<Chunk>, pool: nat)
    ensures FreePayload(a + b, pool) == FreePayload(a, StartAt(b, pool, 0)) + FreePayload(b, pool)
    decreases |a|
  {
    if a == [] {
      assert a + b == b;
    } else {
      assert (a + b)[1..] == a[1..] + b;
      FreePayloadConcat(a[1..], b, pool);
      if |a| == 1 { assert a[1..] + b == b; }
    }
  }

  lemma FreePayloadAt(cs: seq<Chunk>, k: nat, pool: nat)
    requires k < |cs|
    ensures FreePayload(cs, pool) == FreePayload(cs[..k], cs[k].start)
          + (if cs[k].used then 0 else Payload(cs, pool, k)) + FreePayload(cs[k + 1..], pool)
  {
    assert cs == cs[..k] + cs[k..];
    assert cs[k..][1..] == cs[k + 1..];
    FreePayloadConcat(cs[..k], cs[k..], pool);
  }

  lemma FreePayloadSplit(cs: seq<Chunk>, k: nat, at: nat, pool: nat)
    requires k < |cs|
    ensures FreePayload(Split(cs, k, true, at), pool) == FreePayload(cs, pool)
          - (if cs[k].used then 0 else Payload(cs, pool, k)) + StartAt(cs, pool, k + 1) - at - HEADER
  {
    var s := Split(cs, k, true, at);
    FreePayloadAt(cs, k, pool);
    FreePayloadAt(s, k, pool);
    assert s[..k] == cs[..k];
    assert s[k + 1..][1..] == cs[k + 1..];
  }

  lemma FreePayloadMark(cs: seq<Chunk>, k: nat, u: bool, pool: nat)
    requires k < |cs|
    ensures FreePayload(Mark(cs, k, u), pool) == FreePayload(cs, pool)
          - (if cs[k].used then 0 else Payload(cs, pool, k)) + (if u then 0 else Payload(cs, pool, k))
  {
    FreePayloadAt(cs, k, pool);
    FreePayloadAt(Mark(cs, k, u), k, pool);
    assert Mark(cs, k, u)[..k] == cs[..k];
    assert Mark(cs, k, u)[k + 1..] == cs[k + 1..];
  }

  /** Two free neighbours become one: a header turns into payload. */
  lemma FreePayloadAbsorb(cs: seq<Chunk>, k: nat, pool: nat)
    requires 0 < k < |cs| && !cs[k - 1].used && !cs[k].used
    ensures FreePayload(Absorb(cs, k), pool) == FreePayload(cs, pool) + HEADER
  {
    var s := Absorb(cs, k);
    FreePayloadAt(cs, k - 1, pool);
    FreePayloadAt(s, k - 1, pool);
    assert s[..k - 1] == cs[..k - 1];
    assert s[k..] == cs[k + 1..];
    assert cs[k..][1..] == cs[k + 1..];
  }

  /** Moving the start of a free block behind a used one. */
  lemma FreePayloadMove(cs: seq<Chunk>, k: nat, at: nat, pool: nat)
    requires k + 1 < |cs| && cs[k].used && !cs[k + 1].used
    ensures FreePayload(cs[k + 1 := Chunk(at, false)], pool) == FreePayload(cs, pool) - (at - cs[k + 1].start)
  {
    var s := cs[k + 1 := Chunk(at, false)];
    FreePayloadAt(cs, k, pool);
    FreePayloadAt(s, k, pool);
    assert s[..k] == cs[..k];
    assert cs[k + 1..][1..] == cs[k + 2..] && s[k + 1..][1..] == cs[k + 2..];
  }

  lemma {:induction false} FreePayloadBounds(cs: seq<Chunk>, pool: nat, i: nat)
    requires Tiles(cs, pool, HEADER) && i <= |cs|
    ensures 0 <= FreePayload(cs[i..], pool) <= pool - StartAt(cs, pool, i)
    ensures forall k :: i <= k < |cs| && !cs[k].used ==> Payload(cs, pool, k) <= FreePayload(cs[i..], pool)
    decreases |cs| - i
  {
    if i < |cs| {
      assert cs[i..][1..] == cs[i + 1..];
      FreePayloadBounds(cs, pool, i + 1);
      if i + 1 < |cs| { assert Apart(cs, HEADER, i, i + 1); }
    }
  }

  // ---- free blocks --------------------------------------------------------------------------

  lemma SameStart(cs: seq<Chunk>, pool: nat, i: nat, j: nat)
    requires Tiles(cs, pool, HEADER) && i < |cs| && j < |cs|
    ensures cs[i].start == cs[j].start ==> i == j
  {
    if i < j { assert Apart(cs, HEADER, i, j); } else if j < i { assert Apart(cs, HEADER, j, i); }
  }

  lemma FoundAt(cs: seq<Chunk>, pool: nat, k: nat)
    requires Tiles(cs, pool, HEADER) && k < |cs|
    ensures IndexAt(cs, cs[k].start) == k
  {
    SameStart(cs, pool, IndexAt(cs, cs[k].start), k);
  }

  lemma SplitMembers(cs: seq<Chunk>, pool: nat, k: nat, at: nat, x: nat)
    requires Tiles(cs, pool, HEADER) && k < |cs|
    ensures Chunk(x, false) in Split(cs, k, true, at) <==> (Chunk(x, false) in cs && x != cs[k].start) || x == at
  {
    var c, s := Chunk(x, false), Split(cs, k, true, at);
    if c in s && x != at {
      var i :| 0 <= i < |s| && s[i] == c;
      var i' := if i <= k then i else i - 1;
      assert cs[i'] == c;
      SameStart(cs, pool, i', k);
    }
    if c in cs && x != cs[k].start {
      var i :| 0 <= i < |cs| && cs[i] == c;
      assert s[if i < k then i else i + 1] == c;
    }
    assert s[k + 1] == Chunk(at, false);
  }

  lemma MarkMembers(cs: seq<Chunk>, pool: nat, k: nat, u: bool, x: nat)
    requires Tiles(cs, pool, HEADER) && k < |cs|
    ensures Chunk(x, false) in Mark(cs, k, u) <==> (if x == cs[k].start then !u else Chunk(x, false) in cs)
  {
    var c, s := Chunk(x, false), Mark(cs, k, u);
    if c in s {
      var i :| 0 <= i < |s| && s[i] == c;
      if i != k { SameStart(cs, pool, i, k); assert cs[i] == c; }
    }
    if c in cs && x != cs[k].start {
      var i :| 0 <= i < |cs| && cs[i] == c;
      assert s[i] == c;
    }
    assert s[k] == Chunk(cs[k].start, u);
  }

  lemma AbsorbMembers(cs: seq<Chunk>, pool: nat, k: nat, x: nat)
    requires Tiles(cs, pool, HEADER) && 0 < k < |cs|
    ensures Chunk(x, false) in Absorb(cs, k) <==> Chunk(x, false) in cs && x != cs[k].start
  {
    var c, s := Chunk(x, false), Absorb(cs, k);
    if c in s {
      var i :| 0 <= i < |s| && s[i] == c;
      var i' := if i < k then i else i + 1;
      assert cs[i'] == c;
      SameStart(cs, pool, i', k);
    }
    if c in cs && x != cs[k].start {
      var i :| 0 <= i < |cs| && cs[i] == c;
      assert s[if i < k then i else i - 1] == c;
    }
  }

  lemma MoveMembers(cs: seq<Chunk>, pool: nat, k: nat, at: nat, x: nat)
    requires Tiles(cs, pool, HEADER) && k < |cs| && !cs[k].used
    ensures Chunk(x, false) in cs[k := Chunk(at, false)] <==> (Chunk(x, false) in cs && x != cs[k].start) || x == at
  {
    var c, s := Chunk(x, false), cs[k := Chunk(at, false)];
    if c in s && x != at {
      var i :| 0 <= i < |s| && s[i] == c;
      assert cs[i] == c;
      SameStart(cs, pool, i, k);
    }
    if c in cs && x != cs[k].start {
      var i :| 0 <= i < |cs| && cs[i] == c;
      assert s[i] == c;
    }
    assert s[k] == Chunk(at, false);
  }

  /** No block starts strictly inside another. */
  lemma InsideBlock(cs: seq<Chunk>, pool: nat, k: nat, at: nat)
    requires Tiles(cs, pool, HEADER) && k < |cs| && cs[k].start < at < StartAt(cs, pool, k + 1)
    ensures Chunk(at, false) !in cs
  {
    forall i | 0 <= i < |cs| ensures cs[i].start != at {
      if i < k { assert Apart(cs, HEADER, i, k); }
      if i > k + 1 { assert Apart(cs, HEADER, k + 1, i); }
    }
  }

  // ---- the free list ------------------------------------------------------------------------

  lemma ListDrop(cs: seq<Chunk>, free: seq<nat>, cs': seq<Chunk>, gone: nat)
    requires ListOk(cs, free)
    requires forall x: nat :: Chunk(x, false) in cs' <==> Chunk(x, false) in cs && x != gone
    ensures ListOk(cs', Without(free, gone))
  {
    WithoutElems(free, gone);
    WithoutDistinct(free, gone);
  }

  lemma ListPush(cs: seq<Chunk>, free: seq<nat>, cs': seq<Chunk>, at: nat)
    requires ListOk(cs, free) && Chunk(at, false) !in cs
    requires forall x: nat :: Chunk(x, false) in cs' <==> Chunk(x, false) in cs || x == at
    ensures ListOk(cs', [at] + free)
  {}

  /** One block leaves the list and another joins it. */
  lemma ListReplace(cs: seq<Chunk>, free: seq<nat>, cs': seq<Chunk>, gone: nat, at: nat)
    requires ListOk(cs, free) && Chunk(at, false) !in cs
    requires forall x: nat :: Chunk(x, false) in cs' <==> (Chunk(x, false) in cs && x != gone) || x == at
    ensures ListOk(cs', [at] + Without(free, gone))
  {
    WithoutElems(free, gone);
    WithoutDistinct(free, gone);
  }

  // ---- handing out --------------------------------------------------------------------------

  /** Behind a free block there is a used one. */
  lemma UsedBehind(cs: seq<Chunk>, pool: nat, k: nat)
    requires Shape(cs, pool) && NoTwoFree(cs) && k < |cs| && !cs[k].used
    ensures k + 1 < |cs| && cs[k + 1].used
    ensures cs[k].start + HEADER <= cs[k + 1].start
  {
    NoTwoFreeAt(cs, k);
    assert Apart(cs, HEADER, k, k + 1);
  }

  lemma Raised(h: Heap)
    requires Shape(h.chunks, h.pool) && NoTwoFree(h.chunks) && ListOk(h.chunks, h.free)
    requires h.available == FreePayload(h.chunks, h.pool)
    ensures Inv(Raise(h)) && 0 <= h.available <= h.pool
  {
    FreePayloadBounds(h.chunks, h.pool, 0);
    assert h.chunks[0..] == h.chunks;
  }

  lemma CarveKeeps(h: Heap, k: nat, need: nat)
    requires Inv(h) && k < |h.chunks| && !h.chunks[k].used && need <= Payload(h.chunks, h.pool, k)
    ensures Inv(Carve(h, k, need))
  {
    UsedBehind(h.chunks, h.pool, k);
    if Payload(h.chunks, h.pool, k) >= need + HEADER + MINI {
      CarveSplit(h, k, need);
    } else {
      CarveWhole(h, k, need);
    }
  }

  lemma SplitList(cs: seq<Chunk>, pool: nat, k: nat, at: nat, free: seq<nat>)
    requires Tiles(cs, pool, HEADER) && ListOk(cs, free) && k < |cs|
    requires cs[k].start < at < StartAt(cs, pool, k + 1)
    ensures ListOk(Split(cs, k, true, at), [at] + Without(free, cs[k].start))
  {
    var s := Split(cs, k, true, at);
    InsideBlock(cs, pool, k, at);
    forall x: nat ensures Chunk(x, false) in s <==> (Chunk(x, false) in cs && x != cs[k].start) || x == at {
      SplitMembers(cs, pool, k, at, x);
    }
    ListReplace(cs, free, s, cs[k].start, at);
  }

  lemma CarveParts(cs: seq<Chunk>, pool: nat, k: nat, need: nat, free: seq<nat>)
    requires Shape(cs, pool) && NoTwoFree(cs) && ListOk(cs, free)
    requires k + 1 < |cs| && !cs[k].used && cs[k + 1].used
    requires Payload(cs, pool, k) >= need + HEADER + MINI
    ensures var at := cs[k].start + HEADER + need; var s := Split(cs, k, true, at);
      Shape(s, pool) && NoTwoFree(s) && ListOk(s, [at] + Without(free, cs[k].start))
      && FreePayload(s, pool) == FreePayload(cs, pool) - need - HEADER
  {
    var at := cs[k].start + HEADER + need;
    SplitTiles(cs, k, true, at, pool, HEADER);
    SplitBorders(cs, k, at);
    FreePayloadSplit(cs, k, at, pool);
    SplitList(cs, pool, k, at, free);
  }

  lemma CarveSplit(h: Heap, k: nat, need: nat)
    requires Inv(h) && k + 1 < |h.chunks| && !h.chunks[k].used && h.chunks[k + 1].used
    requires Payload(h.chunks, h.pool, k) >= need + HEADER + MINI
    ensures Inv(Carve(h, k, need))
  {
    hide Shape, NoTwoFree, ListOk, FreePayload, Split, Payload;
    var cs, at := h.chunks, h.chunks[k].start + HEADER + need;
    CarveParts(cs, h.pool, k, need, h.free);
    Raised(h.(chunks := Split(cs, k, true, at), free := [at] + Without(h.free, cs[k].start),
              available := h.available - need - HEADER));
  }

  lemma CarveWhole(h: Heap, k: nat, need: nat)
    requires Inv(h) && k + 1 < |h.chunks| && !h.chunks[k].used
    requires Payload(h.chunks, h.pool, k) < need + HEADER + MINI
    ensures Inv(Carve(h, k, need))
  {
    var cs, start, s := h.chunks, h.chunks[k].start, Mark(h.chunks, k, true);
    MarkTiles(cs, k, true, h.pool, HEADER);
    MarkBorders(cs, k);
    FreePayloadMark(cs, k, true, h.pool);
    forall x: nat ensures Chunk(x, false) in s <==> Chunk(x, false) in cs && x != start {
      MarkMembers(cs, h.pool, k, true, x);
    }
    ListDrop(cs, h.free, s, start);
    Raised(h.(chunks := s, free := Without(h.free, start), available := h.available - Payload(cs, h.pool, k)));
  }

  // ---- taking back --------------------------------------------------------------------------

  /** A live block: used, and not the one that closes the pool. */
  predicate Live(h: Heap, p: int) {
    IsLive(h.chunks, p) && p + HEADER < h.pool
  }

  lemma LiveInside(h: Heap, p: int)
    requires Inv(h) && Live(h, p)
    ensures IndexAt(h.chunks, p) + 1 < |h.chunks|
  {}

  lemma FreeShape(cs: seq<Chunk>, pool: nat, k: nat)
    requires Shape(cs, pool) && NoTwoFree(cs) && k + 1 < |cs| && cs[k].used
    ensures Shape(Plug(Mark(cs, k, false), k), pool) && NoTwoFree(Plug(Mark(cs, k, false), k))
  {
    var marked := Mark(cs, k, false);
    MarkTiles(cs, k, false, pool, HEADER);
    MarkBorders(cs, k);
    PlugNoTwoFree(marked, k);
    PlugTiles(marked, k, pool, HEADER);
  }

  lemma FreeAvailable(cs: seq<Chunk>, pool: nat, k: nat)
    requires k + 1 < |cs| && cs[k].used
    ensures FreePayload(Plug(Mark(cs, k, false), k), pool) == FreePayload(cs, pool) + Regained(cs, pool, k)
  {
    var marked := Mark(cs, k, false);
    FreePayloadMark(cs, k, false, pool);
    if RightFree(cs, k) { FreePayloadAbsorb(marked, k + 1, pool); }
    var right := JoinRight(marked, k);
    assert k > 0 ==> right[k - 1] == cs[k - 1];
    if LeftFree(cs, k) { FreePayloadAbsorb(right, k, pool); }
  }

  lemma DropRightOk(cs: seq<Chunk>, pool: nat, k: nat, free: seq<nat>)
    requires Tiles(cs, pool, HEADER) && ListOk(cs, free) && k < |cs|
    ensures ListOk(JoinRight(cs, k), DropRight(cs, free, k))
  {
    if RightFree(cs, k) {
      forall x: nat ensures Chunk(x, false) in Absorb(cs, k + 1) <==> Chunk(x, false) in cs && x != cs[k + 1].start {
        AbsorbMembers(cs, pool, k + 1, x);
      }
      ListDrop(cs, free, Absorb(cs, k + 1), cs[k + 1].start);
    }
  }

  /** The free block behind a block that is becoming free is dropped, and the block itself joins
      the list unless it is swallowed by a free block before it. */
  lemma FreeListOk(cs: seq<Chunk>, pool: nat, k: nat, free: seq<nat>)
    requires Tiles(cs, pool, HEADER) && ListOk(cs, free) && k < |cs| && cs[k].used
    ensures ListOk(Plug(Mark(cs, k, false), k), ListAfter(cs, free, k))
  {
    var start, marked, kept := cs[k].start, Mark(cs, k, false), JoinRight(cs, k);
    var right := JoinRight(marked, k);
    DropRightOk(cs, pool, k, free);
    MarkTiles(cs, k, false, pool, HEADER);
    PlugTiles(marked, k, pool, HEADER);
    PlugTiles(cs, k, pool, HEADER);
    assert right == Mark(kept, k, false);
    if Chunk(start, false) in kept {
      var i :| 0 <= i < |kept| && kept[i] == Chunk(start, false);
      SameStart(kept, pool, i, k);
    }
    forall x: nat ensures Chunk(x, false) in right <==> Chunk(x, false) in kept || x == start {
      MarkMembers(kept, pool, k, false, x);
    }
    assert k > 0 ==> right[k - 1] == cs[k - 1];
    if LeftFree(cs, k) {
      forall x: nat ensures Chunk(x, false) in Absorb(right, k) <==> Chunk(x, false) in kept {
        AbsorbMembers(right, pool, k, x);
      }
    } else {
      ListPush(kept, DropRight(cs, free, k), right, start);
    }
  }

  lemma FreeIsPlug(cs: seq<Chunk>, pool: nat, k: nat)
    requires Tiles(cs, pool, HEADER) && k < |cs|
    ensures IndexAt(cs, cs[k].start) == k && FreeAt(cs, cs[k].start) == Plug(Mark(cs, k, false), k)
  {
    FoundAt(cs, pool, k);
  }

  lemma FreeParts(cs: seq<Chunk>, pool: nat, k: nat, free: seq<nat>)
    requires Shape(cs, pool) && NoTwoFree(cs) && ListOk(cs, free) && k + 1 < |cs| && cs[k].used
    ensures var s := FreeAt(cs, cs[k].start);
      && Shape(s, pool) && NoTwoFree(s) && ListOk(s, ListAfter(cs, free, k))
      && FreePayload(s, pool) == FreePayload(cs, pool) + Regained(cs, pool, k)
      && UsedStarts(s) == UsedStarts(cs) - {cs[k].start}
    ensures Regained(cs, pool, k) >= 0
  {
    assert Apart(cs, HEADER, k, k + 1);
    hide NoTwoFree, ListOk, FreePayload, Plug, Mark, FreeAt, UsedStarts, DropRight;
    FreeIsPlug(cs, pool, k);
    FreeShape(cs, pool, k);
    FreeAvailable(cs, pool, k);
    FreeListOk(cs, pool, k, free);
    FreeUsed(cs, pool, k);
  }

  lemma FreeKeeps(h: Heap, p: nat)
    requires Inv(h) && Live(h, p)
    ensures Inv(Free(h, p))
    ensures UsedStarts(Free(h, p).chunks) == UsedStarts(h.chunks) - {p}
  {
    LiveInside(h, p);
    hide Shape, NoTwoFree, ListOk, FreePayload, FreeAt, UsedStarts, DropRight, LeftFree, RightFree, Payload;
    FreeParts(h.chunks, h.pool, IndexAt(h.chunks, p), h.free);
  }

  lemma FreeUsed(cs: seq<Chunk>, pool: nat, k: nat)
    requires Tiles(cs, pool, HEADER) && k < |cs| && cs[k].used
    ensures UsedStarts(Plug(Mark(cs, k, false), k)) == UsedStarts(cs) - {cs[k].start}
  {
    var s := Mark(cs, k, false);
    PlugKeepsUsed(s, k);
    forall p | p in UsedStarts(s) ensures p in UsedStarts(cs) - {cs[k].start} {
      var i :| 0 <= i < |s| && s[i].used && s[i].start == p;
      SameStart(cs, pool, i, k);
      assert cs[i] in cs;
    }
    forall p | p in UsedStarts(cs) - {cs[k].start} ensures p in UsedStarts(s) {
      var i :| 0 <= i < |cs| && cs[i].used && cs[i].start == p;
      assert s[i] in s;
    }
  }

  // ---- resizing in place --------------------------------------------------------------------

  lemma MoveTiles(cs: seq<Chunk>, pool: nat, k: nat, at: nat)
    requires Tiles(cs, pool, HEADER) && 0 < k < |cs|
    requires cs[k - 1].start + HEADER <= at && at + HEADER <= StartAt(cs, pool, k + 1)
    ensures Tiles(cs[k := Chunk(at, false)], pool, HEADER)
  {
    var s := cs[k := Chunk(at, false)];
    forall i, j | 0 <= i < j < |s| ensures Apart(s, HEADER, i, j) {
      assert Apart(cs, HEADER, i, j);
      if i < k - 1 { assert Apart(cs, HEADER, i, k - 1); }
      if j > k + 1 { assert Apart(cs, HEADER, k + 1, j); }
    }
    if k + 1 < |cs| { assert cs[k + 1].start + HEADER <= pool; }
  }

  lemma GrowList(cs: seq<Chunk>, pool: nat, k: nat, at: nat, free: seq<nat>)
    requires Tiles(cs, pool, HEADER) && ListOk(cs, free) && k < |cs| && !cs[k].used
    requires cs[k].start < at < StartAt(cs, pool, k + 1)
    ensures ListOk(cs[k := Chunk(at, false)], [at] + Without(free, cs[k].start))
  {
    var s := cs[k := Chunk(at, false)];
    InsideBlock(cs, pool, k, at);
    forall x: nat ensures Chunk(x, false) in s <==> (Chunk(x, false) in cs && x != cs[k].start) || x == at {
      MoveMembers(cs, pool, k, at, x);
    }
    ListReplace(cs, free, s, cs[k].start, at);
  }

  lemma GrowShape(cs: seq<Chunk>, pool: nat, k: nat, at: nat)
    requires Shape(cs, pool) && NoTwoFree(cs) && 0 < k && k + 1 < |cs| && !cs[k].used
    requires cs[k - 1].start + HEADER <= at && at + HEADER <= cs[k + 1].start
    ensures Shape(cs[k := Chunk(at, false)], pool) && NoTwoFree(cs[k := Chunk(at, false)])
  {
    var s := cs[k := Chunk(at, false)];
    MoveTiles(cs, pool, k, at);
    forall i | 0 <= i < |s| - 1 ensures BorderOk(s, i) { assert BorderOk(cs, i); }
  }

  lemma GrowParts(cs: seq<Chunk>, pool: nat, k: nat, at: nat, free: seq<nat>)
    requires Shape(cs, pool) && NoTwoFree(cs) && ListOk(cs, free) && k + 1 < |cs| && cs[k].used && !cs[k + 1].used
    requires cs[k + 1].start < at && at + HEADER + MINI < StartAt(cs, pool, k + 2)
    ensures var s := cs[k + 1 := Chunk(at, false)];
      && Shape(s, pool) && NoTwoFree(s) && ListOk(s, [at] + Without(free, cs[k + 1].start)) && at < pool
      && FreePayload(s, pool) == FreePayload(cs, pool) - (at - cs[k + 1].start)
  {
    UsedBehind(cs, pool, k + 1);
    assert Apart(cs, HEADER, k, k + 1);
    GrowShape(cs, pool, k + 1, at);
    FreePayloadMove(cs, k, at, pool);
    GrowList(cs, pool, k + 1, at, free);
  }

  lemma GrowFits(h: Heap, k: nat, need: nat)
    requires Inv(h) && k + 1 < |h.chunks| && h.chunks[k].used && !h.chunks[k + 1].used
    requires Payload(h.chunks, h.pool, k) < need
    requires Payload(h.chunks, h.pool, k + 1) + Payload(h.chunks, h.pool, k) > need + MINI
    ensures Inv(Grow(h, k, need))
  {
    hide Tiles, TailOk, NoTwoFree, ListOk, FreePayload, Without;
    var cs, at := h.chunks, h.chunks[k].start + HEADER + need;
    GrowParts(cs, h.pool, k, at, h.free);
    var grown := h.(chunks := cs[k + 1 := Chunk(at, false)], free := [at] + Without(h.free, cs[k + 1].start),
                    available := h.available - (need - Payload(cs, h.pool, k)));
    Raised(grown);
    assert Grow(h, k, need) == Raise(grown);
  }

  /** A block that grew by a wrapped addition ends before its own header does. */
  lemma GrowBreaks(h: Heap, k: nat, need: nat)
    requires Inv(h) && k + 1 < |h.chunks| && need < TWO_32 <= need + MINI
    ensures !Inv(Grow(h, k, need))
  {
    var start, cs := h.chunks[k].start, Grow(h, k, need).chunks;
    assert start + HEADER <= h.pool < TWO_32;
    assert cs[k + 1].start == start + HEADER + need - TWO_32;
    assert Tiles(cs, h.pool, HEADER) ==> Apart(cs, HEADER, k, k + 1);
  }

  /** Growing in place, which the 32-bit test allows, keeps the heap in order exactly when the
      addition in that test does not wrap. */
  lemma GrowKeeps(h: Heap, k: nat, need: nat)
    requires Inv(h) && k < |h.chunks| && h.chunks[k].used && CanGrow(h, k, need)
    requires Payload(h.chunks, h.pool, k) < need < TWO_32
    ensures Inv(Grow(h, k, need)) <==> need + MINI < TWO_32
  {
    if need + MINI < TWO_32 {
      GrowFits(h, k, need);
    } else {
      GrowBreaks(h, k, need);
    }
  }

  lemma ShrinkShape(cs: seq<Chunk>, pool: nat, k: nat, at: nat)
    requires Shape(cs, pool) && NoTwoFree(cs) && k + 1 < |cs| && cs[k].used
    requires cs[k].start + HEADER <= at && at + HEADER <= cs[k + 1].start
    ensures Tiles(Split(cs, k, true, at), pool, HEADER)
    ensures Shape(JoinRight(Split(cs, k, true, at), k + 1), pool)
    ensures NoTwoFree(JoinRight(Split(cs, k, true, at), k + 1))
  {
    var s := Split(cs, k, true, at);
    SplitTiles(cs, k, true, at, pool, HEADER);
    SplitBorders(cs, k, at);
    PlugTiles(s, k + 1, pool, HEADER);
    JoinRightBorders(s, k + 1);
    PlugNoTwoFree(s, k + 1);
    assert Plug(s, k + 1) == JoinRight(s, k + 1);
  }

  lemma ShrinkAvailable(cs: seq<Chunk>, pool: nat, k: nat, at: nat)
    requires k + 1 < |cs| && cs[k].used
    ensures var merged := JoinRight(Split(cs, k, true, at), k + 1);
      FreePayload(merged, pool) == FreePayload(cs, pool) - (if RightFree(cs, k) then Payload(cs, pool, k + 1) else 0)
                                 + (StartAt(merged, pool, k + 2) - at - HEADER)
  {
    var s := Split(cs, k, true, at);
    FreePayloadSplit(cs, k, at, pool);
    assert s[k + 2] == cs[k + 1];
    if RightFree(cs, k) { FreePayloadAbsorb(s, k + 2, pool); }
  }

  lemma ShrinkListOk(cs: seq<Chunk>, pool: nat, k: nat, at: nat, free: seq<nat>)
    requires k + 1 < |cs| && cs[k].used && cs[k].start < at < cs[k + 1].start
    requires Tiles(cs, pool, HEADER) && Tiles(Split(cs, k, true, at), pool, HEADER) && ListOk(cs, free)
    ensures ListOk(JoinRight(Split(cs, k, true, at), k + 1), [at] + DropRight(cs, free, k))
  {
    var s := Split(cs, k, true, at);
    InsideBlock(cs, pool, k, at);
    forall x: nat ensures Chunk(x, false) in s <==> Chunk(x, false) in cs || x == at {
      SplitMembers(cs, pool, k, at, x);
      if Chunk(x, false) in cs {
        var i :| 0 <= i < |cs| && cs[i] == Chunk(x, false);
        SameStart(cs, pool, i, k);
      }
    }
    ListPush(cs, free, s, at);
    DropRightOk(s, pool, k + 1, [at] + free);
    assert s[k + 2] == cs[k + 1];
    assert Without([at] + free, cs[k + 1].start) == [at] + Without(free, cs[k + 1].start);
  }

  lemma ShrinkKeeps(h: Heap, k: nat, need: nat)
    requires Inv(h) && k + 1 < |h.chunks| && h.chunks[k].used && need + HEADER + MINI < Payload(h.chunks, h.pool, k)
    ensures Inv(Shrink(h, k, need))
  {
    hide Tiles, JoinRight, Split, FreePayload, NoTwoFree, ListOk, DropRight, StartAt;
    var cs, at := h.chunks, h.chunks[k].start + HEADER + need;
    assert at + HEADER <= cs[k + 1].start by { ShrinkRoom(h, k, need); }
    ShrinkShape(cs, h.pool, k, at);
    ShrinkAvailable(cs, h.pool, k, at);
    ShrinkListOk(cs, h.pool, k, at, h.free);
    ShrinkGains(cs, h.pool, k, at);
  }

  lemma ShrinkRoom(h: Heap, k: nat, need: nat)
    requires k + 1 < |h.chunks| && need + HEADER + MINI < Payload(h.chunks, h.pool, k)
    ensures h.chunks[k].start + HEADER + need + HEADER <= h.chunks[k + 1].start
  {}

  /** Shrinking makes more available. */
  lemma ShrinkGains(cs: seq<Chunk>, pool: nat, k: nat, at: nat)
    requires Tiles(cs, pool, HEADER) && k + 1 < |cs| && at + HEADER <= cs[k + 1].start
    ensures var merged := JoinRight(Split(cs, k, true, at), k + 1);
      StartAt(merged, pool, k + 2) - at - HEADER >= if RightFree(cs, k) then Payload(cs, pool, k + 1) else 0
  {
    var s := Split(cs, k, true, at);
    assert s[k + 2] == cs[k + 1];
    assert k + 2 < |cs| ==> s[k + 3] == cs[k + 2];
  }

  // ---- every operation ----------------------------------------------------------------------

  /** The block that a successful search has found. */
  lemma FoundFree(h: Heap, i: nat)
    requires Inv(h) && i < |h.free|
    ensures var k := IndexAt(h.chunks, h.free[i]);
      k < |h.chunks| && h.chunks[k] == Chunk(h.free[i], false)
      && PayloadAt(h.chunks, h.pool, h.free[i]) == Payload(h.chunks, h.pool, k)
  {
    assert h.free[i] in h.free;
    var j :| 0 <= j < |h.chunks| && h.chunks[j] == Chunk(h.free[i], false);
    FoundAt(h.chunks, h.pool, j);
  }

  lemma AllocKeeps(h: Heap, size: nat)
    requires Inv(h)
    ensures Inv(Alloc(h, size).0)
    ensures Alloc(h, size).1.None? ==> Alloc(h, size).0 == h
  {
    var need := Need(size);
    var i := FirstFit(h, need, 0);
    if need < h.available && i < |h.free| {
      FoundFree(h, i);
      CarveKeeps(h, IndexAt(h.chunks, h.free[i]), need);
    }
  }

  lemma SplitUses(cs: seq<Chunk>, k: nat, at: nat)
    requires k < |cs|
    ensures UsedStarts(cs) + {cs[k].start} == UsedStarts(Split(cs, k, true, at))
    ensures UsedStarts(cs) + {cs[k].start} == UsedStarts(Mark(cs, k, true))
  {
    forall p | p in UsedStarts(cs) + {cs[k].start}
      ensures p in UsedStarts(Split(cs, k, true, at)) && p in UsedStarts(Mark(cs, k, true)) {
      if p == cs[k].start {
        assert Split(cs, k, true, at)[k] == Chunk(p, true) && Mark(cs, k, true)[k] == Chunk(p, true);
      } else {
        var i :| 0 <= i < |cs| && cs[i] == Chunk(p, true);
        assert Split(cs, k, true, at)[if i < k then i else i + 1] == cs[i] && Mark(cs, k, true)[i] == cs[i];
      }
    }
    forall p | p in UsedStarts(Split(cs, k, true, at)) ensures p in UsedStarts(cs) + {cs[k].start} {
      var i :| 0 <= i < |cs| + 1 && Split(cs, k, true, at)[i] == Chunk(p, true);
      if i != k { assert cs[if i < k then i else i - 1] == Chunk(p, true); }
    }
    forall p | p in UsedStarts(Mark(cs, k, true)) ensures p in UsedStarts(cs) + {cs[k].start} {
      var i :| 0 <= i < |cs| && Mark(cs, k, true)[i] == Chunk(p, true);
      if i != k { assert cs[i] == Chunk(p, true); }
    }
  }

  lemma CarveUses(h: Heap, k: nat, need: nat)
    requires k < |h.chunks|
    ensures UsedStarts(Carve(h, k, need).chunks) == UsedStarts(h.chunks) + {h.chunks[k].start}
  {
    SplitUses(h.chunks, k, h.chunks[k].start + HEADER + need);
  }

  /** Allocation uses one block more, and none of the blocks in use before. */
  lemma AllocUses(h: Heap, size: nat)
    requires Inv(h)
    ensures var (h', r) := Alloc(h, size);
      UsedStarts(h'.chunks) == UsedStarts(h.chunks) + (if r.Some? then {r.value - HEADER} else {})
      && (r.Some? ==> r.value >= HEADER && r.value - HEADER !in UsedStarts(h.chunks))
  {
    hide UsedStarts, Carve, Payload;
    var need := Need(size);
    var i := FirstFit(h, need, 0);
    if need < h.available && i < |h.free| {
      FoundFree(h, i);
      var k := IndexAt(h.chunks, h.free[i]);
      NotInUse(h.chunks, h.pool, k);
      CarveUses(h, k, need);
    }
  }

  lemma NotInUse(cs: seq<Chunk>, pool: nat, k: nat)
    requires Tiles(cs, pool, HEADER) && k < |cs| && !cs[k].used
    ensures cs[k].start !in UsedStarts(cs)
  {
    if cs[k].start in UsedStarts(cs) {
      var j :| 0 <= j < |cs| && cs[j] == Chunk(cs[k].start, true);
      SameStart(cs, pool, j, k);
    }
  }

  lemma LiveByUse(h: Heap, p: nat)
    requires Inv(h)
    ensures Live(h, p) <==> p in UsedStarts(h.chunks) && p != h.pool - HEADER
  {
    var cs := h.chunks;
    if p in UsedStarts(cs) {
      var i :| 0 <= i < |cs| && cs[i] == Chunk(p, true);
      FoundAt(cs, h.pool, i);
      assert i != |cs| - 1 ==> Apart(cs, HEADER, i, |cs| - 1);
    }
    if Live(h, p) { assert cs[IndexAt(cs, p)] in cs; }
  }

  /** The block a realloc moves away from is still there when it is freed. */
  lemma StillLive(h: Heap, size: nat, p: nat)
    requires Inv(h) && Live(h, p)
    ensures Live(Alloc(h, size).0, p)
  {
    AllocKeeps(h, size);
    AllocUses(h, size);
    LiveByUse(h, p);
    LiveByUse(Alloc(h, size).0, p);
  }

  datatype Op = Allocate(size: nat) | Release(ptr: Option<nat>) | Resize(ptr: Option<nat>, size: nat)

  /** The test for growing in place passes only because `newsize + RT_MEMHEAP_MINIALLOC` wraps. */
  predicate GrowWraps(h: Heap, k: nat, size: nat)
    requires k < |h.chunks|
  {
    && Need(size) + MINI >= TWO_32
    && RightFree(h.chunks, k)
    && Payload(h.chunks, h.pool, k + 1) + Payload(h.chunks, h.pool, k) > Need(size) + MINI - TWO_32
  }

  /** The caller's duty: a pointer is null or one that was handed out and not yet freed. */
  predicate Called(h: Heap, op: Op) {
    match op
    case Allocate(_) => true
    case Release(ptr) => ptr.Some? ==> ptr.value >= HEADER && Live(h, ptr.value - HEADER)
    case Resize(ptr, _) => ptr.Some? ==> ptr.value >= HEADER && Live(h, ptr.value - HEADER)
  }

  /** A call that does not run into the wrapped test for growing. */
  predicate Legal(h: Heap, op: Op): (r: bool)
    ensures r ==> Called(h, op)
  {
    && Called(h, op)
    && (op.Resize? && op.ptr.Some? ==> !GrowWraps(h, IndexAt(h.chunks, op.ptr.value - HEADER), op.size))
  }

  function Apply(h: Heap, op: Op): Heap
    requires Called(h, op)
  {
    match op
    case Allocate(size) => Alloc(h, size).0
    case Release(ptr) => if ptr.Some? then Free(h, ptr.value - HEADER) else h
    case Resize(ptr, size) => Realloc(h, ptr, size).0
  }

  lemma ReallocKeeps(h: Heap, ptr: Option<nat>, size: nat)
    requires Inv(h) && Legal(h, Resize(ptr, size))
    ensures Inv(Realloc(h, ptr, size).0)
    ensures size > 0 && Realloc(h, ptr, size).1.None? ==> Realloc(h, ptr, size).0 == h
  {
    hide Inv, Alloc, Free, Grow, Shrink, CanGrow, Live;
    var need := Need(size);
    if ptr.None? {
      AllocKeeps(h, need);
    } else if size == 0 {
      FreeKeeps(h, ptr.value - HEADER);
    } else {
      ResizeKeeps(h, ptr.value - HEADER, size);
    }
  }

  lemma ResizeKeeps(h: Heap, p: nat, size: nat)
    requires Inv(h) && Live(h, p) && size > 0 && !GrowWraps(h, IndexAt(h.chunks, p), size)
    ensures Inv(Realloc(h, Some(p + HEADER), size).0)
    ensures Realloc(h, Some(p + HEADER), size).1.None? ==> Realloc(h, Some(p + HEADER), size).0 == h
  {
    var need, k := Need(size), IndexAt(h.chunks, p);
    LiveInside(h, p);
    hide Inv, IndexAt, Alloc, Grow, Shrink, Free, Payload;
    if need > Payload(h.chunks, h.pool, k) {
      if CanGrow(h, k, need) {
        GrowKeeps(h, k, need);
      } else {
        AllocKeeps(h, need);
        StillLive(h, need, p);
        if Alloc(h, need).1.Some? { FreeKeeps(Alloc(h, need).0, p); }
      }
    } else if need + HEADER + MINI < Payload(h.chunks, h.pool, k) {
      ShrinkKeeps(h, k, need);
    }
  }

  /** rt_memheap_realloc of a live block keeps the heap in order exactly when it does not run into
      the wrapped test. */
  lemma ReallocExact(h: Heap, p: nat, size: nat)
    requires Inv(h) && Live(h, p)
    ensures Inv(Realloc(h, Some(p + HEADER), size).0) <==> !GrowWraps(h, IndexAt(h.chunks, p), size)
  {
    if GrowWraps(h, IndexAt(h.chunks, p), size) {
      WrappedBreaks(h, p, size);
    } else {
      hide Inv, Live, Realloc, GrowWraps, IndexAt;
      assert Some(p + HEADER).value - HEADER == p;
      ReallocKeeps(h, Some(p + HEADER), size);
    }
  }

  lemma WrappedBreaks(h: Heap, p: nat, size: nat)
    requires Inv(h) && Live(h, p) && GrowWraps(h, IndexAt(h.chunks, p), size)
    ensures !Inv(Realloc(h, Some(p + HEADER), size).0)
  {
    LiveInside(h, p);
    GrowBreaks(h, IndexAt(h.chunks, p), Need(size));
    SmallPayload(h, IndexAt(h.chunks, p));
    WrappedGrows(h, p, size);
  }

  lemma WrappedGrows(h: Heap, p: nat, size: nat)
    requires IndexAt(h.chunks, p) < |h.chunks| && GrowWraps(h, IndexAt(h.chunks, p), size)
    requires Payload(h.chunks, h.pool, IndexAt(h.chunks, p)) + MINI < TWO_32
    ensures Realloc(h, Some(p + HEADER), size) == (Grow(h, IndexAt(h.chunks, p), Need(size)), Some(p + HEADER))
  {
    hide IndexAt, Grow, Alloc, Free, Shrink, Payload;
  }

  /** No block comes near the sizes that wrap. */
  lemma SmallPayload(h: Heap, k: nat)
    requires Inv(h) && k + 1 < |h.chunks|
    ensures Payload(h.chunks, h.pool, k) + MINI < TWO_32
  {}

  lemma StepKeeps(h: Heap, op: Op)
    requires Inv(h) && Legal(h, op)
    ensures Inv(Apply(h, op))
  {
    hide Inv, Alloc, Free, Realloc, Live;
    match op
    case Allocate(size) => AllocKeeps(h, size);
    case Release(ptr) => if ptr.Some? { FreeKeeps(h, ptr.value - HEADER); }
    case Resize(ptr, size) => ReallocKeeps(h, ptr, size);
  }
}
