/** The headers of `memheap.c`: a ring of all blocks, a ring of the free ones, and their upkeep.

    A header is known by its address, an offset into the pool, and every header field is a map
    from addresses to values. The header of the free list lies outside of the pool, at the address
    behind its end. Each method is proved to do what its function in MemHeaps says.
 */
module MemHeapBlocks {
  import opened Wrappers
  import opened Tiling
  import opened Queues
  import opened Rings
  import opened MemHeaps
  import Theorems = MemHeapTheorems

  ghost function Starts(cs: seq<Chunk>): (r: seq<nat>)
    ensures |r| == |cs| && forall i :: 0 <= i < |cs| ==> r[i] == cs[i].start
  {
    seq(|cs|, i requires 0 <= i < |cs| => cs[i].start)
  }

  ghost predicate UsedOk(used: map<nat, bool>, cs: seq<Chunk>) {
    forall i :: 0 <= i < |cs| ==> FlagOk(used, cs, i)
  }

  ghost predicate FlagOk(used: map<nat, bool>, cs: seq<Chunk>, i: nat)
    requires i < |cs|
  {
    cs[i].start in used && used[cs[i].start] == cs[i].used
  }

  // ---- the rings under the operations -------------------------------------------------------

  /** Every header address of a block is below the pool's end. */
  lemma NotStart(cs: seq<Chunk>, pool: nat, k: nat, at: nat)
    requires Tiles(cs, pool, HEADER) && k < |cs| && cs[k].start < at < StartAt(cs, pool, k + 1)
    ensures at !in Starts(cs)
  {
    forall i | 0 <= i < |cs| ensures cs[i].start != at {
      if i < k { assert Apart(cs, HEADER, i, k); }
      if i > k + 1 { assert Apart(cs, HEADER, k + 1, i); }
    }
  }

  lemma StartsSplit(cs: seq<Chunk>, k: nat, u: bool, at: nat)
    requires k < |cs|
    ensures Starts(Split(cs, k, u, at)) == Inserted(Starts(cs), k, at)
  {}

  lemma StartsAbsorb(cs: seq<Chunk>, k: nat)
    requires 0 < k < |cs|
    ensures Starts(Absorb(cs, k)) == RemoveAt(Starts(cs), k)
  {}

  lemma StartsMove(cs: seq<Chunk>, k: nat, at: nat)
    requires k + 1 < |cs|
    ensures Starts(cs[k + 1 := Chunk(at, false)]) == Inserted(RemoveAt(Starts(cs), k + 1), k, at)
  {}

  lemma StartsMark(cs: seq<Chunk>, k: nat, u: bool)
    requires k < |cs|
    ensures Starts(Mark(cs, k, u)) == Starts(cs)
  {}

  /** Taking the i-th free block off the ring behind the list header. */
  lemma RemovedFree(pool: nat, free: seq<nat>, i: nat)
    requires Distinct(free) && i < |free|
    ensures RemoveAt([pool] + free, i + 1) == [pool] + Without(free, free[i])
  {
    RemoveAtIsWithout(free, i);
    RemovedBehind(pool, free, i);
  }

  /** Unlinking a free block from the ring behind the list header. */
  lemma DropRing(l: Links, pool: nat, free: seq<nat>, n: nat)
    requires Ring(l, [pool] + free) && n in free
    ensures n in l.next && n in l.prev && Ring(Remove(l, n), [pool] + Without(free, n))
  {
    var ring := [pool] + free;
    var i :| 0 <= i < |free| && free[i] == n;
    assert ring[i + 1] == n && NodeOk(l, ring, i + 1);
    FreeDistinct(pool, free);
    RemoveRing(l, ring, i + 1);
    RemovedFree(pool, free, i);
  }

  /** Writing the links of a node that is not on the ring. */
  lemma RingUnaffected(l: Links, r: seq<nat>, n: nat, v: nat)
    requires Ring(l, r) && n !in r
    ensures Ring(Links(l.next[n := v], l.prev[n := v]), r)
  {
    var l' := Links(l.next[n := v], l.prev[n := v]);
    forall i | 0 <= i < |r| ensures NodeOk(l', r, i) {
      assert NodeOk(l, r, i) && r[i] in r;
    }
  }

  /** The two blocks of a fresh heap on its two rings. */
  lemma InitialLinks(pool: nat, end: nat)
    requires 0 < end < pool
    ensures var cs := [Chunk(0, false), Chunk(end, true)];
      && Ring(Links(map[0 := end, end := 0], map[0 := end, end := 0]), Starts(cs))
      && Ring(Links(map[pool := 0, 0 := pool], map[0 := pool, pool := 0]), [pool] + [0])
      && UsedOk(map[0 := false, end := true], cs)
  {
    var cs := [Chunk(0, false), Chunk(end, true)];
    assert Starts(cs) == [0, end];
    forall i | 0 <= i < 2 ensures NodeOk(Links(map[0 := end, end := 0], map[0 := end, end := 0]), Starts(cs), i) {}
    forall i | 0 <= i < 2
      ensures NodeOk(Links(map[pool := 0, 0 := pool], map[0 := pool, pool := 0]), [pool] + [0], i) {}
    forall i | 0 <= i < 2 ensures FlagOk(map[0 := false, end := true], cs, i) {}
  }

  // ---- the heap -----------------------------------------------------------------------------

  class MemHeap {
    const pool: nat                     // pool_size
    var available: int                  // available_size
    var maxUsed: int                    // max_used_size
    var next: map<nat, nat>
    var prev: map<nat, nat>
    var nextFree: map<nat, nat>
    var prevFree: map<nat, nat>
    var used: map<nat, bool>            // RT_MEMHEAP_USED in the magic field
    ghost var chunks: seq<Chunk>
    ghost var free: seq<nat>
    const mem: array<int>               // the bytes of the pool, of which only payloads matter here

    ghost function Phys(): Links
      reads this`next, this`prev
    {
      Links(next, prev)
    }

    ghost function List(): Links
      reads this`nextFree, this`prevFree
    {
      Links(nextFree, prevFree)
    }

    ghost function View(): Heap
      reads this`available, this`maxUsed, this`chunks, this`free
    {
      Heap(pool, chunks, free, available, maxUsed)
    }

    ghost predicate Linked()
      reads this`next, this`prev, this`nextFree, this`prevFree, this`used, this`chunks, this`free
    {
      Ring(Phys(), Starts(chunks)) && Ring(List(), [pool] + free) && UsedOk(used, chunks)
    }

    ghost predicate Valid()
      reads this
    {
      Inv(View()) && Linked() && mem.Length == pool
    }

    /** rt_memheap_init; nothing but this requirement stops it on a pool too small for two headers. */
    constructor (size: nat)
      requires 2 * HEADER <= size < TWO_32
      ensures Valid() && pool <= size < pool + 4 && pool % 4 == 0 && View() == Theorems.Initial(pool) && fresh(mem)
    {
      var pool := size / 4 * 4;
      this.pool := pool;
      mem := new int[pool];
      var end := pool - HEADER;
      next := map[0 := end, end := 0];
      prev := map[0 := end, end := 0];
      nextFree := map[pool := 0, 0 := pool];
      prevFree := map[0 := pool, pool := 0];
      used := map[0 := false, end := true];
      available, maxUsed := pool - 2 * HEADER, 2 * HEADER;
      chunks := [Chunk(0, false), Chunk(end, true)];
      free := [0];
      new;
      Theorems.InitialInv(pool);
      InitialLinks(pool, end);
      hide Inv, Ring, UsedOk, Starts;
    }

    // ---- list upkeep ------------------------------------------------------------------------

    /** Insert a block behind the list header. */
    method PushFree(n: nat)
      requires Ring(List(), [pool] + free) && n !in free && n != pool
      modifies this`nextFree, this`prevFree, this`free
      ensures free == [n] + old(free) && Ring(List(), [pool] + free)
    {
      ghost var ring := [pool] + free;
      assert NodeOk(List(), ring, 0);
      InsertRing(List(), ring, 0, n);
      assert Inserted(ring, 0, n) == [pool] + ([n] + free);
      var first := nextFree[pool];
      nextFree := nextFree[n := first];
      prevFree := prevFree[n := pool];
      prevFree := prevFree[first := n];
      nextFree := nextFree[pool := n];
      free := [n] + free;
    }

    /** Take a block off the free list. */
    method DropFree(n: nat)
      requires Ring(List(), [pool] + free) && n in free
      modifies this`nextFree, this`prevFree, this`free
      ensures free == Without(old(free), n) && Ring(List(), [pool] + free)
    {
      hide Ring, Without;
      DropRing(List(), pool, free, n);
      prevFree := prevFree[nextFree[n] := prevFree[n]];
      nextFree := nextFree[prevFree[n] := nextFree[n]];
      free := Without(free, n);
    }

    /** Take a block off the free list and clear its links. */
    method TakeFree(n: nat)
      requires Ring(List(), [pool] + free) && n in free
      modifies this`nextFree, this`prevFree, this`free
      ensures free == Without(old(free), n) && Ring(List(), [pool] + free)
    {
      FreeDistinct(pool, free);
      WithoutElems(free, n);
      DropFree(n);
      RingUnaffected(List(), [pool] + free, n, pool + 1);
      nextFree := nextFree[n := pool + 1];
      prevFree := prevFree[n := pool + 1];
    }

    /** Link a new header behind the k-th block. */
    method LinkBehind(a: nat, n: nat, ghost k: nat)
      requires Ring(Phys(), Starts(chunks)) && k < |chunks| && chunks[k].start == a && n !in Starts(chunks)
      modifies this`next, this`prev
      ensures Ring(Phys(), Inserted(Starts(chunks), k, n))
    {
      assert NodeOk(Phys(), Starts(chunks), k);
      InsertRing(Phys(), Starts(chunks), k, n);
      var behind := next[a];
      prev := prev[n := a];
      next := next[n := behind];
      prev := prev[behind := n];
      next := next[a := n];
    }

    /** What the header of the k-th block says. */
    lemma ReadBlock(k: nat)
      requires Linked() && k < |chunks|
      ensures chunks[k].start in next && next[chunks[k].start] == Succ(Starts(chunks), k)
      ensures chunks[k].start in prev && prev[chunks[k].start] == Pred(Starts(chunks), k)
      ensures chunks[k].start in used && used[chunks[k].start] == chunks[k].used
    {
      assert NodeOk(Phys(), Starts(chunks), k) && FlagOk(used, chunks, k);
    }

    /** What the i-th entry of the free list says. */
    lemma ReadFree(i: nat)
      requires Valid() && i < |free|
      ensures var k := IndexAt(chunks, free[i]);
        && k + 1 < |chunks| && chunks[k] == Chunk(free[i], false)
        && free[i] in next && next[free[i]] - free[i] - HEADER == PayloadAt(chunks, pool, free[i])
        && PayloadAt(chunks, pool, free[i]) == Payload(chunks, pool, k)
        && free[i] in nextFree && nextFree[free[i]] == (if i + 1 < |free| then free[i + 1] else pool)
    {
      FoundFree(View(), i);
      UsedBehind(chunks, pool, IndexAt(chunks, free[i]));
      ReadBlock(IndexAt(chunks, free[i]));
      assert NodeOk(List(), [pool] + free, i + 1);
    }

    // ---- allocation -------------------------------------------------------------------------

    /** The search of rt_memheap_alloc along the free list. */
    method Search(need: nat) returns (header: nat, freeSize: int)
      requires Valid() && need > 0
      ensures freeSize >= need <==> FirstFit(View(), need, 0) < |free|
      ensures freeSize >= need ==>
                header == free[FirstFit(View(), need, 0)] && freeSize == PayloadAt(chunks, pool, header)
    {
      assert NodeOk(List(), [pool] + free, 0);
      freeSize := 0;
      header := nextFree[pool];
      FreeDistinct(pool, free);
      ghost var i: nat := 0;
      while header != pool && freeSize < need
        invariant i <= |free| && header == if i < |free| then free[i] else pool
        invariant freeSize >= need ==> i < |free| && freeSize == PayloadAt(chunks, pool, free[i])
        invariant FirstFit(View(), need, i) == FirstFit(View(), need, 0)
        decreases |free| - i, if freeSize < need then 1 else 0
      {
        ReadFree(i);
        freeSize := next[header] - header - HEADER;
        if freeSize < need {
          header := nextFree[header];
          i := i + 1;
        }
      }
    }

    /** max_used_size follows the use. */
    method NoteUse()
      modifies this`maxUsed
      ensures View() == Raise(old(View()))
    {
      if (pool - available) % TWO_32 > maxUsed {
        maxUsed := (pool - available) % TWO_32;
      }
    }

    /** The headers after free block k was cut at `at` and its front part handed out. */
    method CutFree(header: nat, at: nat, ghost k: nat)
      requires Linked() && Tiles(chunks, pool, HEADER) && k < |chunks| && chunks[k].start == header
                 && at !in Starts(chunks)
      requires header in free && at !in free && at != pool
      modifies this`next, this`prev, this`nextFree, this`prevFree, this`used, this`free, this`chunks
      ensures Linked() && chunks == Split(old(chunks), k, true, at) && free == [at] + Without(old(free), header)
    {
      hide Ring, UsedOk, Split;
      StartsSplit(chunks, k, true, at);
      FlagsSplit(used, chunks, pool, k, at);
      WithoutElems(free, header);
      LinkBehind(header, at, k);
      TakeFree(header);
      PushFree(at);
      chunks := Split(chunks, k, true, at);
      used := used[at := false];
      used := used[header := true];
    }

    /** A free block is cut: its front part is handed out, the rest stays free. */
    method SplitFree(header: nat, need: nat, ghost k: nat)
      requires Valid() && k < |chunks| && chunks[k] == Chunk(header, false)
      requires Payload(chunks, pool, k) >= need + HEADER + MINI
      modifies this
      ensures Valid() && View() == Carve(old(View()), k, need)
    {
      hide Inv, Linked, Split, Payload, Carve, Raise, Tiles, StartAt;
      var at := header + HEADER + need;
      CarveKeeps(View(), k, need);
      CutPlace(View(), k, need, at);
      CarveIsSplit(View(), k, need, at);
      CutFree(header, at, k);
      available := available - need - HEADER;
      NoteUse();
    }

    /** The headers after free block k was handed out. */
    method UseFree(header: nat, ghost k: nat)
      requires Linked() && Tiles(chunks, pool, HEADER) && k < |chunks| && chunks[k].start == header && header in free
      modifies this`nextFree, this`prevFree, this`used, this`free, this`chunks
      ensures Linked() && chunks == Mark(old(chunks), k, true) && free == Without(old(free), header)
    {
      hide Ring, UsedOk, Mark;
      StartsMark(chunks, k, true);
      FlagsMark(used, chunks, pool, k, true);
      TakeFree(header);
      chunks := Mark(chunks, k, true);
      used := used[header := true];
    }

    /** A free block is handed out whole. */
    method TakeWhole(header: nat, freeSize: int, need: nat, ghost k: nat)
      requires Valid() && k < |chunks| && chunks[k] == Chunk(header, false) && freeSize == Payload(chunks, pool, k)
      requires need <= freeSize < need + HEADER + MINI
      modifies this
      ensures Valid() && View() == Carve(old(View()), k, need)
    {
      hide Inv, Linked, Mark, Payload, Tiles;
      CarveKeeps(View(), k, need);
      ListedFree(View(), k);
      available := available - freeSize;
      NoteUse();
      UseFree(header, k);
    }

    /** rt_memheap_alloc. */
    method AllocBlock(size: nat) returns (r: Option<nat>)
      requires Valid() && size < TWO_32
      modifies this
      ensures Valid() && (View(), r) == Alloc(old(View()), size)
    {
      hide Inv, Linked, Carve, IndexAt, FirstFit, Payload;
      var need := (size + 3) % TWO_32 / 4 * 4;
      if need < MINI {
        need := MINI;
      }
      if need < available {
        var header, freeSize := Search(need);
        if freeSize >= need {
          ghost var k := IndexAt(chunks, header);
          FoundFree(View(), FirstFit(View(), need, 0));
          if freeSize >= need + HEADER + MINI {
            SplitFree(header, need, k);
          } else {
            TakeWhole(header, freeSize, need, k);
          }
          return Some(header + HEADER);
        }
      }
      return None;
    }

    // ---- release ----------------------------------------------------------------------------

    /** Clear the used flag of a block. */
    method MarkFree(header: nat, ghost k: nat)
      requires Linked() && Tiles(chunks, pool, HEADER) && k < |chunks| && chunks[k].start == header
      modifies this`used, this`chunks
      ensures Linked() && chunks == Mark(old(chunks), k, false)
    {
      hide Ring, UsedOk, Mark;
      StartsMark(chunks, k, false);
      FlagsMark(used, chunks, pool, k, false);
      used := used[header := false];
      chunks := Mark(chunks, k, false);
    }

    /** Drop the header of block k: its bytes now belong to the block before it. */
    method DropHeader(n: nat, ghost k: nat)
      requires Linked() && 0 < k < |chunks| && chunks[k].start == n
      modifies this`next, this`prev, this`chunks
      ensures Linked() && chunks == Absorb(old(chunks), k)
    {
      ghost var ring := Starts(chunks);
      assert NodeOk(Phys(), ring, k);
      RemoveRing(Phys(), ring, k);
      StartsAbsorb(chunks, k);
      FlagsAbsorb(used, chunks, k);
      var before, behind := prev[n], next[n];
      next := next[before := behind];
      prev := prev[behind := before];
      chunks := Absorb(chunks, k);
    }

    /** Merge a freed block into a free block before it. */
    method MergeLeft(header: nat, ghost k: nat) returns (start: nat, left: bool)
      requires Linked() && k < |chunks| && chunks[k].start == header && chunks[|chunks| - 1].used
      modifies this`next, this`prev, this`chunks
      ensures Linked() && chunks == JoinLeft(old(chunks), k) && left == LeftFree(old(chunks), k)
      ensures start == if left then old(chunks)[k - 1].start else header
    {
      ReadBlock(k);
      ReadBlock(if k > 0 then k - 1 else |chunks| - 1);
      start := header;
      left := !used[prev[header]];
      if left {
        start := prev[header];
        DropHeader(header, k);
      }
    }

    /** Merge a free block with a free block behind it, which leaves the free list. */
    method MergeRight(header: nat, ghost k: nat) returns (right: bool)
      requires Linked() && k + 1 < |chunks| && chunks[k].start == header
      requires RightFree(chunks, k) ==> chunks[k + 1].start in free
      modifies this`next, this`prev, this`nextFree, this`prevFree, this`chunks, this`free
      ensures Linked() && chunks == JoinRight(old(chunks), k) && right == RightFree(old(chunks), k)
      ensures free == DropRight(old(chunks), old(free), k)
    {
      ReadBlock(k);
      ReadBlock(k + 1);
      var behind := next[header];
      right := !used[behind];
      if right {
        DropHeader(behind, k + 1);
        DropFree(behind);
      }
    }

    /** rt_memheap_free of the live block at `header`. */
    method FreeLive(header: nat)
      requires Valid() && Live(View(), header)
      modifies this
      ensures Valid() && View() == Free(old(View()), header)
    {
      hide Inv, Ring, UsedOk, Free, JoinLeft, JoinRight, Mark, DropRight, Tiles, IndexAt, LeftFree, RightFree, Live,
          Payload, Starts;
      FreeKeeps(View(), header);
      ghost var k, marked, lf, merged, k' := MakePlan(View(), header);
      ReadBlock(k);
      available := available + (next[header] - header - HEADER);
      MarkFree(header, k);
      var start, left := MergeLeft(header, k);
      if left {
        available := available + HEADER;
      }
      var right := MergeRight(start, k');
      if right {
        available := available + HEADER;
      }
      if !left {
        PushFree(start);
      }
    }

    /** rt_memheap_free. */
    method FreeBlock(ptr: Option<nat>)
      requires Valid() && (ptr.Some? ==> ptr.value >= HEADER && Live(View(), ptr.value - HEADER))
      modifies this
      ensures Valid() && View() == if ptr.Some? then Free(old(View()), ptr.value - HEADER) else old(View())
    {
      hide Inv, Linked, Free, Live;
      if ptr.Some? {
        FreeLive(ptr.value - HEADER);
      }
    }

    // ---- resizing ---------------------------------------------------------------------------

    /** The headers after the free block behind block k moved its start to `at`. */
    method MoveHeader(header: nat, gone: nat, at: nat, ghost k: nat)
      requires Linked() && Tiles(chunks, pool, HEADER) && k + 1 < |chunks|
      requires chunks[k].start == header && chunks[k + 1].start == gone && at !in Starts(chunks)
      requires gone in free && at !in free && at != pool
      modifies this`next, this`prev, this`nextFree, this`prevFree, this`used, this`free, this`chunks
      ensures Linked() && chunks == old(chunks)[k + 1 := Chunk(at, false)] && free == [at] + Without(old(free), gone)
    {
      ghost var cs := chunks;
      hide Ring, UsedOk, Absorb, Tiles;
      StartsMove(cs, k, at);
      StartsAbsorb(cs, k + 1);
      AbsorbAt(cs, k, at);
      FlagsMove(used, cs, pool, k, at);
      WithoutElems(free, gone);
      DropFree(gone);
      DropHeader(gone, k + 1);
      used := used[at := false];
      LinkBehind(header, at, k);
      PushFree(at);
      chunks := cs[k + 1 := Chunk(at, false)];
    }

    /** The growing branch of rt_memheap_realloc. */
    method GrowBlock(header: nat, need: nat, oldSize: int, ghost k: nat)
      requires Valid() && k < |chunks| && chunks[k] == Chunk(header, true) && CanGrow(View(), k, need)
      requires oldSize == Payload(chunks, pool, k) < need && need + MINI < TWO_32
      modifies this
      ensures Valid() && View() == Grow(old(View()), k, need)
    {
      hide Inv, Linked, Payload, Tiles;
      var at := (header + HEADER + need) % TWO_32;
      GrowKeeps(View(), k, need);
      GrowPlace(View(), k, need, at);
      GrowIs(View(), k, need, at);
      available := (available - (need - oldSize)) % TWO_32;
      NoteUse();
      assert chunks[k].start in next && next[chunks[k].start] == chunks[k + 1].start by { ReadNext(k); }
      MoveHeader(header, next[header], at, k);
    }

    lemma ReadNext(k: nat)
      requires Linked() && k + 1 < |chunks|
      ensures chunks[k].start in next && next[chunks[k].start] == chunks[k + 1].start
    {
      ReadBlock(k);
    }

    /** A new free header behind block k, which is not on the free list yet. */
    method CutUsed(header: nat, at: nat, ghost k: nat)
      requires Linked() && Tiles(chunks, pool, HEADER) && k < |chunks| && chunks[k] == Chunk(header, true)
      requires at !in Starts(chunks)
      modifies this`next, this`prev, this`used, this`chunks
      ensures Linked() && chunks == Split(old(chunks), k, true, at)
    {
      assert FlagOk(used, chunks, k) && Starts(chunks)[k] == header;
      assert used[at := false][header := true] == used[at := false];
      hide Ring, UsedOk, Split, Tiles;
      StartsSplit(chunks, k, true, at);
      FlagsSplit(used, chunks, pool, k, at);
      used := used[at := false];
      LinkBehind(header, at, k);
      chunks := Split(chunks, k, true, at);
    }

    /** The shrinking branch of rt_memheap_realloc. */
    method ShrinkBlock(header: nat, need: nat, ghost k: nat)
      requires Valid() && k + 1 < |chunks| && chunks[k] == Chunk(header, true)
      requires need + HEADER + MINI < Payload(chunks, pool, k)
      modifies this
      ensures Valid() && View() == Shrink(old(View()), k, need)
    {
      hide Inv, Ring, UsedOk, Starts, Payload, Tiles, Split, JoinRight, DropRight, RightFree, StartAt;
      ghost var h := View();
      var at := header + HEADER + need;
      ShrinkKeeps(h, k, need);
      ghost var cut := Split(chunks, k, true, at);
      ShrinkPlace(h, k, need, at, cut);
      ShrinkIs(h, k, need, at, cut);
      CutUsed(header, at, k);
      var behind := FreeBehind(at, k + 1);
      available := available - behind;
      var _ := MergeRight(at, k + 1);
      PushFree(at);
      ReadAfter(at, k + 1);
      available := available + (next[at] - at - HEADER);
    }

    /** MEMITEM_SIZE of the block behind block k if that one is free. */
    method FreeBehind(header: nat, ghost k: nat) returns (size: int)
      requires Linked() && k + 1 < |chunks| && chunks[k].start == header && chunks[|chunks| - 1].used
      ensures size == if RightFree(chunks, k) then Payload(chunks, pool, k + 1) else 0
    {
      ReadBlock(k);
      ReadBlock(k + 1);
      var behind := next[header];
      size := if used[behind] then 0 else next[behind] - behind - HEADER;
    }

    lemma ReadAfter(header: nat, k: nat)
      requires Linked() && k + 1 < |chunks| && chunks[k].start == header
      ensures header in next && next[header] == StartAt(chunks, pool, k + 1)
    {
      ReadBlock(k);
    }

    /** rt_memheap_realloc. */
    method ReallocBlock(ptr: Option<nat>, size: nat) returns (r: Option<nat>)
      requires Valid() && size < TWO_32 && Legal(View(), Resize(ptr, size))
      modifies this, mem
      ensures Valid() && (View(), r) == Realloc(old(View()), ptr, size)
      ensures ptr.None? || r.None? ==> mem[..] == old(mem[..])
      ensures ptr.Some? && r.Some? ==>
                KeptContents(old(View()), old(mem[..]), mem[..], ptr.value - HEADER, Need(size), r.value)
    {
      hide Inv, Linked, Live, Free, Alloc, Realloc, KeptContents;
      ReallocZero(View(), ptr, size);
      if size == 0 {
        FreeBlock(ptr);
        return None;
      }
      ReallocRounded(View(), ptr, size);
      var need := (size + 3) % TWO_32 / 4 * 4;
      if need < MINI {
        need := MINI;
      }
      if ptr.None? {
        r := AllocBlock(need);
      } else {
        r := ResizeBlock(ptr.value - HEADER, need);
      }
    }

    /** rt_memheap_realloc of the live block at `header` to a rounded size. */
    method ResizeBlock(header: nat, need: nat) returns (r: Option<nat>)
      requires Valid() && Live(View(), header) && 0 < need < TWO_32 && Need(need) == need
      requires !GrowWraps(View(), IndexAt(chunks, header), need)
      modifies this, mem
      ensures Valid() && (View(), r) == Realloc(old(View()), Some(header + HEADER), need)
      ensures r.None? ==> mem[..] == old(mem[..])
      ensures r.Some? ==> KeptContents(old(View()), old(mem[..]), mem[..], header, need, r.value)
    {
      hide Inv, Linked, Tiles, Payload, Grow, Shrink, Free, Alloc, StartAt, KeptContents;
      ghost var k := IndexAt(chunks, header);
      LiveInside(View(), header);
      assert chunks[k] == Chunk(header, true);
      var oldSize, room := Sizes(header, k);
      if need > oldSize {
        if room.Some? && room.value + oldSize > (need + MINI) % TWO_32 {
          SameContents(View(), mem[..], header, need);
          GrowBlock(header, need, oldSize, k);
          return Some(header + HEADER);
        }
        r := MoveTo(header, oldSize, need);
      } else {
        SameContents(View(), mem[..], header, need);
        if need + HEADER + MINI < oldSize {
          ShrinkBlock(header, need, k);
        }
        return Some(header + HEADER);
      }
    }

    /** Allocate, copy and free. */
    method MoveTo(header: nat, oldSize: int, need: nat) returns (r: Option<nat>)
      requires Valid() && Live(View(), header) && need < TWO_32 && Need(need) == need
      requires oldSize == PayloadAt(chunks, pool, header) < need
      modifies this, mem
      ensures Valid()
      ensures var (h, a) := Alloc(old(View()), need);
        a == r && View() == if a.None? then h else Free(h, header)
      ensures r.None? ==> mem[..] == old(mem[..])
      ensures r.Some? ==> KeptContents(old(View()), old(mem[..]), mem[..], header, need, r.value)
    {
      hide Inv, Linked, Live, Free, Alloc, KeptContents, PayloadAt, Need;
      ghost var h, m := View(), mem[..];
      StillLive(h, need, header);
      r := AllocBlock(need);
      if r.Some? {
        MoveRoom(h, header, need, oldSize, r.value);
        CopyBytes(r.value, header + HEADER, oldSize);
        MovedContents(h, m, mem[..], header, need, oldSize, r.value);
        FreeLive(header);
      }
    }

    /** rt_memcpy between two disjoint ranges. */
    method CopyBytes(dst: nat, src: nat, count: nat)
      requires dst + count <= mem.Length && src + count <= mem.Length
      requires dst + count <= src || src + count <= dst
      modifies mem
      ensures Copied(old(mem[..]), mem[..], src, dst, count)
    {
      var i := 0;
      while i < count
        invariant i <= count && Copied(old(mem[..]), mem[..], src, dst, i)
      {
        assert mem[..][src + i] == old(mem[..])[src + i];
        ghost var before := mem[..];
        mem[dst + i] := mem[src + i];
        CopiedOne(old(mem[..]), before, mem[..], src, dst, i);
        i := i + 1;
      }
    }

    /** MEMITEM_SIZE of a block, and of the block behind it if that one is free. */
    method Sizes(header: nat, ghost k: nat) returns (size: int, room: Option<int>)
      requires Valid() && k + 1 < |chunks| && chunks[k].start == header
      ensures size == Payload(chunks, pool, k)
      ensures room == if RightFree(chunks, k) then Some(Payload(chunks, pool, k + 1)) else None
    {
      ReadBlock(k);
      ReadBlock(k + 1);
      size := next[header] - header - HEADER;
      var behind := next[header];
      room := if used[behind] then None else Some(next[behind] - behind - HEADER);
    }
  }

  lemma FlagsAbsorb(used: map<nat, bool>, cs: seq<Chunk>, k: nat)
    requires UsedOk(used, cs) && 0 < k < |cs|
    ensures UsedOk(used, Absorb(cs, k))
  {
    var s := Absorb(cs, k);
    forall i | 0 <= i < |s| ensures FlagOk(used, s, i) {
      assert FlagOk(used, cs, if i < k then i else i + 1);
    }
  }

  /** Block k is marked free, merged to the left as `merged` and then stands at k'. */
  ghost predicate Plan(h: Heap, p: nat, k: nat, marked: seq<Chunk>, lf: bool, merged: seq<Chunk>, k': nat) {
    && Inv(h) && Live(h, p) && k == IndexAt(h.chunks, p)
    && k < |h.chunks| && marked == Mark(h.chunks, k, false)
    && lf == LeftFree(marked, k) && merged == JoinLeft(marked, k)
    && k' == if lf then k - 1 else k
  }

  /** What freeing the block at p comes to, in the order in which the source does it. */
  lemma MakePlan(h: Heap, p: nat) returns (k: nat, marked: seq<Chunk>, lf: bool, merged: seq<Chunk>, k': nat)
    requires Inv(h) && Live(h, p)
    ensures k < |h.chunks| && h.chunks[k].start == p && Tiles(h.chunks, h.pool, HEADER)
    ensures Succ(Starts(h.chunks), k) - p - HEADER == Payload(h.chunks, h.pool, k)
    ensures marked == Mark(h.chunks, k, false) && |marked| == |h.chunks|
    ensures marked[k].start == p && marked[|marked| - 1].used
    ensures lf == LeftFree(marked, k) && (lf ==> k > 0) && merged == JoinLeft(marked, k)
    ensures k' == (if lf then k - 1 else k) && k' + 1 < |merged|
    ensures merged[k'].start == if lf then marked[k - 1].start else p
    ensures RightFree(merged, k') ==> merged[k' + 1].start in h.free
    ensures !lf ==> p !in DropRight(merged, h.free, k') && p != h.pool
    ensures Free(h, p) == h.(
        chunks := JoinRight(merged, k'),
        free := if lf then DropRight(merged, h.free, k') else [p] + DropRight(merged, h.free, k'),
        available := h.available + Payload(h.chunks, h.pool, k) + (if lf then HEADER else 0)
                   + (if RightFree(merged, k') then HEADER else 0))
  {
    k := IndexAt(h.chunks, p);
    LiveInside(h, p);
    marked := Mark(h.chunks, k, false);
    lf, merged := LeftFree(marked, k), JoinLeft(marked, k);
    k' := if lf then k - 1 else k;
    PlanShape(h, p, k, marked, lf, merged, k');
    PlanList(h, p, k, marked, lf, merged, k');
    PlanResult(h, p, k, marked, lf, merged, k');
  }

  lemma PlanShape(h: Heap, p: nat, k: nat, marked: seq<Chunk>, lf: bool, merged: seq<Chunk>, k': nat)
    requires Plan(h, p, k, marked, lf, merged, k')
    ensures k + 1 < |h.chunks| && h.chunks[k] == Chunk(p, true) && Tiles(h.chunks, h.pool, HEADER)
    ensures |marked| == |h.chunks| && marked[k].start == p && marked[|marked| - 1].used
    ensures k' + 1 < |merged| && merged[k'].start == (if lf then marked[k - 1].start else p)
    ensures lf ==> k > 0
    ensures Succ(Starts(h.chunks), k) - p - HEADER == Payload(h.chunks, h.pool, k)
  {
    LiveInside(h, p);
  }

  lemma PlanList(h: Heap, p: nat, k: nat, marked: seq<Chunk>, lf: bool, merged: seq<Chunk>, k': nat)
    requires Plan(h, p, k, marked, lf, merged, k') && k' + 1 < |merged| && k + 1 < |h.chunks|
    ensures RightFree(merged, k') ==> merged[k' + 1].start in h.free
    ensures !lf ==> p !in DropRight(merged, h.free, k') && p != h.pool
  {
    assert merged[k' + 1] == h.chunks[k + 1];
    if RightFree(merged, k') { ListedFree(h, k + 1); }
    NotListed(h, k);
    if RightFree(merged, k') { WithoutElems(h.free, merged[k' + 1].start); }
  }

  lemma NotListed(h: Heap, k: nat)
    requires Inv(h) && k < |h.chunks| && h.chunks[k].used
    ensures h.chunks[k].start !in h.free && h.chunks[k].start < h.pool
  {
    var p := h.chunks[k].start;
    if Chunk(p, false) in h.chunks {
      var i :| 0 <= i < |h.chunks| && h.chunks[i] == Chunk(p, false);
      SameStart(h.chunks, h.pool, i, k);
    }
  }

  /** Merging left first and then right gives the same as the other way round. */
  lemma MergeOrder(cs: seq<Chunk>, k: nat, k': nat)
    requires k < |cs| && !cs[k].used && k' == if LeftFree(cs, k) then k - 1 else k
    ensures k' < |JoinLeft(cs, k)| && JoinRight(JoinLeft(cs, k), k') == Plug(cs, k)
  {
    if LeftFree(cs, k) {
      assert RightFree(cs, k) ==> JoinLeft(cs, k)[k' + 1] == cs[k + 1];
      if RightFree(cs, k) { assert Absorb(Absorb(cs, k), k) == Absorb(Absorb(cs, k + 1), k); }
    }
  }

  lemma PlanResult(h: Heap, p: nat, k: nat, marked: seq<Chunk>, lf: bool, merged: seq<Chunk>, k': nat)
    requires Plan(h, p, k, marked, lf, merged, k') && k' + 1 < |merged| && k + 1 < |h.chunks|
    ensures Free(h, p) == h.(
        chunks := JoinRight(merged, k'),
        free := if lf then DropRight(merged, h.free, k') else [p] + DropRight(merged, h.free, k'),
        available := h.available + Payload(h.chunks, h.pool, k) + (if lf then HEADER else 0)
                   + (if RightFree(merged, k') then HEADER else 0))
  {
    assert merged[k' + 1] == h.chunks[k + 1];
    assert lf == LeftFree(h.chunks, k);
    FreeIsPlug(h.chunks, h.pool, k);
    MergeOrder(marked, k, k');
    hide Inv, Plug, Mark, JoinRight, FreeAt;
  }

  /** After resizing the live block at p to `need` bytes, now at address `at`: its contents are kept up
      to the smaller of both sizes, and the payloads of all other blocks in use are what they were. */
  ghost predicate KeptContents(h: Heap, m: seq<int>, m': seq<int>, p: nat, need: nat, at: nat) {
    var has := PayloadAt(h.chunks, h.pool, p);
    KeptBytes(m, m', p + HEADER, at, if has < need then has else need) && OthersKept(h, m, m', p)
  }

  /** The `count` bytes at `to` in m' are those at `from` in m. */
  ghost predicate KeptBytes(m: seq<int>, m': seq<int>, from: nat, to: nat, count: int) {
    && 0 <= count && from + count <= |m| && to + count <= |m'|
    && forall i :: 0 <= i < count ==> ByteKept(m, m', from, to, i)
  }

  ghost predicate ByteKept(m: seq<int>, m': seq<int>, from: nat, to: nat, i: nat)
    requires from + i < |m| && to + i < |m'|
  {
    m'[to + i] == m[from + i]
  }

  ghost predicate OthersKept(h: Heap, m: seq<int>, m': seq<int>, p: nat) {
    |m| == |m'| &&
    forall j: nat, a: nat :: j < |h.chunks| && h.chunks[j].used && h.chunks[j].start != p && Theorems.InPayload(h, j, a)
      ==> a < |m| && m'[a] == m[a]
  }

  /** m' is m with `count` bytes copied from `from` to `to`. */
  ghost predicate Copied(m: seq<int>, m': seq<int>, from: nat, to: nat, count: nat) {
    && |m| == |m'| && KeptBytes(m, m', from, to, count)
    && forall a :: 0 <= a < |m'| && !(to <= a < to + count) ==> m'[a] == m[a]
  }

  lemma SameContents(h: Heap, m: seq<int>, p: nat, need: nat)
    requires Inv(h) && Live(h, p) && |m| == h.pool
    ensures KeptContents(h, m, m, p, need, p + HEADER)
  {
    var k := IndexAt(h.chunks, p);
    LiveInside(h, p);
    assert Apart(h.chunks, HEADER, k, k + 1);
    assert h.chunks[k + 1].start + HEADER <= h.pool;
    forall j: nat, a: nat | j < |h.chunks| && Theorems.InPayload(h, j, a) ensures a < h.pool {
      Theorems.PayloadsDisjoint(h, j, j, a);
    }
  }

  /** The block that an allocation hands out lies in a block that was free. */
  lemma AllocRoom(h: Heap, size: nat) returns (j: nat)
    requires Inv(h) && Alloc(h, size).1.Some?
    ensures var at := Alloc(h, size).1.value;
      && j < |h.chunks| && !h.chunks[j].used && at == h.chunks[j].start + HEADER
      && Payload(h.chunks, h.pool, j) >= Need(size) && at + Need(size) <= h.pool
  {
    var i := FirstFit(h, Need(size), 0);
    FoundFree(h, i);
    j := IndexAt(h.chunks, h.free[i]);
    UsedBehind(h.chunks, h.pool, j);
    assert h.chunks[j + 1].start + HEADER <= h.pool;
  }

  lemma MoveRoom(h: Heap, p: nat, need: nat, oldSize: int, at: nat)
    requires Inv(h) && Live(h, p) && Need(need) == need && oldSize == PayloadAt(h.chunks, h.pool, p) < need
    requires Alloc(h, need).1 == Some(at)
    ensures 0 <= oldSize && at + oldSize <= h.pool && p + HEADER + oldSize <= h.pool
    ensures at + oldSize <= p + HEADER || p + HEADER + oldSize <= at
  {
    var j := AllocRoom(h, need);
    var k := IndexAt(h.chunks, p);
    LiveRoom(h, p);
    BlocksApart(h.chunks, h.pool, j, k);
    hide Inv, Alloc, Live, IndexAt, Need, Tiles;
  }

  lemma LiveRoom(h: Heap, p: nat)
    requires Inv(h) && Live(h, p)
    ensures var k, has := IndexAt(h.chunks, p), PayloadAt(h.chunks, h.pool, p);
      && k < |h.chunks| && h.chunks[k] == Chunk(p, true) && has == StartAt(h.chunks, h.pool, k + 1) - p - HEADER
      && 0 <= has && p + HEADER + has <= h.pool
  {
    var k := IndexAt(h.chunks, p);
    LiveInside(h, p);
    assert Apart(h.chunks, HEADER, k, k + 1);
    assert h.chunks[k + 1].start + HEADER <= h.pool;
  }

  lemma BlocksApart(cs: seq<Chunk>, pool: nat, j: nat, k: nat)
    requires Tiles(cs, pool, HEADER) && j < |cs| && k < |cs| && j != k
    ensures StartAt(cs, pool, j + 1) <= cs[k].start || StartAt(cs, pool, k + 1) <= cs[j].start
  {
    if j + 1 < k { assert Apart(cs, HEADER, j + 1, k); }
    if k + 1 < j { assert Apart(cs, HEADER, k + 1, j); }
  }

  lemma MovedContents(h: Heap, m: seq<int>, m': seq<int>, p: nat, need: nat, oldSize: nat, at: nat)
    requires Inv(h) && Live(h, p) && Need(need) == need && oldSize == PayloadAt(h.chunks, h.pool, p) < need
    requires Alloc(h, need).1 == Some(at) && |m| == h.pool && Copied(m, m', p + HEADER, at, oldSize)
    ensures KeptContents(h, m, m', p, need, at)
  {
    hide Alloc, Inv, PayloadAt, Need, Live;
    var j := AllocRoom(h, need);
    forall i: nat, a: nat | i < |h.chunks| && h.chunks[i].used && Theorems.InPayload(h, i, a)
      ensures a < |m| && m'[a] == m[a] {
      Theorems.PayloadsDisjoint(h, i, j, a);
      assert i != j && !Theorems.InPayload(h, j, a);
      assert StartAt(h.chunks, h.pool, j + 1) >= at + oldSize;
      assert !(at <= a < at + oldSize);
    }
  }

  lemma CopiedOne(m: seq<int>, m1: seq<int>, m2: seq<int>, from: nat, to: nat, i: nat)
    requires Copied(m, m1, from, to, i) && from + i < |m| && to + i < |m|
    requires m2 == m1[to + i := m[from + i]]
    ensures Copied(m, m2, from, to, i + 1)
  {
    forall k | 0 <= k < i + 1 ensures ByteKept(m, m2, from, to, k) {
      if k < i { assert ByteKept(m, m1, from, to, k); }
    }
  }

  lemma ReallocZero(h: Heap, ptr: Option<nat>, size: nat)
    requires Legal(h, Resize(ptr, size))
    ensures ptr.Some? ==>
              ptr.value >= HEADER && Live(h, ptr.value - HEADER) && IndexAt(h.chunks, ptr.value - HEADER) < |h.chunks|
    ensures size == 0 ==> Realloc(h, ptr, 0) == (if ptr.Some? then Free(h, ptr.value - HEADER) else h, None)
  {}

  /** Rounding a size twice changes nothing more. */
  lemma ReallocRounded(h: Heap, ptr: Option<nat>, size: nat)
    requires Legal(h, Resize(ptr, size)) && 0 < size < TWO_32
    ensures var need := Need(size);
      && 0 < need < TWO_32 && Need(need) == need
      && (ptr.None? ==> Realloc(h, ptr, size) == Alloc(h, need))
      && (ptr.Some? ==> ptr.value >= HEADER && Live(h, ptr.value - HEADER)
                        && IndexAt(h.chunks, ptr.value - HEADER) < |h.chunks|
                        && !GrowWraps(h, IndexAt(h.chunks, ptr.value - HEADER), need)
                        && Realloc(h, ptr, size) == Realloc(h, Some(ptr.value - HEADER + HEADER), need))
  {}

  lemma AbsorbAt(cs: seq<Chunk>, k: nat, at: nat)
    requires k + 1 < |cs|
    ensures k < |Absorb(cs, k + 1)| && Absorb(cs, k + 1)[k] == cs[k]
    ensures at !in Starts(cs) ==> at !in Starts(Absorb(cs, k + 1))
  {
    if at in Starts(Absorb(cs, k + 1)) {
      var i :| 0 <= i < |cs| - 1 && Absorb(cs, k + 1)[i].start == at;
      assert Starts(cs)[if i < k + 1 then i else i + 1] == at;
    }
  }

  lemma FlagsMove(used: map<nat, bool>, cs: seq<Chunk>, pool: nat, k: nat, at: nat)
    requires UsedOk(used, cs) && k + 1 < |cs| && Tiles(cs, pool, HEADER) && at !in Starts(cs)
    ensures UsedOk(used[at := false], cs[k + 1 := Chunk(at, false)])
  {
    var s, used' := cs[k + 1 := Chunk(at, false)], used[at := false];
    forall i | 0 <= i < |s| ensures FlagOk(used', s, i) {
      assert FlagOk(used, cs, i) && Starts(cs)[i] in Starts(cs);
    }
  }

  /** Where the block behind a growing block is going to start. */
  lemma GrowPlace(h: Heap, k: nat, need: nat, at: nat)
    requires Inv(h) && k < |h.chunks| && h.chunks[k].used
    requires CanGrow(h, k, need) && Payload(h.chunks, h.pool, k) < need && need + MINI < TWO_32
    requires at == (h.chunks[k].start + HEADER + need) % TWO_32
    ensures Tiles(h.chunks, h.pool, HEADER) && h.chunks[k + 1].start in h.free
    ensures at !in h.free && at !in Starts(h.chunks) && at != h.pool
  {
    ListedFree(h, k + 1);
    UsedBehind(h.chunks, h.pool, k + 1);
    NotStart(h.chunks, h.pool, k + 1, at);
    InsideBlock(h.chunks, h.pool, k + 1, at);
  }

  lemma GrowIs(h: Heap, k: nat, need: nat, at: nat)
    requires k + 1 < |h.chunks| && at == (h.chunks[k].start + HEADER + need) % TWO_32
    ensures Grow(h, k, need) ==
            Raise(h.(available := (h.available - (need - Payload(h.chunks, h.pool, k))) % TWO_32))
            .(chunks := h.chunks[k + 1 := Chunk(at, false)], free := [at] + Without(h.free, h.chunks[k + 1].start))
  {}

  /** Where the rest of a shrinking block is going to start, and what comes behind it. */
  lemma ShrinkPlace(h: Heap, k: nat, need: nat, at: nat, cut: seq<Chunk>)
    requires Inv(h) && k + 1 < |h.chunks| && h.chunks[k].used && need + HEADER + MINI < Payload(h.chunks, h.pool, k)
    requires at == h.chunks[k].start + HEADER + need && cut == Split(h.chunks, k, true, at)
    ensures Tiles(h.chunks, h.pool, HEADER) && at !in Starts(h.chunks)
    ensures k + 2 < |cut| && cut[k + 1].start == at && cut[k + 2] == h.chunks[k + 1] && cut[|cut| - 1].used
    ensures RightFree(cut, k + 1) ==> cut[k + 2].start in h.free
    ensures at !in DropRight(cut, h.free, k + 1) && at != h.pool
    ensures k + 2 < |JoinRight(cut, k + 1)| && JoinRight(cut, k + 1)[k + 1].start == at
  {
    NotStart(h.chunks, h.pool, k, at);
    InsideBlock(h.chunks, h.pool, k, at);
    if RightFree(cut, k + 1) {
      ListedFree(h, k + 1);
      WithoutElems(h.free, cut[k + 2].start);
    }
    assert cut[|cut| - 1] == h.chunks[|h.chunks| - 1];
    assert h.chunks[k + 1].start + HEADER <= h.pool;
  }

  lemma ShrinkIs(h: Heap, k: nat, need: nat, at: nat, cut: seq<Chunk>)
    requires k + 1 < |h.chunks| && at == h.chunks[k].start + HEADER + need && cut == Split(h.chunks, k, true, at)
    requires k + 2 < |cut|
    ensures Shrink(h, k, need) == h.(
        chunks := JoinRight(cut, k + 1),
        free := [at] + DropRight(cut, h.free, k + 1),
        available := h.available - (if RightFree(cut, k + 1) then Payload(cut, h.pool, k + 2) else 0)
                   + (StartAt(JoinRight(cut, k + 1), h.pool, k + 2) - at - HEADER))
  {
    assert cut[k + 2] == h.chunks[k + 1];
    assert k + 2 < |h.chunks| ==> cut[k + 3] == h.chunks[k + 2];
  }

  lemma ListedFree(h: Heap, k: nat)
    requires Inv(h) && k < |h.chunks| && !h.chunks[k].used
    ensures h.chunks[k].start in h.free && Tiles(h.chunks, h.pool, HEADER)
  {
    assert h.chunks[k] in h.chunks && h.chunks[k] == Chunk(h.chunks[k].start, false);
  }

  lemma CarveIsSplit(h: Heap, k: nat, need: nat, at: nat)
    requires k < |h.chunks| && at == h.chunks[k].start + HEADER + need
    requires Payload(h.chunks, h.pool, k) >= need + HEADER + MINI
    ensures Carve(h, k, need) ==
            Raise(h.(chunks := Split(h.chunks, k, true, at), free := [at] + Without(h.free, h.chunks[k].start),
                     available := h.available - need - HEADER))
  {}

  /** An address inside a free block belongs to no header. */
  lemma CutPlace(h: Heap, k: nat, need: nat, at: nat)
    requires Inv(h) && k < |h.chunks| && !h.chunks[k].used
    requires Payload(h.chunks, h.pool, k) >= need + HEADER + MINI && at == h.chunks[k].start + HEADER + need
    ensures Tiles(h.chunks, h.pool, HEADER)
    ensures h.chunks[k].start in h.free && at !in h.free && at !in Starts(h.chunks) && at != h.pool
  {
    ListedFree(h, k);
    NotStart(h.chunks, h.pool, k, at);
    InsideBlock(h.chunks, h.pool, k, at);
    UsedBehind(h.chunks, h.pool, k);
  }

  lemma FlagsSplit(used: map<nat, bool>, cs: seq<Chunk>, pool: nat, k: nat, at: nat)
    requires UsedOk(used, cs) && k < |cs| && Tiles(cs, pool, HEADER) && at !in Starts(cs)
    ensures UsedOk(used[at := false][cs[k].start := true], Split(cs, k, true, at))
  {
    var s, used' := Split(cs, k, true, at), used[at := false][cs[k].start := true];
    forall i | 0 <= i < |s| ensures FlagOk(used', s, i) {
      var i' := if i <= k then i else i - 1;
      assert FlagOk(used, cs, i') && Starts(cs)[i'] in Starts(cs) && Starts(cs)[k] in Starts(cs);
      SameStart(cs, pool, i', k);
    }
  }

  lemma FlagsMark(used: map<nat, bool>, cs: seq<Chunk>, pool: nat, k: nat, u: bool)
    requires UsedOk(used, cs) && k < |cs| && Tiles(cs, pool, HEADER)
    ensures UsedOk(used[cs[k].start := u], Mark(cs, k, u))
  {
    var used', s := used[cs[k].start := u], Mark(cs, k, u);
    forall i | 0 <= i < |cs| ensures FlagOk(used', s, i) {
      assert FlagOk(used, cs, i);
      SameStart(cs, pool, i, k);
    }
  }

  lemma FreeDistinct(pool: nat, free: seq<nat>)
    requires Distinct([pool] + free)
    ensures Distinct(free) && pool !in free
  {
    forall i, j | 0 <= i < j < |free| ensures free[i] != free[j] {
      assert ([pool] + free)[i + 1] != ([pool] + free)[j + 1];
    }
    forall i | 0 <= i < |free| ensures free[i] != pool {
      assert ([pool] + free)[i + 1] != ([pool] + free)[0];
    }
  }
}
