/** The methods of the heap make the runs of HeapTheorems: each call ends in the blocks and the peak of
    its step, and leaves the blocks it is not about alone.
 */
module HeapRuns {
  import opened Wrappers
  import opened Tiling
  import opened SmallMem
  import opened HeapTheorems

  /** What every method of the heap keeps is what a run starts from. */
  lemma ValidWithin(h: Heap)
    requires h.Valid()
    ensures Within(h.chunks, h.memSize, h.maxMem)
    ensures h.usedMem == Sum(h.chunks, h.End(), true) && h.End() == h.memSize + HEAD
  {}

  /** What malloc promises, read as a step of a run. */
  lemma MallocLast(cs: seq<Chunk>, cs': seq<Chunk>, memSize: nat, bytes: nat, peak: int, peak': int)
    requires WellFormed(cs, memSize) && Sum(cs, memSize + HEAD, true) <= peak && bytes < TWO_32
    requires bytes == 0 || Words(bytes) > memSize || Place(cs, memSize, Need(Words(bytes))) == |cs|
             ==> cs' == cs && peak' == peak
    requires bytes != 0 && Words(bytes) <= memSize && Place(cs, memSize, Need(Words(bytes))) < |cs|
             ==> var k := Place(cs, memSize, Need(Words(bytes)));
                 cs' == Carve(cs, memSize + HEAD, k, Need(Words(bytes)))
                     && peak' == Max(peak, Sum(cs', memSize + HEAD, true))
    ensures [cs'] == Passes(cs, memSize, Alloc(bytes)) && peak' == PeakAfter(cs, memSize, Alloc(bytes), peak)
  {
    hide FirstFit, Carve, Sum, WellFormed, Words;
  }

  /** What realloc promises of a live block, read as a step of a run. */
  lemma ResizeLast(cs: seq<Chunk>, cs': seq<Chunk>, memSize: nat, rmem: Option<int>, bytes: nat, peak: int, peak': int,
        r: Option<int>)
    requires Legal(cs, memSize, Realloc(rmem, bytes)) && InHeap(rmem, memSize + HEAD) && 0 < Words(bytes) <= memSize
    requires Resized(cs, cs', memSize + HEAD, memSize, rmem.value - HEAD, Words(bytes), r)
    requires peak' == ResizedPeak(cs, memSize + HEAD, memSize, IndexAt(cs, rmem.value - HEAD), Words(bytes), peak)
    ensures cs' == Last(Passes(cs, memSize, Realloc(rmem, bytes)))
              && peak' == PeakAfter(cs, memSize, Realloc(rmem, bytes), peak)
  {
    hide FirstFit, Carve, Sum, FreeAt, Shrink, IndexAt, Words;
  }

  /** What realloc promises of a null pointer, read as a step of a run. */
  lemma NullLast(cs: seq<Chunk>, cs': seq<Chunk>, memSize: nat, bytes: nat, peak: int, peak': int, r: Option<int>)
    requires Sum(cs, memSize + HEAD, true) <= peak && bytes < TWO_32 && 0 < Words(bytes) <= memSize
    requires Malloced(cs, cs', memSize + HEAD, memSize, Words(bytes), r)
    requires r.None? ==> peak' == peak
    requires r.Some? ==> peak' == Max(peak, Sum(cs', memSize + HEAD, true))
    ensures cs' == Last(Passes(cs, memSize, Realloc(None, bytes)))
              && peak' == PeakAfter(cs, memSize, Realloc(None, bytes), peak)
  {
    hide FirstFit, Carve, Sum, Words;
  }

  /** What realloc promises, read as a step of a run. */
  lemma ReallocLast(cs: seq<Chunk>, cs': seq<Chunk>, m: seq<int>, m': seq<int>, memSize: nat, rmem: Option<int>,
                    bytes: nat, peak: int, peak': int, r: Option<int>, end: nat)
    requires end == memSize + HEAD
    requires Within(cs, memSize, peak) && Legal(cs, memSize, Realloc(rmem, bytes))
    requires Words(bytes) > memSize ==> cs' == cs && peak' == peak
    requires Words(bytes) == 0 ==>
               cs' == (if InHeap(rmem, end) then FreeAt(cs, rmem.value - HEAD) else cs) && peak' == peak
    requires rmem.Some? && !InHeap(rmem, end) ==> cs' == cs && peak' == peak
    requires 0 < Words(bytes) <= memSize && rmem.None? ==> Malloced(cs, cs', end, memSize, Words(bytes), r)
    requires rmem.None? && r.None? ==> peak' == peak
    requires rmem.None? && r.Some? ==> peak' == Max(peak, Sum(cs', end, true))
    requires 0 < Words(bytes) <= memSize && InHeap(rmem, end) ==>
               ResizeOk(cs, cs', m, m', peak, peak', end, memSize, rmem.value - HEAD, Words(bytes), r)
    ensures cs' == Last(Passes(cs, memSize, Realloc(rmem, bytes)))
              && peak' == PeakAfter(cs, memSize, Realloc(rmem, bytes), peak)
  {
    hide FirstFit, Carve, Sum, Words, Tiles, NoTwoFree, Resized, ResizedPeak, Malloced, FreeAt, IndexAt;
    if 0 < Words(bytes) <= memSize {
      if InHeap(rmem, end) {
        ResizeLast(cs, cs', memSize, rmem, bytes, peak, peak', r);
      } else if rmem.None? {
        NullLast(cs, cs', memSize, bytes, peak, peak', r);
      }
    }
  }

  // ---- what a block keeps -------------------------------------------------------------------

  lemma BlockAlloc(cs: seq<Chunk>, memSize: nat, n: nat, p: nat, e: nat)
    requires WellFormed(cs, memSize) && BlockAt(cs, memSize + HEAD, p, e)
    ensures BlockAt(AllocWords(cs, memSize, n), memSize + HEAD, p, e)
  {
    var end, j := memSize + HEAD, Place(cs, memSize, Need(n));
    if j < |cs| {
      var k :| 0 <= k < |cs| && cs[k] == Chunk(p, true) && StartAt(cs, end, k + 1) == e;
      StartsDiffer(cs, j, k, end);
      BlockSplit(cs, end, j, cs[j].start + HEAD + Need(n), p, e);
      BlockMark(cs, end, j, true, p, e);
    }
  }

  lemma BlockShrink(cs: seq<Chunk>, end: nat, k: nat, n: nat, p: nat, e: nat)
    requires BlockAt(cs, end, p, e) && k < |cs| && cs[k].start != p
    ensures BlockAt(Shrink(cs, k, n), end, p, e)
  {
    var at := cs[k].start + HEAD + n;
    BlockSplit(cs, end, k, at, p, e);
    assert Split(cs, k, true, at)[k + 1] == Chunk(at, false);
    BlockPlug(Split(cs, k, true, at), end, k + 1, p, e);
  }

  /** The block that a call is about. */
  function Touched(op: Op): set<int> {
    match op
    case Alloc(_) => {}
    case Release(rmem) => if rmem.Some? then {rmem.value - HEAD} else {}
    case Realloc(rmem, _) => if rmem.Some? then {rmem.value - HEAD} else {}
  }

  /** A block stays where it is and as long as it is through a call about another one. */
  lemma StepKeepsBlock(cs: seq<Chunk>, memSize: nat, op: Op, p: nat, e: nat)
    requires WellFormed(cs, memSize) && Legal(cs, memSize, op) && BlockAt(cs, memSize + HEAD, p, e) && p !in Touched(op)
    ensures BlockAt(Last(Passes(cs, memSize, op)), memSize + HEAD, p, e)
  {
    match op
    case Alloc(bytes) => BlockAlloc(cs, memSize, Words(bytes), p, e);
    case Release(rmem) => if rmem.Some? { BlockFree(cs, memSize + HEAD, rmem.value - HEAD, p, e); }
    case Realloc(rmem, bytes) => ReallocKeepsBlock(cs, memSize, rmem, bytes, p, e);
  }

  lemma ReallocKeepsBlock(cs: seq<Chunk>, memSize: nat, rmem: Option<int>, bytes: nat, p: nat, e: nat)
    requires WellFormed(cs, memSize) && Legal(cs, memSize, Realloc(rmem, bytes))
    requires BlockAt(cs, memSize + HEAD, p, e) && (rmem.Some? ==> rmem.value - HEAD != p)
    ensures BlockAt(Last(Passes(cs, memSize, Realloc(rmem, bytes))), memSize + HEAD, p, e)
  {
    hide BlockAt, FreeAt, Shrink, WellFormed;
    var n, end := Words(bytes), memSize + HEAD;
    BlockAlloc(cs, memSize, n, p, e);
    if rmem.Some? {
      BlockFree(cs, end, rmem.value - HEAD, p, e);
      BlockFree(AllocWords(cs, memSize, n), end, rmem.value - HEAD, p, e);
      if InHeap(rmem, end) { BlockShrink(cs, end, IndexAt(cs, rmem.value - HEAD), n, p, e); }
    }
  }

  /** The payload words of the block from p to e are the same in m and m'. */
  ghost predicate KeepsPayload(m: seq<int>, m': seq<int>, p: nat, e: nat) {
    |m'| == |m| && forall w :: p + HEAD <= w < e && w < |m| ==> m'[w] == m[w]
  }

  lemma SparedPayload(m: seq<int>, m': seq<int>, cs: seq<Chunk>, memSize: nat, but: set<int>, p: nat, e: nat)
    requires WellFormed(cs, memSize) && BlockAt(cs, memSize + HEAD, p, e)
    requires SamePayloads(m, m', cs, memSize + HEAD, but) && p !in but
    ensures KeepsPayload(m, m', p, e)
  {
    var end := memSize + HEAD;
    var k :| 0 <= k < |cs| && cs[k] == Chunk(p, true) && StartAt(cs, end, k + 1) == e;
    EndsBefore(cs, k + 1, |cs|, end);
    forall w | p + HEAD <= w < e && w < |m| ensures m'[w] == m[w] {
      assert InPayload(cs, end, k, w);
    }
  }

  /** No call of the run is about the block at p. */
  predicate Spares(ops: seq<Op>, p: nat) {
    forall op <- ops :: p !in Touched(op)
  }

  // ---- the calls ----------------------------------------------------------------------------

  /** One call: the chunks end up as the run has them, and max_mem too. */
  method Perform(h: Heap, op: Op)
    requires h.Valid() && MIN_SIZE <= h.memSize && Legal(h.chunks, h.memSize, op)
    modifies h, h.mem
    ensures h.Valid()
    ensures h.chunks == Last(Passes(old(h.chunks), h.memSize, op))
    ensures h.maxMem == PeakAfter(old(h.chunks), h.memSize, op, old(h.maxMem))
    ensures SamePayloads(old(h.mem[..]), h.mem[..], old(h.chunks), h.End(), Touched(op))
  {
    match op
    case Alloc(bytes) => PerformMalloc(h, bytes);
    case Release(rmem) => PerformFree(h, rmem);
    case Realloc(rmem, bytes) => PerformRealloc(h, rmem, bytes);
  }

  method PerformFree(h: Heap, rmem: Option<int>)
    requires h.Valid() && Legal(h.chunks, h.memSize, Release(rmem))
    modifies h, h.mem
    ensures h.Valid() && h.maxMem == old(h.maxMem)
    ensures h.chunks == Last(Passes(old(h.chunks), h.memSize, Release(rmem)))
    ensures SamePayloads(old(h.mem[..]), h.mem[..], old(h.chunks), h.End(), Touched(Release(rmem)))
  {
    NothingChanged(h.mem[..], h.chunks, h.End(), Touched(Release(rmem)), 0, 0);
    h.Free(rmem);
  }

  method PerformMalloc(h: Heap, bytes: nat)
    requires h.Valid() && MIN_SIZE <= h.memSize && bytes < TWO_32
    modifies h, h.mem
    ensures h.Valid()
    ensures h.chunks == Last(Passes(old(h.chunks), h.memSize, Alloc(bytes)))
    ensures h.maxMem == PeakAfter(old(h.chunks), h.memSize, Alloc(bytes), old(h.maxMem))
    ensures SamePayloads(old(h.mem[..]), h.mem[..], old(h.chunks), h.End(), {})
  {
    ghost var cs, peak := h.chunks, h.maxMem;
    hide FirstFit, Carve, Sum, Words, HeadersOk, Tiles, NoTwoFree, SamePayloads;
    var r := h.Malloc(bytes);
    MallocLast(cs, h.chunks, h.memSize, bytes, peak, h.maxMem);
  }

  method PerformRealloc(h: Heap, rmem: Option<int>, bytes: nat)
    requires h.Valid() && MIN_SIZE <= h.memSize && Legal(h.chunks, h.memSize, Realloc(rmem, bytes))
    modifies h, h.mem
    ensures h.Valid()
    ensures h.chunks == Last(Passes(old(h.chunks), h.memSize, Realloc(rmem, bytes)))
    ensures h.maxMem == PeakAfter(old(h.chunks), h.memSize, Realloc(rmem, bytes), old(h.maxMem))
    ensures SamePayloads(old(h.mem[..]), h.mem[..], old(h.chunks), h.End(), Touched(Realloc(rmem, bytes)))
  {
    ghost var cs, peak, m := h.chunks, h.maxMem, h.mem[..];
    ValidWithin(h);
    hide *;
    var r := h.Realloc(rmem, bytes);
    ValidWithin(h);
    ReallocLast(cs, h.chunks, m, h.mem[..], h.memSize, rmem, bytes, peak, h.maxMem, r, h.End());
    TouchedOnly(m, h.mem[..], cs, h.End(), rmem, bytes);
  }

  lemma TouchedOnly(m: seq<int>, m': seq<int>, cs: seq<Chunk>, end: nat, rmem: Option<int>, bytes: nat)
    requires InHeap(rmem, end) ==> SamePayloads(m, m', cs, end, {rmem.value - HEAD})
    requires !InHeap(rmem, end) ==> SamePayloads(m, m', cs, end, {})
    ensures SamePayloads(m, m', cs, end, Touched(Realloc(rmem, bytes)))
  {}

  /** A block that a call spares stays where it is, with its payload. */
  lemma StepSpares(cs: seq<Chunk>, m: seq<int>, m': seq<int>, memSize: nat, op: Op, end: nat)
    requires WellFormed(cs, memSize) && Legal(cs, memSize, op) && end == memSize + HEAD
    requires SamePayloads(m, m', cs, end, Touched(op))
    ensures forall p: nat, e: nat :: BlockAt(cs, end, p, e) && p !in Touched(op)
              ==> BlockAt(Last(Passes(cs, memSize, op)), end, p, e) && KeepsPayload(m, m', p, e)
  {
    forall p: nat, e: nat | BlockAt(cs, end, p, e) && p !in Touched(op)
      ensures BlockAt(Last(Passes(cs, memSize, op)), end, p, e) && KeepsPayload(m, m', p, e)
    {
      StepKeepsBlock(cs, memSize, op, p, e);
      SparedPayload(m, m', cs, memSize, Touched(op), p, e);
    }
  }

  /** What the run so far has kept. */
  ghost predicate RunKeeps(cs: seq<Chunk>, cs': seq<Chunk>, m: seq<int>, m': seq<int>, end: nat, ops: seq<Op>) {
    forall p: nat, e: nat :: BlockAt(cs, end, p, e) && Spares(ops, p) ==>
        BlockAt(cs', end, p, e) && KeepsPayload(m, m', p, e)
  }

  lemma RunKeepsMore(cs: seq<Chunk>, cs1: seq<Chunk>, cs2: seq<Chunk>, m: seq<int>, m1: seq<int>, m2: seq<int>,
                     end: nat, ops: seq<Op>, op: Op)
    requires RunKeeps(cs, cs1, m, m1, end, ops)
    requires forall p: nat, e: nat :: BlockAt(cs1, end, p, e) && p !in Touched(op)
               ==> BlockAt(cs2, end, p, e) && KeepsPayload(m1, m2, p, e)
    ensures RunKeeps(cs, cs2, m, m2, end, ops + [op])
  {
    hide BlockAt, Touched;
    forall p: nat, e: nat | BlockAt(cs, end, p, e) && Spares(ops + [op], p)
      ensures BlockAt(cs2, end, p, e) && KeepsPayload(m, m2, p, e)
    {
      assert (ops + [op])[|ops|] == op;
      assert forall o <- ops :: o in ops + [op];
      assert Spares(ops, p);
    }
  }

  lemma RunKeepsNone(cs: seq<Chunk>, m: seq<int>, end: nat)
    ensures RunKeeps(cs, cs, m, m, end, [])
  {}

  /** Any sequence of calls on the heap ends in the chunks and the peak of the run, and every live
      block that none of the calls is about keeps its place and its payload. */
  method PerformAll(h: Heap, ops: seq<Op>)
    requires h.Valid() && MIN_SIZE <= h.memSize && LegalRun(h.chunks, h.memSize, ops)
    modifies h, h.mem
    ensures h.Valid()
    ensures h.chunks == Final(old(h.chunks), h.memSize, ops)
    ensures h.maxMem == PeakRun(old(h.chunks), h.memSize, ops, old(h.maxMem))
    ensures RunKeeps(old(h.chunks), h.chunks, old(h.mem[..]), h.mem[..], h.End(), ops)
  {
    hide Sum, SamePayloads, RunKeeps, Passes, PeakAfter, Legal, HeadersOk;
    var i := 0;
    RunKeepsNone(h.chunks, h.mem[..], h.End());
    assert ops[..0] == [];
    while i < |ops|
      invariant i <= |ops| && h.Valid()
      invariant RunKeeps(old(h.chunks), h.chunks, old(h.mem[..]), h.mem[..], h.End(), ops[..i])
      invariant LegalRun(h.chunks, h.memSize, ops[i..])
      invariant Final(h.chunks, h.memSize, ops[i..]) == Final(old(h.chunks), h.memSize, ops)
      invariant PeakRun(h.chunks, h.memSize, ops[i..], h.maxMem)
                  == PeakRun(old(h.chunks), h.memSize, ops, old(h.maxMem))
    {
      assert ops[i..][1..] == ops[i + 1..];
      assert ops[..i + 1] == ops[..i] + [ops[i]];
      ghost var cs, m := h.chunks, h.mem[..];
      ValidWithin(h);
      Perform(h, ops[i]);
      StepSpares(cs, m, h.mem[..], h.memSize, ops[i], h.End());
      RunKeepsMore(old(h.chunks), cs, h.chunks, old(h.mem[..]), m, h.mem[..], h.End(), ops[..i], ops[i]);
      i := i + 1;
    }
    assert ops[..i] == ops && ops[i..] == [];
  }
}
