/** What the heap of `mem.c` promises over whole runs and beyond one call.

    SmallMem.Heap proves that each method turns the chunk sequence into the one given by
    Carve, FreeAt or Shrink; here those functions are shown to keep the heap well formed,
    to keep the books, and to find or miss free memory exactly as stated.
 */
module HeapTheorems {
  import opened Wrappers
  import opened Tiling
  import opened SmallMem

  ghost predicate WellFormed(cs: seq<Chunk>, memSize: nat) {
    Tiles(cs, memSize + HEAD, HEAD) && NoTwoFree(cs)
  }

  // ---- one step -------------------------------------------------------------------------

  lemma CarveTiles(cs: seq<Chunk>, end: nat, k: nat, n: nat)
    requires Tiles(cs, end, HEAD) && k < |cs| && Length(cs, end, k) >= n + HEAD
    ensures Tiles(Carve(cs, end, k, n), end, HEAD)
  {
    if Length(cs, end, k) - HEAD >= n + HEAD + MIN_SIZE {
      SplitTiles(cs, k, true, cs[k].start + HEAD + n, end, HEAD);
    } else {
      MarkTiles(cs, k, true, end, HEAD);
    }
  }

  /** Marking chunk k used, cut or not, adds its start to the used ones. */
  lemma SplitUsed(cs: seq<Chunk>, k: nat, at: nat)
    requires k < |cs|
    ensures UsedStarts(Split(cs, k, true, at)) == UsedStarts(cs) + {cs[k].start}
    ensures UsedStarts(Mark(cs, k, true)) == UsedStarts(cs) + {cs[k].start}
  {
    var a, b := cs[..k], cs[k + 1..];
    assert cs == a + [cs[k]] + b;
    assert Mark(cs, k, true) == a + [Chunk(cs[k].start, true)] + b;
    assert Split(cs, k, true, at) == a + [Chunk(cs[k].start, true), Chunk(at, false)] + b;
    UsedConcat(a + [cs[k]], b);
    UsedConcat(a, [cs[k]]);
    UsedConcat(a + [Chunk(cs[k].start, true)], b);
    UsedConcat(a, [Chunk(cs[k].start, true)]);
    UsedConcat(a + [Chunk(cs[k].start, true), Chunk(at, false)], b);
    UsedConcat(a, [Chunk(cs[k].start, true), Chunk(at, false)]);
  }

  lemma UsedConcat(a: seq<Chunk>, b: seq<Chunk>)
    ensures UsedStarts(a + b) == UsedStarts(a) + UsedStarts(b)
  {}

  /** Allocation keeps the heap well formed and adds to the use exactly the block handed out: n words
      and a header, or all of block k when the rest cannot hold a block of its own. */
  lemma CarveStep(cs: seq<Chunk>, memSize: nat, k: nat, n: nat)
    requires WellFormed(cs, memSize) && k < |cs| && !cs[k].used && Length(cs, memSize + HEAD, k) >= n + HEAD
    ensures WellFormed(Carve(cs, memSize + HEAD, k, n), memSize)
    ensures UsedStarts(Carve(cs, memSize + HEAD, k, n)) == UsedStarts(cs) + {cs[k].start}
    ensures cs[k].start !in UsedStarts(cs)
    ensures Sum(Carve(cs, memSize + HEAD, k, n), memSize + HEAD, true) == Sum(cs, memSize + HEAD, true) +
              (if Length(cs, memSize + HEAD, k) >= n + 2 * HEAD + MIN_SIZE then n + HEAD
                  else Length(cs, memSize + HEAD, k))
  {
    var end := memSize + HEAD;
    CarveTiles(cs, end, k, n);
    CarveOk(cs, end, k, n);
    SplitUsed(cs, k, cs[k].start + HEAD + n);
    forall i | 0 <= i < |cs| && cs[i].used ensures cs[i].start != cs[k].start {
      StartsDiffer(cs, i, k, end);
    }
  }

  /** Freeing keeps the heap well formed, takes exactly this block out of the used ones and
      exactly its length, header included, out of the used total. */
  lemma FreeStep(cs: seq<Chunk>, memSize: nat, p: int)
    requires WellFormed(cs, memSize) && IsLive(cs, p)
    ensures WellFormed(FreeAt(cs, p), memSize)
    ensures UsedStarts(FreeAt(cs, p)) == UsedStarts(cs) - {p}
    ensures Sum(FreeAt(cs, p), memSize + HEAD, true)
         == Sum(cs, memSize + HEAD, true) - Length(cs, memSize + HEAD, IndexAt(cs, p))
  {
    var k, end := IndexAt(cs, p), memSize + HEAD;
    var marked := Mark(cs, k, false);
    MarkTiles(cs, k, false, end, HEAD);
    MarkBorders(cs, k);
    PlugNoTwoFree(marked, k);
    PlugTiles(marked, k, end, HEAD);
    SumMark(cs, k, false, end, true);
    SumPlug(marked, k, end, true);
    PlugKeepsUsed(marked, k);
    MarkDropsUsed(cs, k, end);
  }

  lemma MarkDropsUsed(cs: seq<Chunk>, k: nat, end: nat)
    requires Tiles(cs, end, HEAD) && k < |cs|
    ensures UsedStarts(Mark(cs, k, false)) == UsedStarts(cs) - {cs[k].start}
  {
    var s := Mark(cs, k, false);
    forall p | p in UsedStarts(s) ensures p in UsedStarts(cs) - {cs[k].start} {
      var i :| 0 <= i < |s| && s[i].used && s[i].start == p;
      StartsDiffer(cs, i, k, end);
      assert cs[i] in cs;
    }
    forall p | p in UsedStarts(cs) - {cs[k].start} ensures p in UsedStarts(s) {
      var i :| 0 <= i < |cs| && cs[i].used && cs[i].start == p;
      assert s[i] in s;
    }
  }

  /** Shrinking in place keeps the heap well formed and the block where it is. */
  lemma ShrinkStep(cs: seq<Chunk>, memSize: nat, k: nat, n: nat)
    requires WellFormed(cs, memSize) && k < |cs| && cs[k].used && CanShrink(cs, memSize + HEAD, k, n)
    ensures WellFormed(Shrink(cs, k, n), memSize)
    ensures UsedStarts(Shrink(cs, k, n)) == UsedStarts(cs)
    ensures Sum(Shrink(cs, k, n), memSize + HEAD, true)
         == Sum(cs, memSize + HEAD, true) - (Length(cs, memSize + HEAD, k) - HEAD - n)
  {
    ShrinkBooks(cs, memSize + HEAD, k, n);
    ShrinkShape(cs, memSize + HEAD, k, n);
    ShrinkUsed(cs, k, n);
  }

  lemma ShrinkShape(cs: seq<Chunk>, end: nat, k: nat, n: nat)
    requires Tiles(cs, end, HEAD) && NoTwoFree(cs) && k < |cs| && cs[k].used && CanShrink(cs, end, k, n)
    ensures Tiles(Shrink(cs, k, n), end, HEAD) && NoTwoFree(Shrink(cs, k, n))
  {
    var at := cs[k].start + HEAD + n;
    var s := Split(cs, k, true, at);
    assert s[k + 1] == Chunk(at, false);
    SplitTiles(cs, k, true, at, end, HEAD);
    SplitBorders(cs, k, at);
    PlugNoTwoFree(s, k + 1);
    PlugTiles(s, k + 1, end, HEAD);
  }

  lemma ShrinkUsed(cs: seq<Chunk>, k: nat, n: nat)
    requires k < |cs| && cs[k].used
    ensures UsedStarts(Shrink(cs, k, n)) == UsedStarts(cs)
  {
    hide Plug, UsedStarts;
    var at := cs[k].start + HEAD + n;
    var s := Split(cs, k, true, at);
    assert s[k + 1] == Chunk(at, false);
    PlugKeepsUsed(s, k + 1);
    SplitUsed(cs, k, at);
    UsedIn(cs, k);
  }

  lemma UsedIn(cs: seq<Chunk>, k: nat)
    requires k < |cs| && cs[k].used
    ensures UsedStarts(cs) + {cs[k].start} == UsedStarts(cs)
  {
    assert cs[k] in cs;
  }

  lemma ShrinkBooks(cs: seq<Chunk>, end: nat, k: nat, n: nat)
    requires k < |cs| && cs[k].used
    ensures Sum(Shrink(cs, k, n), end, true) == Sum(cs, end, true) - (Length(cs, end, k) - HEAD - n)
  {
    var at := cs[k].start + HEAD + n;
    var s := Split(cs, k, true, at);
    assert s[k + 1] == Chunk(at, false);
    SumSplit(cs, k, true, at, end, true);
    SumPlug(s, k + 1, end, true);
  }

  // ---- whole runs -------------------------------------------------------------------------

  datatype Op = Alloc(bytes: nat) | Release(rmem: Option<int>) | Realloc(rmem: Option<int>, bytes: nat)

  /** The caller's duty: a pointer into the heap is one that was handed out and not yet freed. Sizes
      are 32 bits wide. */
  predicate Legal(cs: seq<Chunk>, memSize: nat, op: Op) {
    match op
    case Alloc(bytes) => bytes < TWO_32
    case Release(rmem) => InHeap(rmem, memSize + HEAD) ==> IsLive(cs, rmem.value - HEAD)
    case Realloc(rmem, bytes) =>
      bytes < TWO_32 && (InHeap(rmem, memSize + HEAD) ==> IsLive(cs, rmem.value - HEAD))
  }

  function AllocWords(cs: seq<Chunk>, memSize: nat, n: nat): seq<Chunk> {
    var k := Place(cs, memSize, Need(n));
    if k < |cs| then Carve(cs, memSize + HEAD, k, Need(n)) else cs
  }

  /** The chunk sequences the heap passes through during one operation, ending in the last one.
      Only a moving realloc has two: the new block exists before the old one is freed. */
  function Passes(cs: seq<Chunk>, memSize: nat, op: Op): (ps: seq<seq<Chunk>>)
    requires Legal(cs, memSize, op)
    ensures |ps| > 0
  {
    var end := memSize + HEAD;
    match op
    case Alloc(bytes) =>
      [if bytes == 0 || Words(bytes) > memSize then cs else AllocWords(cs, memSize, Words(bytes))]
    case Release(rmem) =>
      [if InHeap(rmem, end) then FreeAt(cs, rmem.value - HEAD) else cs]
    case Realloc(rmem, bytes) =>
      var n := Words(bytes);
      if n > memSize then [cs]
      else if n == 0 then [if InHeap(rmem, end) then FreeAt(cs, rmem.value - HEAD) else cs]
      else if rmem.None? then [AllocWords(cs, memSize, n)]
      else if !InHeap(rmem, end) then [cs]
      else
        var p := rmem.value - HEAD;
        var k := IndexAt(cs, p);
        if CanShrink(cs, end, k, n) then [Shrink(cs, k, n)]
        else if MustMove(cs, end, k, n) && Place(cs, memSize, Need(n)) < |cs|
        then [AllocWords(cs, memSize, n), FreeAt(AllocWords(cs, memSize, n), p)]
        else [cs]
  }

  /** max_mem after the operation: raised where, and only where, a block is handed out. */
  function PeakAfter(cs: seq<Chunk>, memSize: nat, op: Op, peak: int): int
    requires Legal(cs, memSize, op)
  {
    var end := memSize + HEAD;
    match op
    case Alloc(_) => Max(peak, Sum(Passes(cs, memSize, op)[0], end, true))
    case Release(_) => peak
    case Realloc(rmem, bytes) =>
      if 0 < Words(bytes) <= memSize && InHeap(rmem, end)
      then ResizedPeak(cs, end, memSize, IndexAt(cs, rmem.value - HEAD), Words(bytes), peak)
      else if 0 < Words(bytes) <= memSize && rmem.None?
      then Max(peak, Sum(AllocWords(cs, memSize, Words(bytes)), end, true))
      else peak
  }

  function Last(ps: seq<seq<Chunk>>): seq<Chunk>
    requires |ps| > 0
  {
    ps[|ps| - 1]
  }

  predicate LegalRun(cs: seq<Chunk>, memSize: nat, ops: seq<Op>)
    decreases |ops|
  {
    ops == [] ||
    (Legal(cs, memSize, ops[0]) && LegalRun(Last(Passes(cs, memSize, ops[0])), memSize, ops[1..]))
  }

  /** Everything the heap passes through in a run, the start included. */
  function Visited(cs: seq<Chunk>, memSize: nat, ops: seq<Op>): (vs: seq<seq<Chunk>>)
    requires LegalRun(cs, memSize, ops)
    ensures |vs| > 0
    decreases |ops|
  {
    if ops == [] then [cs]
    else
      var ps := Passes(cs, memSize, ops[0]);
      [cs] + ps[..|ps| - 1] + Visited(Last(ps), memSize, ops[1..])
  }

  /** The chunk sequence a run ends in. */
  function Final(cs: seq<Chunk>, memSize: nat, ops: seq<Op>): seq<Chunk>
    requires LegalRun(cs, memSize, ops)
    decreases |ops|
  {
    if ops == [] then cs else Final(Last(Passes(cs, memSize, ops[0])), memSize, ops[1..])
  }

  function PeakRun(cs: seq<Chunk>, memSize: nat, ops: seq<Op>, peak: int): int
    requires LegalRun(cs, memSize, ops)
    decreases |ops|
  {
    if ops == [] then peak
    else PeakRun(Last(Passes(cs, memSize, ops[0])), memSize, ops[1..], PeakAfter(cs, memSize, ops[0], peak))
  }

  lemma AllocWordsStep(cs: seq<Chunk>, memSize: nat, n: nat)
    requires WellFormed(cs, memSize)
    ensures WellFormed(AllocWords(cs, memSize, n), memSize)
    ensures Sum(AllocWords(cs, memSize, n), memSize + HEAD, true) >= Sum(cs, memSize + HEAD, true)
    ensures UsedStarts(cs) <= UsedStarts(AllocWords(cs, memSize, n))
  {
    var k := Place(cs, memSize, Need(n));
    if k < |cs| { CarveStep(cs, memSize, k, Need(n)); }
  }

  lemma StaysLive(cs: seq<Chunk>, cs': seq<Chunk>, memSize: nat, p: int)
    requires WellFormed(cs', memSize) && IsLive(cs, p) && UsedStarts(cs) <= UsedStarts(cs')
    ensures IsLive(cs', p)
  {
    var c := cs[IndexAt(cs, p)];
    assert c in cs && c.start in UsedStarts(cs');
    var i :| 0 <= i < |cs'| && cs'[i].used && cs'[i].start == p;
    StartsDiffer(cs', i, IndexAt(cs', p), memSize + HEAD);
  }

  /** A live block has a positive length. */
  lemma LivePositive(cs: seq<Chunk>, memSize: nat, p: int)
    requires WellFormed(cs, memSize) && IsLive(cs, p)
    ensures Length(cs, memSize + HEAD, IndexAt(cs, p)) >= HEAD
  {
    EndsBefore(cs, IndexAt(cs, p), IndexAt(cs, p) + 1, memSize + HEAD);
  }

  /** Well formed, and with no more in use than `peak`. */
  ghost predicate Within(cs: seq<Chunk>, memSize: nat, peak: int) {
    WellFormed(cs, memSize) && Sum(cs, memSize + HEAD, true) <= peak
  }

  /** Every sequence in ps is well formed, and `after` is the largest used total among the peak
      so far and those. */
  ghost predicate StepOk(ps: seq<seq<Chunk>>, memSize: nat, peak: int, after: int)
    requires |ps| > 0
  {
    && (forall p <- ps :: Within(p, memSize, after))
    && (after == peak || after == Sum(ps[0], memSize + HEAD, true))
    && after >= peak
  }

  lemma OneStep(cs: seq<Chunk>, memSize: nat, op: Op, peak: int)
    requires Within(cs, memSize, peak) && Legal(cs, memSize, op)
    ensures StepOk(Passes(cs, memSize, op), memSize, peak, PeakAfter(cs, memSize, op, peak))
  {
    match op
    case Alloc(bytes) =>
      AllocWordsStep(cs, memSize, Words(bytes));
    case Release(rmem) =>
      if InHeap(rmem, memSize + HEAD) {
        FreeWithin(cs, memSize, rmem.value - HEAD, peak);
      }
    case Realloc(rmem, bytes) =>
      ReallocStep(cs, memSize, rmem, bytes, peak);
  }

  lemma ReallocStep(cs: seq<Chunk>, memSize: nat, rmem: Option<int>, bytes: nat, peak: int)
    requires Within(cs, memSize, peak) && Legal(cs, memSize, Realloc(rmem, bytes))
    ensures var op := Realloc(rmem, bytes);
      StepOk(Passes(cs, memSize, op), memSize, peak, PeakAfter(cs, memSize, op, peak))
  {
    if InHeap(rmem, memSize + HEAD) {
      if 0 < Words(bytes) <= memSize {
        ResizeStep(cs, memSize, rmem, bytes, peak);
      } else {
        FreeWithin(cs, memSize, rmem.value - HEAD, peak);
      }
    } else {
      AllocWordsStep(cs, memSize, Words(bytes));
    }
  }

  lemma FreeWithin(cs: seq<Chunk>, memSize: nat, p: int, peak: int)
    requires Within(cs, memSize, peak) && IsLive(cs, p)
    ensures Within(FreeAt(cs, p), memSize, peak)
  {
    FreeStep(cs, memSize, p);
    LivePositive(cs, memSize, p);
  }

  lemma ResizeStep(cs: seq<Chunk>, memSize: nat, rmem: Option<int>, bytes: nat, peak: int)
    requires Within(cs, memSize, peak) && 0 < Words(bytes) <= memSize && bytes < TWO_32
    requires InHeap(rmem, memSize + HEAD) && IsLive(cs, rmem.value - HEAD)
    ensures var op := Realloc(rmem, bytes);
      StepOk(Passes(cs, memSize, op), memSize, peak, PeakAfter(cs, memSize, op, peak))
  {
    var op, n, p := Realloc(rmem, bytes), Words(bytes), rmem.value - HEAD;
    var k := IndexAt(cs, p);
    if CanShrink(cs, memSize + HEAD, k, n) {
      ShrinkPass(cs, memSize, k, n, peak);
      assert Passes(cs, memSize, op) == [Shrink(cs, k, n)];
    } else if MustMove(cs, memSize + HEAD, k, n) && Place(cs, memSize, Need(n)) < |cs| {
      MoveStep(cs, memSize, n, p, peak);
      var moved := AllocWords(cs, memSize, n);
      assert Passes(cs, memSize, op) == [moved, FreeAt(moved, p)];
    } else {
      OnePass(cs, memSize, peak);
      assert Passes(cs, memSize, op) == [cs];
    }
  }

  lemma ShrinkPass(cs: seq<Chunk>, memSize: nat, k: nat, n: nat, peak: int)
    requires Within(cs, memSize, peak) && k < |cs| && cs[k].used && CanShrink(cs, memSize + HEAD, k, n)
    ensures StepOk([Shrink(cs, k, n)], memSize, peak, peak)
  {
    ShrinkStep(cs, memSize, k, n);
    OnePass(Shrink(cs, k, n), memSize, peak);
  }

  lemma OnePass(cs: seq<Chunk>, memSize: nat, peak: int)
    requires Within(cs, memSize, peak)
    ensures StepOk([cs], memSize, peak, peak)
  {}

  lemma MoveStep(cs: seq<Chunk>, memSize: nat, n: nat, p: int, peak: int)
    requires Within(cs, memSize, peak) && IsLive(cs, p)
    ensures var moved := AllocWords(cs, memSize, n);
      var top := Max(peak, Sum(moved, memSize + HEAD, true));
      StepOk([moved, FreeAt(moved, p)], memSize, peak, top)
  {
    var moved := AllocWords(cs, memSize, n);
    AllocWordsStep(cs, memSize, n);
    StaysLive(cs, moved, memSize, p);
    FreeWithin(moved, memSize, p, Max(peak, Sum(moved, memSize + HEAD, true)));
  }

  /** In every run of malloc, free and realloc the heap stays well formed: blocks tile the
      area and no two neighbours are free. max_mem bounds the used total at every moment and
      is itself reached, so it is the peak. */
  lemma {:induction false} EveryRun(cs: seq<Chunk>, memSize: nat, ops: seq<Op>, peak: int)
    requires Within(cs, memSize, peak) && LegalRun(cs, memSize, ops)
    ensures forall v <- Visited(cs, memSize, ops) :: Within(v, memSize, PeakRun(cs, memSize, ops, peak))
    ensures PeakRun(cs, memSize, ops, peak) == peak
         || exists v <- Visited(cs, memSize, ops) :: Sum(v, memSize + HEAD, true) == PeakRun(cs, memSize, ops, peak)
    ensures PeakRun(cs, memSize, ops, peak) >= peak
    decreases |ops|
  {
    if ops != [] {
      var ps := Passes(cs, memSize, ops[0]);
      var rest := Visited(Last(ps), memSize, ops[1..]);
      var mid := PeakAfter(cs, memSize, ops[0], peak);
      OneStep(cs, memSize, ops[0], peak);
      EveryRun(Last(ps), memSize, ops[1..], mid);
      var vs := Visited(cs, memSize, ops);
      forall v | v in vs ensures Within(v, memSize, PeakRun(cs, memSize, ops, peak)) {
        assert v == cs || v in ps || v in rest;
      }
      if PeakRun(cs, memSize, ops, peak) != peak {
        VisitedHead(cs, memSize, ops);
        if PeakRun(cs, memSize, ops, peak) == mid {
          assert ps[0] in vs;
        } else {
          var v :| v in rest && Sum(v, memSize + HEAD, true) == PeakRun(cs, memSize, ops, peak);
          assert v in vs;
        }
      }
    }
  }

  lemma VisitedHead(cs: seq<Chunk>, memSize: nat, ops: seq<Op>)
    requires LegalRun(cs, memSize, ops) && ops != []
    ensures forall p <- Passes(cs, memSize, ops[0]) :: p in Visited(cs, memSize, ops)
    ensures forall v <- Visited(Last(Passes(cs, memSize, ops[0])), memSize, ops[1..]) :: v in Visited(cs, memSize, ops)
  {
    var ps := Passes(cs, memSize, ops[0]);
    var vs, rest := Visited(cs, memSize, ops), Visited(Last(ps), memSize, ops[1..]);
    assert rest[0] == Last(ps);
    assert forall i :: 0 <= i < |ps| - 1 ==> vs[1 + i] == ps[i];
    assert forall i :: 0 <= i < |rest| ==> vs[|ps| + i] == rest[i];
  }

  /** From a fresh heap on max_mem is exactly the largest used total the run passes through. */
  lemma FreshRun(memSize: nat, ops: seq<Op>)
    requires LegalRun([Chunk(0, false)], memSize, ops)
    ensures var start := [Chunk(0, false)];
      var peak := PeakRun(start, memSize, ops, 0);
      && (forall v <- Visited(start, memSize, ops) :: WellFormed(v, memSize) && Sum(v, memSize + HEAD, true) <= peak)
      && (exists v <- Visited(start, memSize, ops) :: Sum(v, memSize + HEAD, true) == peak)
  {
    var start := [Chunk(0, false)];
    assert Within(start, memSize, 0);
    EveryRun(start, memSize, ops, 0);
    if PeakRun(start, memSize, ops, 0) == 0 {
      assert start in Visited(start, memSize, ops);
    }
  }

  // ---- freeing everything -------------------------------------------------------------------

  function FreeAll(cs: seq<Chunk>, order: seq<int>): seq<Chunk>
    decreases |order|
  {
    if order == [] then cs else FreeAll(FreeAt(cs, order[0]), order[1..])
  }

  /** Freeing all live blocks, in whatever order, leaves the heap as it was initialised:
      one free block, nothing used. */
  lemma {:induction false} FreeAllAnyOrder(cs: seq<Chunk>, memSize: nat, order: seq<int>)
    requires WellFormed(cs, memSize)
    requires UsedStarts(cs) == set p <- order
    requires forall i, j :: 0 <= i < j < |order| ==> order[i] != order[j]
    ensures FreeAll(cs, order) == [Chunk(0, false)]
    ensures Sum(FreeAll(cs, order), memSize + HEAD, true) == 0
    decreases |order|
  {
    if order == [] {
      AllFreeIsOneChunk(cs, memSize + HEAD, HEAD);
    } else {
      var p := order[0];
      assert p in UsedStarts(cs);
      StartIsLive(cs, memSize, p);
      FreeStep(cs, memSize, p);
      assert order == [p] + order[1..];
      FreeAllAnyOrder(FreeAt(cs, p), memSize, order[1..]);
    }
  }

  lemma StartIsLive(cs: seq<Chunk>, memSize: nat, p: int)
    requires WellFormed(cs, memSize) && p in UsedStarts(cs)
    ensures IsLive(cs, p)
  {
    var i :| 0 <= i < |cs| && cs[i].used && cs[i].start == p;
    StartsDiffer(cs, i, IndexAt(cs, p), memSize + HEAD);
  }

  // ---- what the search misses ---------------------------------------------------------------

  /** Chunk i is free and holds n words. */
  predicate Holds(cs: seq<Chunk>, end: nat, n: nat, i: nat)
    requires i < |cs|
  {
    !cs[i].used && Length(cs, end, i) >= n + HEAD
  }

  /** The one free block the search never looks at: the last one, when it holds exactly n words. */
  predicate ExactLast(cs: seq<Chunk>, end: nat, n: nat, i: nat)
    requires i < |cs|
  {
    i == |cs| - 1 && Length(cs, end, i) == n + HEAD
  }

  /** A request fails exactly when no free block holds it, save the last one filled to the word. */
  lemma SearchComplete(cs: seq<Chunk>, memSize: nat, end: nat, n: nat)
    requires WellFormed(cs, memSize) && n <= memSize && end == memSize + HEAD
    ensures Place(cs, memSize, n) == |cs|
       <==> forall i :: 0 <= i < |cs| && Holds(cs, end, n, i) ==> ExactLast(cs, end, n, i)
  {
    LooksAt(cs, memSize, end, n);
  }

  /** Being looked at is all that separates a block that holds n words from one that is handed out. */
  lemma LooksAt(cs: seq<Chunk>, memSize: nat, end: nat, n: nat)
    requires WellFormed(cs, memSize) && n <= memSize && end == memSize + HEAD
    ensures var limit := memSize - n;
      forall i :: 0 <= i < |cs| ==>
        (Fits(cs, end, limit, n, i) <==> Holds(cs, end, n, i) && !ExactLast(cs, end, n, i))
  {
    var limit := memSize - n;
    forall i | 0 <= i < |cs|
      ensures Fits(cs, end, limit, n, i) <==> Holds(cs, end, n, i) && !ExactLast(cs, end, n, i)
    {
      EndsBefore(cs, i, i + 1, end);
      EndsBefore(cs, i + 1, |cs|, end);
    }
  }

  /** A fresh heap refuses a request for all of its memory although its only block holds it. */
  lemma FreshHeapRefusesItsOwnSize(memSize: nat)
    requires memSize >= MIN_SIZE
    ensures Holds([Chunk(0, false)], memSize + HEAD, memSize, 0)
    ensures Place([Chunk(0, false)], memSize, memSize) == 1
  {
    assert !Fits([Chunk(0, false)], memSize + HEAD, 0, memSize, 0);
  }

  /** The found block is the lowest free one among those the search looks at. */
  lemma SearchLowest(cs: seq<Chunk>, memSize: nat, end: nat, n: nat)
    requires WellFormed(cs, memSize) && n <= memSize && end == memSize + HEAD && Place(cs, memSize, n) < |cs|
    ensures var k := Place(cs, memSize, n);
      && Holds(cs, end, n, k)
      && forall i :: 0 <= i < |cs| && Holds(cs, end, n, i) ==>
           cs[k].start <= cs[i].start || ExactLast(cs, end, n, i)
  {
    var k := Place(cs, memSize, n);
    LooksAt(cs, memSize, end, n);
    forall i | 0 <= i < |cs| && Holds(cs, end, n, i)
      ensures cs[k].start <= cs[i].start || ExactLast(cs, end, n, i)
    {
      if k <= i { EndsBefore(cs, k, i, end); }
    }
  }

  /** The payload covers the requested bytes exactly when rounding up does not wrap. */
  lemma PayloadCovers(bytes: nat)
    requires 0 < bytes < TWO_32
    ensures 4 * Need(Words(bytes)) >= bytes <==> bytes + 3 < TWO_32
  {}

  // ---- the smallest heaps -------------------------------------------------------------------

  /** The loop guard `ptr < mem_size_aligned - size` in 32-bit arithmetic, in bytes. */
  predicate Guard(ptr: nat, memSize: nat, n: nat) {
    4 * ptr < (4 * memSize - 4 * n) % TWO_32
  }

  /** The search position after some rounds in which nothing fitted; heap_end is its own successor. */
  function Cursor(cs: seq<Chunk>, memSize: nat, rounds: nat): nat {
    StartAt(cs, memSize + HEAD, rounds)
  }

  /** Below the minimum heap size the subtraction in the guard wraps, and any request that gets as far
      as the search, one that wrapped to no words included, circles at heap_end for ever. */
  lemma TinyHeapNeverEnds(memSize: nat, n: nat, rounds: nat)
    requires n <= memSize && 4 * memSize < TWO_32
    ensures (memSize < MIN_SIZE ==>
               Guard(Cursor([Chunk(0, false)], memSize, rounds), memSize, Need(n))
               && Length([Chunk(0, false)], memSize + HEAD, 0) < Need(n) + HEAD)
    ensures (memSize >= MIN_SIZE ==> !Guard(memSize + HEAD, memSize, Need(n)))
  {
    if memSize < MIN_SIZE {
      assert (4 * memSize - 4 * Need(n)) % TWO_32 == 4 * memSize - 12 + TWO_32;
    } else {
      assert (4 * memSize - 4 * Need(n)) % TWO_32 == 4 * memSize - 4 * Need(n);
    }
  }

  // ---- payloads -----------------------------------------------------------------------------

  /** Payloads of two live blocks share no word, and no payload word lies in any header, the end
      header included. */
  lemma PayloadsDisjoint(cs: seq<Chunk>, memSize: nat, i: nat, j: nat, w: nat)
    requires WellFormed(cs, memSize) && i < |cs| && j < |cs| && InPayload(cs, memSize + HEAD, i, w)
    ensures i != j ==> !InPayload(cs, memSize + HEAD, j, w)
    ensures !(cs[j].start <= w < cs[j].start + HEAD)
    ensures w < memSize + HEAD
  {
    if i != j { OutsideChunk(cs, memSize + HEAD, i, j, w); }
    OnlyHeaders(cs, memSize + HEAD, i, j, w);
    EndsBefore(cs, i + 1, |cs|, memSize + HEAD);
  }
}
