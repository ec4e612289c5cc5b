/** Runs of calls on a memory heap: every block that no call is about keeps its place and its payload. */
module MemHeapRuns {
  import opened Wrappers
  import opened Tiling
  import opened Queues
  import opened MemHeaps
  import opened MemHeapTheorems
  import opened MemHeapBlocks

  /** The block that a call is about. */
  function Touched(op: Op): set<int> {
    match op
    case Allocate(_) => {}
    case Release(ptr) => if ptr.Some? then {ptr.value - HEADER} else {}
    case Resize(ptr, _) => if ptr.Some? then {ptr.value - HEADER} else {}
  }

  /** A block in use from its header at p up to e. */
  ghost predicate Lies(h: Heap, p: nat, e: nat) {
    BlockAt(h.chunks, h.pool, p, e)
  }

  lemma CarveLies(h: Heap, k: nat, need: nat, p: nat, e: nat)
    requires Inv(h) && k < |h.chunks| && !h.chunks[k].used && Lies(h, p, e)
    ensures Lies(Carve(h, k, need), p, e)
  {
    var i :| 0 <= i < |h.chunks| && h.chunks[i] == Chunk(p, true) && StartAt(h.chunks, h.pool, i + 1) == e;
    if h.chunks[k].start == p { SameStart(h.chunks, h.pool, i, k); }
    BlockSplit(h.chunks, h.pool, k, h.chunks[k].start + HEADER + need, p, e);
    BlockMark(h.chunks, h.pool, k, true, p, e);
  }

  lemma AllocLies(h: Heap, size: nat, p: nat, e: nat)
    requires Inv(h) && Lies(h, p, e)
    ensures Lies(Alloc(h, size).0, p, e)
  {
    var need := Need(size);
    var i := FirstFit(h, need, 0);
    hide Lies, Carve;
    if need < h.available && i < |h.free| {
      FoundFree(h, i);
      CarveLies(h, IndexAt(h.chunks, h.free[i]), need, p, e);
    }
  }

  lemma FreeLies(h: Heap, q: nat, p: nat, e: nat)
    requires Lies(h, p, e) && p != q
    ensures Lies(Free(h, q), p, e)
  {
    BlockFree(h.chunks, h.pool, q, p, e);
  }

  lemma GrowLies(h: Heap, k: nat, need: nat, p: nat, e: nat)
    requires k < |h.chunks| && CanGrow(h, k, need) && h.chunks[k].start != p && Lies(h, p, e)
    ensures Lies(Grow(h, k, need), p, e)
  {
    var i :| 0 <= i < |h.chunks| && h.chunks[i] == Chunk(p, true) && StartAt(h.chunks, h.pool, i + 1) == e;
    var h' := Grow(h, k, need);
    assert h'.chunks[i] == h.chunks[i];
    BlockIs(h'.chunks, h.pool, p, e, i);
  }

  lemma ShrinkLies(h: Heap, k: nat, need: nat, p: nat, e: nat)
    requires k < |h.chunks| && h.chunks[k].start != p && Lies(h, p, e)
    ensures Lies(Shrink(h, k, need), p, e)
  {
    var at := h.chunks[k].start + HEADER + need;
    var cut := Split(h.chunks, k, true, at);
    assert |cut| == |h.chunks| + 1 && k + 1 < |cut| && cut[k + 1] == Chunk(at, false);
    hide BlockAt, Split, Absorb, Payload, StartAt;
    BlockSplit(h.chunks, h.pool, k, at, p, e);
    if k + 2 < |cut| && !cut[k + 2].used { BlockAbsorb(cut, h.pool, k + 2, p, e); }
  }

  /** A block stays where it is and as long as it is through a call about another one. */
  lemma StepKeepsBlock(h: Heap, op: Op, p: nat, e: nat)
    requires Inv(h) && Legal(h, op) && Lies(h, p, e) && p !in Touched(op)
    ensures Lies(Apply(h, op), p, e)
  {
    hide Lies, Inv, Alloc, Free, Realloc;
    match op
    case Allocate(size) => AllocLies(h, size, p, e);
    case Release(ptr) => if ptr.Some? { FreeLies(h, ptr.value - HEADER, p, e); }
    case Resize(ptr, size) => ReallocLies(h, ptr, size, p, e);
  }

  lemma LiveStart(h: Heap, q: nat)
    requires Inv(h) && Live(h, q)
    ensures IndexAt(h.chunks, q) < |h.chunks| && h.chunks[IndexAt(h.chunks, q)].start == q
  {
    LiveInside(h, q);
  }

  lemma ReallocLies(h: Heap, ptr: Option<nat>, size: nat, p: nat, e: nat)
    requires Inv(h) && Legal(h, Resize(ptr, size)) && Lies(h, p, e) && (ptr.Some? ==> ptr.value - HEADER != p)
    ensures Lies(Realloc(h, ptr, size).0, p, e)
  {
    hide Lies, Inv, Alloc, Free, Grow, Shrink, Payload, CanGrow, Live, GrowWraps, IndexAt;
    var need := Need(size);
    AllocLies(h, need, p, e);
    if ptr.Some? {
      var q := ptr.value - HEADER;
      var k := IndexAt(h.chunks, q);
      LiveStart(h, q);
      FreeLies(h, q, p, e);
      FreeLies(Alloc(h, need).0, q, p, e);
      if CanGrow(h, k, need) { GrowLies(h, k, need, p, e); }
      ShrinkLies(h, k, need, p, e);
    }
  }

  /** The payload bytes of the block from p to e are the same in m and m'. */
  ghost predicate KeepsPayload(m: seq<int>, m': seq<int>, p: nat, e: nat) {
    |m'| == |m| && forall a :: p + HEADER <= a < e && a < |m| ==> m'[a] == m[a]
  }

  lemma SparedBlock(h: Heap, m: seq<int>, m': seq<int>, q: nat, p: nat, e: nat)
    requires OthersKept(h, m, m', q) && Lies(h, p, e) && p != q
    ensures KeepsPayload(m, m', p, e)
  {
    var k :| 0 <= k < |h.chunks| && h.chunks[k] == Chunk(p, true) && StartAt(h.chunks, h.pool, k + 1) == e;
    forall a | p + HEADER <= a < e && a < |m| ensures m'[a] == m[a] {
      assert InPayload(h, k, a);
    }
  }

  /** No call of the run is about the block at p. */
  predicate Spares(ops: seq<Op>, p: nat) {
    forall op <- ops :: p !in Touched(op)
  }

  // ---- headers and payloads -----------------------------------------------------------------

  /** No header lies on address a. */
  ghost predicate NoHeader(h: Heap, a: nat) {
    forall c <- h.chunks :: !(c.start <= a < c.start + HEADER)
  }

  /** The payload of the block from p to e lies in the pool and under no header. */
  ghost predicate OutOfReach(h: Heap, p: nat, e: nat) {
    forall a: nat :: p + HEADER <= a < e ==> a < h.pool && NoHeader(h, a)
  }

  lemma PayloadApart(h: Heap, p: nat, e: nat)
    requires Inv(h) && Lies(h, p, e)
    ensures OutOfReach(h, p, e)
  {
    var k :| 0 <= k < |h.chunks| && h.chunks[k] == Chunk(p, true) && StartAt(h.chunks, h.pool, k + 1) == e;
    hide Inv;
    forall a: nat | p + HEADER <= a < e ensures a < h.pool && NoHeader(h, a) {
      assert InPayload(h, k, a);
      PayloadsDisjoint(h, k, k, a);
      forall j | 0 <= j < |h.chunks| ensures !(h.chunks[j].start <= a < h.chunks[j].start + HEADER) {
        PayloadsDisjoint(h, k, j, a);
      }
    }
  }

  lemma PassesLie(h: Heap, op: Op, p: nat, e: nat)
    requires Inv(h) && Legal(h, op) && Lies(h, p, e) && p !in Touched(op)
    ensures forall v :: v in Passes(h, op) ==> Lies(v, p, e)
  {
    hide Lies, Inv, Alloc, Apply, Legal, Need, Payload, CanGrow, IndexAt;
    StepKeepsBlock(h, op, p, e);
    if op.Resize? { AllocLies(h, Need(op.size), p, e); }
    forall v | v in Passes(h, op) ensures Lies(v, p, e) {
      assert v == Apply(h, op) || (op.Resize? && v == Alloc(h, Need(op.size)).0);
    }
  }

  lemma {:induction false} VisitedLie(h: Heap, ops: seq<Op>, p: nat, e: nat)
    requires Inv(h) && LegalRun(h, ops) && Lies(h, p, e) && Spares(ops, p)
    ensures forall v <- Visited(h, ops) :: Lies(v, p, e)
    decreases |ops|
  {
    if ops != [] {
      assert ops[0] in ops && forall op <- ops[1..] :: op in ops;
      PassesLie(h, ops[0], p, e);
      StepKeepsBlock(h, ops[0], p, e);
      MemHeaps.StepKeeps(h, ops[0]);
      VisitedLie(Apply(h, ops[0]), ops[1..], p, e);
      hide Lies, Inv, Apply, Passes, Legal;
    }
  }

  /** At every moment of a run, a resize that moves a block included, no header lies on the payload of a
      block that no call is about: the writes of headers cannot reach it. */
  lemma NoHeaderReaches(h: Heap, ops: seq<Op>, p: nat, e: nat)
    requires Inv(h) && LegalRun(h, ops) && Lies(h, p, e) && Spares(ops, p)
    ensures forall v <- Visited(h, ops) :: OutOfReach(v, p, e)
  {
    hide Lies, Inv, Visited, LegalRun, Spares, OutOfReach;
    VisitedLie(h, ops, p, e);
    PeakExact(h, ops);
    forall v <- Visited(h, ops) ensures OutOfReach(v, p, e) {
      PayloadApart(v, p, e);
    }
  }

  // ---- runs in place ------------------------------------------------------------------------

  /** The argument is a 32-bit size. */
  predicate Narrow(op: Op) {
    match op
    case Allocate(size) => size < TWO_32
    case Release(_) => true
    case Resize(_, size) => size < TWO_32
  }

  /** What calls that are not about a block keep. */
  ghost predicate Keeps(h: Heap, h': Heap, m: seq<int>, m': seq<int>, ops: seq<Op>) {
    forall p: nat, e: nat :: Lies(h, p, e) && Spares(ops, p) ==> Lies(h', p, e) && KeepsPayload(m, m', p, e)
  }

  lemma StepSpares(h: Heap, op: Op, m: seq<int>, m': seq<int>, q: nat, p: nat, e: nat)
    requires Inv(h) && Legal(h, op) && Lies(h, p, e) && p !in Touched(op)
    requires |m'| == |m| && (m' == m || (q in Touched(op) && OthersKept(h, m, m', q)))
    ensures Lies(Apply(h, op), p, e) && KeepsPayload(m, m', p, e)
  {
    hide *;
    StepKeepsBlock(h, op, p, e);
    if m' != m {
      SparedBlock(h, m, m', q, p, e);
    } else {
      SamePayload(m, p, e);
    }
  }

  lemma SamePayload(m: seq<int>, p: nat, e: nat)
    ensures KeepsPayload(m, m, p, e)
  {}

  lemma SparesOne(op: Op, p: nat)
    requires Spares([op], p)
    ensures p !in Touched(op)
  {
    assert op in [op];
  }

  lemma StepKeeps(h: Heap, op: Op, m: seq<int>, m': seq<int>, q: nat)
    requires Inv(h) && Legal(h, op)
    requires |m'| == |m| && (m' == m || (q in Touched(op) && OthersKept(h, m, m', q)))
    ensures Keeps(h, Apply(h, op), m, m', [op])
  {
    hide Lies, Inv, Legal, Apply, OthersKept, Spares, KeepsPayload, Touched;
    forall p: nat, e: nat | Lies(h, p, e) && Spares([op], p)
      ensures Lies(Apply(h, op), p, e) && KeepsPayload(m, m', p, e)
    {
      SparesOne(op, p);
      StepSpares(h, op, m, m', q, p, e);
    }
  }

  /** One call: the heap ends up as the run has it. */
  method Perform(x: MemHeap, op: Op)
    requires x.Valid() && Legal(x.View(), op) && Narrow(op)
    modifies x, x.mem
    ensures x.Valid() && x.View() == Apply(old(x.View()), op)
    ensures Keeps(old(x.View()), x.View(), old(x.mem[..]), x.mem[..], [op])
  {
    hide Inv, Live, GrowWraps, Alloc, Free, Realloc, KeptContents, Keeps;
    ghost var h, m := x.View(), x.mem[..];
    ValidInv(x);
    match op
    case Allocate(size) =>
      var _ := x.AllocBlock(size);
      StepKeeps(h, op, m, x.mem[..], 0);
    case Release(ptr) =>
      x.FreeBlock(ptr);
      StepKeeps(h, op, m, x.mem[..], 0);
    case Resize(ptr, size) =>
      var r := x.ReallocBlock(ptr, size);
      if ptr.Some? && r.Some? { KeptOthers(h, m, x.mem[..], ptr.value - HEADER, Need(size), r.value); }
      StepKeeps(h, op, m, x.mem[..], if ptr.Some? then ptr.value - HEADER else 0);
  }

  lemma ValidInv(x: MemHeap)
    requires x.Valid()
    ensures Inv(x.View())
  {}

  lemma KeptOthers(h: Heap, m: seq<int>, m': seq<int>, p: nat, need: nat, at: nat)
    requires KeptContents(h, m, m', p, need, at)
    ensures OthersKept(h, m, m', p) && |m'| == |m|
  {}

  lemma KeepsMore(h: Heap, h1: Heap, h2: Heap, m: seq<int>, m1: seq<int>, m2: seq<int>, ops: seq<Op>, op: Op)
    requires Keeps(h, h1, m, m1, ops) && Keeps(h1, h2, m1, m2, [op])
    ensures Keeps(h, h2, m, m2, ops + [op])
  {
    hide Lies, Touched;
    forall p: nat, e: nat | Lies(h, p, e) && Spares(ops + [op], p)
      ensures Lies(h2, p, e) && KeepsPayload(m, m2, p, e)
    {
      assert (ops + [op])[|ops|] == op;
      assert forall o <- ops :: o in ops + [op];
      assert Spares(ops, p) && Spares([op], p);
    }
  }

  lemma KeepsNone(h: Heap, m: seq<int>)
    ensures Keeps(h, h, m, m, [])
  {}

  /** Any sequence of calls on the heap ends in the heap of the run, and every block in use that none of
      the calls is about keeps its place and its payload. */
  method PerformAll(x: MemHeap, ops: seq<Op>)
    requires x.Valid() && LegalRun(x.View(), ops) && forall op <- ops :: Narrow(op)
    modifies x, x.mem
    ensures x.Valid() && x.View() == Run(old(x.View()), ops)
    ensures Keeps(old(x.View()), x.View(), old(x.mem[..]), x.mem[..], ops)
  {
    hide Inv, Keeps, Legal, Apply, Narrow;
    ghost var start, first := x.View(), x.mem[..];
    KeepsNone(start, first);
    var i := 0;
    assert ops[..0] == [] && ops[0..] == ops;
    while i < |ops|
      invariant i <= |ops| && x.Valid() && LegalRun(x.View(), ops[i..])
      invariant Run(x.View(), ops[i..]) == Run(start, ops)
      invariant Keeps(start, x.View(), first, x.mem[..], ops[..i])
    {
      assert ops[i..][1..] == ops[i + 1..] && ops[..i + 1] == ops[..i] + [ops[i]];
      ghost var h, m := x.View(), x.mem[..];
      Perform(x, ops[i]);
      KeepsMore(start, h, x.View(), first, m, x.mem[..], ops[..i], ops[i]);
      i := i + 1;
    }
    assert ops[..i] == ops && ops[i..] == [];
  }
}
