/** The system heap of `mem.c`.

    Memory is an array of 4-byte words (RT_ALIGN_SIZE is 4 and every header, offset and
    rounded size is a multiple of it), so all offsets and sizes here count words. A header
    takes three words: the flag word (used in the upper, magic in the lower half), `next`
    and `prev`. Headers and payloads live in the same array, as they do in the source.
 */
module SmallMem {
  import opened Wrappers
  import opened Tiling

  const HEAD: nat := 3              // SIZEOF_STRUCT_MEM
  const MIN_SIZE: nat := 3          // MIN_SIZE and MIN_SIZE_ALIGNED, 12 bytes
  const FREE_WORD := 0x1ea0         // used == 0, magic == HEAP_MAGIC
  const USED_WORD := 0x1_1ea0       // used == 1, magic == HEAP_MAGIC
  const TWO_32: nat := 0x1_0000_0000

  function FlagWord(used: bool): int {
    if used then USED_WORD else FREE_WORD
  }

  /** RT_ALIGN on a 32-bit size, in words; the addition wraps. */
  function Words(bytes: nat): nat {
    ((bytes + 3) % TWO_32) / 4
  }

  ghost predicate HeaderAt(m: seq<int>, p: nat, used: bool, next: nat, prev: nat) {
    && p + HEAD <= |m|
    && m[p] == FlagWord(used)
    && m[p + 1] == next
    && m[p + 2] == prev
  }

  ghost function PrevStart(cs: seq<Chunk>, k: nat): nat
    requires k <= |cs|
  {
    if k == 0 then 0 else cs[k - 1].start
  }

  /** The words in memory spell out the chunks. The back link of the end header is not
      mentioned: it goes stale. */
  ghost predicate HeadersOk(m: seq<int>, cs: seq<Chunk>, end: nat) {
    && end + HEAD <= |m|
    && m[end] == USED_WORD
    && m[end + 1] == end
    && forall i :: 0 <= i < |cs| ==> ChunkHeader(m, cs, end, i)
  }

  /** The header of chunk i says what the chunk sequence says. */
  ghost predicate ChunkHeader(m: seq<int>, cs: seq<Chunk>, end: nat, i: nat)
    requires i < |cs|
  {
    HeaderAt(m, cs[i].start, cs[i].used, StartAt(cs, end, i + 1), PrevStart(cs, i))
  }

  /** m' differs from m at most in the three-word headers at a, b and c. */
  ghost predicate Agree(m: seq<int>, m': seq<int>, a: nat, b: nat, c: nat) {
    && |m'| == |m|
    && forall w :: 0 <= w < |m| && !(a <= w < a + HEAD) && !(b <= w < b + HEAD) && !(c <= w < c + HEAD)
         ==> m'[w] == m[w]
  }

  /** Every used chunk has the same payload in m and m', except those starting at an offset in `but`. */
  ghost predicate SamePayloads(m: seq<int>, m': seq<int>, cs: seq<Chunk>, end: nat, but: set<int>) {
    && |m'| == |m| >= end
    && forall i, w :: 0 <= i < |cs| && 0 <= w < end && InPayload(cs, end, i, w) && cs[i].start !in but
         ==> m'[w] == m[w]
  }

  /** Word w belongs to the payload of used chunk i. */
  ghost predicate InPayload(cs: seq<Chunk>, end: nat, i: nat, w: nat)
    requires i < |cs|
  {
    cs[i].used && cs[i].start + HEAD <= w < StartAt(cs, end, i + 1)
  }

  /** The `count` words at q in m' are those at p in m. */
  ghost predicate KeptWords(m: seq<int>, m': seq<int>, p: int, q: int, count: int) {
    && 0 <= p && p + count <= |m|
    && 0 <= q && q + count <= |m'|
    && forall i :: 0 <= i < count ==> SameWord(m, m', p, q, i)
  }

  ghost predicate SameWord(m: seq<int>, m': seq<int>, p: int, q: int, i: nat)
    requires 0 <= p && p + i < |m| && 0 <= q && q + i < |m'|
  {
    m'[q + i] == m[p + i]
  }

  lemma NothingChanged(m: seq<int>, cs: seq<Chunk>, end: nat, but: set<int>, p: int, count: int)
    requires |m| >= end
    ensures SamePayloads(m, m, cs, end, but)
    ensures 0 <= p && p + count <= |m| ==> KeptWords(m, m, p, p, count)
  {}

  lemma KeptInPlace(m: seq<int>, m': seq<int>, p: nat, count: nat)
    requires p + count <= |m| && |m| == |m'|
    requires forall w :: p <= w < p + count ==> m'[w] == m[w]
    ensures KeptWords(m, m', p, p, count)
  {
    forall i | 0 <= i < count ensures SameWord(m, m', p, p, i) {
      assert m'[p + i] == m[p + i];
    }
  }

  // ---- what header writes do to the chunk sequence --------------------------------------

  lemma HeadersSplit(m: seq<int>, m': seq<int>, cs: seq<Chunk>, k: nat, u: bool, at: nat, end: nat)
    requires Tiles(cs, end, HEAD) && k < |cs| && HeadersOk(m, cs, end)
    requires cs[k].start + HEAD <= at && at + HEAD <= StartAt(cs, end, k + 1)
    requires Agree(m, m', cs[k].start, at, StartAt(cs, end, k + 1))
    requires HeaderAt(m', cs[k].start, u, at, PrevStart(cs, k))
    requires HeaderAt(m', at, false, StartAt(cs, end, k + 1), cs[k].start)
    requires k + 1 < |cs| ==> HeaderAt(m', cs[k + 1].start, cs[k + 1].used, StartAt(cs, end, k + 2), at)
    requires k + 1 == |cs| ==> m'[end] == m[end] && m'[end + 1] == m[end + 1]
    ensures HeadersOk(m', Split(cs, k, u, at), end)
  {
    var s := Split(cs, k, u, at);
    forall i | 0 <= i < |s|
      ensures ChunkHeader(m', s, end, i)
    {
      SplitView(cs, k, u, at, end, i);
      if i < k {
        HeaderKept(m, m', cs, i, k, at, end);
      } else if i > k + 2 {
        HeaderKept(m, m', cs, i - 1, k, at, end);
      }
    }
    EndKept(m, m', cs, k, at, end);
  }

  lemma SplitView(cs: seq<Chunk>, k: nat, u: bool, at: nat, end: nat, i: nat)
    requires k < |cs| && i <= |cs|
    ensures var s := Split(cs, k, u, at);
      && |s| == |cs| + 1
      && s[i] == (if i < k then cs[i] else if i == k then Chunk(cs[k].start, u)
                  else if i == k + 1 then Chunk(at, false) else cs[i - 1])
      && StartAt(s, end, i + 1) == (if i < k then cs[i + 1].start else if i == k then at else StartAt(cs, end, i))
      && PrevStart(s, i) == (if i <= k then PrevStart(cs, i) else if i == k + 1 then cs[k].start
                             else if i == k + 2 then at else cs[i - 2].start)
  {}

  lemma EndKept(m: seq<int>, m': seq<int>, cs: seq<Chunk>, k: nat, at: nat, end: nat)
    requires Tiles(cs, end, HEAD) && k < |cs| && end + HEAD <= |m|
    requires cs[k].start <= at && at + HEAD <= StartAt(cs, end, k + 1)
    requires Agree(m, m', cs[k].start, at, StartAt(cs, end, k + 1))
    ensures k + 1 < |cs| ==> m'[end] == m[end] && m'[end + 1] == m[end + 1]
  {}

  /** A header away from chunk k and its successor is not among the written ones. */
  lemma HeaderKept(m: seq<int>, m': seq<int>, cs: seq<Chunk>, i: nat, k: nat, at: nat, end: nat)
    requires Tiles(cs, end, HEAD) && k < |cs| && i < |cs| && i != k && i != k + 1 && HeadersOk(m, cs, end)
    requires cs[k].start <= at && at + HEAD <= StartAt(cs, end, k + 1)
    requires Agree(m, m', cs[k].start, at, StartAt(cs, end, k + 1))
    ensures HeaderAt(m', cs[i].start, cs[i].used, StartAt(cs, end, i + 1), PrevStart(cs, i))
  {
    assert ChunkHeader(m, cs, end, i);
    if i < k { EndsBefore(cs, i, k, end); } else { EndsBefore(cs, k + 1, i, end); }
    EndsBefore(cs, k + 1, |cs|, end);
  }

  lemma HeadersMark(m: seq<int>, m': seq<int>, cs: seq<Chunk>, k: nat, u: bool, end: nat)
    requires Tiles(cs, end, HEAD) && k < |cs| && HeadersOk(m, cs, end)
    requires Agree(m, m', cs[k].start, cs[k].start, cs[k].start)
    requires HeaderAt(m', cs[k].start, u, StartAt(cs, end, k + 1), PrevStart(cs, k))
    ensures HeadersOk(m', Mark(cs, k, u), end)
  {
    var s := Mark(cs, k, u);
    EndsBefore(cs, k, |cs|, end);
    forall i | 0 <= i < |s|
      ensures ChunkHeader(m', s, end, i)
    {
      if i < k { EndsBefore(cs, i, k, end); } else if k < i { EndsBefore(cs, k, i, end); }
      assert ChunkHeader(m, cs, end, i);
    }
  }

  lemma HeadersAbsorb(m: seq<int>, m': seq<int>, cs: seq<Chunk>, k: nat, end: nat)
    requires Tiles(cs, end, HEAD) && 0 < k < |cs| && HeadersOk(m, cs, end)
    requires Agree(m, m', cs[k - 1].start, cs[k - 1].start, StartAt(cs, end, k + 1))
    requires HeaderAt(m', cs[k - 1].start, cs[k - 1].used, StartAt(cs, end, k + 1), PrevStart(cs, k - 1))
    requires k + 1 < |cs| ==>
               HeaderAt(m', cs[k + 1].start, cs[k + 1].used, StartAt(cs, end, k + 2), cs[k - 1].start)
    requires k + 1 == |cs| ==> m'[end] == m[end] && m'[end + 1] == m[end + 1]
    ensures HeadersOk(m', Absorb(cs, k), end)
  {
    var s := Absorb(cs, k);
    EndsBefore(cs, k - 1, |cs|, end);
    EndsBefore(cs, k + 1, |cs|, end);
    forall i | 0 <= i < |s|
      ensures ChunkHeader(m', s, end, i)
    {
      if i < k - 1 {
        EndsBefore(cs, i, k - 1, end);
        EndsBefore(cs, k - 1, k + 1, end);
      } else if i > k {
        EndsBefore(cs, k - 1, i + 1, end);
        EndsBefore(cs, k + 1, i + 1, end);
      }
      if i < k - 1 {
        assert ChunkHeader(m, cs, end, i);
      } else if i > k {
        assert ChunkHeader(m, cs, end, i + 1);
      }
    }
  }

  /** The two link writes that take a header out of the chain. */
  function UnlinkMem(m: seq<int>, left: nat, next: nat): seq<int>
    requires left + HEAD <= |m| && next + HEAD <= |m|
  {
    m[left + 1 := next][next + 2 := left]
  }

  lemma UnlinkOk(m: seq<int>, cs: seq<Chunk>, k: nat, end: nat)
    requires Tiles(cs, end, HEAD) && HeadersOk(m, cs, end) && 0 < k < |cs|
    ensures Tiles(Absorb(cs, k), end, HEAD)
    ensures StartAt(cs, end, k + 1) + HEAD <= |m| && cs[k - 1].start + HEAD <= |m|
    ensures var m' := UnlinkMem(m, cs[k - 1].start, StartAt(cs, end, k + 1));
      HeadersOk(m', Absorb(cs, k), end) && SamePayloads(m, m', cs, end, {})
  {
    AbsorbTiles(cs, k, end, HEAD);
    UnlinkHeaders(m, cs, k, end);
    forall i, w | 0 <= i < |cs| && 0 <= w < end && InPayload(cs, end, i, w)
      ensures UnlinkMem(m, cs[k - 1].start, StartAt(cs, end, k + 1))[w] == m[w]
    {
      OnlyHeaders(cs, end, i, k - 1, w);
      if k + 1 < |cs| { OnlyHeaders(cs, end, i, k + 1, w); }
    }
  }

  lemma UnlinkHeaders(m: seq<int>, cs: seq<Chunk>, k: nat, end: nat)
    requires Tiles(cs, end, HEAD) && HeadersOk(m, cs, end) && 0 < k < |cs|
    ensures StartAt(cs, end, k + 1) + HEAD <= |m| && cs[k - 1].start + HEAD <= |m|
    ensures HeadersOk(UnlinkMem(m, cs[k - 1].start, StartAt(cs, end, k + 1)), Absorb(cs, k), end)
  {
    HeaderOf(m, cs, k - 1, end);
    var m' := UnlinkMem(m, cs[k - 1].start, StartAt(cs, end, k + 1));
    if k + 1 < |cs| {
      HeaderOf(m, cs, k + 1, end);
      EndsBefore(cs, k - 1, k + 1, end);
    }
    HeadersAbsorb(m, m', cs, k, end);
  }

  lemma HeaderOf(m: seq<int>, cs: seq<Chunk>, i: nat, end: nat)
    requires HeadersOk(m, cs, end) && i < |cs|
    ensures HeaderAt(m, cs[i].start, cs[i].used, StartAt(cs, end, i + 1), PrevStart(cs, i))
  {
    assert ChunkHeader(m, cs, end, i);
  }

  lemma EndsBefore(cs: seq<Chunk>, i: nat, j: nat, end: nat)
    requires Tiles(cs, end, HEAD) && i <= j <= |cs|
    ensures StartAt(cs, end, i) + (if i < j then HEAD else 0) <= StartAt(cs, end, j) <= end
  {
    if i < j < |cs| { assert Apart(cs, HEAD, i, j); }
  }

  /** The writes that put a new free header at `at` behind the header at p, before `next`. */
  function SplitMem(m: seq<int>, p: nat, at: nat, next: nat, end: nat): seq<int>
    requires p + HEAD <= |m| && at + HEAD <= |m| && next + HEAD <= |m|
  {
    var m1 := m[at := FREE_WORD][at + 1 := next][at + 2 := p][p + 1 := at];
    if next != end then m1[next + 2 := at] else m1
  }

  lemma SplitHeaders(m: seq<int>, cs: seq<Chunk>, k: nat, at: nat, end: nat)
    requires Tiles(cs, end, HEAD) && HeadersOk(m, cs, end) && k < |cs|
    requires cs[k].start + HEAD <= at && at + HEAD <= StartAt(cs, end, k + 1)
    ensures StartAt(cs, end, k + 1) + HEAD <= |m|
    ensures HeadersOk(SplitMem(m, cs[k].start, at, StartAt(cs, end, k + 1), end), Split(cs, k, cs[k].used, at), end)
  {
    HeaderOf(m, cs, k, end);
    EndsBefore(cs, k, k + 1, end);
    if k + 1 < |cs| {
      HeaderOf(m, cs, k + 1, end);
      EndsBefore(cs, k + 1, k + 2, end);
    }
    var m' := SplitMem(m, cs[k].start, at, StartAt(cs, end, k + 1), end);
    HeadersSplit(m, m', cs, k, cs[k].used, at, end);
  }

  lemma SplitOk(m: seq<int>, cs: seq<Chunk>, k: nat, at: nat, end: nat)
    requires Tiles(cs, end, HEAD) && HeadersOk(m, cs, end) && k < |cs|
    requires cs[k].start + HEAD <= at && at + HEAD <= StartAt(cs, end, k + 1)
    ensures StartAt(cs, end, k + 1) + HEAD <= |m|
    ensures Tiles(Split(cs, k, cs[k].used, at), end, HEAD)
    ensures var m' := SplitMem(m, cs[k].start, at, StartAt(cs, end, k + 1), end);
      && HeadersOk(m', Split(cs, k, cs[k].used, at), end)
      && SamePayloads(m, m', cs, end, {cs[k].start})
      && forall w :: cs[k].start + HEAD <= w < at ==> m'[w] == m[w]
  {
    SplitTiles(cs, k, cs[k].used, at, end, HEAD);
    SplitHeaders(m, cs, k, at, end);
    var m' := SplitMem(m, cs[k].start, at, StartAt(cs, end, k + 1), end);
    forall i, w | 0 <= i < |cs| && 0 <= w < end && InPayload(cs, end, i, w) && cs[i].start != cs[k].start
      ensures m'[w] == m[w]
    {
      OnlyHeaders(cs, end, i, k, w);
      if k + 1 < |cs| { OnlyHeaders(cs, end, i, k + 1, w); }
      OutsideChunk(cs, end, i, k, w);
    }
  }

  lemma MarkOk(m: seq<int>, cs: seq<Chunk>, k: nat, u: bool, end: nat)
    requires Tiles(cs, end, HEAD) && HeadersOk(m, cs, end) && k < |cs|
    ensures Tiles(Mark(cs, k, u), end, HEAD)
    ensures var m' := m[cs[k].start := FlagWord(u)];
      HeadersOk(m', Mark(cs, k, u), end) && SamePayloads(m, m', cs, end, {})
  {
    HeaderOf(m, cs, k, end);
    MarkTiles(cs, k, u, end, HEAD);
    HeadersMark(m, m[cs[k].start := FlagWord(u)], cs, k, u, end);
    forall i, w | 0 <= i < |cs| && 0 <= w < end && InPayload(cs, end, i, w)
      ensures m[cs[k].start := FlagWord(u)][w] == m[w]
    {
      OnlyHeaders(cs, end, i, k, w);
    }
  }

  /** Words of different chunks are different words. */
  lemma OutsideChunk(cs: seq<Chunk>, end: nat, i: nat, k: nat, w: nat)
    requires Tiles(cs, end, HEAD) && i < |cs| && k < |cs| && i != k
    requires cs[i].start <= w < StartAt(cs, end, i + 1)
    ensures !(cs[k].start <= w < StartAt(cs, end, k + 1))
  {
    if i < k { EndsBefore(cs, i + 1, k, end); } else { EndsBefore(cs, k + 1, i, end); }
  }

  /** A payload word lies in no header. */
  lemma OnlyHeaders(cs: seq<Chunk>, end: nat, i: nat, j: nat, w: nat)
    requires Tiles(cs, end, HEAD) && i < |cs| && j < |cs|
    requires cs[i].start + HEAD <= w < StartAt(cs, end, i + 1)
    ensures !(cs[j].start <= w < cs[j].start + HEAD)
  {
    if i < j { EndsBefore(cs, i + 1, j, end); } else if j < i { EndsBefore(cs, j, i, end); }
  }

  // ---- what the operations do to the chunk sequence ---------------------------------------

  /** Chunk i is free, holds n words and starts below `limit`. */
  predicate Fits(cs: seq<Chunk>, end: nat, limit: int, n: nat, i: nat)
    requires i < |cs|
  {
    !cs[i].used && cs[i].start < limit && Length(cs, end, i) >= n + HEAD
  }

  /** The lowest fitting chunk at or after position i, found by a scan; |cs| if there is none. */
  function FirstFit(cs: seq<Chunk>, end: nat, limit: int, n: nat, i: nat): (k: nat)
    requires i <= |cs|
    ensures i <= k <= |cs|
    ensures forall j :: i <= j < k ==> !Fits(cs, end, limit, n, j)
    ensures k < |cs| ==> Fits(cs, end, limit, n, k)
    decreases |cs| - i
  {
    if i == |cs| || Fits(cs, end, limit, n, i) then i else FirstFit(cs, end, limit, n, i + 1)
  }

  /** Hand out n words of free chunk k; cut off the rest when it can hold a block of its own. */
  function Carve(cs: seq<Chunk>, end: nat, k: nat, n: nat): seq<Chunk>
    requires k < |cs|
  {
    if Length(cs, end, k) - HEAD >= n + HEAD + MIN_SIZE
    then Split(cs, k, true, cs[k].start + HEAD + n)
    else Mark(cs, k, true)
  }

  /** The payload words handed out at least for a request of n words. */
  function Need(n: nat): nat {
    if n < MIN_SIZE then MIN_SIZE else n
  }

  /** Where a request of n words is satisfied, |cs| if it is not. */
  function Place(cs: seq<Chunk>, memSize: nat, n: nat): nat {
    FirstFit(cs, memSize + HEAD, memSize - n, n, 0)
  }

  class Heap {
    const mem: array<int>      // the words from heap_ptr on
    const memSize: nat         // mem_size_aligned
    var lfree: nat             // offset of the lowest free block, or of heap_end
    var usedMem: int
    var maxMem: int
    ghost var chunks: seq<Chunk>

    ghost function End(): nat { memSize + HEAD }

    ghost predicate Shape()
      reads this`chunks, mem
    {
      && mem.Length == memSize + 2 * HEAD
      && Tiles(chunks, End(), HEAD)
      && HeadersOk(mem[..], chunks, End())
    }

    ghost predicate Valid()
      reads this, mem
    {
      && Shape()
      && NoTwoFree(chunks)
      && lfree == StartAt(chunks, End(), FirstFree(chunks))
      && usedMem == Sum(chunks, End(), true)
      && usedMem <= maxMem
    }

    /** Valid, except that the free chunk k may have free neighbours. */
    ghost predicate Unplugged(k: nat)
      reads this, mem
    {
      && Shape()
      && k < |chunks| && !chunks[k].used && NoTwoFreeBut(chunks, k)
      && lfree == StartAt(chunks, End(), FirstFree(chunks))
      && usedMem == Sum(chunks, End(), true)
      && usedMem <= maxMem
    }

    constructor (words: nat)
      ensures Valid() && fresh(mem) && memSize == words
      ensures chunks == [Chunk(0, false)] && usedMem == 0 && maxMem == 0
    {
      memSize := words;
      mem := new int[words + 2 * HEAD];
      lfree, usedMem, maxMem := 0, 0, 0;
      chunks := [Chunk(0, false)];
      new;
      SetHeader(0, false, memSize + HEAD, 0);
      SetHeader(memSize + HEAD, true, memSize + HEAD, memSize + HEAD);
    }

    method SetHeader(p: nat, used: bool, next: nat, prev: nat)
      requires p + HEAD <= mem.Length
      modifies mem
      ensures mem[..] == old(mem[..])[p := FlagWord(used)][p + 1 := next][p + 2 := prev]
    {
      mem[p], mem[p + 1], mem[p + 2] := FlagWord(used), next, prev;
    }

    /** Used flag of the header at p. */
    function Used(p: nat): bool
      requires p < mem.Length
      reads mem
    {
      mem[p] >= 0x1_0000
    }

    function Next(p: nat): int
      requires p + 1 < mem.Length
      reads mem
    {
      mem[p + 1]
    }

    function Prev(p: nat): int
      requires p + 2 < mem.Length
      reads mem
    {
      mem[p + 2]
    }

    /** Reading chunk k's header. */
    lemma ReadHeader(k: nat)
      requires Shape() && k < |chunks|
      ensures var p := chunks[k].start;
        && p + HEAD <= End()
        && p + HEAD <= StartAt(chunks, End(), k + 1) <= End()
        && Used(p) == chunks[k].used
        && mem[p] == FlagWord(chunks[k].used)
        && Next(p) == StartAt(chunks, End(), k + 1)
        && Prev(p) == PrevStart(chunks, k)
    {
      assert ChunkHeader(mem[..], chunks, End(), k);
      EndsBefore(chunks, k, k + 1, End());
    }

    /** Take the header at `right` out of the chain: its chunk joins the one at `left`. */
    method Unlink(left: nat, right: nat, ghost k: nat)
      requires Shape() && 0 < k < |chunks|
      requires chunks[k - 1].start == left && chunks[k].start == right
      modifies `chunks, mem
      ensures Shape() && chunks == Absorb(old(chunks), k)
      ensures SamePayloads(old(mem[..]), mem[..], old(chunks), End(), {})
    {
      ReadHeader(k - 1);
      ReadHeader(k);
      UnlinkOk(mem[..], chunks, k, End());
      var next := Next(right);
      mem[left + 1] := next;
      mem[next + 2] := left;
      assert mem[..] == UnlinkMem(old(mem[..]), left, next);
      chunks := Absorb(chunks, k);
    }

    /** plug_holes, first half: merge with a free right neighbour. */
    method PlugForward(p: nat, ghost k: nat)
      requires Shape() && k < |chunks| && chunks[k] == Chunk(p, false)
      modifies `lfree, `chunks, mem
      ensures Shape() && chunks == JoinRight(old(chunks), k)
      ensures lfree == if |chunks| < |old(chunks)| && old(lfree) == old(chunks)[k + 1].start then p else old(lfree)
      ensures SamePayloads(old(mem[..]), mem[..], old(chunks), End(), {})
    {
      ReadHeader(k);
      var nmem := Next(p);
      if k + 1 < |chunks| { ReadHeader(k + 1); }
      if p != nmem && !Used(nmem) && nmem != memSize + HEAD {
        if lfree == nmem {
          lfree := p;
        }
        Unlink(p, nmem, k + 1);
      }
    }

    /** plug_holes, second half: merge with a free left neighbour. */
    method PlugBackward(p: nat, ghost k: nat)
      requires Shape() && k < |chunks| && chunks[k] == Chunk(p, false)
      modifies `lfree, `chunks, mem
      ensures Shape() && chunks == JoinLeft(old(chunks), k)
      ensures lfree == if |chunks| < |old(chunks)| && old(lfree) == p then old(chunks)[k - 1].start else old(lfree)
      ensures SamePayloads(old(mem[..]), mem[..], old(chunks), End(), {})
    {
      ReadHeader(k);
      var pmem := Prev(p);
      if k > 0 { ReadHeader(k - 1); }
      if pmem != p && !Used(pmem) {
        if lfree == p {
          lfree := pmem;
        }
        Unlink(pmem, p, k);
      }
    }

    method PlugHoles(p: nat, ghost k: nat)
      requires Unplugged(k) && chunks[k].start == p
      modifies `lfree, `chunks, mem
      ensures Valid() && chunks == Plug(old(chunks), k)
      ensures SamePayloads(old(mem[..]), mem[..], old(chunks), End(), {})
    {
      PlugNoTwoFree(chunks, k);
      PlugPointerLowest(chunks, k, End());
      SumPlug(chunks, k, End(), true);
      PlugForward(p, k);
      label mid:
      PlugBackward(p, k);
      PayloadsThroughJoin(old(mem[..]), old@mid(mem[..]), mem[..], old(chunks), k, End());
    }

    /** Create a free block at `at` inside chunk k, which starts at p. */
    method SplitBlock(p: nat, at: nat, ghost k: nat)
      requires Shape() && k < |chunks| && chunks[k].start == p
      requires p + HEAD <= at && at + HEAD <= StartAt(chunks, End(), k + 1)
      modifies `chunks, mem
      ensures Shape() && chunks == Split(old(chunks), k, old(chunks)[k].used, at)
      ensures SamePayloads(old(mem[..]), mem[..], old(chunks), End(), {p})
      ensures forall w :: p + HEAD <= w < at ==> mem[w] == old(mem[w])
    {
      ReadHeader(k);
      SplitOk(mem[..], chunks, k, at, End());
      var next := Next(p);
      mem[at], mem[at + 1], mem[at + 2] := FREE_WORD, next, p;
      mem[p + 1] := at;
      if next != memSize + HEAD {
        mem[next + 2] := at;
      }
      assert mem[..] == SplitMem(old(mem[..]), p, at, next, End());
      chunks := Split(chunks, k, chunks[k].used, at);
    }

    method SetUsed(p: nat, u: bool, ghost k: nat)
      requires Shape() && k < |chunks| && chunks[k].start == p
      modifies `chunks, mem
      ensures Shape() && chunks == Mark(old(chunks), k, u)
      ensures SamePayloads(old(mem[..]), mem[..], old(chunks), End(), {})
    {
      ReadHeader(k);
      MarkOk(mem[..], chunks, k, u, End());
      mem[p] := FlagWord(u);
      assert mem[..] == old(mem[..])[p := FlagWord(u)];
      chunks := Mark(chunks, k, u);
    }

    /** `while (lfree->used && lfree != heap_end) lfree = lfree->next` */
    method AdvanceFree(ghost start: nat)
      requires Shape() && start <= |chunks| && lfree == StartAt(chunks, End(), start)
      requires forall i :: 0 <= i < start ==> chunks[i].used
      modifies `lfree
      ensures lfree == StartAt(chunks, End(), FirstFree(chunks))
    {
      ghost var i := start;
      while true
        invariant start <= i <= |chunks| && lfree == StartAt(chunks, End(), i)
        invariant forall j :: 0 <= j < i ==> chunks[j].used
        decreases |chunks| - i
      {
        if i < |chunks| { ReadHeader(i); }
        if !(Used(lfree) && lfree != memSize + HEAD) { break; }
        lfree := Next(lfree);
        i := i + 1;
      }
    }

    /** Mark the free block at `ptr` used, after cutting off what it does not need. */
    method CarveBlock(ptr: nat, n: nat, ghost k: nat)
      requires Shape() && k < |chunks| && chunks[k] == Chunk(ptr, false)
      requires Length(chunks, End(), k) >= n + HEAD
      modifies `usedMem, `chunks, mem
      ensures Shape() && chunks == Carve(old(chunks), End(), k, n)
      ensures usedMem == old(usedMem) + Length(chunks, End(), k)
      ensures SamePayloads(old(mem[..]), mem[..], old(chunks), End(), {})
    {
      ReadHeader(k);
      var room := Next(ptr) - (ptr + HEAD);
      if room >= n + HEAD + MIN_SIZE {
        MarkSplit(chunks, End(), k, ptr + HEAD + n);
        SplitBlock(ptr, ptr + HEAD + n, k);
        label mid:
        SetUsed(ptr, true, k);
        PayloadsThroughSplit(old(mem[..]), old@mid(mem[..]), mem[..], old(chunks), k, ptr + HEAD + n, End());
        usedMem := usedMem + n + HEAD;
      } else {
        SetUsed(ptr, true, k);
        usedMem := usedMem + (room + HEAD);
      }
    }

    /** Hand out the free block at `ptr`: the body of the search loop's hit. */
    method TakeBlock(ptr: nat, n: nat, ghost k: nat)
      requires Valid() && k < |chunks| && chunks[k] == Chunk(ptr, false)
      requires Length(chunks, End(), k) >= n + HEAD
      modifies this, mem
      ensures Valid() && chunks == Carve(old(chunks), End(), k, n)
      ensures maxMem == Max(old(maxMem), usedMem)
      ensures SamePayloads(old(mem[..]), mem[..], old(chunks), End(), {})
    {
      CarveOk(chunks, End(), k, n);
      CarveBlock(ptr, n, k);
      if maxMem < usedMem {
        maxMem := usedMem;
      }
      if ptr == lfree {
        StartsDistinct(old(chunks), FirstFree(old(chunks)), k, End());
        CarveFirstFree(old(chunks), End(), k, n);
        AdvanceFree(k);
      }
    }

    /** The search loop of rt_malloc: it starts at lfree, yet finds what a scan of all
        blocks from offset 0 finds. */
    method Search(n: nat) returns (r: Option<nat>)
      requires Valid() && n <= memSize
      ensures var k := Place(chunks, memSize, n);
        r == if k < |chunks| then Some(chunks[k].start) else None
    {
      var ptr, limit := lfree, memSize - n;
      ghost var i := FirstFree(chunks);
      while ptr < limit
        invariant i <= |chunks| && ptr == StartAt(chunks, End(), i)
        invariant forall j :: 0 <= j < i ==> !Fits(chunks, End(), limit, n, j)
        decreases |chunks| - i
      {
        ReadHeader(i);
        if !Used(ptr) && Next(ptr) - (ptr + HEAD) >= n {
          FirstFitIs(chunks, End(), limit, n, 0, i);
          return Some(ptr);
        }
        ptr := Next(ptr);
        i := i + 1;
      }
      forall j | i <= j < |chunks| ensures !Fits(chunks, End(), limit, n, j) {
        EndsBefore(chunks, i, j, End());
      }
      FirstFitIs(chunks, End(), limit, n, 0, |chunks|);
      return None;
    }

    /** rt_malloc. Some(p) is the payload offset. */
    method Malloc(size: nat) returns (r: Option<nat>)
      requires Valid() && MIN_SIZE <= memSize && size < TWO_32
      modifies this, mem
      ensures Valid()
      ensures size == 0 || Words(size) > memSize || Place(old(chunks), memSize, Need(Words(size))) == |old(chunks)|
              ==> r.None? && chunks == old(chunks) && maxMem == old(maxMem) && mem[..] == old(mem[..])
      ensures size != 0 && Words(size) <= memSize && Place(old(chunks), memSize, Need(Words(size))) < |old(chunks)|
              ==> var k := Place(old(chunks), memSize, Need(Words(size)));
                  && r == Some(old(chunks)[k].start + HEAD)
                  && chunks == Carve(old(chunks), End(), k, Need(Words(size)))
                  && maxMem == Max(old(maxMem), usedMem)
      ensures SamePayloads(old(mem[..]), mem[..], old(chunks), End(), {})
    {
      if size == 0 {
        return None;
      }
      var n := Words(size);
      if n > memSize {
        return None;
      }
      if n < MIN_SIZE {
        n := MIN_SIZE;
      }
      var hit := Search(n);
      if hit.None? {
        return None;
      }
      ghost var k := Place(chunks, memSize, n);
      assert chunks[k] == Chunk(hit.value, false);
      TakeBlock(hit.value, n, k);
      return Some(hit.value + HEAD);
    }

    /** rt_free. A null pointer and one outside the heap are ignored; any other must be live. */
    method Free(rmem: Option<int>)
      requires Valid()
      requires InHeap(rmem, End()) ==> IsLive(chunks, rmem.value - HEAD)
      modifies this, mem
      ensures Valid() && maxMem == old(maxMem)
      ensures !InHeap(rmem, End()) ==> chunks == old(chunks) && mem[..] == old(mem[..])
      ensures InHeap(rmem, End()) ==> chunks == FreeAt(old(chunks), rmem.value - HEAD)
      ensures InHeap(rmem, End()) ==>
                SamePayloads(old(mem[..]), mem[..], old(chunks), End(), {rmem.value - HEAD})
    {
      if rmem.Some? {
        if rmem.value < 0 || rmem.value >= memSize + HEAD {
          return;
        }
        var p := rmem.value - HEAD;
        ghost var k := IndexAt(chunks, p);
        assert chunks[k] == Chunk(p, true);
        ReleaseBlock(p, k);
      }
    }

    /** Clear the used flag of the block at p and take its length off the books. */
    method MarkFree(p: nat, ghost k: nat)
      requires Valid() && k < |chunks| && chunks[k] == Chunk(p, true)
      modifies this, mem
      ensures Unplugged(k) && chunks == Mark(old(chunks), k, false) && maxMem == old(maxMem)
      ensures SamePayloads(old(mem[..]), mem[..], old(chunks), End(), {})
    {
      LowestAfterMark(chunks, End(), k);
      MarkBorders(chunks, k);
      SumMark(chunks, k, false, End(), true);
      SetUsed(p, false, k);
      if p < lfree {
        lfree := p;
      }
      ReadHeader(k);
      usedMem := usedMem - (Next(p) - p);
    }

    /** Give back the used block at p. */
    method ReleaseBlock(p: nat, ghost k: nat)
      requires Valid() && k < |chunks| && chunks[k] == Chunk(p, true)
      modifies this, mem
      ensures Valid() && maxMem == old(maxMem)
      ensures chunks == FreeAt(old(chunks), p)
      ensures SamePayloads(old(mem[..]), mem[..], old(chunks), End(), {p})
    {
      FreeAtIs(chunks, End(), k);
      MarkFree(p, k);
      label mid:
      PlugHoles(p, k);
      PayloadsThroughMark(old(mem[..]), old@mid(mem[..]), mem[..], old(chunks), k, End());
    }

    /** Cut the used block at p down to n words: the rest is a free block of its own. */
    method CutBlock(p: nat, n: nat, ghost k: nat)
      requires Valid() && k < |chunks| && chunks[k] == Chunk(p, true)
      requires n + 2 * HEAD <= Length(chunks, End(), k)
      modifies this, mem
      ensures Unplugged(k + 1) && chunks == Split(old(chunks), k, true, old(chunks)[k].start + HEAD + n)
                && maxMem == old(maxMem)
      ensures SamePayloads(old(mem[..]), mem[..], old(chunks), End(), {p})
      ensures KeptWords(old(mem[..]), mem[..], p + HEAD, p + HEAD, n)
    {
      ReadHeader(k);
      LowestAfterShrink(chunks, End(), k, n);
      SplitBorders(chunks, k, p + HEAD + n);
      SumSplit(chunks, k, true, p + HEAD + n, End(), true);
      usedMem := usedMem - (Next(p) - p - HEAD - n);
      var at := p + HEAD + n;
      SplitBlock(p, at, k);
      if at < lfree {
        lfree := at;
      }
      KeptInPlace(old(mem[..]), mem[..], p + HEAD, n);
    }

    /** Shrink the used block at p to n words in place. */
    method ShrinkBlock(p: nat, n: nat, ghost k: nat)
      requires Valid() && k < |chunks| && chunks[k] == Chunk(p, true)
      requires n + HEAD + MIN_SIZE < Length(chunks, End(), k) - HEAD
      modifies this, mem
      ensures Valid() && maxMem == old(maxMem)
      ensures chunks == Shrink(old(chunks), k, n)
      ensures SamePayloads(old(mem[..]), mem[..], old(chunks), End(), {p})
      ensures KeptWords(old(mem[..]), mem[..], p + HEAD, p + HEAD, n)
    {
      ghost var cs, m := chunks, mem[..];
      CutBlock(p, n, k);
      ghost var cut, m1 := chunks, mem[..];
      assert cut == Split(cs, k, true, cs[k].start + HEAD + n);
      PlugHoles(p + HEAD + n, k + 1);
      assert chunks == Plug(cut, k + 1);
      PayloadsThroughShrink(m, m1, mem[..], cs, k, p, n, End());
    }

    /** rt_memcpy between two disjoint ranges. */
    method CopyWords(dst: nat, src: nat, count: nat)
      requires dst + count <= mem.Length && src + count <= mem.Length
      requires dst + count <= src || src + count <= dst
      modifies mem
      ensures forall w :: 0 <= w < mem.Length ==>
                mem[w] == if dst <= w < dst + count then old(mem[src + (w - dst)]) else old(mem[w])
    {
      var i := 0;
      while i < count
        invariant i <= count
        invariant forall w :: 0 <= w < mem.Length ==>
                    mem[w] == if dst <= w < dst + i then old(mem[src + (w - dst)]) else old(mem[w])
      {
        mem[dst + i] := mem[src + i];
        i := i + 1;
      }
    }

    /** Copy the first `count` payload words of the block at p into the one at q, then free p. */
    method TransferBlock(q: nat, p: nat, count: nat, ghost j: nat, ghost k: nat)
      requires Valid() && j < |chunks| && k < |chunks| && j != k
      requires chunks[j] == Chunk(q, true) && count <= Length(chunks, End(), j) - HEAD
      requires chunks[k] == Chunk(p, true) && count <= Length(chunks, End(), k) - HEAD
      modifies this, mem
      ensures Valid() && chunks == FreeAt(old(chunks), p) && maxMem == old(maxMem)
      ensures SamePayloads(old(mem[..]), mem[..], old(chunks), End(), {q, p})
      ensures KeptWords(old(mem[..]), mem[..], p + HEAD, q + HEAD, count)
    {
      CopyPayload(q, p, count, j, k);
      label copied:
      ReleaseBlock(p, k);
      TransferPayloads(old(mem[..]), old@copied(mem[..]), mem[..], old(chunks), j, q, k, p, count, End());
    }

    /** The part of a move that follows the allocation of q, seen from the chunks cs and the
        memory m before that allocation. */
    method FinishMove(q: nat, p: nat, count: nat, ghost m: seq<int>, ghost cs: seq<Chunk>,
                      ghost j: nat, ghost k: nat, ghost n: nat)
      requires Valid() && Tiles(cs, End(), HEAD) && j < |cs| && k < |cs|
      requires cs[j] == Chunk(q, false) && cs[k] == Chunk(p, true)
      requires Length(cs, End(), j) >= Need(n) + HEAD && chunks == Carve(cs, End(), j, Need(n))
      requires count <= n && count <= Length(cs, End(), k) - HEAD
      requires SamePayloads(m, mem[..], cs, End(), {})
      modifies this, mem
      ensures Valid() && chunks == FreeAt(old(chunks), p) && maxMem == old(maxMem)
      ensures SamePayloads(m, mem[..], cs, End(), {p})
      ensures KeptWords(m, mem[..], p + HEAD, q + HEAD, count)
    {
      CarveView(cs, End(), j, Need(n), k);
      TransferBlock(q, p, count, j, if k < j then k else k + |chunks| - |cs|);
      MovedPayloads(m, old(mem[..]), mem[..], cs, j, q, Need(n), k, p, count, End());
    }

    /** Copy the first `count` payload words of the block at p into the one at q. */
    method CopyPayload(q: nat, p: nat, count: nat, ghost j: nat, ghost k: nat)
      requires Valid() && j < |chunks| && k < |chunks| && j != k
      requires chunks[j] == Chunk(q, true) && count <= Length(chunks, End(), j) - HEAD
      requires chunks[k] == Chunk(p, true) && count <= Length(chunks, End(), k) - HEAD
      modifies mem
      ensures Valid()
      ensures SamePayloads(old(mem[..]), mem[..], chunks, End(), {q})
      ensures KeptWords(old(mem[..]), mem[..], p + HEAD, q + HEAD, count)
    {
      EndsBefore(chunks, j + 1, |chunks|, End());
      EndsBefore(chunks, k + 1, |chunks|, End());
      if j < k { EndsBefore(chunks, j + 1, k, End()); } else { EndsBefore(chunks, k + 1, j, End()); }
      var src, dst := p + HEAD, q + HEAD;
      CopyWords(dst, src, count);
      PayloadWrite(old(mem[..]), mem[..], chunks, j, dst, count, End());
      forall i | 0 <= i < count ensures SameWord(old(mem[..]), mem[..], src, dst, i) {}
    }

    /** The expanding half of rt_realloc: allocate, copy, free. */
    method MoveBlock(p: nat, n: nat, ghost k: nat, ghost j: nat) returns (r: Option<nat>)
      requires Valid() && MIN_SIZE <= memSize && 0 < n <= memSize && 4 * n < TWO_32
      requires k < |chunks| && chunks[k] == Chunk(p, true) && j == Place(chunks, memSize, Need(n))
      modifies this, mem
      ensures Valid()
      ensures r.Some? <==> j < |old(chunks)|
      ensures r.None? ==> chunks == old(chunks) && maxMem == old(maxMem) && mem[..] == old(mem[..])
      ensures r.Some? ==> r.value == old(chunks)[j].start + HEAD
      ensures r.Some? ==> chunks == FreeAt(Carve(old(chunks), End(), j, Need(n)), p)
      ensures r.Some? ==> maxMem == Max(old(maxMem), Sum(Carve(old(chunks), End(), j, Need(n)), End(), true))
      ensures r.Some? ==>
                KeptWords(old(mem[..]), mem[..], p + HEAD, old(chunks)[j].start + HEAD,
                    Min(n, Length(old(chunks), End(), k) - HEAD))
      ensures SamePayloads(old(mem[..]), mem[..], old(chunks), End(), {p})
    {
      hide FreeAt, KeptWords, SamePayloads, Sum, NoTwoFree, Carve, HeadersOk, Words;
      ReadHeader(k);
      var size := Next(p) - p - HEAD;
      WordsExact(n);
      r := Malloc(4 * n);
      assert r == if j < |old(chunks)| then Some(old(chunks)[j].start + HEAD) else None;
      NothingChanged(old(mem[..]), chunks, End(), {p}, 0, 0);
      if r.Some? {
        assert chunks == Carve(old(chunks), End(), j, Need(n));
        var q, count := r.value - HEAD, Min(n, size);
        assert q == old(chunks)[j].start && count == Min(n, Length(old(chunks), End(), k) - HEAD);
        FinishMove(q, p, count, old(mem[..]), old(chunks), j, k, n);
      }
    }

    /** The shrinking branch of rt_realloc. */
    method ResizeByCut(p: nat, n: nat, ghost k: nat)
      requires Valid() && k == IndexAt(chunks, p) && k < |chunks| && chunks[k] == Chunk(p, true)
      requires CanShrink(chunks, End(), k, n)
      modifies this, mem
      ensures Valid()
      ensures ResizeOk(old(chunks), chunks, old(mem[..]), mem[..], old(maxMem), maxMem, End(), memSize, p, n,
                Some(p + HEAD))
    {
      ShrinkBlock(p, n, k);
      ShrinkOk(old(chunks), chunks, old(mem[..]), mem[..], old(maxMem), maxMem, End(), memSize, p, n, k);
    }

    /** The branch of rt_realloc that takes a new block. */
    method ResizeByMove(p: nat, n: nat, ghost k: nat) returns (r: Option<int>)
      requires Valid() && MIN_SIZE <= memSize && 0 < n <= memSize && 4 * n < TWO_32
      requires k == IndexAt(chunks, p) && k < |chunks| && chunks[k] == Chunk(p, true)
      requires MustMove(chunks, End(), k, n)
      modifies this, mem
      ensures Valid()
      ensures ResizeOk(old(chunks), chunks, old(mem[..]), mem[..], old(maxMem), maxMem, End(), memSize, p, n, r)
    {
      ghost var j := Place(chunks, memSize, Need(n));
      hide *;
      r := MoveBlock(p, n, k, j);
      MoveOk(old(chunks), chunks, old(mem[..]), mem[..], old(maxMem), maxMem, End(), memSize, p, n, k, j, r);
    }

    /** rt_realloc of the live block at p to n words: kept, cut in place, moved, or refused. */
    method Resize(p: nat, n: nat, ghost k: nat) returns (r: Option<int>)
      requires Valid() && MIN_SIZE <= memSize && 0 < n <= memSize && 4 * n < TWO_32
      requires k == IndexAt(chunks, p) && k < |chunks| && chunks[k] == Chunk(p, true)
      modifies this, mem
      ensures Valid()
      ensures ResizeOk(old(chunks), chunks, old(mem[..]), mem[..], old(maxMem), maxMem, End(), memSize, p, n, r)
    {
      ReadHeader(k);
      var size := Next(p) - p - HEAD;
      assert size == Length(chunks, End(), k) - HEAD;
      if size == n {
        KeepOk(chunks, mem[..], maxMem, End(), memSize, p, n);
        r := Some(p + HEAD);
      } else if n + HEAD + MIN_SIZE < size {
        ResizeByCut(p, n, k);
        r := Some(p + HEAD);
      } else {
        r := ResizeByMove(p, n, k);
      }
    }

    /** rt_realloc for a rounded size that is neither zero nor too large. */
    method ReallocWords(rmem: Option<int>, n: nat) returns (r: Option<int>)
      requires Valid() && MIN_SIZE <= memSize && 0 < n <= memSize && 4 * n < TWO_32
      requires InHeap(rmem, End()) ==> IsLive(chunks, rmem.value - HEAD)
      modifies this, mem
      ensures Valid()
      ensures rmem.Some? && !InHeap(rmem, End()) ==>
                r == rmem && chunks == old(chunks) && mem[..] == old(mem[..]) && maxMem == old(maxMem)
      ensures rmem.None? ==> Malloced(old(chunks), chunks, End(), memSize, n, r)
      ensures rmem.None? && r.Some? ==> maxMem == Max(old(maxMem), usedMem)
      ensures rmem.None? ==> SamePayloads(old(mem[..]), mem[..], old(chunks), End(), {})
      ensures rmem.None? && r.None? ==> chunks == old(chunks) && mem[..] == old(mem[..]) && maxMem == old(maxMem)
      ensures InHeap(rmem, End()) ==> ResizeOk(old(chunks), chunks, old(mem[..]), mem[..], old(maxMem), maxMem, End(),
                memSize, rmem.value - HEAD, n, r)
    {
      if rmem.None? {
        WordsExact(n);
        var q := Malloc(4 * n);
        r := if q.Some? then Some(q.value) else None;
      } else if rmem.value < 0 || rmem.value >= memSize + HEAD {
        r := rmem;
      } else {
        r := Resize(rmem.value - HEAD, n, IndexAt(chunks, rmem.value - HEAD));
      }
    }

    /** rt_realloc. A pointer inside the heap must be live. */
    method Realloc(rmem: Option<int>, newsize: nat) returns (r: Option<int>)
      requires Valid() && MIN_SIZE <= memSize && newsize < TWO_32
      requires InHeap(rmem, End()) ==> IsLive(chunks, rmem.value - HEAD)
      modifies this, mem
      ensures Valid()
      ensures Words(newsize) > memSize ==>
                r.None? && chunks == old(chunks) && mem[..] == old(mem[..]) && maxMem == old(maxMem)
      ensures Words(newsize) == 0 ==> r.None? && maxMem == old(maxMem)
      ensures Words(newsize) == 0 ==>
                chunks == if InHeap(rmem, End()) then FreeAt(old(chunks), rmem.value - HEAD) else old(chunks)
      ensures 0 < Words(newsize) <= memSize && rmem.Some? && !InHeap(rmem, End()) ==>
                r == rmem && chunks == old(chunks) && mem[..] == old(mem[..]) && maxMem == old(maxMem)
      ensures 0 < Words(newsize) <= memSize && rmem.None? ==>
                Malloced(old(chunks), chunks, End(), memSize, Words(newsize), r)
      ensures 0 < Words(newsize) <= memSize && InHeap(rmem, End()) ==>
                ResizeOk(old(chunks), chunks, old(mem[..]), mem[..], old(maxMem), maxMem, End(), memSize,
                    rmem.value - HEAD, Words(newsize), r)
      ensures rmem.None? && r.None? ==> chunks == old(chunks) && mem[..] == old(mem[..]) && maxMem == old(maxMem)
      ensures rmem.None? && r.Some? ==> maxMem == Max(old(maxMem), usedMem)
      ensures InHeap(rmem, End()) ==> SamePayloads(old(mem[..]), mem[..], old(chunks), End(), {rmem.value - HEAD})
      ensures !InHeap(rmem, End()) ==> SamePayloads(old(mem[..]), mem[..], old(chunks), End(), {})
      ensures rmem.Some? && !InHeap(rmem, End()) ==>
                chunks == old(chunks) && mem[..] == old(mem[..]) && maxMem == old(maxMem)
    {
      var n := Words(newsize);
      if n > memSize {
        if InHeap(rmem, End()) { NothingChanged(mem[..], chunks, End(), {rmem.value - HEAD}, 0, 0); }
        r := None;
      } else if n == 0 {
        Free(rmem);
        r := None;
      } else {
        r := ReallocWords(rmem, n);
      }
    }
  }

  // ---- the area of the heap ----------------------------------------------------------------

  /** RT_ALIGN of an address; the addition wraps. */
  function AlignUp(address: nat): nat {
    (address + 3) % TWO_32 / 4 * 4
  }

  /** mem_size_aligned for the given area, in words, unless rt_system_heap_init refuses it. */
  function AreaWords(begin: nat, end: nat): Option<nat> {
    var b, e := AlignUp(begin), end / 4 * 4;
    if e > 24 && e - 24 >= b then Some((e - b - 24) / 4) else None
  }

  /** The heap with its two closing headers lies inside the area it was given, and wastes less than
      four bytes at either end, exactly when aligning the begin address does not wrap. */
  lemma AreaInside(begin: nat, end: nat)
    requires begin < TWO_32 && end < TWO_32 && AreaWords(begin, end).Some?
    ensures var b, past := AlignUp(begin), AlignUp(begin) + 4 * (AreaWords(begin, end).value + 2 * HEAD);
      (begin <= b < begin + 4 && past <= end < past + 4) <==> begin + 3 < TWO_32
  {}

  /** An area is refused exactly when its aligned part cannot hold the two headers, or would just do
      so at address 0. */
  lemma AreaRefused(begin: nat, end: nat)
    requires begin < TWO_32 && end < TWO_32
    ensures AreaWords(begin, end).None? <==>
              end / 4 * 4 < AlignUp(begin) + 24 || (AlignUp(begin) == 0 && end / 4 * 4 == 24)
  {}

  /** rt_system_heap_init: the heap on an area from one address up to another, null if it is refused. */
  method Init(begin: nat, end: nat) returns (h: Heap?)
    requires begin < TWO_32 && end < TWO_32
    ensures h == null <==> AreaWords(begin, end).None?
    ensures h != null ==> fresh(h) && fresh(h.mem) && h.Valid() && Some(h.memSize) == AreaWords(begin, end)
    ensures h != null ==> h.chunks == [Chunk(0, false)] && h.usedMem == 0 && h.maxMem == 0
  {
    var b, e := AlignUp(begin), end / 4 * 4;
    if e > 24 && e - 24 >= b {
      h := new Heap((e - b - 24) / 4);
    } else {
      h := null;
    }
  }

  // ---- what rt_realloc does -----------------------------------------------------------------

  /** What rt_realloc of the live block at p to n words does to chunks, memory and peak: they
      are as they should be; after a refusal nothing has changed; otherwise the block keeps its
      contents up to the smaller of the two sizes; and other live payloads never change. */
  ghost predicate ResizeOk(cs: seq<Chunk>, cs': seq<Chunk>, m: seq<int>, m': seq<int>, peak: int, peak': int,
                           end: nat, memSize: nat, p: int, n: nat, r: Option<int>) {
    && Resized(cs, cs', end, memSize, p, n, r)
    && peak' == ResizedPeak(cs, end, memSize, IndexAt(cs, p), n, peak)
    && (r.None? ==> cs' == cs && m' == m && peak' == peak)
    && (r.Some? ==> KeptWords(m, m', p + HEAD, r.value, Min(n, Length(cs, end, IndexAt(cs, p)) - HEAD)))
    && SamePayloads(m, m', cs, end, {p})
  }

  lemma KeepOk(cs: seq<Chunk>, m: seq<int>, peak: int, end: nat, memSize: nat, p: nat, n: nat)
    requires IsLive(cs, p) && n == Length(cs, end, IndexAt(cs, p)) - HEAD
    requires StartAt(cs, end, IndexAt(cs, p) + 1) <= end <= |m|
    ensures ResizeOk(cs, cs, m, m, peak, peak, end, memSize, p, n, Some(p + HEAD))
  {
    NothingChanged(m, cs, end, {p}, p + HEAD, n);
  }

  lemma ShrinkOk(cs: seq<Chunk>, cs': seq<Chunk>, m: seq<int>, m': seq<int>, peak: int, peak': int,
                 end: nat, memSize: nat, p: nat, n: nat, k: nat)
    requires k == IndexAt(cs, p) && k < |cs| && CanShrink(cs, end, k, n)
    requires cs' == Shrink(cs, k, n) && peak' == peak
    requires SamePayloads(m, m', cs, end, {p})
    requires KeptWords(m, m', p + HEAD, p + HEAD, n)
    ensures ResizeOk(cs, cs', m, m', peak, peak', end, memSize, p, n, Some(p + HEAD))
  {
    assert Min(n, Length(cs, end, k) - HEAD) == n;
  }

  lemma MoveOk(cs: seq<Chunk>, cs': seq<Chunk>, m: seq<int>, m': seq<int>, peak: int, peak': int,
               end: nat, memSize: nat, p: nat, n: nat, k: nat, j: nat, r: Option<int>)
    requires k == IndexAt(cs, p) && k < |cs| && MustMove(cs, end, k, n) && j == Place(cs, memSize, Need(n))
    requires r.Some? <==> j < |cs|
    requires r.None? ==> cs' == cs && peak' == peak && m' == m
    requires r.Some? ==> r.value == cs[j].start + HEAD
    requires r.Some? ==> cs' == FreeAt(Carve(cs, end, j, Need(n)), p)
    requires r.Some? ==> peak' == Max(peak, Sum(Carve(cs, end, j, Need(n)), end, true))
    requires r.Some? ==> KeptWords(m, m', p + HEAD, cs[j].start + HEAD, Min(n, Length(cs, end, k) - HEAD))
    requires SamePayloads(m, m', cs, end, {p})
    ensures ResizeOk(cs, cs', m, m', peak, peak', end, memSize, p, n, r)
  {
    hide FirstFit, Sum, FreeAt, Carve, IndexAt, KeptWords, SamePayloads;
    MovedChunks(cs, cs', end, memSize, p, n, k, j, r);
    MovedPeak(cs, peak, end, memSize, n, k, j);
    assert r.None? ==> peak' == ResizedPeak(cs, end, memSize, k, n, peak);
    assert r.Some? ==> KeptWords(m, m', p + HEAD, r.value, Min(n, Length(cs, end, k) - HEAD));
  }

  lemma MovedPeak(cs: seq<Chunk>, peak: int, end: nat, memSize: nat, n: nat, k: nat, j: nat)
    requires k < |cs| && MustMove(cs, end, k, n) && j == Place(cs, memSize, Need(n))
    ensures ResizedPeak(cs, end, memSize, k, n, peak) ==
            if j < |cs| then Max(peak, Sum(Carve(cs, end, j, Need(n)), end, true)) else peak
  {}

  lemma MovedChunks(cs: seq<Chunk>, cs': seq<Chunk>, end: nat, memSize: nat, p: nat, n: nat, k: nat, j: nat,
        r: Option<int>)
    requires k == IndexAt(cs, p) && k < |cs| && MustMove(cs, end, k, n) && j == Place(cs, memSize, Need(n))
    requires r.Some? <==> j < |cs|
    requires r.None? ==> cs' == cs
    requires r.Some? ==> r.value == cs[j].start + HEAD && cs' == FreeAt(Carve(cs, end, j, Need(n)), p)
    ensures Resized(cs, cs', end, memSize, p, n, r)
  {
    hide FirstFit, FreeAt, Carve, IndexAt;
  }

  /** The chunks and the result of allocating n words. */
  ghost predicate Malloced(cs: seq<Chunk>, cs': seq<Chunk>, end: nat, memSize: nat, n: nat, r: Option<int>) {
    var j := Place(cs, memSize, Need(n));
    if j == |cs| then r.None? && cs' == cs
    else r == Some(cs[j].start + HEAD) && cs' == Carve(cs, end, j, Need(n))
  }

  /** The pointer lies between heap_ptr and heap_end. */
  predicate InHeap(p: Option<int>, end: nat) {
    p.Some? && 0 <= p.value < end
  }

  /** rt_realloc cuts the block in place when a whole free block can be split off. */
  predicate CanShrink(cs: seq<Chunk>, end: nat, k: nat, n: nat)
    requires k < |cs|
  {
    n + HEAD + MIN_SIZE < Length(cs, end, k) - HEAD
  }

  predicate MustMove(cs: seq<Chunk>, end: nat, k: nat, n: nat)
    requires k < |cs|
  {
    n + HEAD + MIN_SIZE >= Length(cs, end, k) - HEAD && n != Length(cs, end, k) - HEAD
  }

  /** The chunks and the result after resizing the live block whose header is at p. */
  ghost predicate Resized(cs: seq<Chunk>, cs': seq<Chunk>, end: nat, memSize: nat, p: int, n: nat, r: Option<int>) {
    var k := IndexAt(cs, p);
    var j := Place(cs, memSize, Need(n));
    && k < |cs|
    && (n == Length(cs, end, k) - HEAD ==> r == Some(p + HEAD) && cs' == cs)
    && (CanShrink(cs, end, k, n) ==> r == Some(p + HEAD) && cs' == Shrink(cs, k, n))
    && (MustMove(cs, end, k, n) && j == |cs| ==> r.None? && cs' == cs)
    && (MustMove(cs, end, k, n) && j < |cs| ==>
          r == Some(cs[j].start + HEAD) && cs' == FreeAt(Carve(cs, end, j, Need(n)), p))
  }

  /** Peak of used_mem after resizing chunk k: a move holds both blocks for a while. */
  function ResizedPeak(cs: seq<Chunk>, end: nat, memSize: nat, k: nat, n: nat, peak: int): int
    requires k < |cs|
  {
    var j := Place(cs, memSize, Need(n));
    if MustMove(cs, end, k, n) && j < |cs| then Max(peak, Sum(Carve(cs, end, j, Need(n)), end, true)) else peak
  }

  /** The chunks after shrinking chunk k to n words. */
  function Shrink(cs: seq<Chunk>, k: nat, n: nat): seq<Chunk>
    requires k < |cs|
  {
    Plug(Split(cs, k, true, cs[k].start + HEAD + n), k + 1)
  }

  lemma LowestAfterShrink(cs: seq<Chunk>, end: nat, k: nat, n: nat)
    requires Tiles(cs, end, HEAD) && k < |cs| && cs[k].used
    requires n + 2 * HEAD <= Length(cs, end, k)
    ensures var at, lf := cs[k].start + HEAD + n, StartAt(cs, end, FirstFree(cs)); var s := Split(cs, k, true, at);
      StartAt(s, end, FirstFree(s)) == if at < lf then at else lf
  {
    var s := Split(cs, k, true, cs[k].start + HEAD + n);
    assert forall i :: 0 <= i < k ==> s[i] == cs[i];
    assert s[k].used && !s[k + 1].used;
    assert FirstFree(s) == if FirstFree(cs) <= k then FirstFree(cs) else k + 1;
    if k + 1 < FirstFree(cs) < |cs| { EndsBefore(cs, k + 1, FirstFree(cs), end); }
    EndsBefore(cs, k, k + 1, end);
    if FirstFree(cs) < k { EndsBefore(cs, FirstFree(cs), k, end); }
  }

  lemma PayloadsThroughShrink(m0: seq<int>, m1: seq<int>, m2: seq<int>, cs: seq<Chunk>, k: nat, p: nat, n: nat,
        end: nat)
    requires Tiles(cs, end, HEAD) && k < |cs| && cs[k] == Chunk(p, true)
    requires n + 2 * HEAD <= Length(cs, end, k)
    requires SamePayloads(m0, m1, cs, end, {p})
    requires KeptWords(m0, m1, p + HEAD, p + HEAD, n)
    requires SamePayloads(m1, m2, Split(cs, k, true, cs[k].start + HEAD + n), end, {})
    ensures SamePayloads(m0, m2, cs, end, {p})
    ensures KeptWords(m0, m2, p + HEAD, p + HEAD, n)
  {
    var at := cs[k].start + HEAD + n;
    var s := Split(cs, k, true, at);
    SplitView(cs, k, true, at, end, k);
    EndsBefore(cs, k, k + 1, end);
    var q := cs[k].start + HEAD;
    forall i | 0 <= i < n ensures SameWord(m0, m2, q, q, i) {
      assert SameWord(m0, m1, q, q, i) && InPayload(s, end, k, q + i);
    }
    forall i, w | 0 <= i < |cs| && 0 <= w < end && InPayload(cs, end, i, w) && cs[i].start != cs[k].start
      ensures m2[w] == m0[w]
    {
      SplitView(cs, k, true, at, end, if i < k then i else i + 1);
      assert InPayload(s, end, if i < k then i else i + 1, w);
    }
  }

  /** After handing out chunk j, live chunk k still is where it was, and the new block does not meet it. */
  lemma CarveView(cs: seq<Chunk>, end: nat, j: nat, n: nat, k: nat)
    requires Tiles(cs, end, HEAD) && j < |cs| && k < |cs| && j != k && !cs[j].used && cs[k].used
    requires Length(cs, end, j) >= n + HEAD
    ensures var s := Carve(cs, end, j, n); var k' := if k < j then k else k + |s| - |cs|;
      && k' < |s| && s[k'] == cs[k] && StartAt(s, end, k' + 1) == StartAt(cs, end, k + 1)
      && j < |s| && s[j] == Chunk(cs[j].start, true)
      && Length(s, end, j) >= n + HEAD
    ensures cs[j].start + HEAD + n <= cs[k].start || StartAt(cs, end, k + 1) <= cs[j].start
  {
    var s := Carve(cs, end, j, n);
    var k' := if k < j then k else k + |s| - |cs|;
    if j < k { EndsBefore(cs, j + 1, k, end); } else { EndsBefore(cs, k + 1, j, end); }
  }

  /** Writing inside one payload leaves the headers and all other payloads alone. */
  lemma PayloadWrite(m: seq<int>, m': seq<int>, cs: seq<Chunk>, j: nat, dst: nat, count: nat, end: nat)
    requires Tiles(cs, end, HEAD) && HeadersOk(m, cs, end) && j < |cs| && |m'| == |m|
    requires cs[j].start + HEAD <= dst && dst + count <= StartAt(cs, end, j + 1)
    requires forall w :: 0 <= w < |m| && !(dst <= w < dst + count) ==> m'[w] == m[w]
    ensures HeadersOk(m', cs, end) && SamePayloads(m, m', cs, end, {cs[j].start})
  {
    EndsBefore(cs, j, j + 1, end);
    forall i | 0 <= i < |cs| ensures ChunkHeader(m', cs, end, i) {
      HeaderOf(m, cs, i, end);
      if i < j { EndsBefore(cs, i, j, end); } else if i > j { EndsBefore(cs, j + 1, i, end); }
    }
    forall i, w | 0 <= i < |cs| && 0 <= w < end && InPayload(cs, end, i, w) && cs[i].start != cs[j].start
      ensures m'[w] == m[w]
    {
      OutsideChunk(cs, end, i, j, w);
    }
  }

  /** Copy, free: the copied words stay and no third payload changes. */
  lemma TransferPayloads(m0: seq<int>, m1: seq<int>, m2: seq<int>, cs: seq<Chunk>,
                         j: nat, q: nat, k: nat, p: nat, count: nat, end: nat)
    requires Tiles(cs, end, HEAD) && j < |cs| && k < |cs| && j != k && cs[j] == Chunk(q, true) && cs[k].start == p
    requires count <= Length(cs, end, j) - HEAD
    requires SamePayloads(m0, m1, cs, end, {q})
    requires KeptWords(m0, m1, p + HEAD, q + HEAD, count)
    requires SamePayloads(m1, m2, cs, end, {p})
    ensures SamePayloads(m0, m2, cs, end, {q, p})
    ensures KeptWords(m0, m2, p + HEAD, q + HEAD, count)
  {
    StartsDiffer(cs, j, k, end);
    EndsBefore(cs, j + 1, |cs|, end);
    var src, dst := p + HEAD, q + HEAD;
    forall i | 0 <= i < count ensures SameWord(m0, m2, src, dst, i) {
      assert SameWord(m0, m1, src, dst, i) && InPayload(cs, end, j, dst + i);
    }
  }

  /** Allocate, then copy and free: the kept words arrive and no third payload changes. */
  lemma MovedPayloads(m0: seq<int>, m1: seq<int>, m2: seq<int>, cs: seq<Chunk>,
                      j: nat, q: nat, n: nat, k: nat, p: nat, count: nat, end: nat)
    requires Tiles(cs, end, HEAD) && j < |cs| && k < |cs| && cs[j] == Chunk(q, false) && cs[k] == Chunk(p, true)
    requires Length(cs, end, j) >= n + HEAD && count <= Length(cs, end, k) - HEAD
    requires SamePayloads(m0, m1, cs, end, {})
    requires SamePayloads(m1, m2, Carve(cs, end, j, n), end, {q, p})
    requires KeptWords(m1, m2, p + HEAD, q + HEAD, count)
    ensures SamePayloads(m0, m2, cs, end, {p})
    ensures KeptWords(m0, m2, p + HEAD, q + HEAD, count)
  {
    var s := Carve(cs, end, j, n);
    EndsBefore(cs, k + 1, |cs|, end);
    var src, dst := p + HEAD, q + HEAD;
    forall i | 0 <= i < count ensures SameWord(m0, m2, src, dst, i) {
      assert SameWord(m1, m2, src, dst, i) && InPayload(cs, end, k, src + i);
    }
    forall i, w | 0 <= i < |cs| && 0 <= w < end && InPayload(cs, end, i, w) && cs[i].start != cs[k].start
      ensures m2[w] == m0[w]
    {
      CarveView(cs, end, j, n, i);
      StartsDiffer(cs, i, j, end);
      assert InPayload(s, end, if i < j then i else i + |s| - |cs|, w);
    }
  }

  lemma WordsExact(n: nat)
    requires 4 * n < TWO_32
    ensures Words(4 * n) == n
  {}

  lemma StartsDistinct(cs: seq<Chunk>, i: nat, j: nat, end: nat)
    requires Tiles(cs, end, HEAD) && i <= |cs| && j < |cs| && StartAt(cs, end, i) == cs[j].start
    ensures i == j
  {
    if i < j { EndsBefore(cs, i, j, end); } else { EndsBefore(cs, j, i, end); }
  }

  lemma StartsDiffer(cs: seq<Chunk>, i: nat, j: nat, end: nat)
    requires Tiles(cs, end, HEAD) && i < |cs| && j < |cs|
    ensures i != j ==> cs[i].start != cs[j].start
  {
    if i < j { EndsBefore(cs, i, j, end); } else if j < i { EndsBefore(cs, j, i, end); }
  }

  /** FirstFit is the only position that fits with none fitting before it. */
  lemma FirstFitIs(cs: seq<Chunk>, end: nat, limit: int, n: nat, i: nat, k: nat)
    requires i <= k <= |cs|
    requires forall j :: i <= j < k ==> !Fits(cs, end, limit, n, j)
    requires k < |cs| ==> Fits(cs, end, limit, n, k)
    ensures FirstFit(cs, end, limit, n, i) == k
    decreases k - i
  {
    if i < k { FirstFitIs(cs, end, limit, n, i + 1, k); }
  }

  lemma FreeAtIs(cs: seq<Chunk>, end: nat, k: nat)
    requires Tiles(cs, end, HEAD) && k < |cs|
    ensures FreeAt(cs, cs[k].start) == Plug(Mark(cs, k, false), k)
  {
    StartsDistinct(cs, IndexAt(cs, cs[k].start), k, end);
  }

  lemma LowestAfterMark(cs: seq<Chunk>, end: nat, k: nat)
    requires Tiles(cs, end, HEAD) && k < |cs| && cs[k].used
    ensures var lf, marked := StartAt(cs, end, FirstFree(cs)), Mark(cs, k, false);
      StartAt(marked, end, FirstFree(marked)) == if cs[k].start < lf then cs[k].start else lf
  {
    assert forall i :: 0 <= i < |cs| && i != k ==> Mark(cs, k, false)[i] == cs[i];
    FirstFreeIs(Mark(cs, k, false), if k < FirstFree(cs) then k else FirstFree(cs));
    if k < FirstFree(cs) { EndsBefore(cs, k, FirstFree(cs), end); } else { EndsBefore(cs, FirstFree(cs), k, end); }
  }

  lemma PayloadsThroughMark(m0: seq<int>, m1: seq<int>, m2: seq<int>, cs: seq<Chunk>, k: nat, end: nat)
    requires Tiles(cs, end, HEAD) && k < |cs|
    requires SamePayloads(m0, m1, cs, end, {})
    requires SamePayloads(m1, m2, Mark(cs, k, false), end, {})
    ensures SamePayloads(m0, m2, cs, end, {cs[k].start})
  {
    var s := Mark(cs, k, false);
    forall i, w | 0 <= i < |cs| && 0 <= w < end && InPayload(cs, end, i, w) && cs[i].start != cs[k].start
      ensures m2[w] == m0[w]
    {
      assert s[i] == cs[i] && InPayload(s, end, i, w);
    }
  }

  lemma MarkSplit(cs: seq<Chunk>, end: nat, k: nat, at: nat)
    requires k < |cs|
    ensures Mark(Split(cs, k, false, at), k, true) == Split(cs, k, true, at)
    ensures Split(cs, k, false, at)[k].start == Split(cs, k, true, at)[k].start == cs[k].start
    ensures Length(Split(cs, k, true, at), end, k) == at - cs[k].start
  {}

  /** Handing out a block: no two free neighbours appear, and the used total grows by
      exactly the length handed out. */
  lemma CarveOk(cs: seq<Chunk>, end: nat, k: nat, n: nat)
    requires Tiles(cs, end, HEAD) && NoTwoFree(cs) && k < |cs| && !cs[k].used
    requires Length(cs, end, k) >= n + HEAD
    ensures NoTwoFree(Carve(cs, end, k, n))
    ensures Carve(cs, end, k, n)[k] == Chunk(cs[k].start, true)
    ensures Sum(Carve(cs, end, k, n), end, true)
         == Sum(cs, end, true) + Length(Carve(cs, end, k, n), end, k)
    ensures FirstFree(cs) < k ==>
              StartAt(Carve(cs, end, k, n), end, FirstFree(Carve(cs, end, k, n))) == StartAt(cs, end, FirstFree(cs))
    ensures FirstFree(cs) <= k
  {
    var s := Carve(cs, end, k, n);
    var at := cs[k].start + HEAD + n;
    SumSplit(cs, k, true, at, end, true);
    SumMark(cs, k, true, end, true);
    NoTwoFreeAt(cs, k);
    SplitBorders(cs, k, at);
    MarkBorders(cs, k);
    assert forall i :: 0 <= i < k ==> s[i] == cs[i];
  }

  lemma CarveFirstFree(cs: seq<Chunk>, end: nat, k: nat, n: nat)
    requires k < |cs| && FirstFree(cs) == k
    ensures forall i :: 0 <= i < k ==> Carve(cs, end, k, n)[i].used
  {
    assert forall i :: 0 <= i < k ==> Carve(cs, end, k, n)[i] == cs[i];
  }

  lemma PayloadsThroughSplit(m0: seq<int>, m1: seq<int>, m2: seq<int>, cs: seq<Chunk>, k: nat, at: nat, end: nat)
    requires Tiles(cs, end, HEAD) && k < |cs| && !cs[k].used
    requires SamePayloads(m0, m1, cs, end, {cs[k].start})
    requires SamePayloads(m1, m2, Split(cs, k, false, at), end, {})
    ensures SamePayloads(m0, m2, cs, end, {})
  {
    forall i, w | 0 <= i < |cs| && 0 <= w < end && InPayload(cs, end, i, w)
      ensures m2[w] == m0[w]
    {
      SplitView(cs, k, false, at, end, if i < k then i else i + 1);
      assert InPayload(Split(cs, k, false, at), end, if i < k then i else i + 1, w);
      StartsDiffer(cs, i, k, end);
    }
  }

  /** What plug_holes does to the lowest-free pointer. */
  function PlugPointer(cs: seq<Chunk>, k: nat, lf: nat): nat
    requires k < |cs|
  {
    var right := JoinRight(cs, k);
    var lf1 := if |right| < |cs| && lf == cs[k + 1].start then cs[k].start else lf;
    if |Plug(cs, k)| < |right| && lf1 == cs[k].start then cs[k - 1].start else lf1
  }

  lemma FirstFreeAbsorb(cs: seq<Chunk>, k: nat)
    requires 0 < k < |cs| && !cs[k].used && !cs[k - 1].used
    ensures FirstFree(Absorb(cs, k)) == FirstFree(cs) < k
  {
    var s := Absorb(cs, k);
    assert forall i :: 0 <= i < k ==> s[i] == cs[i];
  }

  /** A pointer to the lowest free block still is one after plugging. */
  lemma PlugPointerLowest(cs: seq<Chunk>, k: nat, end: nat)
    requires Tiles(cs, end, HEAD) && k < |cs| && !cs[k].used
    ensures PlugPointer(cs, k, StartAt(cs, end, FirstFree(cs)))
         == StartAt(Plug(cs, k), end, FirstFree(Plug(cs, k)))
  {
    var right := JoinRight(cs, k);
    EndsBefore(cs, FirstFree(cs), k, end);
    if |right| < |cs| {
      FirstFreeAbsorb(cs, k + 1);
      EndsBefore(cs, FirstFree(cs), k + 1, end);
    }
    if |Plug(cs, k)| < |right| { FirstFreeAbsorb(right, k); }
  }

  lemma PayloadsThroughJoin(m0: seq<int>, m1: seq<int>, m2: seq<int>, cs: seq<Chunk>, k: nat, end: nat)
    requires Tiles(cs, end, HEAD) && k < |cs| && !cs[k].used
    requires SamePayloads(m0, m1, cs, end, {})
    requires SamePayloads(m1, m2, JoinRight(cs, k), end, {})
    ensures SamePayloads(m0, m2, cs, end, {})
  {
    var right := JoinRight(cs, k);
    forall i, w | 0 <= i < |cs| && 0 <= w < end && InPayload(cs, end, i, w)
      ensures m2[w] == m0[w]
    {
      var i' := if i <= k || |right| == |cs| then i else i - 1;
      assert right[i'] == cs[i] && InPayload(right, end, i', w);
    }
  }
}
