/** How large the blocks are that malloc and realloc of `mem.c` hand out. */
module HeapSizes {
  import opened Wrappers
  import opened Tiling
  import opened SmallMem
  import opened HeapTheorems
  import opened HeapRuns

  /** The block at p is in use and its payload has n words. */
  ghost predicate Holds(cs: seq<Chunk>, end: nat, p: nat, n: int) {
    n >= 0 && BlockAt(cs, end, p, p + HEAD + n)
  }

  /** What becomes of a free block with `has` words of payload that is to give n of them. */
  function Given(has: int, n: nat): int {
    if has >= n + HEAD + MIN_SIZE then n else has
  }

  /** The payload words of the block at p. */
  function PayloadAt(cs: seq<Chunk>, end: nat, p: int): int {
    var k := IndexAt(cs, p);
    if k < |cs| then Length(cs, end, k) - HEAD else 0
  }

  /** A request is rounded to the least multiple of four bytes that has room for it and for twelve. */
  lemma NeedLeast(bytes: nat, n: nat)
    requires bytes + 3 < TWO_32
    ensures bytes <= 4 * Words(bytes) < bytes + 4
    ensures bytes <= 4 * Need(Words(bytes)) && 12 <= 4 * Need(Words(bytes))
    ensures bytes <= 4 * n && 12 <= 4 * n ==> Need(Words(bytes)) <= n
  {}

  lemma CarveGives(cs: seq<Chunk>, end: nat, k: nat, n: nat)
    requires k < |cs| && Length(cs, end, k) >= n + HEAD
    ensures Holds(Carve(cs, end, k, n), end, cs[k].start, Given(Length(cs, end, k) - HEAD, n))
  {
    var cs', start := Carve(cs, end, k, n), cs[k].start;
    assert cs'[k] == Chunk(start, true);
    BlockIs(cs', end, start, start + HEAD + Given(Length(cs, end, k) - HEAD, n), k);
  }

  lemma FoundAt(cs: seq<Chunk>, end: nat, k: nat)
    requires Tiles(cs, end, HEAD) && k < |cs|
    ensures IndexAt(cs, cs[k].start) == k
  {
    StartsDiffer(cs, IndexAt(cs, cs[k].start), k, end);
  }

  /** A block that was free holds n words now, of which it lacked none. */
  ghost predicate HandsOut(cs: seq<Chunk>, cs': seq<Chunk>, end: nat, p: int, n: nat) {
    && p >= 0 && Chunk(p, false) in cs && PayloadAt(cs, end, p) >= n
    && Holds(cs', end, p, Given(PayloadAt(cs, end, p), n))
  }

  /** The block that malloc hands out was free and large enough. It is exactly as large as the rounded request if
      the rest could hold a block of its own, and is otherwise what it was before; so less than a header and the
      smallest block is beyond the request. */
  lemma MallocGives(cs: seq<Chunk>, cs': seq<Chunk>, memSize: nat, bytes: nat, r: Option<int>)
    requires WellFormed(cs, memSize) && Malloced(cs, cs', memSize + HEAD, memSize, Words(bytes), r) && r.Some?
    ensures var p, n, end := r.value - HEAD, Need(Words(bytes)), memSize + HEAD;
      && HandsOut(cs, cs', end, p, n)
      && n <= Given(PayloadAt(cs, end, p), n) < n + HEAD + MIN_SIZE
  {
    var end, k, n := memSize + HEAD, Place(cs, memSize, Need(Words(bytes))), Need(Words(bytes));
    assert Fits(cs, end, memSize - n, n, k);
    FoundAt(cs, end, k);
    CarveGives(cs, end, k, n);
    assert cs[k] in cs;
  }

  lemma ShrinkGives(cs: seq<Chunk>, end: nat, k: nat, n: nat)
    requires k < |cs| && cs[k].used && CanShrink(cs, end, k, n)
    ensures Holds(Shrink(cs, k, n), end, cs[k].start, n)
  {
    var at, start := cs[k].start + HEAD + n, cs[k].start;
    var cut := Split(cs, k, true, at);
    assert cut[k] == Chunk(start, true) && cut[k + 1] == Chunk(at, false);
    BlockIs(cut, end, start, at, k);
    BlockPlug(cut, end, k + 1, start, at);
  }

  lemma MovedGives(cs: seq<Chunk>, memSize: nat, p: nat, n: nat, j: nat)
    requires WellFormed(cs, memSize) && IsLive(cs, p) && j == Place(cs, memSize, n) && j < |cs|
    ensures cs[j].start != p
    ensures HandsOut(cs, FreeAt(Carve(cs, memSize + HEAD, j, n), p), memSize + HEAD, cs[j].start, n)
  {
    var end, q, free := memSize + HEAD, cs[j].start, Length(cs, memSize + HEAD, j) - HEAD;
    assert Fits(cs, end, memSize - n, n, j) && cs[j] in cs;
    StartsDiffer(cs, j, IndexAt(cs, p), end);
    FoundAt(cs, end, j);
    CarveGives(cs, end, j, n);
    hide FreeAt, Carve, BlockAt;
    BlockFree(Carve(cs, end, j, n), end, p, q, q + HEAD + Given(free, n));
  }

  /** No block is free and large enough for n words, among those that the search looks at. */
  ghost predicate NoRoom(cs: seq<Chunk>, end: nat, limit: int, n: nat) {
    forall i :: 0 <= i < |cs| ==> !Fits(cs, end, limit, n, i)
  }

  /** The block at p has n words, or so many more that the rest can be a block. */
  predicate Stays(cs: seq<Chunk>, end: nat, p: int, n: nat) {
    PayloadAt(cs, end, p) == n || n + HEAD + MIN_SIZE < PayloadAt(cs, end, p)
  }

  /** A resized block stays where it is exactly if it already has the size or is larger by more than a header and
      the smallest block, and has exactly the rounded size then. Otherwise, even if it is to become smaller, it
      moves to a free block, which is given as by malloc, or the call is refused as malloc would be. */
  lemma ReallocGives(cs: seq<Chunk>, cs': seq<Chunk>, memSize: nat, p: nat, n: nat, r: Option<int>)
    requires WellFormed(cs, memSize) && IsLive(cs, p) && Resized(cs, cs', memSize + HEAD, memSize, p, n, r)
    ensures var end := memSize + HEAD;
      if Stays(cs, end, p, n) then r == Some(p + HEAD) && Holds(cs', end, p, n)
      else if r.None? then cs' == cs && NoRoom(cs, end, memSize - Need(n), Need(n))
      else r.value - HEAD != p && HandsOut(cs, cs', end, r.value - HEAD, Need(n))
  {
    hide Fits, BlockAt, Tiles, NoTwoFree, Need, Carve, FreeAt, Shrink, IndexAt;
    var j := Place(cs, memSize, Need(n));
    if Stays(cs, memSize + HEAD, p, n) {
      StaysGives(cs, memSize + HEAD, p, n);
    } else if j < |cs| {
      MovedGives(cs, memSize, p, Need(n), j);
    }
  }

  lemma StaysGives(cs: seq<Chunk>, end: nat, p: nat, n: nat)
    requires IsLive(cs, p) && Stays(cs, end, p, n)
    ensures var k := IndexAt(cs, p);
      Holds(if CanShrink(cs, end, k, n) then Shrink(cs, k, n) else cs, end, p, n)
  {
    var k := IndexAt(cs, p);
    assert cs[k] == Chunk(p, true);
    if CanShrink(cs, end, k, n) {
      ShrinkGives(cs, end, k, n);
    } else {
      BlockIs(cs, end, p, p + HEAD + n, k);
    }
  }
}
