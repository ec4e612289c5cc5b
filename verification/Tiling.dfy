/** Chunk sequences: how an allocator cuts one memory area into consecutive blocks.

    A block is known by the offset of its header and by its used flag; it ends where the
    next block starts. Both `mem.c` and `memheap.c` keep such a tiling, the first with
    offsets stored in the headers, the second with a ring of pointers.
 */
module Tiling {

  function Max(a: int, b: int): int { if a < b then b else a }

  function Min(a: int, b: int): int { if a < b then a else b }

  datatype Chunk = Chunk(start: nat, used: bool)

  /** The chunks start at offset 0, lie in address order, are each at least `head` long
      and end before `end`. Because a chunk ends where its successor starts, they cover
      [0, end) without gap or overlap. */
  ghost predicate Tiles(cs: seq<Chunk>, end: nat, head: nat) {
    && |cs| > 0
    && cs[0].start == 0
    && (forall i, j :: 0 <= i < j < |cs| ==> Apart(cs, head, i, j))
    && (forall i :: 0 <= i < |cs| ==> cs[i].start + head <= end)
  }

  /** Chunk i ends, with at least a header's length, no later than chunk j starts. */
  ghost predicate Apart(cs: seq<Chunk>, head: nat, i: nat, j: nat)
    requires i < |cs| && j < |cs|
  {
    cs[i].start + head <= cs[j].start
  }

  ghost predicate NoTwoFree(cs: seq<Chunk>) {
    forall i :: 0 <= i < |cs| - 1 ==> BorderOk(cs, i)
  }

  /** Chunks i and i + 1 are not both free. */
  ghost predicate BorderOk(cs: seq<Chunk>, i: nat)
    requires i + 1 < |cs|
  {
    cs[i].used || cs[i + 1].used
  }

  /** Where chunk k starts; `end` for the position after the last chunk. */
  function StartAt(cs: seq<Chunk>, end: nat, k: nat): nat {
    if k < |cs| then cs[k].start else end
  }

  /** Position of the first free chunk, or |cs|. */
  function FirstFree(cs: seq<Chunk>): (k: nat)
    ensures k <= |cs|
    ensures forall i :: 0 <= i < k ==> cs[i].used
    ensures k < |cs| ==> !cs[k].used
  {
    FirstFreeFrom(cs, 0)
  }

  function FirstFreeFrom(cs: seq<Chunk>, i: nat): (k: nat)
    requires i <= |cs|
    ensures i <= k <= |cs|
    ensures forall j :: i <= j < k ==> cs[j].used
    ensures k < |cs| ==> !cs[k].used
    decreases |cs| - i
  {
    if i == |cs| || !cs[i].used then i else FirstFreeFrom(cs, i + 1)
  }

  /** FirstFree is the only position with used chunks before it and a free one, or none, at it. */
  lemma FirstFreeIs(cs: seq<Chunk>, k: nat)
    requires k <= |cs| && (k < |cs| ==> !cs[k].used)
    requires forall i :: 0 <= i < k ==> cs[i].used
    ensures FirstFree(cs) == k
  {}

  /** Total length of the chunks whose used flag is u, up to `end`. */
  function Sum(cs: seq<Chunk>, end: nat, u: bool): int {
    if cs == [] then 0
    else (if cs[0].used == u then StartAt(cs, end, 1) - cs[0].start else 0) + Sum(cs[1..], end, u)
  }

  /** Cut chunk k in two: the first part keeps its header and gets flag u, a free rest starts at `at`. */
  function Split(cs: seq<Chunk>, k: nat, u: bool, at: nat): seq<Chunk>
    requires k < |cs|
  {
    cs[..k] + [Chunk(cs[k].start, u), Chunk(at, false)] + cs[k + 1..]
  }

  function Mark(cs: seq<Chunk>, k: nat, u: bool): seq<Chunk>
    requires k < |cs|
  {
    cs[k := Chunk(cs[k].start, u)]
  }

  /** Drop header k: its bytes now belong to chunk k - 1. */
  function Absorb(cs: seq<Chunk>, k: nat): seq<Chunk>
    requires 0 < k < |cs|
  {
    cs[..k] + cs[k + 1..]
  }

  function JoinRight(cs: seq<Chunk>, k: nat): seq<Chunk>
    requires k < |cs|
  {
    if k + 1 < |cs| && !cs[k + 1].used then Absorb(cs, k + 1) else cs
  }

  function JoinLeft(cs: seq<Chunk>, k: nat): seq<Chunk>
    requires k < |cs|
  {
    if k > 0 && !cs[k - 1].used then Absorb(cs, k) else cs
  }

  /** Merge free chunk k with a free right neighbour and then with a free left neighbour. */
  function Plug(cs: seq<Chunk>, k: nat): seq<Chunk>
    requires k < |cs|
  {
    JoinLeft(JoinRight(cs, k), k)
  }

  /** No two free neighbours, except possibly at the borders of chunk k. */
  ghost predicate NoTwoFreeBut(cs: seq<Chunk>, k: nat) {
    forall i :: 0 <= i < |cs| - 1 && i != k && i + 1 != k ==> BorderOk(cs, i)
  }

  function UsedStarts(cs: seq<Chunk>): set<nat> {
    set c <- cs | c.used :: c.start
  }

  /** Position of the chunk that starts at p, or |cs|. */
  function IndexAt(cs: seq<Chunk>, p: int): (k: nat)
    ensures k <= |cs|
    ensures k < |cs| ==> cs[k].start == p
    ensures forall i :: 0 <= i < k ==> cs[i].start != p
  {
    IndexFrom(cs, p, 0)
  }

  function IndexFrom(cs: seq<Chunk>, p: int, i: nat): (k: nat)
    requires i <= |cs|
    ensures i <= k <= |cs|
    ensures k < |cs| ==> cs[k].start == p
    ensures forall j :: i <= j < k ==> cs[j].start != p
    decreases |cs| - i
  {
    if i == |cs| || cs[i].start == p then i else IndexFrom(cs, p, i + 1)
  }

  /** A used chunk starts at p. */
  predicate IsLive(cs: seq<Chunk>, p: int) {
    var k := IndexAt(cs, p);
    k < |cs| && cs[k].used
  }

  /** Free the chunk that starts at p. */
  function FreeAt(cs: seq<Chunk>, p: int): seq<Chunk> {
    var k := IndexAt(cs, p);
    if k < |cs| then Plug(Mark(cs, k, false), k) else cs
  }

  // ---- sums ---------------------------------------------------------------------------

  lemma {:induction false} SumConcat(a: seq<Chunk>, b: seq<Chunk>, end: nat, u: bool)
    ensures Sum(a + b, end, u) == Sum(a, StartAt(b, end, 0), u) + Sum(b, end, u)
  {
    if a == [] {
      assert a + b == b;
    } else {
      assert (a + b)[1..] == a[1..] + b;
      SumConcat(a[1..], b, end, u);
      if |a| == 1 {
        assert a[1..] + b == b;
      }
    }
  }

  /** Length of chunk k, header included. */
  function Length(cs: seq<Chunk>, end: nat, k: nat): int
    requires k < |cs|
  {
    StartAt(cs, end, k + 1) - cs[k].start
  }

  lemma SumAt(cs: seq<Chunk>, k: nat, end: nat, u: bool)
    requires k < |cs|
    ensures Sum(cs, end, u)
         == Sum(cs[..k], cs[k].start, u)
          + (if cs[k].used == u then Length(cs, end, k) else 0)
          + Sum(cs[k + 1..], end, u)
  {
    assert cs == cs[..k] + cs[k..];
    assert cs[k..][1..] == cs[k + 1..];
    SumConcat(cs[..k], cs[k..], end, u);
  }

  lemma SumSplit(cs: seq<Chunk>, k: nat, v: bool, at: nat, end: nat, u: bool)
    requires k < |cs|
    ensures Sum(Split(cs, k, v, at), end, u)
         == Sum(cs, end, u)
          - (if cs[k].used == u then Length(cs, end, k) else 0)
          + (if v == u then at - cs[k].start else 0)
          + (if !u then StartAt(cs, end, k + 1) - at else 0)
  {
    var s := Split(cs, k, v, at);
    SumAt(cs, k, end, u);
    SumAt(s, k, end, u);
    assert s[..k] == cs[..k];
    assert s[k + 1..][1..] == cs[k + 1..];
  }

  lemma SumMark(cs: seq<Chunk>, k: nat, v: bool, end: nat, u: bool)
    requires k < |cs|
    ensures Sum(Mark(cs, k, v), end, u)
         == Sum(cs, end, u)
          - (if cs[k].used == u then Length(cs, end, k) else 0)
          + (if v == u then Length(cs, end, k) else 0)
  {
    SumAt(cs, k, end, u);
    SumAt(Mark(cs, k, v), k, end, u);
    assert Mark(cs, k, v)[..k] == cs[..k];
    assert Mark(cs, k, v)[k + 1..] == cs[k + 1..];
  }

  /** Dropping the header of a chunk moves no length between used and free when the
      chunk and its left neighbour have the same flag. */
  lemma SumAbsorb(cs: seq<Chunk>, k: nat, end: nat, u: bool)
    requires 0 < k < |cs| && cs[k - 1].used == cs[k].used
    ensures Sum(Absorb(cs, k), end, u) == Sum(cs, end, u)
  {
    var s := Absorb(cs, k);
    SumAt(cs, k - 1, end, u);
    SumAt(s, k - 1, end, u);
    assert s[..k - 1] == cs[..k - 1];
    assert s[k..] == cs[k + 1..];
    assert cs[k..][1..] == cs[k + 1..];
  }

  lemma SumPlug(cs: seq<Chunk>, k: nat, end: nat, u: bool)
    requires k < |cs| && !cs[k].used
    ensures Sum(Plug(cs, k), end, u) == Sum(cs, end, u)
  {
    var right := JoinRight(cs, k);
    if right != cs {
      SumAbsorb(cs, k + 1, end, u);
    }
    if k > 0 && !right[k - 1].used {
      SumAbsorb(right, k, end, u);
    }
  }

  /** Used and free lengths add up to the whole area. */
  lemma {:induction false} SumTotal(cs: seq<Chunk>, end: nat)
    requires |cs| > 0
    ensures Sum(cs, end, true) + Sum(cs, end, false) == end - cs[0].start
  {
    if |cs| > 1 {
      SumTotal(cs[1..], end);
    }
  }

  // ---- structure ----------------------------------------------------------------------

  lemma SplitTiles(cs: seq<Chunk>, k: nat, u: bool, at: nat, end: nat, head: nat)
    requires Tiles(cs, end, head) && k < |cs|
    requires cs[k].start + head <= at && at + head <= StartAt(cs, end, k + 1)
    ensures Tiles(Split(cs, k, u, at), end, head)
  {
    var s := Split(cs, k, u, at);
    forall i | 0 <= i < |s|
      ensures s[i].start == if i <= k then cs[i].start else if i == k + 1 then at else cs[i - 1].start
    {}
    forall i, j | 0 <= i < j < |s| ensures Apart(s, head, i, j) {
      var i', j' := if i <= k then i else i - 1, if j <= k then j else j - 1;
      if i' < j' { assert Apart(cs, head, i', j'); }
      if k < j' { assert Apart(cs, head, k, j'); }
      if k + 1 < j' { assert Apart(cs, head, k + 1, j'); }
      if i' < k { assert Apart(cs, head, i', k); }
    }
    if k + 1 < |cs| { assert cs[k + 1].start + head <= end; }
  }

  lemma AbsorbTiles(cs: seq<Chunk>, k: nat, end: nat, head: nat)
    requires Tiles(cs, end, head) && 0 < k < |cs|
    ensures Tiles(Absorb(cs, k), end, head)
  {
    var s := Absorb(cs, k);
    forall i, j | 0 <= i < j < |s| ensures Apart(s, head, i, j) {
      assert Apart(cs, head, if i < k then i else i + 1, if j < k then j else j + 1);
    }
  }

  lemma MarkTiles(cs: seq<Chunk>, k: nat, u: bool, end: nat, head: nat)
    requires Tiles(cs, end, head) && k < |cs|
    ensures Tiles(Mark(cs, k, u), end, head)
  {
    var s := Mark(cs, k, u);
    forall i, j | 0 <= i < j < |s| ensures Apart(s, head, i, j) {
      assert Apart(cs, head, i, j);
    }
  }

  lemma PlugTiles(cs: seq<Chunk>, k: nat, end: nat, head: nat)
    requires Tiles(cs, end, head) && k < |cs|
    ensures Tiles(JoinRight(cs, k), end, head)
    ensures Tiles(Plug(cs, k), end, head)
  {
    if k + 1 < |cs| && !cs[k + 1].used { AbsorbTiles(cs, k + 1, end, head); }
    var right := JoinRight(cs, k);
    if k > 0 && !right[k - 1].used { AbsorbTiles(right, k, end, head); }
  }

  /** Merging both ways around the one exception restores the global property. */
  lemma PlugNoTwoFree(cs: seq<Chunk>, k: nat)
    requires k < |cs| && !cs[k].used && NoTwoFreeBut(cs, k)
    ensures NoTwoFree(Plug(cs, k))
  {
    JoinRightBorders(cs, k);
    JoinLeftBorders(JoinRight(cs, k), k);
  }

  lemma JoinRightBorders(cs: seq<Chunk>, k: nat)
    requires k < |cs| && !cs[k].used && NoTwoFreeBut(cs, k)
    ensures var right := JoinRight(cs, k);
      NoTwoFreeBut(right, k) && right[k] == cs[k] && (k + 1 < |right| ==> right[k + 1].used)
  {
    var right := JoinRight(cs, k);
    if right != cs {
      if k + 2 < |cs| { assert BorderOk(cs, k + 1); }
      forall i | 0 <= i < |right| - 1 && i != k && i + 1 != k ensures BorderOk(right, i) {
        assert BorderOk(cs, if i < k then i else i + 1);
      }
    }
  }

  lemma JoinLeftBorders(cs: seq<Chunk>, k: nat)
    requires k < |cs| && !cs[k].used && NoTwoFreeBut(cs, k) && (k + 1 < |cs| ==> cs[k + 1].used)
    ensures NoTwoFree(JoinLeft(cs, k))
  {
    var s := JoinLeft(cs, k);
    forall i | 0 <= i < |s| - 1 ensures BorderOk(s, i) {
      if s == cs {
        if i != k && i + 1 != k { assert BorderOk(cs, i); }
      } else if i < k - 1 {
        assert BorderOk(cs, i);
      } else if i > k - 1 {
        assert BorderOk(cs, i + 1);
      }
    }
  }

  lemma SplitBorders(cs: seq<Chunk>, k: nat, at: nat)
    requires k < |cs| && NoTwoFree(cs)
    ensures NoTwoFreeBut(Split(cs, k, true, at), k + 1)
    ensures (k + 1 < |cs| ==> cs[k + 1].used) ==> NoTwoFree(Split(cs, k, true, at))
  {
    var s := Split(cs, k, true, at);
    forall i | 0 <= i < |s| - 1 && i != k + 1 ensures BorderOk(s, i) {
      if i + 1 < k { assert BorderOk(cs, i); } else if i > k { assert BorderOk(cs, i - 1); }
    }
    if k + 1 < |cs| && cs[k + 1].used { assert BorderOk(s, k + 1); }
  }

  lemma MarkBorders(cs: seq<Chunk>, k: nat)
    requires k < |cs| && NoTwoFree(cs)
    ensures NoTwoFree(Mark(cs, k, true)) && NoTwoFreeBut(Mark(cs, k, false), k)
  {
    forall i | 0 <= i < |cs| - 1 ensures BorderOk(Mark(cs, k, true), i) {
      assert BorderOk(cs, i);
    }
    forall i | 0 <= i < |cs| - 1 && i != k && i + 1 != k ensures BorderOk(Mark(cs, k, false), i) {
      assert BorderOk(cs, i);
    }
  }

  /** Plugging never touches a used chunk. */
  lemma PlugKeepsUsed(cs: seq<Chunk>, k: nat)
    requires k < |cs| && !cs[k].used
    ensures UsedStarts(Plug(cs, k)) == UsedStarts(cs)
  {
    var right := JoinRight(cs, k);
    AbsorbKeepsUsed(cs, k + 1);
    if k > 0 && !right[k - 1].used {
      AbsorbKeepsUsed(right, k);
    }
  }

  lemma AbsorbKeepsUsed(cs: seq<Chunk>, k: nat)
    ensures 0 < k < |cs| && !cs[k].used ==> UsedStarts(Absorb(cs, k)) == UsedStarts(cs)
  {
    if 0 < k < |cs| && !cs[k].used {
      assert cs == cs[..k] + [cs[k]] + cs[k + 1..];
    }
  }

  lemma NoTwoFreeAt(cs: seq<Chunk>, i: nat)
    requires NoTwoFree(cs)
    ensures i + 1 < |cs| ==> cs[i].used || cs[i + 1].used
  {
    if i + 1 < |cs| { assert BorderOk(cs, i); }
  }

  /** A tiling with no used chunk and no two free neighbours is one single free chunk. */
  lemma AllFreeIsOneChunk(cs: seq<Chunk>, end: nat, head: nat)
    requires Tiles(cs, end, head) && NoTwoFree(cs) && UsedStarts(cs) == {}
    ensures cs == [Chunk(0, false)] && Sum(cs, end, true) == 0
  {
    forall i | 0 <= i < |cs| ensures !cs[i].used {
      var c := cs[i];
      assert c in cs && c.start !in UsedStarts(cs);
    }
    NoTwoFreeAt(cs, 0);
    assert cs[0] == Chunk(0, false);
  }

  // ---- what a block keeps ---------------------------------------------------------------

  /** A used block has its header at p and ends at e. */
  ghost predicate BlockAt(cs: seq<Chunk>, end: nat, p: nat, e: nat) {
    exists k :: 0 <= k < |cs| && cs[k] == Chunk(p, true) && StartAt(cs, end, k + 1) == e
  }

  lemma BlockIs(cs: seq<Chunk>, end: nat, p: nat, e: nat, k: nat)
    requires k < |cs| && cs[k] == Chunk(p, true) && StartAt(cs, end, k + 1) == e
    ensures BlockAt(cs, end, p, e)
  {}

  lemma BlockSplit(cs: seq<Chunk>, end: nat, j: nat, at: nat, p: nat, e: nat)
    requires BlockAt(cs, end, p, e) && j < |cs| && cs[j].start != p
    ensures BlockAt(Split(cs, j, true, at), end, p, e)
  {
    var k :| 0 <= k < |cs| && cs[k] == Chunk(p, true) && StartAt(cs, end, k + 1) == e;
    assert k > j ==> Split(cs, j, true, at)[k + 1] == cs[k];
    BlockIs(Split(cs, j, true, at), end, p, e, if k < j then k else k + 1);
  }

  lemma BlockMark(cs: seq<Chunk>, end: nat, j: nat, u: bool, p: nat, e: nat)
    requires BlockAt(cs, end, p, e) && j < |cs| && cs[j].start != p
    ensures BlockAt(Mark(cs, j, u), end, p, e)
  {
    var k :| 0 <= k < |cs| && cs[k] == Chunk(p, true) && StartAt(cs, end, k + 1) == e;
    BlockIs(Mark(cs, j, u), end, p, e, k);
  }

  lemma BlockAbsorb(cs: seq<Chunk>, end: nat, j: nat, p: nat, e: nat)
    requires BlockAt(cs, end, p, e) && 0 < j < |cs| && !cs[j - 1].used && !cs[j].used
    ensures BlockAt(Absorb(cs, j), end, p, e)
  {
    var k :| 0 <= k < |cs| && cs[k] == Chunk(p, true) && StartAt(cs, end, k + 1) == e;
    BlockIs(Absorb(cs, j), end, p, e, if k < j then k else k - 1);
  }

  lemma BlockPlug(cs: seq<Chunk>, end: nat, j: nat, p: nat, e: nat)
    requires BlockAt(cs, end, p, e) && j < |cs| && !cs[j].used
    ensures BlockAt(Plug(cs, j), end, p, e)
  {
    var right := JoinRight(cs, j);
    if right != cs { BlockAbsorb(cs, end, j + 1, p, e); }
    if j > 0 && !right[j - 1].used { BlockAbsorb(right, end, j, p, e); }
  }

  lemma BlockFree(cs: seq<Chunk>, end: nat, q: int, p: nat, e: nat)
    requires BlockAt(cs, end, p, e) && p != q
    ensures BlockAt(FreeAt(cs, q), end, p, e)
  {
    var k := IndexAt(cs, q);
    if k < |cs| {
      BlockMark(cs, end, k, false, p, e);
      BlockPlug(Mark(cs, k, false), end, k, p, e);
    }
  }
}
