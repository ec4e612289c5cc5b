/** The page allocator of `slab.c`: a linked list of runs of free pages.

    Addresses count pages (a page head is exactly one page long, so the source's pointer
    arithmetic counts pages too); address 0 is RT_NULL. The list node of a run lives in the
    run's first page.
 */
module PageList {

  /** `len` free pages from page `start` on. */
  datatype Run = Run(start: nat, len: nat)

  /** In-memory node of a run: struct rt_page_head. */
  datatype PageHead = PageHead(next: nat, page: nat)

  /** A `struct rt_page_head **`: the list variable or the next field of a node. */
  datatype Link = Root | NextOf(node: nat)

  function End(r: Run): nat { r.start + r.len }

  /** Run i ends, with at least one missing page in between, before run j starts. */
  ghost predicate Before(rs: seq<Run>, i: nat, j: nat)
    requires i < |rs| && j < |rs|
  {
    End(rs[i]) < rs[j].start
  }

  /** Sorted by address, disjoint, and with a gap between any two runs: maximally coalesced. */
  ghost predicate Canonical(rs: seq<Run>) {
    && (forall i :: 0 <= i < |rs| ==> rs[i].start > 0 && rs[i].len > 0)
    && (forall i, j :: 0 <= i < j < |rs| ==> Before(rs, i, j))
  }

  ghost predicate Covers(r: Run, x: int) {
    r.start <= x < End(r)
  }

  /** Page x is free. */
  ghost predicate Free(rs: seq<Run>, x: int) {
    exists i :: 0 <= i < |rs| && Covers(rs[i], x)
  }

  /** No page of [a, a + n) is free. */
  ghost predicate Apart(rs: seq<Run>, a: nat, n: nat) {
    forall x :: a <= x < a + n ==> !Free(rs, x)
  }

  /** rs' is the canonical list for rs's pages and [a, a + n). */
  ghost predicate Freed(rs: seq<Run>, a: nat, n: nat, rs': seq<Run>) {
    && Canonical(rs')
    && forall x :: Free(rs', x) <==> Free(rs, x) || a <= x < a + n
  }

  /** Taking n pages gave b: the start of the lowest run that is long enough, or 0. */
  ghost predicate Allocated(rs: seq<Run>, n: nat, b: nat, rs': seq<Run>) {
    && Canonical(rs')
    && (b == 0 ==> rs' == rs && (n > 0 ==> forall i :: 0 <= i < |rs| ==> rs[i].len < n))
    && (b != 0 ==>
          && (exists i :: 0 <= i < |rs| && rs[i].start == b && rs[i].len >= n
                && forall j :: 0 <= j < i ==> rs[j].len < n)
          && forall x :: Free(rs', x) <==> Free(rs, x) && !(b <= x < b + n))
  }

  // ---- a canonical list is determined by its pages ------------------------------------------

  lemma FreeTail(rs: seq<Run>, x: int)
    requires rs != []
    ensures Free(rs, x) <==> Covers(rs[0], x) || Free(rs[1..], x)
  {
    if Free(rs, x) {
      var i :| 0 <= i < |rs| && Covers(rs[i], x);
      if i > 0 { assert Covers(rs[1..][i - 1], x); }
    }
    if Free(rs[1..], x) {
      var i :| 0 <= i < |rs[1..]| && Covers(rs[1..][i], x);
      assert Covers(rs[i + 1], x);
    }
  }

  lemma TailCanonical(rs: seq<Run>)
    requires Canonical(rs) && rs != []
    ensures Canonical(rs[1..])
    ensures forall x :: Free(rs[1..], x) ==> x > End(rs[0])
  {
    var t := rs[1..];
    forall i, j | 0 <= i < j < |t| ensures Before(t, i, j) {
      assert Before(rs, i + 1, j + 1);
    }
    forall x | Free(t, x) ensures x > End(rs[0]) {
      var i :| 0 <= i < |t| && Covers(t[i], x);
      assert Before(rs, 0, i + 1);
    }
  }

  lemma HeadBounds(rs: seq<Run>, x: int)
    requires Canonical(rs) && Free(rs, x)
    ensures rs != [] && rs[0].start <= x
    ensures Free(rs, rs[0].start) && !Free(rs, End(rs[0]))
    ensures forall y :: rs[0].start <= y < End(rs[0]) ==> Free(rs, y)
  {
    FreeTail(rs, x);
    TailCanonical(rs);
    FreeTail(rs, End(rs[0]));
    assert Covers(rs[0], rs[0].start);
    forall y | rs[0].start <= y < End(rs[0]) ensures Free(rs, y) {
      assert Covers(rs[0], y);
    }
  }

  lemma HeadIsFree(rs: seq<Run>)
    requires Canonical(rs) && rs != []
    ensures Free(rs, rs[0].start)
  {
    assert Covers(rs[0], rs[0].start);
  }

  /** Two canonical lists with the same free pages are the same list. */
  lemma {:induction false} CanonicalUnique(rs: seq<Run>, ts: seq<Run>)
    requires Canonical(rs) && Canonical(ts)
    requires forall x :: Free(rs, x) <==> Free(ts, x)
    ensures rs == ts
    decreases |rs|
  {
    if rs == [] {
      if ts != [] { HeadIsFree(ts); }
    } else {
      assert Covers(rs[0], rs[0].start);
      HeadBounds(rs, rs[0].start);
      HeadBounds(ts, rs[0].start);
      HeadBounds(rs, ts[0].start);
      assert rs[0].start == ts[0].start;
      assert !Free(rs, End(ts[0])) && !Free(ts, End(rs[0]));
      TailCanonical(rs);
      TailCanonical(ts);
      forall x ensures Free(rs[1..], x) <==> Free(ts[1..], x) {
        FreeTail(rs, x);
        FreeTail(ts, x);
      }
      CanonicalUnique(rs[1..], ts[1..]);
      assert rs == [rs[0]] + rs[1..] && ts == [ts[0]] + ts[1..];
    }
  }

  // ---- what follows for the two operations --------------------------------------------------

  /** Freeing what was just allocated restores the very list there was before. */
  lemma AllocThenFree(rs: seq<Run>, n: nat, b: nat, mid: seq<Run>, rs': seq<Run>)
    requires Canonical(rs) && n > 0 && b != 0
    requires Allocated(rs, n, b, mid) && Freed(mid, b, n, rs')
    ensures rs' == rs
  {
    var i :| 0 <= i < |rs| && rs[i].start == b && rs[i].len >= n;
    forall x ensures Free(rs', x) <==> Free(rs, x) {
      assert b <= x < b + n ==> Covers(rs[i], x);
    }
    CanonicalUnique(rs', rs);
  }

  /** Allocation succeeds exactly when some run is long enough. */
  lemma AllocSucceeds(rs: seq<Run>, n: nat, b: nat, rs': seq<Run>)
    requires Canonical(rs) && n > 0 && Allocated(rs, n, b, rs')
    ensures b != 0 <==> exists i :: 0 <= i < |rs| && rs[i].len >= n
  {}

  /** Page x lies in one of the blocks. */
  ghost predicate InBlocks(bs: seq<Run>, x: int) {
    exists b <- bs :: Covers(b, x)
  }

  /** The lists gone through while freeing the blocks bs one after the other. */
  ghost predicate FreeingRun(lists: seq<seq<Run>>, bs: seq<Run>) {
    && |lists| == |bs| + 1
    && Canonical(lists[0])
    && forall i :: 0 <= i < |bs| ==> Freed(lists[i], bs[i].start, bs[i].len, lists[i + 1])
  }

  lemma {:induction false} FreeingRunPages(lists: seq<seq<Run>>, bs: seq<Run>, x: int)
    requires FreeingRun(lists, bs)
    ensures Canonical(lists[|bs|])
    ensures Free(lists[|bs|], x) <==> Free(lists[0], x) || InBlocks(bs, x)
    decreases |bs|
  {
    if bs != [] {
      var n := |bs| - 1;
      assert Freed(lists[n], bs[n].start, bs[n].len, lists[n + 1]);
      FreeingRunPages(lists[..n + 1], bs[..n], x);
      assert forall b :: b in bs <==> b in bs[..n] || b == bs[n] by {
        assert bs == bs[..n] + [bs[n]];
      }
      assert Covers(bs[n], x) <==> bs[n].start <= x < bs[n].start + bs[n].len;
    }
  }

  /** The order of freeing does not matter: the same blocks in any two orders leave the same list. */
  lemma FreeingOrder(lists: seq<seq<Run>>, bs: seq<Run>, lists': seq<seq<Run>>, bs': seq<Run>)
    requires FreeingRun(lists, bs) && FreeingRun(lists', bs') && lists[0] == lists'[0]
    requires multiset(bs) == multiset(bs')
    ensures lists[|bs|] == lists'[|bs'|]
  {
    FreeingRunPages(lists, bs, 0);
    FreeingRunPages(lists', bs', 0);
    forall x ensures Free(lists[|bs|], x) <==> Free(lists'[|bs'|], x) {
      FreeingRunPages(lists, bs, x);
      FreeingRunPages(lists', bs', x);
      assert forall b :: b in bs <==> b in multiset(bs);
      assert forall b :: b in bs' <==> b in multiset(bs');
    }
    CanonicalUnique(lists[|bs|], lists'[|bs'|]);
  }

  /** When what is freed, in any order, fills up the area given at start, the list is again the
      single run of rt_page_init. */
  lemma FreeingEverything(lists: seq<seq<Run>>, bs: seq<Run>, base: nat, total: nat)
    requires FreeingRun(lists, bs) && base > 0 && total > 0
    requires forall x :: base <= x < base + total <==> Free(lists[0], x) || InBlocks(bs, x)
    ensures lists[|bs|] == [Run(base, total)]
  {
    var whole := [Run(base, total)];
    FreeingRunPages(lists, bs, 0);
    forall x ensures Free(lists[|bs|], x) <==> Free(whole, x) {
      FreeingRunPages(lists, bs, x);
      assert Free(whole, x) <==> Covers(whole[0], x);
    }
    CanonicalUnique(lists[|bs|], whole);
  }

  // ---- the three ways rt_page_free edits the list ---------------------------------------------

  /** Run i grows by n pages at its end and swallows its successor if it now touches it. */
  function GrowAt(rs: seq<Run>, i: nat, n: nat): seq<Run>
    requires i < |rs|
  {
    var grown := Run(rs[i].start, rs[i].len + n);
    if i + 1 < |rs| && End(grown) == rs[i + 1].start
    then rs[..i] + [Run(rs[i].start, grown.len + rs[i + 1].len)] + rs[i + 2..]
    else rs[..i] + [grown] + rs[i + 1..]
  }

  function InsertAt(rs: seq<Run>, i: nat, r: Run): seq<Run>
    requires i <= |rs|
  {
    rs[..i] + [r] + rs[i..]
  }

  /** Everything before position i ends before page a. */
  ghost predicate AllBelow(rs: seq<Run>, i: nat, a: nat)
    requires i <= |rs|
  {
    forall j :: 0 <= j < i ==> End(rs[j]) < a
  }

  lemma SplitFree(rs: seq<Run>, i: nat, x: int)
    requires i <= |rs|
    ensures Free(rs, x) <==> Free(rs[..i], x) || Free(rs[i..], x)
  {
    if Free(rs, x) {
      var j :| 0 <= j < |rs| && Covers(rs[j], x);
      if j < i { assert Covers(rs[..i][j], x); } else { assert Covers(rs[i..][j - i], x); }
    }
    if Free(rs[..i], x) {
      var j :| 0 <= j < i && Covers(rs[..i][j], x);
      assert Covers(rs[j], x);
    }
    if Free(rs[i..], x) {
      var j :| 0 <= j < |rs[i..]| && Covers(rs[i..][j], x);
      assert Covers(rs[i + j], x);
    }
  }

  lemma ConcatFree(a: seq<Run>, b: seq<Run>, x: int)
    ensures Free(a + b, x) <==> Free(a, x) || Free(b, x)
  {
    SplitFree(a + b, |a|, x);
    assert (a + b)[..|a|] == a && (a + b)[|a|..] == b;
  }

  /** Replacing the runs in positions i to j by one run r that fits between its neighbours. */
  lemma Replace(rs: seq<Run>, i: nat, j: nat, r: Run)
    requires Canonical(rs) && i <= j <= |rs| && r.start > 0 && r.len > 0
    requires AllBelow(rs, i, r.start) && (j < |rs| ==> End(r) < rs[j].start)
    ensures Canonical(rs[..i] + [r] + rs[j..])
    ensures forall x :: Free(rs[..i] + [r] + rs[j..], x)
                   <==> Free(rs[..i], x) || Covers(r, x) || Free(rs[j..], x)
  {
    var s := rs[..i] + [r] + rs[j..];
    var d := j - i - 1;
    forall p, q | 0 <= p < q < |s| ensures Before(s, p, q) {
      if q < i {
        assert Before(rs, p, q);
      } else if q > i {
        if j < q + d { assert Before(rs, j, q + d); }
        if p < i { assert Before(rs, p, q + d); } else if p > i { assert Before(rs, p + d, q + d); }
      }
    }
    forall x ensures Free(s, x) <==> Free(rs[..i], x) || Covers(r, x) || Free(rs[j..], x) {
      ConcatFree(rs[..i] + [r], rs[j..], x);
      ConcatFree(rs[..i], [r], x);
      FreeTail([r], x);
    }
  }

  lemma Parts(rs: seq<Run>, i: nat, j: nat, x: int)
    requires i <= j <= |rs|
    ensures Free(rs, x) <==> Free(rs[..i], x) || Free(rs[i..j], x) || Free(rs[j..], x)
  {
    SplitFree(rs, j, x);
    SplitFree(rs[..j], i, x);
    assert rs[..j][..i] == rs[..i] && rs[..j][i..] == rs[i..j];
  }

  lemma OneRun(rs: seq<Run>, i: nat, x: int)
    requires i < |rs|
    ensures Free(rs[i..i + 1], x) <==> Covers(rs[i], x)
  {
    assert rs[i..i + 1] == [rs[i]];
    FreeTail([rs[i]], x);
  }

  lemma TwoRuns(rs: seq<Run>, i: nat, x: int)
    requires i + 1 < |rs|
    ensures Free(rs[i..i + 2], x) <==> Covers(rs[i], x) || Covers(rs[i + 1], x)
  {
    assert rs[i..i + 2] == [rs[i]] + [rs[i + 1]];
    ConcatFree([rs[i]], [rs[i + 1]], x);
    FreeTail([rs[i]], x);
    FreeTail([rs[i + 1]], x);
  }

  /** Runs at or after position i start no later than page a + n only if they overlap [a, a + n). */
  lemma NextRun(rs: seq<Run>, i: nat, a: nat, n: nat)
    requires Canonical(rs) && i < |rs| && n > 0 && Apart(rs, a, n)
    ensures rs[i].start >= a + n || End(rs[i]) <= a
  {
    assert Covers(rs[i], rs[i].start) && Free(rs, rs[i].start);
    assert Covers(rs[i], a) ==> Free(rs, a);
  }

  lemma GrowFreed(rs: seq<Run>, i: nat, a: nat, n: nat)
    requires Canonical(rs) && i < |rs| && a > 0 && n > 0 && Apart(rs, a, n) && End(rs[i]) == a
    ensures Freed(rs, a, n, GrowAt(rs, i, n))
  {
    forall k | 0 <= k < i ensures End(rs[k]) < rs[i].start { assert Before(rs, k, i); }
    if i + 1 < |rs| {
      NextRun(rs, i + 1, a, n);
      assert Before(rs, i, i + 1);
    }
    if i + 1 < |rs| && a + n == rs[i + 1].start {
      GrowAcross(rs, i, a, n);
    } else {
      var grown := Run(rs[i].start, rs[i].len + n);
      Replace(rs, i, i + 1, grown);
      var s := rs[..i] + [grown] + rs[i + 1..];
      assert GrowAt(rs, i, n) == s;
      forall x ensures Free(s, x) <==> Free(rs, x) || a <= x < a + n {
        Parts(rs, i, i + 1, x);
        OneRun(rs, i, x);
      }
    }
  }

  lemma GrowAcross(rs: seq<Run>, i: nat, a: nat, n: nat)
    requires Canonical(rs) && i + 1 < |rs| && a > 0 && n > 0 && End(rs[i]) == a && a + n == rs[i + 1].start
    ensures Freed(rs, a, n, GrowAt(rs, i, n))
  {
    forall k | 0 <= k < i ensures End(rs[k]) < rs[i].start { assert Before(rs, k, i); }
    if i + 2 < |rs| { assert Before(rs, i + 1, i + 2); }
    var grown := Run(rs[i].start, rs[i].len + n + rs[i + 1].len);
    Replace(rs, i, i + 2, grown);
    var s := rs[..i] + [grown] + rs[i + 2..];
    assert GrowAt(rs, i, n) == s;
    forall x ensures Free(s, x) <==> Free(rs, x) || a <= x < a + n {
      Parts(rs, i, i + 2, x);
      TwoRuns(rs, i, x);
    }
  }

  lemma ExtendFreed(rs: seq<Run>, i: nat, a: nat, n: nat)
    requires Canonical(rs) && i < |rs| && a > 0 && n > 0
    requires rs[i].start == a + n && AllBelow(rs, i, a)
    ensures Freed(rs, a, n, rs[i := Run(a, n + rs[i].len)])
  {
    if i + 1 < |rs| { assert Before(rs, i, i + 1); }
    var s := rs[i := Run(a, n + rs[i].len)];
    Replace(rs, i, i + 1, Run(a, n + rs[i].len));
    assert s == rs[..i] + [Run(a, n + rs[i].len)] + rs[i + 1..];
    forall x ensures Free(s, x) <==> Free(rs, x) || a <= x < a + n {
      Parts(rs, i, i + 1, x);
      OneRun(rs, i, x);
    }
  }

  lemma InsertFreed(rs: seq<Run>, i: nat, a: nat, n: nat)
    requires Canonical(rs) && i <= |rs| && a > 0 && n > 0
    requires AllBelow(rs, i, a) && (i < |rs| ==> a + n < rs[i].start)
    ensures Freed(rs, a, n, InsertAt(rs, i, Run(a, n)))
  {
    Replace(rs, i, i, Run(a, n));
    forall x ensures Free(InsertAt(rs, i, Run(a, n)), x) <==> Free(rs, x) || a <= x < a + n {
      SplitFree(rs, i, x);
    }
  }

  // ---- the two ways rt_page_alloc edits the list ----------------------------------------------

  lemma SplitAllocated(rs: seq<Run>, i: nat, n: nat)
    requires Canonical(rs) && i < |rs| && 0 < n < rs[i].len
    requires forall j :: 0 <= j < i ==> rs[j].len < n
    ensures Allocated(rs, n, rs[i].start, rs[i := Run(rs[i].start + n, rs[i].len - n)])
  {
    var r := Run(rs[i].start + n, rs[i].len - n);
    forall k | 0 <= k < i ensures End(rs[k]) < r.start { assert Before(rs, k, i); }
    if i + 1 < |rs| { assert Before(rs, i, i + 1); }
    Replace(rs, i, i + 1, r);
    var s := rs[..i] + [r] + rs[i + 1..];
    assert rs[i := r] == s;
    forall x ensures Free(s, x) <==> Free(rs, x) && !(rs[i].start <= x < rs[i].start + n) {
      Parts(rs, i, i + 1, x);
      OneRun(rs, i, x);
      if Covers(rs[i], x) { Elsewhere(rs, i, x); }
    }
  }

  lemma Elsewhere(rs: seq<Run>, i: nat, x: int)
    requires Canonical(rs) && i < |rs| && Covers(rs[i], x)
    ensures !Free(rs[..i], x) && !Free(rs[i + 1..], x)
  {
    var below, above := rs[..i], rs[i + 1..];
    forall j | 0 <= j < |below| ensures !Covers(below[j], x) { assert Before(rs, j, i); }
    assert !Free(below, x);
    forall j | 0 <= j < |above| ensures !Covers(above[j], x) { assert Before(rs, i, i + 1 + j); }
    assert !Free(above, x);
  }

  lemma RemoveAllocated(rs: seq<Run>, i: nat)
    requires Canonical(rs) && i < |rs|
    requires forall j :: 0 <= j < i ==> rs[j].len < rs[i].len
    ensures Allocated(rs, rs[i].len, rs[i].start, rs[..i] + rs[i + 1..])
  {
    var s := rs[..i] + rs[i + 1..];
    forall p, q | 0 <= p < q < |s| ensures Before(s, p, q) {
      assert Before(rs, if p < i then p else p + 1, if q < i then q else q + 1);
    }
    forall x ensures Free(s, x) <==> Free(rs, x) && !(rs[i].start <= x < rs[i].start + rs[i].len) {
      Parts(rs, i, i + 1, x);
      OneRun(rs, i, x);
      ConcatFree(rs[..i], rs[i + 1..], x);
      if Covers(rs[i], x) { Elsewhere(rs, i, x); }
    }
  }

  // ---- the list in memory -----------------------------------------------------------------------

  function StartOf(rs: seq<Run>, i: nat): nat {
    if i < |rs| then rs[i].start else 0
  }

  ghost function LinkAt(rs: seq<Run>, i: nat): Link
    requires i <= |rs|
  {
    if i == 0 then Root else NextOf(rs[i - 1].start)
  }

  /** The node of run i is in memory as the list says. */
  ghost predicate NodeOk(heads: map<nat, PageHead>, rs: seq<Run>, i: nat)
    requires i < |rs|
  {
    && rs[i].start in heads
    && heads[rs[i].start] == PageHead(StartOf(rs, i + 1), rs[i].len)
  }

  ghost predicate InMemory(list: nat, heads: map<nat, PageHead>, rs: seq<Run>) {
    && list == StartOf(rs, 0)
    && forall i :: 0 <= i < |rs| ==> NodeOk(heads, rs, i)
  }

  class PageAllocator {
    var list: nat                    // rt_page_list
    var heads: map<nat, PageHead>    // the page heads written so far, by address
    ghost var runs: seq<Run>

    ghost predicate Valid()
      reads this
    {
      Canonical(runs) && InMemory(list, heads, runs)
    }

    /** rt_page_init */
    constructor (addr: nat, npages: nat)
      requires addr > 0 && npages > 0
      ensures Valid() && runs == [Run(addr, npages)]
    {
      list, heads, runs := 0, map[], [];
      new;
      FreePages(addr, npages);
      var whole := [Run(addr, npages)];
      forall x ensures Free(runs, x) <==> Free(whole, x) {
        FreeTail(whole, x);
      }
      CanonicalUnique(runs, whole);
    }

    /** *prev */
    function Deref(prev: Link): nat
      requires prev.NextOf? ==> prev.node in heads
      reads this
    {
      match prev case Root => list case NextOf(b) => heads[b].next
    }

    /** *prev = v */
    method Store(prev: Link, v: nat)
      requires prev.NextOf? ==> prev.node in heads
      modifies this
      ensures runs == old(runs)
      ensures prev.Root? ==> list == v && heads == old(heads)
      ensures prev.NextOf? ==> list == old(list) && heads == old(heads)[prev.node := old(heads)[prev.node].(next := v)]
    {
      match prev
      case Root => list := v;
      case NextOf(b) => heads := heads[b := heads[b].(next := v)];
    }

    method AllocPages(npages: nat) returns (b: nat)
      requires Valid()
      modifies this
      ensures Valid() && Allocated(old(runs), npages, b, runs)
    {
      if npages == 0 {
        return 0;
      }
      var prev := Root;
      b := Deref(prev);
      ghost var i := 0;
      while b != 0
        invariant Valid() && runs == old(runs)
        invariant i <= |runs| && prev == LinkAt(runs, i) && b == StartOf(runs, i)
        invariant forall j :: 0 <= j < i ==> runs[j].len < npages
        decreases |runs| - i
      {
        assert NodeOk(heads, runs, i);
        if heads[b].page > npages {
          TakeFront(prev, b, npages, i);
          return;
        }
        if heads[b].page == npages {
          TakeWhole(prev, b, i);
          return;
        }
        prev := NextOf(b);
        b := heads[b].next;
        i := i + 1;
      }
    }

    /** Split run i: its first npages pages are handed out. */
    method TakeFront(prev: Link, b: nat, npages: nat, ghost i: nat)
      requires Valid() && i < |runs| && prev == LinkAt(runs, i) && b == runs[i].start
      requires 0 < npages < runs[i].len && forall j :: 0 <= j < i ==> runs[j].len < npages
      modifies this
      ensures Valid() && Allocated(old(runs), npages, b, runs)
    {
      assert NodeOk(heads, runs, i);
      if i > 0 { assert NodeOk(heads, runs, i - 1); }
      SplitAllocated(runs, i, npages);
      var n := b + npages;
      heads := heads[n := PageHead(heads[b].next, heads[b].page - npages)];
      Store(prev, n);
      runs := runs[i := Run(n, runs[i].len - npages)];
      SplitInMemory(old(list), old(heads), old(runs), i, npages, list, heads);
    }

    /** Unlink run i, which is exactly as long as requested. */
    method TakeWhole(prev: Link, b: nat, ghost i: nat)
      requires Valid() && i < |runs| && prev == LinkAt(runs, i) && b == runs[i].start
      requires forall j :: 0 <= j < i ==> runs[j].len < runs[i].len
      modifies this
      ensures Valid() && Allocated(old(runs), old(runs)[i].len, b, runs)
    {
      assert NodeOk(heads, runs, i);
      if i > 0 { assert NodeOk(heads, runs, i - 1); }
      RemoveAllocated(runs, i);
      Store(prev, heads[b].next);
      runs := runs[..i] + runs[i + 1..];
      RemoveInMemory(old(list), old(heads), old(runs), i, list, heads);
    }

    /** rt_page_free. The pages must not be free already. */
    method FreePages(addr: nat, npages: nat)
      requires Valid() && addr > 0 && npages > 0 && Apart(runs, addr, npages)
      modifies this
      ensures Valid() && Freed(old(runs), addr, npages, runs)
    {
      var prev := Root;
      var b := Deref(prev);
      ghost var i := 0;
      while b != 0
        invariant Valid() && runs == old(runs)
        invariant i <= |runs| && prev == LinkAt(runs, i) && b == StartOf(runs, i)
        invariant AllBelow(runs, i, addr)
        decreases |runs| - i
      {
        assert NodeOk(heads, runs, i);
        NextRun(runs, i, addr, npages);
        if b + heads[b].page == addr {
          Grow(b, addr, npages, i);
          return;
        }
        if b == addr + npages {
          ExtendDown(prev, b, addr, npages, i);
          return;
        }
        if b > addr + npages {
          break;
        }
        prev := NextOf(b);
        b := heads[b].next;
        i := i + 1;
      }
      Insert(prev, b, addr, npages, i);
    }

    method Grow(b: nat, addr: nat, npages: nat, ghost i: nat)
      requires Valid() && addr > 0 && npages > 0 && Apart(runs, addr, npages)
      requires i < |runs| && b == runs[i].start && End(runs[i]) == addr
      modifies this
      ensures Valid() && Freed(old(runs), addr, npages, runs)
    {
      assert NodeOk(heads, runs, i);
      GrowFreed(runs, i, addr, npages);
      heads := heads[b := heads[b].(page := heads[b].page + npages)];
      if i + 1 < |runs| { assert NodeOk(old(heads), runs, i + 1) && Before(runs, i, i + 1); }
      if b + heads[b].page == heads[b].next {
        var next := heads[b].next;
        heads := heads[b := PageHead(heads[next].next, heads[b].page + heads[next].page)];
      }
      runs := GrowAt(runs, i, npages);
      GrowInMemory(old(list), old(heads), old(runs), i, npages, heads);
    }

    method ExtendDown(prev: Link, b: nat, addr: nat, npages: nat, ghost i: nat)
      requires Valid() && addr > 0 && npages > 0 && Apart(runs, addr, npages)
      requires i < |runs| && prev == LinkAt(runs, i) && b == runs[i].start == addr + npages && AllBelow(runs, i, addr)
      modifies this
      ensures Valid() && Freed(old(runs), addr, npages, runs)
    {
      assert NodeOk(heads, runs, i);
      if i > 0 { assert NodeOk(heads, runs, i - 1); }
      ExtendFreed(runs, i, addr, npages);
      forall j | 0 <= j < |runs| && j != i ensures runs[j].start != addr {
        if j > i { assert Before(runs, i, j); }
      }
      heads := heads[addr := PageHead(heads[b].next, heads[b].page + npages)];
      Store(prev, addr);
      runs := runs[i := Run(addr, npages + runs[i].len)];
      ReplaceInMemory(old(list), old(heads), old(runs), i, runs[i], list, heads);
    }

    method Insert(prev: Link, b: nat, addr: nat, npages: nat, ghost i: nat)
      requires Valid() && addr > 0 && npages > 0
      requires i <= |runs| && prev == LinkAt(runs, i) && b == StartOf(runs, i)
      requires AllBelow(runs, i, addr) && (i < |runs| ==> addr + npages < runs[i].start)
      modifies this
      ensures Valid() && Freed(old(runs), addr, npages, runs)
    {
      if i > 0 { assert NodeOk(heads, runs, i - 1); }
      InsertFreed(runs, i, addr, npages);
      forall j | 0 <= j < |runs| && j != i ensures runs[j].start != addr {
        if j > i { assert Before(runs, i, j); }
      }
      heads := heads[addr := PageHead(b, npages)];
      Store(prev, addr);
      runs := InsertAt(runs, i, Run(addr, npages));
      InsertInMemory(old(list), old(heads), old(runs), i, Run(addr, npages), list, heads);
    }
  }

  // ---- what the link writes do to the list ------------------------------------------------------

  lemma Distinct(rs: seq<Run>, i: nat, j: nat)
    requires Canonical(rs) && i < |rs| && j < |rs| && i != j
    ensures rs[i].start != rs[j].start
  {
    if i < j { assert Before(rs, i, j); } else { assert Before(rs, j, i); }
  }

  /** The memory after `*prev = v` with prev the link to position i. */
  ghost predicate Stored(list: nat, heads: map<nat, PageHead>, rs: seq<Run>, i: nat, v: nat,
                         list': nat, heads': map<nat, PageHead>)
    requires i <= |rs| && (i > 0 ==> rs[i - 1].start in heads)
  {
    if i == 0 then list' == v && heads' == heads
    else list' == list && heads' == heads[rs[i - 1].start := heads[rs[i - 1].start].(next := v)]
  }

  lemma ReplaceInMemory(list: nat, heads: map<nat, PageHead>, rs: seq<Run>, i: nat, r: Run,
                        list': nat, heads': map<nat, PageHead>)
    requires Canonical(rs) && InMemory(list, heads, rs) && i < |rs|
    requires forall j :: 0 <= j < |rs| && j != i ==> rs[j].start != r.start
    requires i > 0 ==> rs[i - 1].start in heads
    requires Stored(list, heads[r.start := PageHead(StartOf(rs, i + 1), r.len)], rs, i, r.start, list', heads')
    ensures InMemory(list', heads', rs[i := r])
  {
    var s := rs[i := r];
    forall j | 0 <= j < |s| ensures NodeOk(heads', s, j) {
      assert NodeOk(heads, rs, j);
      if i > 0 && j != i - 1 && j != i { Distinct(rs, j, i - 1); }
    }
  }

  lemma SplitInMemory(list: nat, heads: map<nat, PageHead>, rs: seq<Run>, i: nat, n: nat,
                      list': nat, heads': map<nat, PageHead>)
    requires Canonical(rs) && InMemory(list, heads, rs) && i < |rs| && 0 < n < rs[i].len
    requires i > 0 ==> rs[i - 1].start in heads
    requires Stored(list, heads[rs[i].start + n := PageHead(StartOf(rs, i + 1), rs[i].len - n)], rs, i,
                    rs[i].start + n, list', heads')
    ensures InMemory(list', heads', rs[i := Run(rs[i].start + n, rs[i].len - n)])
  {
    forall j | 0 <= j < |rs| && j != i ensures rs[j].start != rs[i].start + n {
      if j < i { assert Before(rs, j, i); } else { assert Before(rs, i, j); }
    }
    ReplaceInMemory(list, heads, rs, i, Run(rs[i].start + n, rs[i].len - n), list', heads');
  }

  lemma RemoveInMemory(list: nat, heads: map<nat, PageHead>, rs: seq<Run>, i: nat,
                       list': nat, heads': map<nat, PageHead>)
    requires Canonical(rs) && InMemory(list, heads, rs) && i < |rs|
    requires i > 0 ==> rs[i - 1].start in heads
    requires Stored(list, heads, rs, i, StartOf(rs, i + 1), list', heads')
    ensures InMemory(list', heads', rs[..i] + rs[i + 1..])
  {
    var s := rs[..i] + rs[i + 1..];
    forall j | 0 <= j < |s| ensures NodeOk(heads', s, j) {
      var j' := if j < i then j else j + 1;
      assert NodeOk(heads, rs, j') && s[j] == rs[j'];
      if i > 0 && j' != i - 1 { Distinct(rs, j', i - 1); }
    }
  }

  lemma InsertInMemory(list: nat, heads: map<nat, PageHead>, rs: seq<Run>, i: nat, r: Run,
                       list': nat, heads': map<nat, PageHead>)
    requires Canonical(rs) && InMemory(list, heads, rs) && i <= |rs|
    requires forall j :: 0 <= j < |rs| ==> rs[j].start != r.start
    requires i > 0 ==> rs[i - 1].start in heads
    requires Stored(list, heads[r.start := PageHead(StartOf(rs, i), r.len)], rs, i, r.start, list', heads')
    ensures InMemory(list', heads', InsertAt(rs, i, r))
  {
    var s := InsertAt(rs, i, r);
    forall j | 0 <= j < |s| ensures NodeOk(heads', s, j) {
      if j != i {
        var j' := if j < i then j else j - 1;
        assert NodeOk(heads, rs, j') && s[j] == rs[j'];
        if i > 0 && j' != i - 1 { Distinct(rs, j', i - 1); }
      }
    }
  }

  lemma GrowInMemory(list: nat, heads: map<nat, PageHead>, rs: seq<Run>, i: nat, n: nat, heads': map<nat, PageHead>)
    requires Canonical(rs) && InMemory(list, heads, rs) && i < |rs|
    requires heads' == heads[rs[i].start := if i + 1 < |rs| && End(rs[i]) + n == rs[i + 1].start
                             then PageHead(StartOf(rs, i + 2), rs[i].len + n + rs[i + 1].len)
                             else PageHead(StartOf(rs, i + 1), rs[i].len + n)]
    ensures InMemory(list, heads', GrowAt(rs, i, n))
  {
    var s := GrowAt(rs, i, n);
    forall j | 0 <= j < |s| ensures NodeOk(heads', s, j) {
      if j != i {
        var j' := if j < i then j else j + |rs| - |s|;
        assert NodeOk(heads, rs, j') && s[j] == rs[j'];
        Distinct(rs, j', i);
      }
    }
  }
}
