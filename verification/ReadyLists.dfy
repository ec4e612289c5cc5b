/** How the kernel's lists over the threads' `tlist` nodes stand for its ready queues. */
module ReadyLists {
  import opened Queues
  import opened Rings
  import opened ThreadLinks
  import opened Scheduling

  function Members(lists: Lists, h: nat): seq<nat> {
    if h in lists then lists[h] else []
  }

  /** The ready queues, by priority. */
  function ReadyQueues(lists: Lists, heads: seq<nat>): seq<seq<nat>> {
    seq(|heads|, p requires 0 <= p < |heads| => Members(lists, heads[p]))
  }

  /** All nodes are linked into disjoint lists; every priority has a list, and the members of lists
      are threads, which head none. */
  ghost predicate Wired(l: Links, lists: Lists, heads: seq<nat>, threads: set<nat>) {
    && Partition(l, lists)
    && |heads| == PRIORITIES && Distinct(heads)
    && (forall h <- heads :: h in lists && h !in threads)
    && (forall h <- lists, x <- lists[h] :: x in threads)
    && (forall h <- lists :: h in threads ==> lists[h] == [])
    && (forall t <- threads :: Known(lists, t))
  }

  predicate Unlisted(stat: Stat) {
    stat == Init || stat == Running || stat == Close
  }

  /** A thread that is neither ready nor suspended is in no list. */
  ghost predicate Resting(threads: map<nat, Tcb>, lists: Lists) {
    forall t <- threads :: Unlisted(threads[t].stat) ==> Free(lists, t)
  }

  lemma HeadIs(l: Links, lists: Lists, heads: seq<nat>, threads: set<nat>, p: nat)
    requires Wired(l, lists, heads, threads) && p < PRIORITIES
    ensures p < |heads| && heads[p] in lists && heads[p] !in threads
    ensures ReadyQueues(lists, heads)[p] == lists[heads[p]]
    ensures heads[p] in l.next && (l.next[heads[p]] == heads[p] <==> lists[heads[p]] == [])
    ensures lists[heads[p]] != [] ==> l.next[heads[p]] == lists[heads[p]][0]
  {
    assert heads[p] in heads;
    FirstOf(l, lists, heads[p]);
  }

  ghost predicate AllEmpty(lists: Lists) {
    forall h <- lists :: lists[h] == []
  }

  /** A new head, at an address that is in no list. */
  lemma NewHead(l: Links, lists: Lists, heads: seq<nat>, i: nat)
    requires Partition(l, lists) && Distinct(heads) && i < |heads| && lists.Keys == Elems(heads[..i]) && AllEmpty(lists)
    ensures var n := heads[i]; var lists' := lists[n := []];
      && Partition(Links(l.next[n := n], l.prev[n := n]), lists')
      && lists'.Keys == Elems(heads[..i + 1]) && AllEmpty(lists')
  {
    var n := heads[i];
    assert n !in heads[..i];
    assert n !in lists.Keys;
    NewKeeps(l, lists, n);
    assert heads[..i + 1] == heads[..i] + [n];
  }

  // ---- inserting ----------------------------------------------------------------------------

  lemma QueuesAppend(l: Links, lists: Lists, heads: seq<nat>, threads: set<nat>, p: nat, t: nat)
    requires Wired(l, lists, heads, threads) && p < |heads| && t in threads && Free(lists, t)
    ensures heads[p] in lists
    ensures var lists' := Inserting(lists, heads[p], |lists[heads[p]]|, t);
      ReadyQueues(lists', heads) == ReadyQueues(lists, heads)[p := ReadyQueues(lists, heads)[p] + [t]]
  {
    assert heads[p] in heads;
    var list := lists[heads[p]];
    assert list[..|list|] + [t] + list[|list|..] == list + [t];
    forall q | 0 <= q < |heads| ensures heads[q] in lists && heads[q] != t { assert heads[q] in heads; }
  }

  /** An insertion into a wait list leaves the ready queues alone. */
  lemma QueuesKept(l: Links, lists: Lists, heads: seq<nat>, threads: set<nat>, h: nat, i: nat, t: nat)
    requires Wired(l, lists, heads, threads) && t in threads && Free(lists, t)
    requires h in lists && h !in heads && i <= |lists[h]|
    ensures ReadyQueues(Inserting(lists, h, i, t), heads) == ReadyQueues(lists, heads)
  {
    forall q | 0 <= q < |heads| ensures heads[q] in lists && heads[q] != t && heads[q] != h {
      assert heads[q] in heads;
    }
  }

  lemma InsertKnown(lists: Lists, h: nat, i: nat, t: nat, u: nat)
    requires h in lists && i <= |lists[h]| && Free(lists, t) && h != t && Known(lists, u)
    ensures Known(Inserting(lists, h, i, t), u)
  {
    var lists' := Inserting(lists, h, i, t);
    assert lists'[h][i] == t && t in lists'[h];
    assert lists[h] == lists[h][..i] + lists[h][i..];
    if u !in lists {
      var g :| g in lists && u in lists[g];
      assert u in lists'[g];
    }
  }

  /** An insertion into any list keeps the wiring. */
  lemma WiredInsert(l: Links, l': Links, lists: Lists, heads: seq<nat>, threads: set<nat>, h: nat, i: nat, t: nat)
    requires Wired(l, lists, heads, threads) && t in threads && Free(lists, t)
    requires h in lists && h !in threads && i <= |lists[h]|
    requires Partition(l', Inserting(lists, h, i, t))
    ensures Wired(l', Inserting(lists, h, i, t), heads, threads)
  {
    var lists' := Inserting(lists, h, i, t);
    assert lists[h] == lists[h][..i] + lists[h][i..];
    forall u <- threads ensures Known(lists', u) { InsertKnown(lists, h, i, t, u); }
  }

  /** Every list but those of the priorities and of t itself is as before. */
  ghost predicate SameWaitLists(lists: Lists, lists': Lists, heads: seq<nat>, t: nat) {
    forall h <- lists :: h !in heads && h != t ==> h in lists' && lists'[h] == lists[h]
  }

  lemma WaitListsKept(lists: Lists, heads: seq<nat>, p: nat, i: nat, t: nat)
    requires p < |heads| && heads[p] in lists && i <= |lists[heads[p]]|
    ensures SameWaitLists(lists, Inserting(lists, heads[p], i, t), heads, t)
  {
    assert heads[p] in heads;
  }

  lemma InsertRests(threads: map<nat, Tcb>, lists: Lists, h: nat, i: nat, t: nat)
    requires Resting(threads, lists) && h in lists && h !in threads && i <= |lists[h]|
    requires t in threads && !Unlisted(threads[t].stat)
    ensures Resting(threads, Inserting(lists, h, i, t))
  {}

  // ---- removing -----------------------------------------------------------------------------

  lemma QueuesRemove(l: Links, lists: Lists, heads: seq<nat>, threads: set<nat>, p: nat, t: nat)
    requires Wired(l, lists, heads, threads) && p < |heads| && t in threads
    requires forall q :: 0 <= q < |heads| && t in ReadyQueues(lists, heads)[q] ==> q == p
    ensures ReadyQueues(Removing(lists, t), heads)
         == ReadyQueues(lists, heads)[p := Without(ReadyQueues(lists, heads)[p], t)]
  {
    var queues, queues' := ReadyQueues(lists, heads), ReadyQueues(Removing(lists, t), heads);
    forall q | 0 <= q < |heads| ensures queues'[q] == if q == p then Without(queues[p], t) else queues[q] {
      assert heads[q] in heads;
      if q != p { WithoutAbsent(queues[q], t); }
    }
  }

  lemma RemoveKnown(lists: Lists, t: nat, u: nat)
    requires Known(lists, u)
    ensures Known(Removing(lists, t), u)
  {
    var lists' := Removing(lists, t);
    if u !in lists && u != t {
      var g :| g in lists && u in lists[g];
      WithoutElems(lists[g], t);
      assert u in lists'[g];
    }
  }

  lemma WiredRemove(l: Links, l': Links, lists: Lists, heads: seq<nat>, threads: set<nat>, t: nat)
    requires Wired(l, lists, heads, threads) && t in threads && Partition(l', Removing(lists, t))
    ensures Wired(l', Removing(lists, t), heads, threads)
  {
    var lists' := Removing(lists, t);
    forall h | h in lists ensures forall x :: x in lists'[h] <==> x in lists[h] && x != t {
      WithoutElems(lists[h], t);
    }
    forall u <- threads ensures Known(lists', u) { RemoveKnown(lists, t, u); }
  }

  lemma RemoveRests(threads: map<nat, Tcb>, lists: Lists, t: nat)
    requires Resting(threads, lists) && Free(Removing(lists, t), t)
    ensures Resting(threads, Removing(lists, t))
  {
    forall u <- threads | Unlisted(threads[u].stat) && u != t ensures Free(Removing(lists, t), u) {
      assert Free(lists, u);
    }
  }

  /** A change of one thread's fields. */
  lemma StatRests(threads: map<nat, Tcb>, lists: Lists, t: nat, tcb: Tcb)
    requires Resting(threads, lists) && t in threads && (Unlisted(tcb.stat) ==> Free(lists, t))
    ensures Resting(threads[t := tcb], lists) && threads[t := tcb].Keys == threads.Keys
  {}

  /** A new thread, whose node is in no list yet. */
  lemma WiredNew(l: Links, lists: Lists, heads: seq<nat>, threads: map<nat, Tcb>, t: nat, tcb: Tcb)
    requires Wired(l, lists, heads, threads.Keys) && Resting(threads, lists) && !Known(lists, t)
    ensures Wired(Links(l.next[t := t], l.prev[t := t]), lists[t := []], heads, threads[t := tcb].Keys)
    ensures Resting(threads[t := tcb], lists[t := []])
    ensures ReadyQueues(lists[t := []], heads) == ReadyQueues(lists, heads)
  {
    NewKeeps(l, lists, t);
    var lists' := lists[t := []];
    assert threads[t := tcb].Keys == threads.Keys + {t};
    forall u <- threads[t := tcb] ensures Known(lists', u) {
      if u != t { NewKnown(lists, t, u); }
    }
    forall q | 0 <= q < |heads| ensures heads[q] in lists && heads[q] != t { assert heads[q] in heads; }
  }

  lemma NewKnown(lists: Lists, t: nat, u: nat)
    requires Known(lists, u) && !Known(lists, t)
    ensures Known(lists[t := []], u)
  {
    if u !in lists {
      var g :| g in lists && u in lists[g];
      assert u in lists[t := []][g];
    }
  }

  // ---- wait lists ---------------------------------------------------------------------------

  /** The wait lists of all objects are as before. */
  ghost predicate WaitsKept(lists: Lists, lists': Lists, heads: seq<nat>, threads: set<nat>) {
    forall h <- lists :: h !in heads && h !in threads ==> h in lists' && lists'[h] == lists[h]
  }

  lemma KeptSame(lists: Lists, lists': Lists, heads: seq<nat>, threads: set<nat>, t: nat)
    requires SameWaitLists(lists, lists', heads, t) && t in threads
    ensures WaitsKept(lists, lists', heads, threads)
  {}

  lemma KeptSelf(lists: Lists, heads: seq<nat>, threads: set<nat>)
    ensures WaitsKept(lists, lists, heads, threads)
  {}

  lemma KeptTwice(lists: Lists, lists': Lists, lists'': Lists, heads: seq<nat>, threads: set<nat>)
    requires WaitsKept(lists, lists', heads, threads) && WaitsKept(lists', lists'', heads, threads)
    ensures WaitsKept(lists, lists'', heads, threads)
  {}

  /** The wait lists of all objects but the one at `o` are as before. */
  ghost predicate OthersKept(lists: Lists, lists': Lists, heads: seq<nat>, threads: set<nat>, o: nat) {
    forall h <- lists :: h !in heads && h !in threads && h != o ==> h in lists' && lists'[h] == lists[h]
  }

  lemma KeptOthers(lists: Lists, lists': Lists, lists'': Lists, heads: seq<nat>, threads: set<nat>, o: nat)
    requires WaitsKept(lists, lists', heads, threads) && OthersKept(lists', lists'', heads, threads, o)
    ensures OthersKept(lists, lists'', heads, threads, o)
  {}

  lemma OthersThen(lists: Lists, lists': Lists, lists'': Lists, heads: seq<nat>, threads: set<nat>, o: nat)
    requires OthersKept(lists, lists', heads, threads, o) && WaitsKept(lists', lists'', heads, threads)
    ensures OthersKept(lists, lists'', heads, threads, o)
  {}

  /** An insertion changes one list, besides that of the node itself. */
  lemma InsertingKept(lists: Lists, heads: seq<nat>, threads: set<nat>, o: nat, i: nat, t: nat)
    requires o in lists && i <= |lists[o]| && t in threads
    ensures OthersKept(lists, Inserting(lists, o, i, t), heads, threads, o)
  {}

  /** A thread that leaves list o leaves no other. */
  lemma LeavingKept(l: Links, lists: Lists, heads: seq<nat>, threads: set<nat>, o: nat, t: nat)
    requires Wired(l, lists, heads, threads) && t in threads && o in lists && t in lists[o]
    ensures OthersKept(lists, Removing(lists, t), heads, threads, o)
  {
    forall h <- lists | h !in heads && h !in threads && h != o ensures Without(lists[h], t) == lists[h] {
      assert t !in lists[h];
      WithoutAbsent(lists[h], t);
    }
  }

  /** A thread that is ready or in no list leaves no wait list. */
  lemma RemovingKept(l: Links, lists: Lists, heads: seq<nat>, threads: set<nat>, p: nat, t: nat)
    requires Wired(l, lists, heads, threads) && t in threads && p < PRIORITIES
    requires t in ReadyQueues(lists, heads)[p] || Free(lists, t)
    ensures WaitsKept(lists, Removing(lists, t), heads, threads)
  {
    assert heads[p] in heads;
    forall h <- lists | h !in heads && h !in threads ensures Without(lists[h], t) == lists[h] {
      assert t !in lists[h];
      WithoutAbsent(lists[h], t);
    }
  }

  /** The priorities of the threads as keys: the smaller, the more urgent. */
  function Urgency(threads: map<nat, Tcb>): Keys {
    map t | t in threads :: threads[t].prio
  }

  lemma SameUrgency(threads: map<nat, Tcb>, t: nat, stat: Stat)
    requires t in threads
    ensures Urgency(threads[t := threads[t].(stat := stat)]) == Urgency(threads)
  {}

  lemma Partitioned(l: Links, lists: Lists, heads: seq<nat>, threads: set<nat>)
    requires Wired(l, lists, heads, threads)
    ensures Partition(l, lists)
  {}

  lemma WiredHead(l: Links, lists: Lists, heads: seq<nat>, threads: map<nat, Tcb>, o: nat)
    requires Wired(l, lists, heads, threads.Keys) && Resting(threads, lists) && !Known(lists, o) && o !in threads
    ensures Wired(Links(l.next[o := o], l.prev[o := o]), lists[o := []], heads, threads.Keys)
    ensures Resting(threads, lists[o := []]) && o !in heads
    ensures ReadyQueues(lists[o := []], heads) == ReadyQueues(lists, heads)
  {
    NewKeeps(l, lists, o);
    forall u <- threads ensures Known(lists[o := []], u) { NewKnown(lists, o, u); }
    forall q | 0 <= q < |heads| ensures heads[q] in lists && heads[q] != o { assert heads[q] in heads; }
  }

  /** Walking a wait list on its links. */
  lemma WaitWalk(l: Links, lists: Lists, heads: seq<nat>, threads: set<nat>, o: nat, i: nat)
    requires Wired(l, lists, heads, threads) && o in lists && o !in threads && i <= |lists[o]|
    ensures o in l.next && l.next[o] == Behind(o, lists[o], 0)
    ensures i < |lists[o]| ==> lists[o][i] in threads && lists[o][i] != o
                               && lists[o][i] in l.next && l.next[lists[o][i]] == Behind(o, lists[o], i + 1)
  {
    FirstOf(l, lists, o);
    if i < |lists[o]| {
      NextOf(l, lists, o, i);
      assert lists[o][i] in lists[o];
    }
  }

  lemma InsertedInto(lists: Lists, h: nat, i: nat, t: nat)
    requires h in lists && i <= |lists[h]| && t != h
    ensures h in Inserting(lists, h, i, t) && Inserting(lists, h, i, t)[h] == lists[h][..i] + [t] + lists[h][i..]
  {}

  /** The first member leaves. */
  lemma FirstLeaves(l: Links, lists: Lists, heads: seq<nat>, threads: set<nat>, o: nat)
    requires Wired(l, lists, heads, threads) && o in lists && lists[o] != []
    ensures o in Removing(lists, lists[o][0]) && Removing(lists, lists[o][0])[o] == lists[o][1..]
  {
    TailDistinct([o] + lists[o]);
    assert ([o] + lists[o])[1..] == lists[o];
    TailWithout(lists[o]);
  }
}
