/** Many lists over shared nodes: the `tlist` field of a thread serves the ready queues and every
    wait list.

    Nodes are known by their addresses. A node that is in no list is linked to itself, as
    rt_list_init and rt_list_remove leave it, and counts as the head of an empty list.
 */
module ThreadLinks {
  import opened Queues
  import opened Rings

  type Lists = map<nat, seq<nat>>

  /** The links of all nodes form one ring for every list, its head first; no node is in two of
      them, and no head is a member of a list. */
  ghost predicate Partition(l: Links, lists: Lists) {
    && (forall h <- lists :: Ring(l, [h] + lists[h]))
    && (forall h <- lists, x <- lists[h] :: x !in lists)
    && (forall g <- lists, h <- lists, x <- lists[g] :: x in lists[h] ==> g == h)
  }

  /** n is a node of one of the lists. */
  ghost predicate Known(lists: Lists, n: nat) {
    n in lists || exists h <- lists :: n in lists[h]
  }

  /** n is linked to nothing but itself. */
  predicate Free(lists: Lists, n: nat) {
    n in lists && lists[n] == []
  }

  // ---- the list functions on links ----------------------------------------------------------

  /** l->prev->next = n; n->prev = l->prev; l->prev = n; n->next = l. */
  function InsertBefore(l: Links, at: nat, n: nat): Links
    requires at in l.prev
  {
    var b := l.prev[at];
    Links(l.next[b := n][n := at], l.prev[n := b][at := n])
  }

  /** rt_list_remove: unlink the node and link it to itself. */
  function RemoveInit(l: Links, n: nat): Links
    requires n in l.next && n in l.prev
  {
    var rest := Remove(l, n);
    Links(rest.next[n := n], rest.prev[n := n])
  }

  /** The free node n becomes the i-th member of list h. */
  function Inserting(lists: Lists, h: nat, i: nat, n: nat): Lists
    requires h in lists && i <= |lists[h]|
  {
    map g | g in lists && g != n :: if g == h then lists[h][..i] + [n] + lists[h][i..] else lists[g]
  }

  /** n leaves the list it is in, if any. */
  function Removing(lists: Lists, n: nat): Lists {
    map g | g in lists.Keys + {n} :: if g in lists then Without(lists[g], n) else []
  }

  // ---- one list -----------------------------------------------------------------------------

  /** The node in front of which the i-th member of a list is inserted: the present i-th member,
      or the head at the end. */
  function Behind(h: nat, list: seq<nat>, i: nat): nat
    requires i <= |list|
  {
    if i < |list| then list[i] else h
  }

  lemma InsertOne(l: Links, h: nat, list: seq<nat>, i: nat, n: nat)
    requires Ring(l, [h] + list) && i <= |list| && n != h && n !in list
    ensures var at := Behind(h, list, i);
      && at in l.prev && at in l.next && l.prev[at] == ([h] + list)[i]
      && Ring(InsertBefore(l, at, n), [h] + (list[..i] + [n] + list[i..]))
  {
    var r, at := [h] + list, Behind(h, list, i);
    assert NodeOk(l, r, i) && NodeOk(l, r, if i < |list| then i + 1 else 0);
    InsertRing(l, r, i, n);
    assert r[i] in r;
    assert InsertBefore(l, at, n) == InsertAfter(l, r[i], n);
    assert Inserted(r, i, n) == [h] + (list[..i] + [n] + list[i..]);
  }

  lemma Neighbours(l: Links, r: seq<nat>, i: nat)
    requires Ring(l, r) && i < |r|
    ensures r[i] in l.next && r[i] in l.prev && l.next[r[i]] in r && l.prev[r[i]] in r
  {
    assert NodeOk(l, r, i);
  }

  /** A node outside of a ring is linked to itself. */
  lemma SelfLinked(l: Links, r: seq<nat>, n: nat)
    requires Ring(l, r) && n !in r
    ensures Ring(Links(l.next[n := n], l.prev[n := n]), r) && Ring(Links(l.next[n := n], l.prev[n := n]), [n])
  {
    var l' := Links(l.next[n := n], l.prev[n := n]);
    forall x <- r ensures x in l.next && x in l.prev { RingHas(l, r, x); }
    RingFrame(l, l', r);
    assert NodeOk(l', [n], 0);
  }

  lemma RemoveOne(l: Links, h: nat, list: seq<nat>, n: nat)
    requires Ring(l, [h] + list) && n in list
    ensures n in l.next && n in l.prev && l.next[n] in [h] + list && l.prev[n] in [h] + list
    ensures Ring(RemoveInit(l, n), [h] + Without(list, n)) && Ring(RemoveInit(l, n), [n])
  {
    var i :| 0 <= i < |list| && list[i] == n;
    RemoveIth(l, h, list, i);
  }

  lemma RemoveIth(l: Links, h: nat, list: seq<nat>, i: nat)
    requires Ring(l, [h] + list) && i < |list|
    ensures var n := list[i];
      && n in l.next && n in l.prev && l.next[n] in [h] + list && l.prev[n] in [h] + list
      && Ring(RemoveInit(l, n), [h] + Without(list, n)) && Ring(RemoveInit(l, n), [n])
  {
    hide *;
    var n, r := list[i], [h] + list;
    IthOnRing(l, h, list, i);
    Neighbours(l, r, i + 1);
    RemoveRing(l, r, i + 1);
    SelfLinked(Remove(l, n), [h] + Without(list, n), n);
    RemoveInitIs(l, n);
  }

  lemma RemoveInitIs(l: Links, n: nat)
    requires n in l.next && n in l.prev
    ensures RemoveInit(l, n) == Links(Remove(l, n).next[n := n], Remove(l, n).prev[n := n])
  {}

  lemma IthOnRing(l: Links, h: nat, list: seq<nat>, i: nat)
    requires Ring(l, [h] + list) && i < |list|
    ensures ([h] + list)[i + 1] == list[i] && NodeOk(l, [h] + list, i + 1)
    ensures RemoveAt([h] + list, i + 1) == [h] + Without(list, list[i]) && list[i] !in [h] + Without(list, list[i])
  {
    TailDistinct([h] + list);
    assert ([h] + list)[1..] == list;
    assert NodeOk(l, [h] + list, i + 1);
    hide Ring, NodeOk, Distinct, Without, RemoveAt;
    RemoveAtIsWithout(list, i);
    WithoutElems(list, list[i]);
    RemovedBehind(h, list, i);
    assert list[i] in list;
  }

  lemma TailDistinct(r: seq<nat>)
    requires r != [] && Distinct(r)
    ensures Distinct(r[1..]) && r[0] !in r[1..]
  {}

  lemma RemoveFree(l: Links, n: nat)
    requires Ring(l, [n])
    ensures n in l.next && n in l.prev && RemoveInit(l, n) == l
  {
    assert NodeOk(l, [n], 0);
  }

  /** A ring none of whose nodes is written stays one. */
  lemma RingFrame(l: Links, l': Links, r: seq<nat>)
    requires Ring(l, r)
    requires forall x <- r :: x in l'.next && x in l.next && l'.next[x] == l.next[x]
    requires forall x <- r :: x in l'.prev && x in l.prev && l'.prev[x] == l.prev[x]
    ensures Ring(l', r)
  {
    forall i | 0 <= i < |r| ensures NodeOk(l', r, i) {
      assert NodeOk(l, r, i) && r[i] in r;
    }
  }

  lemma RingHas(l: Links, r: seq<nat>, x: nat)
    requires Ring(l, r) && x in r
    ensures x in l.next && x in l.prev
  {
    var i :| 0 <= i < |r| && r[i] == x;
    assert NodeOk(l, r, i);
  }

  // ---- all lists ----------------------------------------------------------------------------

  /** rt_list_insert_before of a free node keeps every list in order and puts the node in one. */
  lemma LinkKeeps(l: Links, lists: Lists, h: nat, i: nat, n: nat)
    requires Partition(l, lists) && h in lists && i <= |lists[h]| && Free(lists, n) && n != h
    ensures var at := Behind(h, lists[h], i);
      at in l.prev && Partition(InsertBefore(l, at, n), Inserting(lists, h, i, n))
  {
    var at, lists' := Behind(h, lists[h], i), Inserting(lists, h, i, n);
    InsertOne(l, h, lists[h], i, n);
    var l' := InsertBefore(l, at, n);
    assert ([h] + lists[h])[i] in [h] + lists[h];
    forall g <- lists' ensures Ring(l', [g] + lists'[g]) {
      if g != h { Untouched(l, lists, h, g, at, l.prev[at], n); }
    }
    InsertMembers(lists, h, i, n);
  }

  /** Other rings are not written by an insertion into list h. */
  lemma Untouched(l: Links, lists: Lists, h: nat, g: nat, at: nat, b: nat, n: nat)
    requires Partition(l, lists) && h in lists && g in lists && g != h && g != n && Free(lists, n)
    requires at in [h] + lists[h] && b in [h] + lists[h] && at in l.prev && l.prev[at] == b
    ensures Ring(InsertBefore(l, at, n), [g] + lists[g])
  {
    var r := [g] + lists[g];
    forall x <- r ensures x != at && x != b && x != n && x in l.next && x in l.prev {
      RingHas(l, r, x);
    }
    RingFrame(l, InsertBefore(l, at, n), r);
  }

  lemma InsertMembers(lists: Lists, h: nat, i: nat, n: nat)
    requires h in lists && i <= |lists[h]| && Free(lists, n) && n != h
    requires forall g <- lists, x <- lists[g] :: x !in lists
    requires forall g <- lists, k <- lists, x <- lists[g] :: x in lists[k] ==> g == k
    ensures var lists' := Inserting(lists, h, i, n);
      && (forall g <- lists', x <- lists'[g] :: x !in lists')
      && (forall g <- lists', k <- lists', x <- lists'[g] :: x in lists'[k] ==> g == k)
  {
    var lists' := Inserting(lists, h, i, n);
    forall g <- lists', x <- lists'[g] ensures x == n || x in lists[g] {
      assert lists[h] == lists[h][..i] + lists[h][i..];
    }
  }

  /** rt_list_remove of any node keeps every list in order and leaves the node in none. */
  lemma UnlinkKeeps(l: Links, lists: Lists, n: nat)
    requires Partition(l, lists) && Known(lists, n) && (n in lists ==> lists[n] == [])
    ensures n in l.next && n in l.prev
    ensures Partition(RemoveInit(l, n), Removing(lists, n)) && Free(Removing(lists, n), n)
  {
    if n in lists {
      assert [n] + lists[n] == [n];
      RemoveFree(l, n);
      NothingRemoved(lists, n);
    } else {
      var h :| h in lists && n in lists[h];
      RemoveMember(l, lists, h, n);
    }
  }

  /** Removing changes only the list the node is in. */
  lemma RemovingIs(lists: Lists, h: nat, n: nat)
    requires h in lists && n in lists[h] && n !in lists
    requires forall g <- lists :: n in lists[g] ==> g == h
    ensures Removing(lists, n) == lists[h := Without(lists[h], n)][n := []]
  {
    forall g <- lists ensures g != h ==> Without(lists[g], n) == lists[g] {
      if g != h { WithoutAbsent(lists[g], n); }
    }
  }

  lemma RemoveMember(l: Links, lists: Lists, h: nat, n: nat)
    requires Partition(l, lists) && h in lists && n in lists[h]
    ensures n in l.next && n in l.prev
    ensures Partition(RemoveInit(l, n), Removing(lists, n)) && Free(Removing(lists, n), n)
  {
    hide Ring, RemoveInit, Without, Removing;
    RemoveOne(l, h, lists[h], n);
    RemovingIs(lists, h, n);
    RemoveMembers(lists, h, n);
    var l', lists' := RemoveInit(l, n), Removing(lists, n);
    forall g | g in lists' ensures Ring(l', [g] + lists'[g]) {
      if g == n {
        assert [n] + lists'[n] == [n];
      } else if g != h {
        NotRemoved(l, lists, h, g, n);
      }
    }
  }

  lemma RemoveMembers(lists: Lists, h: nat, n: nat)
    requires h in lists && n in lists[h]
    requires forall g <- lists, x <- lists[g] :: x !in lists
    requires forall g <- lists, k <- lists, x <- lists[g] :: x in lists[k] ==> g == k
    ensures var lists' := lists[h := Without(lists[h], n)][n := []];
      && (forall g <- lists', x <- lists'[g] :: x !in lists')
      && (forall g <- lists', k <- lists', x <- lists'[g] :: x in lists'[k] ==> g == k)
  {
    var lists' := lists[h := Without(lists[h], n)][n := []];
    WithoutElems(lists[h], n);
    forall g <- lists', x <- lists'[g] ensures g in lists && x in lists[g] && x != n {}
  }

  lemma NotRemoved(l: Links, lists: Lists, h: nat, g: nat, n: nat)
    requires Partition(l, lists) && h in lists && g in lists && g != h && n in lists[h] && n in l.next && n in l.prev
    requires l.next[n] in [h] + lists[h] && l.prev[n] in [h] + lists[h]
    ensures Ring(RemoveInit(l, n), [g] + lists[g])
  {
    var r := [g] + lists[g];
    forall x <- r ensures x != n && x != l.next[n] && x != l.prev[n] && x in l.next && x in l.prev {
      RingHas(l, r, x);
    }
    RingFrame(l, RemoveInit(l, n), r);
  }

  lemma NothingRemoved(lists: Lists, n: nat)
    requires n in lists && forall h <- lists, x <- lists[h] :: x !in lists
    ensures Removing(lists, n) == lists
  {
    forall g <- lists ensures Without(lists[g], n) == lists[g] {
      WithoutAbsent(lists[g], n);
    }
  }

  /** rt_list_isempty and the first member, read off the links. */
  lemma FirstOf(l: Links, lists: Lists, h: nat)
    requires Partition(l, lists) && h in lists
    ensures h in l.next && (l.next[h] == h <==> lists[h] == [])
    ensures lists[h] != [] ==> l.next[h] == lists[h][0]
  {
    var r := [h] + lists[h];
    assert NodeOk(l, r, 0);
    if lists[h] != [] { assert lists[h][0] in lists[h]; }
  }

  /** Walking from one member to the next. */
  lemma NextOf(l: Links, lists: Lists, h: nat, i: nat)
    requires Partition(l, lists) && h in lists && i < |lists[h]|
    ensures lists[h][i] in l.next && l.next[lists[h][i]] == Behind(h, lists[h], i + 1)
    ensures lists[h][i] != h
  {
    var r := [h] + lists[h];
    assert NodeOk(l, r, i + 1) && lists[h][i] in lists[h];
  }

  /** A node that was in no list yet. */
  lemma NewKeeps(l: Links, lists: Lists, n: nat)
    requires Partition(l, lists) && !Known(lists, n)
    ensures Partition(Links(l.next[n := n], l.prev[n := n]), lists[n := []])
  {
    var l', lists' := Links(l.next[n := n], l.prev[n := n]), lists[n := []];
    assert NodeOk(l', [n], 0);
    forall h | h in lists' ensures Ring(l', [h] + lists'[h]) {
      if h == n {
        assert [n] + lists'[n] == [n];
      } else {
        assert n !in [h] + lists[h];
        SelfLinked(l, [h] + lists[h], n);
      }
    }
  }
}
