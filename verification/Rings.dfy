/** Circular doubly linked lists whose links are stored by address. */
module Rings {
  import opened Queues

  /** The next and the previous field of every node. */
  datatype Links = Links(next: map<nat, nat>, prev: map<nat, nat>)

  function Succ<T>(r: seq<T>, i: nat): T
    requires i < |r|
  {
    if i + 1 < |r| then r[i + 1] else r[0]
  }

  function Pred<T>(r: seq<T>, i: nat): T
    requires i < |r|
  {
    if i > 0 then r[i - 1] else r[|r| - 1]
  }

  /** The links of the i-th node lead to its neighbours on the ring. */
  ghost predicate NodeOk(l: Links, r: seq<nat>, i: nat)
    requires i < |r|
  {
    && r[i] in l.next && l.next[r[i]] == Succ(r, i)
    && r[i] in l.prev && l.prev[r[i]] == Pred(r, i)
  }

  /** The nodes of r, each once, are linked in this order all the way round, both ways. */
  ghost predicate Ring(l: Links, r: seq<nat>) {
    r != [] && Distinct(r) && forall i :: 0 <= i < |r| ==> NodeOk(l, r, i)
  }

  /** n->next = a->next; n->prev = a; a->next->prev = n; a->next = n. */
  function InsertAfter(l: Links, a: nat, n: nat): Links
    requires a in l.next
  {
    var b := l.next[a];
    Links(l.next[n := b][a := n], l.prev[n := a][b := n])
  }

  /** n->next->prev = n->prev; n->prev->next = n->next. */
  function Remove(l: Links, n: nat): Links
    requires n in l.next && n in l.prev
  {
    Links(l.next[l.prev[n] := l.next[n]], l.prev[l.next[n] := l.prev[n]])
  }

  function Inserted(r: seq<nat>, i: nat, n: nat): seq<nat>
    requires i < |r|
  {
    r[..i + 1] + [n] + r[i + 1..]
  }

  lemma InsertedAt(r: seq<nat>, i: nat, n: nat, j: nat)
    requires i < |r| && j <= |r|
    ensures var s := Inserted(r, i, n);
      && |s| == |r| + 1
      && s[j] == (if j <= i then r[j] else if j == i + 1 then n else r[j - 1])
      && Succ(s, j) == (if j == i then n else if j == i + 1 then Succ(r, i) else Succ(r, if j < i then j else j - 1))
      && Pred(s, j) == (if j == i + 1 then r[i] else if j == (if i + 1 < |r| then i + 2 else 0) then n
                        else Pred(r, if j <= i then j else j - 1))
  {}

  lemma InsertDistinct(r: seq<nat>, i: nat, n: nat)
    requires Distinct(r) && i < |r| && n !in r
    ensures Distinct(Inserted(r, i, n))
  {}

  /** Inserting behind the i-th node. */
  lemma InsertRing(l: Links, r: seq<nat>, i: nat, n: nat)
    requires Ring(l, r) && i < |r| && NodeOk(l, r, i) && n !in r
    ensures Ring(InsertAfter(l, r[i], n), Inserted(r, i, n))
  {
    var l', s := InsertAfter(l, r[i], n), Inserted(r, i, n);
    InsertDistinct(r, i, n);
    forall j | 0 <= j < |s| ensures NodeOk(l', s, j) {
      InsertedAt(r, i, n, j);
      if j != i + 1 { assert NodeOk(l, r, if j <= i then j else j - 1); }
    }
  }

  lemma RemovedAt(r: seq<nat>, i: nat, j: nat)
    requires i < |r| && j < |r| - 1
    ensures var s, j' := RemoveAt(r, i), if j < i then j else j + 1;
      && |s| == |r| - 1
      && s[j] == r[j']
      && Succ(s, j) == (if Succ(r, j') == r[i] && (j' + 1 == i || (i == 0 && j' == |r| - 1)) then Succ(r, i)
                        else Succ(r, j'))
      && Pred(s, j) == (if (j' == i + 1 || (j' == 0 && i == |r| - 1)) then Pred(r, i) else Pred(r, j'))
  {}

  lemma RemoveDistinct(r: seq<nat>, i: nat)
    requires Distinct(r) && i < |r|
    ensures Distinct(RemoveAt(r, i)) && r[i] !in RemoveAt(r, i)
    ensures forall x :: x in RemoveAt(r, i) <==> x in r && x != r[i]
  {}

  /** Unlinking the i-th node of a ring of several. */
  lemma RemoveRing(l: Links, r: seq<nat>, i: nat)
    requires Ring(l, r) && i < |r| && NodeOk(l, r, i) && |r| > 1
    ensures Ring(Remove(l, r[i]), RemoveAt(r, i))
  {
    var l', s := Remove(l, r[i]), RemoveAt(r, i);
    RemoveDistinct(r, i);
    assert NodeOk(l, r, i);
    forall j | 0 <= j < |s| ensures NodeOk(l', s, j) {
      RemovedAt(r, i, j);
      assert NodeOk(l, r, if j < i then j else j + 1);
    }
  }

  /** Taking an entry out behind a first one. */
  lemma RemovedBehind(x: nat, s: seq<nat>, i: nat)
    requires i < |s|
    ensures RemoveAt([x] + s, i + 1) == [x] + RemoveAt(s, i)
  {
    assert ([x] + s)[..i + 1] == [x] + s[..i];
    assert ([x] + s)[i + 2..] == s[i + 1..];
  }
}
