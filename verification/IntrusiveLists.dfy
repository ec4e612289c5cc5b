/** The intrusive circular lists of `rtservice.h`, on which every queue of the kernel is built.

    A list is a ring of nodes; the node that stands for the list itself comes first, the others are
    its members in order. The methods get the ring as a ghost argument.
 */
module IntrusiveLists {
  import Rings

  class Node {
    var next: Node
    var prev: Node

    /** rt_list_init. */
    constructor ()
      ensures Ring([this])
    {
      next := this;
      prev := this;
    }
  }

  ghost predicate LinkOk(r: seq<Node>, i: nat)
    requires i < |r|
    reads r[i]
  {
    r[i].next == Rings.Succ(r, i) && r[i].prev == Rings.Pred(r, i)
  }

  ghost predicate NoTwice(r: seq<Node>) {
    forall i, j :: 0 <= i < j < |r| ==> r[i] != r[j]
  }

  /** The nodes of r, each once, are linked in this order all the way round, both ways. */
  ghost predicate Ring(r: seq<Node>)
    reads r
  {
    NoTwice(r) && Circle(r)
  }

  /** Following the links from r[0] gives the nodes of r and then r[0] again. */
  ghost predicate Circle(r: seq<Node>)
    reads r
  {
    r != [] && forall i :: 0 <= i < |r| ==> LinkOk(r, i)
  }

  /** The nodes reached from a list head are determined by the links. */
  lemma {:induction false} SamePrefix(r: seq<Node>, r': seq<Node>, n: nat)
    requires Circle(r) && Circle(r') && r[0] == r'[0] && n <= |r| && n <= |r'|
    ensures r[..n] == r'[..n]
    decreases n
  {
    if n > 0 {
      SamePrefix(r, r', n - 1);
      if n > 1 {
        assert LinkOk(r, n - 2) && LinkOk(r', n - 2);
        assert r[n - 2] == r[..n - 1][n - 2] == r'[..n - 1][n - 2] == r'[n - 2];
      }
    }
  }

  lemma ComesBack(r: seq<Node>, r': seq<Node>)
    requires Circle(r) && Circle(r') && r[0] == r'[0] && |r'| < |r|
    ensures r[|r'|] == r[0]
  {
    var n := |r'|;
    SamePrefix(r, r', n);
    assert LinkOk(r, n - 1) && LinkOk(r', n - 1);
    assert r[n - 1] == r[..n][n - 1] == r'[..n][n - 1] == r'[n - 1];
  }

  lemma RingLength(r: seq<Node>, r': seq<Node>)
    requires Ring(r) && Ring(r') && r[0] == r'[0]
    ensures |r| <= |r'|
  {
    if |r'| < |r| { ComesBack(r, r'); }
  }

  /** Two rings through the same list head are the same. */
  lemma RingUnique(r: seq<Node>, r': seq<Node>)
    requires Ring(r) && Ring(r') && r[0] == r'[0]
    ensures r == r'
  {
    RingLength(r, r');
    RingLength(r', r);
    SamePrefix(r, r', |r|);
    assert r[..|r|] == r && r'[..|r|] == r';
  }

  /** rt_list_insert_after. */
  method InsertAfter(l: Node, n: Node, ghost r: seq<Node>, ghost i: nat)
    requires Ring(r) && i < |r| && r[i] == l && n !in r
    modifies l`next, l.next`prev, n
    ensures Ring(r[..i + 1] + [n] + r[i + 1..])
  {
    assert LinkOk(r, i) && LinkOk(r, if i + 1 < |r| then i + 1 else 0);
    l.next.prev := n;
    n.next := l.next;
    l.next := n;
    n.prev := l;
    ghost var s := r[..i + 1] + [n] + r[i + 1..];
    forall j | 0 <= j < |s| ensures LinkOk(s, j) {
      if j != i + 1 { assert old(LinkOk(r, if j <= i then j else j - 1)); }
    }
  }

  /** rt_list_insert_before: before the list itself means at its end. */
  method InsertBefore(l: Node, n: Node, ghost r: seq<Node>, ghost i: nat)
    requires Ring(r) && i < |r| && r[i] == l && n !in r
    modifies l`prev, l.prev`next, n
    ensures Ring(if i == 0 then r + [n] else r[..i] + [n] + r[i..])
  {
    assert LinkOk(r, i) && LinkOk(r, if i > 0 then i - 1 else |r| - 1);
    l.prev.next := n;
    n.prev := l.prev;
    l.prev := n;
    n.next := l;
    ghost var s := if i == 0 then r + [n] else r[..i] + [n] + r[i..];
    ghost var at := if i == 0 then |r| else i;
    forall j | 0 <= j < |s| ensures LinkOk(s, j) {
      if j != at { assert old(LinkOk(r, if j < at then j else j - 1)); }
    }
  }

  /** rt_list_remove: the node is left as a ring of its own. */
  method Remove(n: Node, ghost r: seq<Node>, ghost i: nat)
    requires Ring(r) && i < |r| && r[i] == n
    modifies n, n.next`prev, n.prev`next
    ensures Ring([n])
    ensures |r| > 1 ==> Ring(r[..i] + r[i + 1..])
  {
    assert LinkOk(r, i) && LinkOk(r, if i > 0 then i - 1 else |r| - 1) && LinkOk(r, if i + 1 < |r| then i + 1 else 0);
    n.next.prev := n.prev;
    n.prev.next := n.next;
    n.next := n;
    n.prev := n;
    ghost var s := r[..i] + r[i + 1..];
    forall j | 0 <= j < |s| ensures LinkOk(s, j) {
      assert old(LinkOk(r, if j < i then j else j + 1));
    }
  }

  /** rt_list_isempty. */
  method IsEmpty(l: Node, ghost r: seq<Node>) returns (empty: bool)
    requires Ring(r) && r[0] == l
    ensures empty <==> r == [l]
  {
    assert LinkOk(r, 0);
    empty := l.next == l;
  }

  /** rt_list_len. */
  method Len(l: Node, ghost r: seq<Node>) returns (len: nat)
    requires Ring(r) && r[0] == l
    ensures len == |r| - 1
  {
    len := 0;
    var p := l;
    assert LinkOk(r, 0);
    while p.next != l
      invariant len < |r| && p == r[len] && LinkOk(r, len)
      decreases |r| - len
    {
      p := p.next;
      len := len + 1;
      assert LinkOk(r, len);
    }
  }
}
