/** Queues ordered by a key, earlier arrivals first among equals.

    The timer rows (by expiry) and the priority-ordered wait lists of the IPC objects are
    built by the same rule: walk past every entry whose key is not greater than the new
    one's, then insert.
 */
module Queues {

  /** Keys by identifier; identifiers without a key count as 0. */
  type Keys = map<nat, int>

  function KeyOf(key: Keys, x: nat): int {
    if x in key then key[x] else 0
  }

  /** Insert t before the first entry with a greater key. */
  function Place(s: seq<nat>, key: Keys, t: nat): seq<nat> {
    if s == [] || KeyOf(key, s[0]) > KeyOf(key, t) then [t] + s
    else [s[0]] + Place(s[1..], key, t)
  }

  /** Entry i is not due after entry j. */
  ghost predicate InOrder(s: seq<nat>, key: Keys, i: nat, j: nat)
    requires i < |s| && j < |s|
  {
    KeyOf(key, s[i]) <= KeyOf(key, s[j])
  }

  ghost predicate Sorted(s: seq<nat>, key: Keys) {
    forall i, j :: 0 <= i < j < |s| ==> InOrder(s, key, i, j)
  }

  ghost predicate Distinct(s: seq<nat>) {
    forall i, j :: 0 <= i < j < |s| ==> s[i] != s[j]
  }

  /** Position c separates the keys not greater than t's from the greater ones. */
  ghost predicate IsCut(s: seq<nat>, key: Keys, t: nat, c: nat) {
    && c <= |s|
    && (forall i :: 0 <= i < c ==> KeyOf(key, s[i]) <= KeyOf(key, t))
    && (c < |s| ==> KeyOf(key, s[c]) > KeyOf(key, t))
  }

  function Without(s: seq<nat>, t: nat): seq<nat> {
    if s == [] then []
    else if s[0] == t then Without(s[1..], t)
    else [s[0]] + Without(s[1..], t)
  }

  /** The subsequence of the entries that lie in `keep`. */
  function Keep(s: seq<nat>, keep: set<nat>): seq<nat> {
    if s == [] then []
    else if s[0] in keep then [s[0]] + Keep(s[1..], keep)
    else Keep(s[1..], keep)
  }

  function Elems(s: seq<nat>): set<nat> {
    set x <- s
  }

  // ---- Place --------------------------------------------------------------------------------

  /** Place splits the queue at its cut: everything not later stays in front, in its old
      order, everything later stays behind. In particular equals come first. */
  lemma {:induction false} PlaceAtCut(s: seq<nat>, key: Keys, t: nat, c: nat)
    requires IsCut(s, key, t, c)
    ensures Place(s, key, t) == s[..c] + [t] + s[c..]
    decreases |s|
  {
    if c > 0 {
      assert IsCut(s[1..], key, t, c - 1);
      PlaceAtCut(s[1..], key, t, c - 1);
      assert s[1..][..c - 1] == s[1..c] && s[1..][c - 1..] == s[c..];
    }
  }

  lemma {:induction false} CutExists(s: seq<nat>, key: Keys, t: nat) returns (c: nat)
    ensures IsCut(s, key, t, c)
    decreases |s|
  {
    if s == [] || KeyOf(key, s[0]) > KeyOf(key, t) {
      c := 0;
    } else {
      var c' := CutExists(s[1..], key, t);
      c := c' + 1;
      forall i | 0 <= i < c ensures KeyOf(key, s[i]) <= KeyOf(key, t) {
        if i > 0 { assert s[i] == s[1..][i - 1]; }
      }
    }
  }

  lemma TailSorted(s: seq<nat>, key: Keys)
    requires Sorted(s, key) && s != []
    ensures Sorted(s[1..], key)
    ensures forall x <- s :: KeyOf(key, s[0]) <= KeyOf(key, x)
  {
    forall i, j | 0 <= i < j < |s[1..]| ensures InOrder(s[1..], key, i, j) {
      assert InOrder(s, key, i + 1, j + 1);
    }
    forall x <- s ensures KeyOf(key, s[0]) <= KeyOf(key, x) {
      var i :| 0 <= i < |s| && s[i] == x;
      if i > 0 { assert InOrder(s, key, 0, i); }
    }
  }

  lemma PlaceSorted(s: seq<nat>, key: Keys, t: nat)
    requires Sorted(s, key)
    ensures Sorted(Place(s, key, t), key)
  {
    var c := CutExists(s, key, t);
    PlaceAtCut(s, key, t, c);
    var p := s[..c] + [t] + s[c..];
    forall i, j | 0 <= i < j < |p| ensures InOrder(p, key, i, j) {
      var i', j' := if i <= c then i else i - 1, if j <= c then j else j - 1;
      if i != c && j != c { assert InOrder(s, key, i', j'); }
      if i == c && j' > c { assert InOrder(s, key, c, j'); }
    }
  }

  lemma {:induction false} PlaceElems(s: seq<nat>, key: Keys, t: nat)
    ensures forall x :: x in Place(s, key, t) <==> x in s || x == t
    ensures Elems(Place(s, key, t)) == Elems(s) + {t}
    decreases |s|
  {
    if s != [] && KeyOf(key, s[0]) <= KeyOf(key, t) {
      PlaceElems(s[1..], key, t);
      assert s == [s[0]] + s[1..];
    }
  }

  lemma PlaceDistinct(s: seq<nat>, key: Keys, t: nat)
    requires Distinct(s) && t !in s
    ensures Distinct(Place(s, key, t))
  {
    var c := CutExists(s, key, t);
    PlaceAtCut(s, key, t, c);
  }

  /** Only the keys of the entries matter. */
  lemma {:induction false} PlaceSameKeys(s: seq<nat>, key: Keys, key': Keys, t: nat)
    requires KeyOf(key, t) == KeyOf(key', t) && forall x <- s :: KeyOf(key, x) == KeyOf(key', x)
    ensures Place(s, key, t) == Place(s, key', t)
    decreases |s|
  {
    if s != [] {
      PlaceSameKeys(s[1..], key, key', t);
    }
  }

  lemma SortedSameKeys(s: seq<nat>, key: Keys, key': Keys)
    requires Sorted(s, key) && forall x <- s :: KeyOf(key, x) == KeyOf(key', x)
    ensures Sorted(s, key')
  {
    forall i, j | 0 <= i < j < |s| ensures InOrder(s, key', i, j) {
      assert InOrder(s, key, i, j);
    }
  }

  // ---- Keep and Without ---------------------------------------------------------------------

  lemma {:induction false} KeepElems(s: seq<nat>, keep: set<nat>)
    ensures forall x :: x in Keep(s, keep) <==> x in s && x in keep
    decreases |s|
  {
    if s != [] {
      KeepElems(s[1..], keep);
      assert s == [s[0]] + s[1..];
    }
  }

  lemma {:induction false} WithoutElems(s: seq<nat>, t: nat)
    ensures forall x :: x in Without(s, t) <==> x in s && x != t
    ensures Elems(Without(s, t)) == Elems(s) - {t}
    decreases |s|
  {
    if s != [] {
      WithoutElems(s[1..], t);
      assert s == [s[0]] + s[1..];
    }
  }

  lemma {:induction false} KeepSorted(s: seq<nat>, keep: set<nat>, key: Keys)
    requires Sorted(s, key)
    ensures Sorted(Keep(s, keep), key)
    decreases |s|
  {
    if s != [] {
      TailSorted(s, key);
      KeepSorted(s[1..], keep, key);
      KeepElems(s[1..], keep);
      if s[0] in keep { ConsSorted(s[0], Keep(s[1..], keep), key); }
    }
  }

  lemma ConsSorted(x: nat, s: seq<nat>, key: Keys)
    requires Sorted(s, key) && forall y <- s :: KeyOf(key, x) <= KeyOf(key, y)
    ensures Sorted([x] + s, key)
  {
    var p := [x] + s;
    forall i, j | 0 <= i < j < |p| ensures InOrder(p, key, i, j) {
      if i > 0 { assert InOrder(s, key, i - 1, j - 1); } else { assert p[j] in s; }
    }
  }

  lemma {:induction false} WithoutSorted(s: seq<nat>, t: nat, key: Keys)
    requires Sorted(s, key)
    ensures Sorted(Without(s, t), key)
    decreases |s|
  {
    if s != [] {
      TailSorted(s, key);
      WithoutSorted(s[1..], t, key);
      WithoutElems(s[1..], t);
      if s[0] != t { ConsSorted(s[0], Without(s[1..], t), key); }
    }
  }

  lemma {:induction false} WithoutDistinct(s: seq<nat>, t: nat)
    requires Distinct(s)
    ensures Distinct(Without(s, t))
    decreases |s|
  {
    if s != [] {
      WithoutDistinct(s[1..], t);
      WithoutElems(s[1..], t);
      var w := Without(s[1..], t);
      forall i, j | 0 <= i < j < |[s[0]] + w| ensures ([s[0]] + w)[i] != ([s[0]] + w)[j] {
        if i == 0 { assert w[j - 1] in w; }
      }
    }
  }

  lemma {:induction false} WithoutAbsent(s: seq<nat>, t: nat)
    requires t !in s
    ensures Without(s, t) == s
    decreases |s|
  {
    if s != [] {
      WithoutAbsent(s[1..], t);
    }
  }

  lemma {:induction false} KeepNone(s: seq<nat>, keep: set<nat>, keep': set<nat>)
    requires forall x <- s :: x in keep <==> x in keep'
    ensures Keep(s, keep) == Keep(s, keep')
    decreases |s|
  {
    if s != [] {
      KeepNone(s[1..], keep, keep');
    }
  }

  /** Inserting into a sorted queue and into a subsequence of it agree. */
  lemma {:induction false} KeepPlace(s: seq<nat>, key: Keys, t: nat, keep: set<nat>)
    requires Sorted(s, key)
    ensures Keep(Place(s, key, t), keep + {t}) == Place(Keep(s, keep + {t}), key, t)
    decreases |s|
  {
    var k := keep + {t};
    if s != [] {
      TailSorted(s, key);
      if KeyOf(key, s[0]) > KeyOf(key, t) {
        assert ([t] + s)[1..] == s;
        KeepElems(s, k);
        assert Keep(s, k) != [] ==> Keep(s, k)[0] in Keep(s, k);
      } else {
        KeepPlace(s[1..], key, t, keep);
        assert ([s[0]] + Place(s[1..], key, t))[1..] == Place(s[1..], key, t);
        if s[0] in k {
          assert Keep(s, k)[1..] == Keep(s[1..], k);
        }
      }
    }
  }

  /** A subsequence does not see an insertion of something it leaves out. */
  lemma {:induction false} KeepPlaceOther(s: seq<nat>, key: Keys, t: nat, keep: set<nat>)
    requires t !in keep
    ensures Keep(Place(s, key, t), keep) == Keep(s, keep)
    decreases |s|
  {
    if s != [] {
      if KeyOf(key, s[0]) > KeyOf(key, t) {
        assert ([t] + s)[1..] == s;
      } else {
        KeepPlaceOther(s[1..], key, t, keep);
        assert ([s[0]] + Place(s[1..], key, t))[1..] == Place(s[1..], key, t);
      }
    }
  }

  lemma {:induction false} KeepWithout(s: seq<nat>, t: nat, keep: set<nat>)
    ensures Keep(Without(s, t), keep - {t}) == Without(Keep(s, keep), t)
    decreases |s|
  {
    if s != [] {
      KeepWithout(s[1..], t, keep);
      if s[0] != t { assert Without(s, t)[1..] == Without(s[1..], t); }
      if s[0] in keep { assert Keep(s, keep)[1..] == Keep(s[1..], keep); }
    }
  }

  lemma {:induction false} WithoutLength(s: seq<nat>, t: nat)
    requires Distinct(s) && t in s
    ensures |Without(s, t)| == |s| - 1
    decreases |s|
  {
    if s[0] == t {
      WithoutAbsent(s[1..], t);
    } else {
      WithoutLength(s[1..], t);
    }
  }

  lemma TailWithout(s: seq<nat>)
    requires s != [] && Distinct(s)
    ensures s[1..] == Without(s, s[0])
  {
    WithoutAbsent(s[1..], s[0]);
  }

  /** The i-th entry is taken out. */
  function RemoveAt(s: seq<nat>, i: nat): (r: seq<nat>)
    requires i < |s|
    ensures |r| == |s| - 1
  {
    s[..i] + s[i + 1..]
  }

  lemma {:induction false} RemoveAtIsWithout(s: seq<nat>, i: nat)
    requires Distinct(s) && i < |s|
    ensures RemoveAt(s, i) == Without(s, s[i])
    decreases |s|
  {
    if i == 0 {
      TailWithout(s);
    } else {
      assert s[1..][i - 1] == s[i];
      RemoveAtIsWithout(s[1..], i - 1);
      assert RemoveAt(s, i) == [s[0]] + RemoveAt(s[1..], i - 1);
    }
  }
}
