/** The timer list of `timer.c`: a skip list of timers ordered by wrapping 32-bit expiry.

    Row `levels - 1` holds every active timer; each row above holds some of the timers of the
    row below. The links within a row are abstracted to a sequence of timer identifiers.
 */
module Timers {
  import opened Queues

  const TICKS: nat := 0x1_0000_0000
  const HALF: nat := 0x7fff_ffff            // RT_TICK_MAX / 2
  const SKIP_LIST_MASK: nat := 3            // RT_TIMER_SKIP_LIST_MASK

  /** rt_tick_t */
  type Tick = x: nat | x < TICKS

  /** a - b in 32-bit unsigned arithmetic. */
  function Sub(a: Tick, b: Tick): Tick {
    if a >= b then a - b else a + TICKS - b
  }

  /** a + b in 32-bit unsigned arithmetic. */
  function Add(a: Tick, b: Tick): Tick {
    if a + b < TICKS then a + b else a + b - TICKS
  }

  datatype Timer = Timer(initTick: Tick, timeoutTick: Tick, periodic: bool, activated: bool)

  /** Expiries seen from the tick `base`. */
  function RelKeys(timers: map<nat, Timer>, base: Tick): Keys {
    map id | id in timers :: Sub(timers[id].timeoutTick, base)
  }

  /** Timer x is due at tick `now`, by the test of the check loop. */
  predicate Due(timer: Timer, now: Tick) {
    Sub(now, timer.timeoutTick) < HALF
  }

  ghost predicate Queued(timers: map<nat, Timer>, x: nat) {
    x in timers && timers[x].activated
  }

  /** Seen from the base, expiries a and b are so close that the test of rt_timer_start, on the wrapped
      difference, tells which comes first when b is inserted. */
  predicate Comparable(a: Tick, b: Tick, base: Tick) {
    Sub(a, base) < Sub(b, base) + HALF && Sub(b, base) <= Sub(a, base) + HALF + 2
  }

  /** An expiry of t that can be compared with that of every other active timer. */
  ghost predicate Insertable(timers: map<nat, Timer>, base: Tick, t: nat, expiry: Tick) {
    forall x <- timers :: timers[x].activated && x != t ==> Comparable(timers[x].timeoutTick, expiry, base)
  }

  ghost predicate RowOk(rows: seq<seq<nat>>, key: Keys, l: nat)
    requires l < |rows|
  {
    && Sorted(rows[l], key)
    && Distinct(rows[l])
    && (l + 1 < |rows| ==> rows[l] == Keep(rows[l + 1], Elems(rows[l])))
  }

  /** Every row is sorted by expiry, seen from the base, and a subsequence of the row below; the
      bottom row holds exactly the active timers. */
  ghost predicate RowsOk(rows: seq<seq<nat>>, timers: map<nat, Timer>, base: Tick) {
    && |rows| > 0
    && (forall l :: 0 <= l < |rows| ==> RowOk(rows, RelKeys(timers, base), l))
    && (forall x <- rows[|rows| - 1] :: Queued(timers, x))
    && (forall x <- timers :: timers[x].activated ==> x in rows[|rows| - 1])
  }

  // ---- wrapping order -----------------------------------------------------------------------

  /** The wrapped difference tells which of two comparable expiries comes first. */
  lemma WrappedOrder(a: Tick, b: Tick, base: Tick)
    requires Comparable(a, b, base)
    ensures Sub(a, b) == 0 <==> Sub(a, base) == Sub(b, base)
    ensures 0 < Sub(a, b) < HALF <==> Sub(a, base) > Sub(b, base)
    ensures Sub(a, b) < HALF <==> Sub(a, base) >= Sub(b, base)
  {}

  /** Expiry a is not later than b, as the 32-bit comparison tells it. */
  predicate NotLater(a: Tick, b: Tick) {
    Sub(b, a) < HALF
  }

  ghost predicate TotalOn(s: set<Tick>) {
    forall a <- s, b <- s :: NotLater(a, b) || NotLater(b, a)
  }

  ghost predicate TransitiveOn(s: set<Tick>) {
    forall a <- s, b <- s, c <- s :: NotLater(a, b) && NotLater(b, c) ==> NotLater(a, c)
  }

  /** All expiries lie less than half the range behind m. */
  ghost predicate WindowFrom(s: set<Tick>, m: Tick) {
    forall x <- s :: NotLater(m, x)
  }

  /** The wrapped comparison orders a set of pending expiries exactly when all of them lie within
      half the range behind one of them. */
  lemma OrderIffWindow(s: set<Tick>)
    requires s != {}
    ensures TotalOn(s) && TransitiveOn(s) <==> exists m <- s :: WindowFrom(s, m)
  {
    if TotalOn(s) && TransitiveOn(s) {
      var m := Earliest(s);
    }
    if m :| m in s && WindowFrom(s, m) {
      forall a <- s, b <- s ensures NotLater(a, b) <==> Sub(a, m) <= Sub(b, m) {
        assert NotLater(m, a) && NotLater(m, b);
        WrappedOrder(b, a, m);
      }
    }
  }

  lemma {:induction false} Earliest(s: set<Tick>) returns (m: Tick)
    requires s != {} && TotalOn(s) && TransitiveOn(s)
    ensures m in s && WindowFrom(s, m)
    decreases s
  {
    var x :| x in s;
    var rest := s - {x};
    if rest == {} {
      assert s == {x};
      m := x;
    } else {
      var y := Earliest(rest);
      m := if NotLater(x, y) then x else y;
      forall z <- s ensures NotLater(m, z) {
        if z != x { assert NotLater(y, z); }
        assert NotLater(x, y) || NotLater(y, x);
      }
    }
  }

  /** Two expiries come in the same order in any two windows that both cover them. */
  lemma SameOrder(a: Tick, b: Tick, base: Tick, base': Tick)
    requires Sub(a, base) <= Sub(b, base) <= HALF && Sub(a, base') < HALF && Sub(b, base') < HALF
    ensures Sub(a, base') <= Sub(b, base')
  {}

  /** Timers x and y come in the same order seen from either base. */
  ghost predicate Agree(timers: map<nat, Timer>, base: Tick, base': Tick, x: nat, y: nat) {
    x in timers && y in timers &&
    var a, b := timers[x].timeoutTick, timers[y].timeoutTick;
    Sub(a, base) <= Sub(b, base) ==> Sub(a, base') <= Sub(b, base')
  }

  /** Both windows cover all that is pending. */
  lemma WindowsAgree(s: seq<nat>, timers: map<nat, Timer>, base: Tick, base': Tick)
    requires forall x <- s :: x in timers && Sub(timers[x].timeoutTick, base) <= HALF
    requires forall x <- s :: x in timers && Sub(timers[x].timeoutTick, base') < HALF
    ensures forall x <- s, y <- s :: Agree(timers, base, base', x, y)
  {
    forall x <- s, y <- s ensures Agree(timers, base, base', x, y) {
      if Sub(timers[x].timeoutTick, base) <= Sub(timers[y].timeoutTick, base) {
        SameOrder(timers[x].timeoutTick, timers[y].timeoutTick, base, base');
      }
    }
  }

  /** The base moves on, past nothing that is pending. */
  lemma LaterAgrees(s: seq<nat>, timers: map<nat, Timer>, base: Tick, base': Tick)
    requires forall x <- s :: x in timers && Sub(base', base) <= Sub(timers[x].timeoutTick, base)
    ensures forall x <- s, y <- s :: Agree(timers, base, base', x, y)
  {}

  /** The base may be moved: rows in order from one are in order from any other from which the
      pending timers come in the same order. */
  lemma Rebase(rows: seq<seq<nat>>, timers: map<nat, Timer>, base: Tick, base': Tick)
    requires RowsOk(rows, timers, base)
    requires forall x <- rows[|rows| - 1], y <- rows[|rows| - 1] :: Agree(timers, base, base', x, y)
    ensures RowsOk(rows, timers, base')
  {
    forall l | 0 <= l < |rows| ensures RowOk(rows, RelKeys(timers, base'), l) {
      assert RowOk(rows, RelKeys(timers, base), l);
      forall x <- rows[l] ensures x in rows[|rows| - 1] {
        RowsNest(rows, timers, base, l, x);
      }
      RebaseRow(rows[l], timers, base, base');
    }
  }

  lemma RebaseRow(s: seq<nat>, timers: map<nat, Timer>, base: Tick, base': Tick)
    requires Sorted(s, RelKeys(timers, base))
    requires forall x <- s, y <- s :: Agree(timers, base, base', x, y)
    ensures Sorted(s, RelKeys(timers, base'))
  {
    forall i, j | 0 <= i < j < |s| ensures InOrder(s, RelKeys(timers, base'), i, j) {
      assert InOrder(s, RelKeys(timers, base), i, j);
      assert s[i] in s && s[j] in s && Agree(timers, base, base', s[i], s[j]);
    }
  }

  // ---- rows under removal and insertion -----------------------------------------------------

  ghost predicate Removed(rows: seq<seq<nat>>, t: nat, rows': seq<seq<nat>>) {
    |rows'| == |rows| && forall l :: 0 <= l < |rows| ==> rows'[l] == Without(rows[l], t)
  }

  lemma RemoveRows(rows: seq<seq<nat>>, timers: map<nat, Timer>, base: Tick, t: nat, timer: Timer, rows': seq<seq<nat>>)
    requires RowsOk(rows, timers, base) && Removed(rows, t, rows') && !timer.activated
    ensures RowsOk(rows', timers[t := timer], base)
    ensures forall l :: 0 <= l < |rows| ==> t !in rows'[l]
  {
    var timers' := timers[t := timer];
    forall l | 0 <= l < |rows| ensures RowOk(rows', RelKeys(timers', base), l) && t !in rows'[l] {
      assert RowOk(rows, RelKeys(timers, base), l);
      WithoutElems(rows[l], t);
      WithoutSorted(rows[l], t, RelKeys(timers, base));
      WithoutDistinct(rows[l], t);
      SortedSameKeys(rows'[l], RelKeys(timers, base), RelKeys(timers', base));
      if l + 1 < |rows| {
        KeepWithout(rows[l + 1], t, Elems(rows[l]));
      }
    }
    var low, low' := rows[|rows| - 1], rows'[|rows| - 1];
    WithoutElems(low, t);
    forall x <- low' ensures Queued(timers', x) { assert Queued(timers, x); }
    forall x <- timers' | timers'[x].activated ensures x in low' { assert x in low; }
  }

  /** Changing the duration or the kind of a timer moves nothing. */
  lemma ControlRows(rows: seq<seq<nat>>, timers: map<nat, Timer>, base: Tick, t: nat, timer: Timer)
    requires RowsOk(rows, timers, base) && t in timers
    requires timer.activated == timers[t].activated && timer.timeoutTick == timers[t].timeoutTick
    ensures RowsOk(rows, timers[t := timer], base)
  {
    var timers' := timers[t := timer];
    forall l | 0 <= l < |rows| ensures RowOk(rows, RelKeys(timers', base), l) {
      assert RowOk(rows, RelKeys(timers, base), l);
      SortedSameKeys(rows[l], RelKeys(timers, base), RelKeys(timers', base));
    }
    forall x <- rows[|rows| - 1] ensures Queued(timers', x) { assert Queued(timers, x); }
  }

  /** The new timer is placed in the `height` lowest rows. */
  ghost predicate Inserted(rows: seq<seq<nat>>, key: Keys, t: nat, height: nat, rows': seq<seq<nat>>) {
    |rows'| == |rows| &&
    forall l :: 0 <= l < |rows| ==>
      rows'[l] == if l + height >= |rows| then Place(rows[l], key, t) else rows[l]
  }

  /** The timer is taken out of all rows and placed in the `height` lowest ones. */
  ghost predicate Started(rows: seq<seq<nat>>, key: Keys, t: nat, height: nat, rows': seq<seq<nat>>) {
    |rows'| == |rows| &&
    forall l :: 0 <= l < |rows| ==>
      rows'[l] == if l + height >= |rows| then Place(Without(rows[l], t), key, t) else Without(rows[l], t)
  }

  lemma StartedRows(rows: seq<seq<nat>>, idle: seq<seq<nat>>, key: Keys, t: nat, height: nat, rows': seq<seq<nat>>)
    requires Removed(rows, t, idle) && Inserted(idle, key, t, height, rows')
    ensures Started(rows, key, t, height, rows')
  {
    hide Place, Without;
  }

  /** Stopping the timer and setting its expiry does not take the room for it. */
  lemma InsertableRewound(timers: map<nat, Timer>, base: Tick, t: nat, timer: Timer)
    requires Insertable(timers, base, t, timer.timeoutTick) && !timer.activated
    ensures Insertable(timers[t := timer], base, t, timer.timeoutTick)
  {}

  /** Without t the pending timers come in the same order from base'. */
  lemma StartWindow(rows: seq<seq<nat>>, timers: map<nat, Timer>, timers': map<nat, Timer>, base: Tick, base': Tick,
        t: nat)
    requires RowsOk(rows, timers, base) && t in timers && t in timers' && timers' == timers[t := timers'[t]]
    requires forall x <- rows[|rows| - 1], y <- rows[|rows| - 1] ::
               x != t && y != t ==> Agree(timers, base, base', x, y)
    ensures |rows| > 0
    ensures forall x <- Without(rows[|rows| - 1], t), y <- Without(rows[|rows| - 1], t) ::
              Agree(timers', base, base', x, y)
  {
    var low := rows[|rows| - 1];
    WithoutElems(low, t);
    forall x <- Without(low, t), y <- Without(low, t) ensures Agree(timers', base, base', x, y) {
      assert Agree(timers, base, base', x, y);
    }
  }

  lemma StillRemoved(rows: seq<seq<nat>>, timers: map<nat, Timer>, base: Tick, t: nat, timer: Timer)
    requires RowsOk(rows, timers, base) && !timer.activated
    requires forall l :: 0 <= l < |rows| ==> t !in rows[l]
    ensures RowsOk(rows, timers[t := timer], base)
  {
    forall l | 0 <= l < |rows| ensures rows[l] == Without(rows[l], t) {
      WithoutAbsent(rows[l], t);
    }
    RemoveRows(rows, timers, base, t, timer, rows);
  }

  lemma InsertRow(rows: seq<seq<nat>>, key: Keys, t: nat, height: nat, rows': seq<seq<nat>>, l: nat)
    requires l < |rows| && Inserted(rows, key, t, height, rows')
    requires forall k :: 0 <= k < |rows| ==> RowOk(rows, key, k) && t !in rows[k]
    ensures RowOk(rows', key, l)
  {
    assert RowOk(rows, key, l);
    PlaceSorted(rows[l], key, t);
    PlaceDistinct(rows[l], key, t);
    if l + 1 < |rows| {
      assert RowOk(rows, key, l + 1);
      PlaceElems(rows[l], key, t);
      KeepPlaceOther(rows[l + 1], key, t, Elems(rows[l]));
      KeepPlace(rows[l + 1], key, t, Elems(rows[l]));
      KeepNone(rows[l + 1], Elems(rows[l]), Elems(rows[l]) + {t});
    }
  }

  lemma InsertRows(rows: seq<seq<nat>>, timers: map<nat, Timer>, base: Tick, t: nat, timer: Timer,
                   height: nat, rows': seq<seq<nat>>)
    requires RowsOk(rows, timers, base) && height >= 1
    requires forall l :: 0 <= l < |rows| ==> t !in rows[l]
    requires timer.activated
    requires Inserted(rows, RelKeys(timers[t := timer], base), t, height, rows')
    ensures RowsOk(rows', timers[t := timer], base)
  {
    var key, key' := RelKeys(timers, base), RelKeys(timers[t := timer], base);
    forall l | 0 <= l < |rows| ensures RowOk(rows, key', l) {
      assert RowOk(rows, key, l);
      SortedSameKeys(rows[l], key, key');
    }
    forall l | 0 <= l < |rows| ensures RowOk(rows', key', l) {
      InsertRow(rows, key', t, height, rows', l);
    }
    var low, low' := rows[|rows| - 1], rows'[|rows| - 1];
    var timers' := timers[t := timer];
    PlaceElems(low, key', t);
    forall x <- low' ensures Queued(timers', x) { assert x != t ==> Queued(timers, x); }
    forall x <- timers' | timers'[x].activated ensures x in low' { assert x != t ==> x in low; }
  }

  /** Rows above the bottom one that the insertion counter selects: one for every two low
      zero bits. */
  function ExtraLevels(r: nat, most: nat): (n: nat)
    ensures n <= most
  {
    if most == 0 || r % (SKIP_LIST_MASK + 1) != 0 then 0 else 1 + ExtraLevels(r / 4, most - 1)
  }

  function IndexOf(s: seq<nat>, x: nat): (i: nat)
    requires x in s
    ensures i < |s| && s[i] == x
  {
    if s[0] == x then 0 else 1 + IndexOf(s[1..], x)
  }

  /** The timer as armed by rt_timer_start at tick `now`. */
  function Armed(timer: Timer, now: Tick): Timer {
    timer.(timeoutTick := Add(now, timer.initTick), activated := true)
  }

  class TimerSystem {
    const levels: nat                 // RT_TIMER_SKIP_LIST_LEVEL
    const rows: array<seq<nat>>       // rt_timer_list
    var tick: Tick                    // rt_tick
    var timers: map<nat, Timer>
    var randomNr: Tick                // the static insertion counter, an unsigned int

    ghost predicate Valid(base: Tick)
      reads this, rows
    {
      rows.Length == levels > 0 && RowsOk(rows[..], timers, base)
    }

    /** rt_system_timer_init */
    constructor (levels: nat, ghost base: Tick)
      requires levels > 0
      ensures Valid(base) && this.levels == levels && timers == map[] && fresh(rows)
    {
      this.levels := levels;
      rows := new seq<nat>[levels](_ => []);
      tick, timers, randomNr := 0, map[], 0;
      new;
      forall l | 0 <= l < |rows[..]| ensures RowOk(rows[..], RelKeys(timers, base), l) {}
    }

    /** _rt_timer_init: an inactive timer, in no row. */
    method Init(t: nat, time: Tick, periodic: bool, ghost base: Tick)
      requires Valid(base) && t !in timers
      modifies this
      ensures Valid(base) && timers == old(timers)[t := Timer(time, 0, periodic, false)]
      ensures tick == old(tick) && randomNr == old(randomNr) && rows[..] == old(rows[..])
    {
      var timer := Timer(time, 0, periodic, false);
      forall l | 0 <= l < |rows[..]| ensures t !in rows[..][l] {
        NotInRow(rows[..], timers, base, l, t);
      }
      StillRemoved(rows[..], timers, base, t, timer);
      timers := timers[t := timer];
    }

    /** _rt_timer_remove, with the flag cleared as every caller does. */
    method Unlink(t: nat, ghost base: Tick)
      requires Valid(base) && t in timers
      modifies this`timers, rows
      ensures Valid(base) && Removed(old(rows[..]), t, rows[..])
      ensures timers == old(timers)[t := old(timers)[t].(activated := false)]
      ensures forall l :: 0 <= l < levels ==> t !in rows[..][l]
    {
      var i := 0;
      while i < levels
        modifies rows
        invariant i <= levels
        invariant forall l :: 0 <= l < levels ==>
                    rows[l] == if l < i then Without(old(rows[l]), t) else old(rows[l])
      {
        rows[i] := Without(rows[i], t);
        i := i + 1;
      }
      RemoveRows(old(rows[..]), timers, base, t, timers[t].(activated := false), rows[..]);
      timers := timers[t := timers[t].(activated := false)];
    }

    /** The search loops of rt_timer_start: for every row the position behind the last timer
        that is not later than t. Each row is entered where the row above was left. */
    method FindHeads(t: nat, ghost base: Tick) returns (rowHead: array<nat>)
      requires Valid(base) && t in timers && Insertable(timers, base, t, timers[t].timeoutTick)
      ensures fresh(rowHead) && rowHead.Length == levels
      ensures forall l :: 0 <= l < levels ==> IsCut(rows[l], RelKeys(timers, base), t, rowHead[l])
    {
      hide RowsOk, Insertable, RelKeys;
      ghost var key := RelKeys(timers, base);
      rowHead := new nat[levels](_ => 0);
      var lvl := 0;
      while lvl < levels
        invariant lvl <= levels
        invariant forall l :: 0 <= l < lvl ==> IsCut(rows[l], key, t, rowHead[l])
        invariant lvl < levels ==> rowHead[lvl] <= |rows[lvl]|
        invariant lvl < levels ==> forall i :: 0 <= i < rowHead[lvl] ==> KeyOf(key, rows[lvl][i]) <= KeyOf(key, t)
      {
        var cut := FindInRow(rows[lvl], rowHead[lvl], t, lvl, base);
        rowHead[lvl] := cut;
        if lvl + 1 < levels {
          var below := rows[lvl + 1];
          rowHead[lvl + 1] := StartBelow(below, t, lvl, cut, base);
        }
        lvl := lvl + 1;
      }
    }

    /** Go down from row lvl: the search in the next row starts behind the node reached here. */
    method StartBelow(below: seq<nat>, t: nat, lvl: nat, cut: nat, ghost base: Tick) returns (start: nat)
      requires Valid(base) && t in timers && lvl + 1 < levels && below == rows[lvl + 1]
      requires IsCut(rows[lvl], RelKeys(timers, base), t, cut)
      ensures start <= |below|
      ensures forall i :: 0 <= i < start ==> KeyOf(RelKeys(timers, base), below[i]) <= KeyOf(RelKeys(timers, base), t)
    {
      if cut == 0 {
        return 0;
      }
      ghost var key := RelKeys(timers, base);
      assert RowOk(rows[..], key, lvl) && RowOk(rows[..], key, lvl + 1);
      Descend(rows[lvl], below, key, cut - 1);
      start := IndexOf(below, rows[lvl][cut - 1]) + 1;
    }

    /** Walk along one row from position `start` on. */
    method FindInRow(row: seq<nat>, start: nat, t: nat, ghost l: nat, ghost base: Tick) returns (c: nat)
      requires Valid(base) && t in timers && Insertable(timers, base, t, timers[t].timeoutTick)
      requires l < levels && row == rows[l] && start <= |row|
      requires forall i :: 0 <= i < start ==> KeyOf(RelKeys(timers, base), row[i]) <= KeyOf(RelKeys(timers, base), t)
      ensures IsCut(row, RelKeys(timers, base), t, c)
    {
      c := start;
      while c < |row|
        invariant start <= c <= |row|
        invariant forall i :: 0 <= i < c ==> KeyOf(RelKeys(timers, base), row[i]) <= KeyOf(RelKeys(timers, base), t)
      {
        RowMember(rows[..], timers, base, l, row[c]);
        if row[c] != t { assert Comparable(timers[row[c]].timeoutTick, timers[t].timeoutTick, base); }
        WrappedOrder(timers[row[c]].timeoutTick, timers[t].timeoutTick, base);
        var later := Sub(timers[row[c]].timeoutTick, timers[t].timeoutTick);
        if later != 0 && later < HALF {
          break;
        }
        c := c + 1;
      }
    }

    /** rt_list_insert_after(row_head[l], &timer->row[l]) */
    method LinkRow(l: nat, t: nat, head: nat, ghost key: Keys)
      requires l < rows.Length && IsCut(rows[l], key, t, head)
      modifies rows
      ensures forall k :: 0 <= k < rows.Length ==>
                rows[k] == if k == l then Place(old(rows[k]), key, t) else old(rows[k])
    {
      PlaceAtCut(rows[l], key, t, head);
      rows[l] := rows[l][..head] + [t] + rows[l][head..];
    }

    /** The insertion loops of rt_timer_start. */
    method LinkRows(t: nat, rowHead: array<nat>, ghost key: Keys)
      requires rowHead != rows as object && rows.Length == levels > 0 && rowHead.Length == levels
      requires forall l :: 0 <= l < levels ==> IsCut(rows[l], key, t, rowHead[l])
      modifies this`randomNr, rows
      ensures randomNr == Add(old(randomNr), 1)
      ensures Inserted(old(rows[..]), key, t, 1 + ExtraLevels(randomNr, levels - 1), rows[..])
    {
      hide Place, IsCut;
      randomNr := Add(randomNr, 1);
      var tst: nat := randomNr;
      var low := levels - 1;
      LinkRow(low, t, rowHead[low], key);
      var lvl := 2;
      while lvl <= levels
        modifies rows
        invariant 2 <= lvl <= levels + 1
        invariant lvl - 2 + ExtraLevels(tst, levels + 1 - lvl) == ExtraLevels(randomNr, levels - 1)
        invariant forall l :: 0 <= l < levels ==>
                    rows[l] == if l + lvl > levels then Place(old(rows[l]), key, t) else old(rows[l])
      {
        if tst % (SKIP_LIST_MASK + 1) != 0 {
          break;
        }
        var k := levels - lvl;
        LinkRow(k, t, rowHead[k], key);
        tst := tst / 4;
        lvl := lvl + 1;
      }
    }

    /** The first half of rt_timer_start: stop the timer and set its expiry. */
    method Rewind(t: nat, ghost base: Tick)
      requires Valid(base) && t in timers
      modifies this`timers, rows
      ensures Valid(base) && Removed(old(rows[..]), t, rows[..])
      ensures timers == old(timers)[t := Armed(old(timers)[t], tick).(activated := false)]
      ensures forall l :: 0 <= l < levels ==> t !in rows[..][l]
    {
      Unlink(t, base);
      ghost var idle := timers;
      timers := timers[t := timers[t].(timeoutTick := Add(tick, timers[t].initTick))];
      StillRemoved(rows[..], idle, base, t, timers[t]);
    }

    /** The second half of rt_timer_start: link the stopped timer into its rows. */
    method Activate(t: nat, ghost base: Tick)
      requires Valid(base) && t in timers && Insertable(timers, base, t, timers[t].timeoutTick)
      requires forall l :: 0 <= l < levels ==> t !in rows[..][l]
      modifies this, rows
      ensures Valid(base) && tick == old(tick) && randomNr == Add(old(randomNr), 1)
      ensures timers == old(timers)[t := old(timers)[t].(activated := true)]
      ensures Inserted(old(rows[..]), RelKeys(timers, base), t, 1 + ExtraLevels(randomNr, levels - 1), rows[..])
    {
      var rowHead := FindHeads(t, base);
      ghost var key := RelKeys(timers, base);
      LinkRows(t, rowHead, key);
      timers := timers[t := timers[t].(activated := true)];
      assert RelKeys(timers, base) == key;
      InsertRows(old(rows[..]), old(timers), base, t, timers[t], 1 + ExtraLevels(randomNr, levels - 1), rows[..]);
    }

    /** rt_timer_start. The expiry must be comparable with the other pending ones; with the old expiry
        of t out of the way they may be seen from another base. */
    method Start(t: nat, ghost base: Tick, ghost base': Tick)
      requires Valid(base) && t in timers && timers[t].initTick < HALF
      requires forall x <- Queue(), y <- Queue() :: x != t && y != t ==> Agree(timers, base, base', x, y)
      requires Insertable(timers, base', t, Add(tick, timers[t].initTick))
      modifies this, rows
      ensures Valid(base') && tick == old(tick) && randomNr == Add(old(randomNr), 1)
      ensures timers == old(timers)[t := Armed(old(timers)[t], tick)]
      ensures Started(old(rows[..]), RelKeys(timers, base'), t, 1 + ExtraLevels(randomNr, levels - 1), rows[..])
    {
      hide RowsOk, RelKeys, Insertable, Removed, Inserted, Started, Place, Without, ExtraLevels;
      ghost var before, armed := rows[..], timers[t := Armed(timers[t], tick).(activated := false)];
      InsertableRewound(timers, base', t, armed[t]);
      StartWindow(before, timers, armed, base, base', t);
      Rewind(t, base);
      ghost var idle := rows[..];
      Rebase(idle, timers, base, base');
      Activate(t, base');
      StartedRows(before, idle, RelKeys(timers, base'), t, 1 + ExtraLevels(randomNr, levels - 1), rows[..]);
    }

    /** rt_timer_stop: false stands for -RT_ERROR. */
    method Stop(t: nat, ghost base: Tick) returns (ok: bool)
      requires Valid(base) && t in timers
      modifies this, rows
      ensures Valid(base) && tick == old(tick) && randomNr == old(randomNr)
      ensures ok == old(timers)[t].activated
      ensures timers == old(timers)[t := old(timers)[t].(activated := false)]
      ensures forall l :: 0 <= l < levels ==> rows[l] == Without(old(rows[l]), t)
    {
      if !timers[t].activated {
        assert timers == timers[t := timers[t].(activated := false)];
        forall l | 0 <= l < levels ensures rows[l] == Without(rows[l], t) {
          NotActive(rows[..], timers, base, l, t);
          WithoutAbsent(rows[..][l], t);
        }
        return false;
      }
      Unlink(t, base);
      return true;
    }

    /** rt_timer_control with RT_TIMER_CTRL_SET_TIME. */
    method SetTime(t: nat, time: Tick, ghost base: Tick)
      requires Valid(base) && t in timers
      modifies this`timers
      ensures Valid(base) && timers == old(timers)[t := old(timers)[t].(initTick := time)]
    {
      ControlRows(rows[..], timers, base, t, timers[t].(initTick := time));
      timers := timers[t := timers[t].(initTick := time)];
    }

    /** rt_timer_control with RT_TIMER_CTRL_SET_PERIODIC or RT_TIMER_CTRL_SET_ONESHOT. */
    method SetPeriodic(t: nat, on: bool, ghost base: Tick)
      requires Valid(base) && t in timers
      modifies this`timers
      ensures Valid(base) && timers == old(timers)[t := old(timers)[t].(periodic := on)]
    {
      ControlRows(rows[..], timers, base, t, timers[t].(periodic := on));
      timers := timers[t := timers[t].(periodic := on)];
    }

    /** The timers of the lowest row: all active ones, in expiry order. */
    function Queue(): seq<nat>
      requires rows.Length == levels > 0
      reads rows
    {
      rows[levels - 1]
    }

    /** The timer at the head of the queue has expired: unlink it, call its timeout function,
        start it again if it is periodic. Between unlinking and restarting the flag of a
        periodic timer is clear here and set in the source; nothing looks at it. */
    method Fire(t: nat, ghost base: Tick)
      requires Valid(base) && Queue() != [] && t == Queue()[0]
      requires t in timers && Bounded(timers[t])
      requires timers[t].periodic ==> Insertable(timers, base, t, Add(tick, timers[t].initTick))
      modifies this, rows
      ensures Valid(base) && tick == old(tick)
      ensures timers == old(timers)[t := Fired(old(timers)[t], tick)]
      ensures Queue() == if old(timers)[t].periodic then Place(old(Queue())[1..], RelKeys(timers, base), t)
                         else old(Queue())[1..]
    {
      HeadActive(rows[..], timers, base, t);
      Unlink(t, base);
      if timers[t].periodic {
        Restart(t, base);
      }
    }

    /** rt_timer_start of a periodic timer that has just been taken off the queue. */
    method Restart(t: nat, ghost base: Tick)
      requires Valid(base) && t !in Queue() && t in timers && timers[t].initTick < HALF
      requires Insertable(timers, base, t, Add(tick, timers[t].initTick))
      modifies this, rows
      ensures Valid(base) && tick == old(tick) && timers == old(timers)[t := Armed(old(timers)[t], tick)]
      ensures Queue() == Place(old(Queue()), RelKeys(timers, base), t)
    {
      SameBase(rows[..], timers, base);
      hide RowsOk, Place, RelKeys;
      WithoutAbsent(Queue(), t);
      Start(t, base, base);
    }

    /** One round of the loop of rt_timer_check with the k-th due timer at the head. */
    method FireNext(t: nat, ghost q: seq<nat>, ghost before: map<nat, Timer>, ghost n: nat, ghost k: nat,
                    ghost base: Tick)
      requires Valid(base) && CheckInv(q, before, base, tick, n, k, Queue(), timers)
      requires k < n && Queue() != [] && t == Queue()[0]
      requires k + 1 < n ==> k + 1 < |q| && Clears(q, before, tick, k)
      modifies this, rows
      ensures Valid(base) && tick == old(tick) && k < n <= |q| && t == q[k]
      ensures CheckInv(q, before, base, tick, n, k + 1, Queue(), timers)
    {
      ghost var queue, idle := Queue(), timers;
      hide CheckInv, RowsOk, Insertable, Bounded, Due, Place, RelKeys, Clears;
      InvBounds(q, before, base, tick, n, k, queue, idle);
      HeadIs(q, before, base, tick, n, k, queue, idle);
      if timers[t].periodic { RearmInserts(q, before, base, tick, n, k, rows[..], idle); }
      Fire(t, base);
      CheckStep(q, before, base, tick, n, k, queue, idle, Queue(), timers);
    }

    /** The loop of rt_timer_check; q, before and n are the queue, the timers and the number of
        due timers at its start. */
    method CheckLoop(ghost q: seq<nat>, ghost before: map<nat, Timer>, ghost n: nat, ghost base: Tick)
      returns (fired: seq<nat>)
      requires Valid(base) && CheckInv(q, before, base, tick, n, 0, Queue(), timers)
      requires Catches(q, before, tick) && n <= |q| && Counts(q, before, n)
      modifies this, rows
      ensures Valid(base) && tick == old(tick) && n <= |q| && fired == q[..n]
      ensures CheckInv(q, before, base, tick, n, n, Queue(), timers)
      ensures Queue() == [] || (Queue()[0] in timers && !Due(timers[Queue()[0]], tick))
    {
      fired := [];
      ghost var k := 0;
      InvBounds(q, before, base, tick, n, k, Queue(), timers);
      hide CheckInv, RowsOk, Catches, Clears, Due, Counts;
      while |Queue()| > 0
        invariant Valid(base) && tick == old(tick) && k <= n <= |q| && fired == q[..k]
        invariant CheckInv(q, before, base, tick, n, k, Queue(), timers)
        decreases n - k
      {
        var t := Queue()[0];
        HeadDue(q, before, base, tick, n, k, Queue(), timers);
        StillDue(timers[t], tick);
        if Sub(tick, timers[t].timeoutTick) >= HALF {
          return;
        }
        OneMore(q, k, fired, t);
        CatchesAt(q, before, tick, n, k);
        FireNext(t, q, before, n, k, base);
        fired := fired + [t];
        k := k + 1;
      }
      CheckEmpty(q, before, base, tick, n, k, Queue(), timers);
    }

    /** rt_timer_check, for timeout functions that touch neither timers nor the tick. The result
        lists the timers whose timeout function was called, in order. */
    method Check(ghost base: Tick) returns (fired: seq<nat>)
      requires Valid(base) && (forall x <- Queue() :: Reaches(timers, base, tick, x))
      requires Catches(Queue(), timers, tick)
      requires forall x <- Queue() :: x in timers && (Due(timers[x], tick) ==> Repeats(timers[x]))
      modifies this, rows
      ensures Valid(base) && tick == old(tick)
      ensures fired == old(Queue())[..DueCount(old(Queue()), old(timers), tick)]
      ensures timers == AfterFiring(old(timers), fired, tick)
      ensures Queue() == PlaceAll(old(Queue())[|fired|..], RelKeys(timers, base), Periodic(fired, old(timers)))
      ensures forall x <- Queue() :: x in timers && !Due(timers[x], tick)
    {
      ghost var q, before, n := Queue(), timers, DueCount(Queue(), timers, tick);
      assert RowOk(rows[..], RelKeys(timers, base), levels - 1);
      CheckStart(q, before, base, tick, n);
      FrontCounts(q, before, tick, n);
      fired := CheckLoop(q, before, n, base);
      CheckDone(q, before, base, tick, n, n, Queue(), timers);
    }
  }

  // ---- the check loop -----------------------------------------------------------------------

  /** A periodic timer has a period of less than half the range, as rt_timer_start asserts. */
  predicate Bounded(timer: Timer) {
    timer.periodic ==> timer.initTick < HALF
  }

  /** And one of at least one tick. */
  predicate Repeats(timer: Timer) {
    timer.periodic ==> 1 <= timer.initTick < HALF
  }

  /** No timer among the first n is armed again for the same tick. */
  predicate Counts(q: seq<nat>, timers: map<nat, Timer>, n: nat)
    requires n <= |q|
  {
    forall x <- q[..n] :: x in timers && Repeats(timers[x])
  }

  /** An active timer that expires less than half the range behind the clock, which itself lies less
      than half the range behind the base. */
  ghost predicate Reaches(timers: map<nat, Timer>, base: Tick, now: Tick, x: nat) {
    && x in timers && timers[x].activated && Sub(now, base) < HALF
    && Sub(timers[x].timeoutTick, base) < Sub(now, base) + HALF
    && (Due(timers[x], now) ==> Bounded(timers[x]))
  }

  /** Armed again at `now`, the i-th timer goes behind the next one, which is overdue. */
  predicate Clears(q: seq<nat>, timers: map<nat, Timer>, now: Tick, i: nat)
    requires i + 1 < |q|
  {
    q[i] in timers && q[i + 1] in timers &&
    (timers[q[i]].periodic ==> Sub(now, timers[q[i + 1]].timeoutTick) + timers[q[i]].initTick <= HALF + 2)
  }

  /** The check is not so late that a timer armed again goes in front of one that is still to fire. */
  predicate Catches(q: seq<nat>, timers: map<nat, Timer>, now: Tick) {
    forall i: nat | i < DueCount(q, timers, now) - 1 :: Clears(q, timers, now, i)
  }

  function Fired(timer: Timer, now: Tick): Timer {
    if timer.periodic then Armed(timer, now) else timer.(activated := false)
  }

  function AfterFiring(timers: map<nat, Timer>, fired: seq<nat>, now: Tick): map<nat, Timer> {
    map x | x in timers :: if x in fired then Fired(timers[x], now) else timers[x]
  }

  /** Number of due timers at the front of the queue. */
  function DueCount(q: seq<nat>, timers: map<nat, Timer>, now: Tick): (n: nat)
    ensures n <= |q|
    ensures forall i :: 0 <= i < n ==> q[i] in timers && Due(timers[q[i]], now)
    ensures n < |q| ==> !(q[n] in timers && Due(timers[q[n]], now))
  {
    DueFrom(q, timers, now, 0)
  }

  function DueFrom(q: seq<nat>, timers: map<nat, Timer>, now: Tick, i: nat): (n: nat)
    requires i <= |q|
    ensures i <= n <= |q|
    ensures forall j :: i <= j < n ==> q[j] in timers && Due(timers[q[j]], now)
    ensures n < |q| ==> !(q[n] in timers && Due(timers[q[n]], now))
    decreases |q| - i
  {
    if i < |q| && q[i] in timers && Due(timers[q[i]], now) then DueFrom(q, timers, now, i + 1) else i
  }

  function Periodic(ts: seq<nat>, timers: map<nat, Timer>): seq<nat> {
    if ts == [] then []
    else
      var front := Periodic(ts[..|ts| - 1], timers);
      var t := ts[|ts| - 1];
      if t in timers && timers[t].periodic then front + [t] else front
  }

  /** Insert the timers ts one after the other. */
  function PlaceAll(s: seq<nat>, key: Keys, ts: seq<nat>): seq<nat> {
    if ts == [] then s else Place(PlaceAll(s, key, ts[..|ts| - 1]), key, ts[|ts| - 1])
  }

  lemma HeadActive(rows: seq<seq<nat>>, timers: map<nat, Timer>, base: Tick, t: nat)
    requires RowsOk(rows, timers, base) && rows[|rows| - 1] != [] && t == rows[|rows| - 1][0]
    ensures t in timers && timers[t].activated
    ensures Without(rows[|rows| - 1], t) == rows[|rows| - 1][1..] && t !in rows[|rows| - 1][1..]
  {
    var q := rows[|rows| - 1];
    assert RowOk(rows, RelKeys(timers, base), |rows| - 1);
    assert t in q && Queued(timers, t);
    TailWithout(q);
    WithoutElems(q, t);
  }

  lemma ArmedWindow(now: Tick, period: Tick, base: Tick)
    requires Sub(now, base) + period < TICKS
    ensures Sub(Add(now, period), base) == Sub(now, base) + period
  {}

  lemma AllQueued(rows: seq<seq<nat>>, timers: map<nat, Timer>, base: Tick)
    requires RowsOk(rows, timers, base)
    ensures |rows| > 0 && forall x <- timers :: timers[x].activated ==> x in rows[|rows| - 1]
  {}

  lemma SameBase(rows: seq<seq<nat>>, timers: map<nat, Timer>, base: Tick)
    requires RowsOk(rows, timers, base)
    ensures forall x <- rows[|rows| - 1], y <- rows[|rows| - 1] :: Agree(timers, base, base, x, y)
  {
    forall x <- rows[|rows| - 1] ensures x in timers { assert Queued(timers, x); }
  }

  /** A timer re-armed at `now` is due again at once exactly when its period is zero. */
  lemma RearmedDue(timer: Timer, now: Tick)
    requires timer.initTick < HALF
    ensures Due(Armed(timer, now), now) <==> timer.initTick == 0
  {}

  lemma AfterNone(timers: map<nat, Timer>, now: Tick)
    ensures AfterFiring(timers, [], now) == timers
  {}

  /** What has been fired, what is still due, and what is queued behind it. */
  ghost predicate CheckInv(q: seq<nat>, before: map<nat, Timer>, base: Tick, now: Tick, n: nat, k: nat,
                           queue: seq<nat>, timers: map<nat, Timer>)
  {
    && CheckPre(q, before, base, now, n)
    && k <= n
    && timers == AfterFiring(before, q[..k], now)
    && queue == q[k..n] + PlaceAll(q[n..], RelKeys(AfterFiring(before, q[..n], now), base), Periodic(q[..k], before))
  }

  ghost predicate CheckPre(q: seq<nat>, before: map<nat, Timer>, base: Tick, now: Tick, n: nat) {
    && Distinct(q) && Sorted(q, RelKeys(before, base)) && n == DueCount(q, before, now)
    && (forall x <- q :: Reaches(before, base, now, x))
  }

  lemma {:induction false} RowsNest(rows: seq<seq<nat>>, timers: map<nat, Timer>, base: Tick, l: nat, x: nat)
    requires RowsOk(rows, timers, base) && l < |rows| && x in rows[l]
    ensures x in rows[|rows| - 1]
    decreases |rows| - l
  {
    assert RowOk(rows, RelKeys(timers, base), l);
    if l + 1 < |rows| {
      KeepElems(rows[l + 1], Elems(rows[l]));
      RowsNest(rows, timers, base, l + 1, x);
    }
  }

  lemma RowMember(rows: seq<seq<nat>>, timers: map<nat, Timer>, base: Tick, l: nat, x: nat)
    requires RowsOk(rows, timers, base) && l < |rows| && x in rows[l]
    ensures Queued(timers, x)
  {
    RowsNest(rows, timers, base, l, x);
  }

  lemma NotInRow(rows: seq<seq<nat>>, timers: map<nat, Timer>, base: Tick, l: nat, t: nat)
    requires RowsOk(rows, timers, base) && l < |rows| && t !in timers
    ensures t !in rows[l]
  {
    if t in rows[l] { RowMember(rows, timers, base, l, t); }
  }

  lemma NotActive(rows: seq<seq<nat>>, timers: map<nat, Timer>, base: Tick, l: nat, t: nat)
    requires RowsOk(rows, timers, base) && l < |rows| && t in timers && !timers[t].activated
    ensures t !in rows[l]
  {
    if t in rows[l] { RowMember(rows, timers, base, l, t); }
  }

  /** The timer at position i of one row is found in the row below, with nothing later before it. */
  lemma Descend(row: seq<nat>, below: seq<nat>, key: Keys, i: nat)
    requires i < |row| && Sorted(below, key) && row == Keep(below, Elems(row))
    ensures row[i] in below
    ensures forall k :: 0 <= k <= IndexOf(below, row[i]) ==> KeyOf(key, below[k]) <= KeyOf(key, row[i])
  {
    KeepElems(below, Elems(row));
    assert row[i] in row;
    var j := IndexOf(below, row[i]);
    forall k | 0 <= k <= j ensures KeyOf(key, below[k]) <= KeyOf(key, row[i]) {
      if k < j { assert InOrder(below, key, k, j); }
    }
  }

  lemma CheckStart(q: seq<nat>, before: map<nat, Timer>, base: Tick, now: Tick, n: nat)
    requires CheckPre(q, before, base, now, n)
    ensures CheckInv(q, before, base, now, n, 0, q, before)
  {
    AfterNone(before, now);
    assert q[..0] == [] && q == q[0..n] + q[n..];
  }

  lemma {:induction false} PlaceAllElems(s: seq<nat>, key: Keys, ts: seq<nat>)
    ensures forall x :: x in PlaceAll(s, key, ts) <==> x in s || x in ts
    decreases |ts|
  {
    if ts != [] {
      var front := ts[..|ts| - 1];
      PlaceAllElems(s, key, front);
      PlaceElems(PlaceAll(s, key, front), key, ts[|ts| - 1]);
      assert ts == front + [ts[|ts| - 1]];
    }
  }

  lemma {:induction false} PeriodicElems(ts: seq<nat>, timers: map<nat, Timer>)
    ensures forall x :: x in Periodic(ts, timers) <==> x in ts && x in timers && timers[x].periodic
    decreases |ts|
  {
    if ts != [] {
      PeriodicElems(ts[..|ts| - 1], timers);
      assert ts == ts[..|ts| - 1] + [ts[|ts| - 1]];
    }
  }

  /** A timer is due exactly when its expiry, seen from the base, is not later than now. */
  lemma DueByKey(timer: Timer, now: Tick, base: Tick)
    requires Sub(now, base) < HALF && Sub(timer.timeoutTick, base) < Sub(now, base) + HALF
    ensures Due(timer, now) <==> Sub(timer.timeoutTick, base) <= Sub(now, base)
  {
    WrappedOrder(now, timer.timeoutTick, base);
  }

  /** The due timers are exactly the first n of the queue. */
  lemma DuePrefix(q: seq<nat>, before: map<nat, Timer>, base: Tick, now: Tick, n: nat, i: nat)
    requires CheckPre(q, before, base, now, n) && i < |q|
    ensures Reaches(before, base, now, q[i])
    ensures Due(before[q[i]], now) <==> i < n
  {
    assert q[i] in q;
    if n <= i {
      assert q[n] in q && Reaches(before, base, now, q[n]);
      if n < i { assert InOrder(q, RelKeys(before, base), n, i); }
      DueByKey(before[q[i]], now, base);
      DueByKey(before[q[n]], now, base);
    }
  }

  /** What is queued behind the remaining due timers is none of them. */
  lemma TailBehind(q: seq<nat>, before: map<nat, Timer>, base: Tick, now: Tick, n: nat, k: nat, key: Keys, x: nat)
    requires CheckPre(q, before, base, now, n) && k <= n
    requires x in PlaceAll(q[n..], key, Periodic(q[..k], before))
    ensures x in before && x !in q[k..n]
  {
    PlaceAllElems(q[n..], key, Periodic(q[..k], before));
    PeriodicElems(q[..k], before);
    if x in q[n..] {
      var i :| 0 <= i < |q[n..]| && q[n..][i] == x;
      DuePrefix(q, before, base, now, n, n + i);
    }
  }

  /** With periods that count it is not due either. */
  lemma TailNotDue(q: seq<nat>, before: map<nat, Timer>, base: Tick, now: Tick, n: nat, k: nat, key: Keys, x: nat)
    requires CheckPre(q, before, base, now, n) && k <= n && Counts(q, before, n)
    requires x in PlaceAll(q[n..], key, Periodic(q[..k], before))
    ensures x in before && !Due(AfterFiring(before, q[..k], now)[x], now)
  {
    PlaceAllElems(q[n..], key, Periodic(q[..k], before));
    PeriodicElems(q[..k], before);
    if x in q[n..] {
      var i :| 0 <= i < |q[n..]| && q[n..][i] == x;
      DuePrefix(q, before, base, now, n, n + i);
    } else {
      var i :| 0 <= i < k && q[i] == x;
      assert q[..n][i] == x && x in q[..n];
      RearmedDue(before[x], now);
    }
  }

  /** The next due timer is at the head. */
  lemma HeadIs(q: seq<nat>, before: map<nat, Timer>, base: Tick, now: Tick, n: nat, k: nat,
               queue: seq<nat>, timers: map<nat, Timer>)
    requires CheckInv(q, before, base, now, n, k, queue, timers) && k < n
    ensures n <= |q| && queue != [] && queue[0] == q[k] && q[k] in timers && Due(timers[q[k]], now)
    ensures q[k] in before && timers[q[k]] == before[q[k]] && Bounded(timers[q[k]])
  {
    DuePrefix(q, before, base, now, n, k);
    assert q[k] in q;
  }

  lemma HeadDue(q: seq<nat>, before: map<nat, Timer>, base: Tick, now: Tick, n: nat, k: nat,
                queue: seq<nat>, timers: map<nat, Timer>)
    requires CheckInv(q, before, base, now, n, k, queue, timers) && queue != [] && n <= |q| && Counts(q, before, n)
    ensures queue[0] in timers
    ensures Due(timers[queue[0]], now) <==> k < n
  {
    var key := RelKeys(AfterFiring(before, q[..n], now), base);
    if k < n {
      HeadIs(q, before, base, now, n, k, queue, timers);
    } else {
      assert queue == PlaceAll(q[n..], key, Periodic(q[..k], before));
      TailNotDue(q, before, base, now, n, k, key, queue[0]);
    }
  }

  /** Every timer still to fire is overdue by little enough for the k-th to go behind it. */
  lemma ClearsAll(q: seq<nat>, before: map<nat, Timer>, base: Tick, now: Tick, n: nat, k: nat, j: nat)
    requires CheckPre(q, before, base, now, n) && k < j < n && Clears(q, before, now, k)
    ensures q[k] in before && q[j] in before
    ensures before[q[k]].periodic ==> Sub(now, before[q[j]].timeoutTick) + before[q[k]].initTick <= HALF + 2
  {
    DuePrefix(q, before, base, now, n, k + 1);
    DuePrefix(q, before, base, now, n, j);
    DueByKey(before[q[k + 1]], now, base);
    DueByKey(before[q[j]], now, base);
    if k + 1 < j { assert InOrder(q, RelKeys(before, base), k + 1, j); }
  }

  lemma RestKey(q: seq<nat>, before: map<nat, Timer>, base: Tick, now: Tick, n: nat, i: nat)
    requires CheckPre(q, before, base, now, n) && n <= i < |q|
    ensures q[i] in before
    ensures Sub(now, base) < Sub(before[q[i]].timeoutTick, base) < Sub(now, base) + HALF
  {
    DuePrefix(q, before, base, now, n, i);
    DueByKey(before[q[i]], now, base);
  }

  lemma RearmedKey(q: seq<nat>, before: map<nat, Timer>, base: Tick, now: Tick, n: nat, i: nat)
    requires CheckPre(q, before, base, now, n) && i < n && q[i] in before && before[q[i]].periodic
    ensures Sub(now, base) <= Sub(Armed(before[q[i]], now).timeoutTick, base) < Sub(now, base) + HALF
  {
    DuePrefix(q, before, base, now, n, i);
    ArmedWindow(now, before[q[i]].initTick, base);
  }

  /** The expiry of a timer behind those still to fire: not behind the clock. */
  lemma TailKey(q: seq<nat>, before: map<nat, Timer>, base: Tick, now: Tick, n: nat, k: nat, key: Keys, x: nat)
    requires CheckPre(q, before, base, now, n) && k <= n
    requires x in PlaceAll(q[n..], key, Periodic(q[..k], before))
    ensures x in before
    ensures Sub(now, base) <= Sub(AfterFiring(before, q[..k], now)[x].timeoutTick, base) < Sub(now, base) + HALF
  {
    PlaceAllElems(q[n..], key, Periodic(q[..k], before));
    PeriodicElems(q[..k], before);
    if x in q[n..] {
      var i :| 0 <= i < |q[n..]| && q[n..][i] == x;
      RestKey(q, before, base, now, n, n + i);
      assert q[n + i] == x && x !in q[..k];
    } else {
      var i :| 0 <= i < k && q[i] == x;
      RearmedKey(q, before, base, now, n, i);
    }
    hide CheckPre, PlaceAll, Periodic;
  }

  /** The new expiry of the timer that is fired can be compared with all that is queued behind it. */
  lemma RearmFits(q: seq<nat>, before: map<nat, Timer>, base: Tick, now: Tick, n: nat, k: nat,
                  queue: seq<nat>, timers: map<nat, Timer>, x: nat)
    requires CheckInv(q, before, base, now, n, k, queue, timers) && k < n && q[k] in timers && timers[q[k]].periodic
    requires timers[q[k]] == before[q[k]] && (k + 1 < n ==> Clears(q, before, now, k)) && queue != [] && x in queue[1..]
    ensures x in timers && Comparable(timers[x].timeoutTick, Add(now, timers[q[k]].initTick), base)
  {
    var key := RelKeys(AfterFiring(before, q[..n], now), base);
    DuePrefix(q, before, base, now, n, k);
    ArmedWindow(now, timers[q[k]].initTick, base);
    DropFirst(q, k, n, PlaceAll(q[n..], key, Periodic(q[..k], before)));
    if x in q[k + 1..n] {
      var j :| k < j < n && q[j] == x;
      ClearsAll(q, before, base, now, n, k, j);
      DuePrefix(q, before, base, now, n, j);
      DueByKey(before[x], now, base);
      assert x !in q[..k];
    } else {
      TailKey(q, before, base, now, n, k, key, x);
    }
  }

  lemma RearmInserts(q: seq<nat>, before: map<nat, Timer>, base: Tick, now: Tick, n: nat, k: nat,
                     rows: seq<seq<nat>>, timers: map<nat, Timer>)
    requires RowsOk(rows, timers, base) && CheckInv(q, before, base, now, n, k, rows[|rows| - 1], timers) && k < n
    requires rows[|rows| - 1] != [] && rows[|rows| - 1][0] == q[k]
    requires q[k] in timers && timers[q[k]] == before[q[k]] && timers[q[k]].periodic
    requires k + 1 < n ==> Clears(q, before, now, k)
    ensures Insertable(timers, base, q[k], Add(now, timers[q[k]].initTick))
  {
    hide RowsOk, CheckInv, Clears, Comparable;
    AllQueued(rows, timers, base);
    InvBounds(q, before, base, now, n, k, rows[|rows| - 1], timers);
    var queue := rows[|rows| - 1];
    assert queue == [q[k]] + queue[1..];
    forall x <- timers | timers[x].activated && x != q[k]
      ensures Comparable(timers[x].timeoutTick, Add(now, timers[q[k]].initTick), base)
    {
      assert x in queue[1..];
      RearmFits(q, before, base, now, n, k, queue, timers, x);
    }
  }

  lemma FrontCounts(q: seq<nat>, before: map<nat, Timer>, now: Tick, n: nat)
    requires n == DueCount(q, before, now)
    requires forall x <- q :: x in before && (Due(before[x], now) ==> Repeats(before[x]))
    ensures Counts(q, before, n)
  {}

  lemma CatchesAt(q: seq<nat>, before: map<nat, Timer>, now: Tick, n: nat, k: nat)
    requires Catches(q, before, now) && n == DueCount(q, before, now)
    ensures k + 1 < n ==> k + 1 < |q| && Clears(q, before, now, k)
  {}

  lemma StillDue(timer: Timer, now: Tick)
    ensures Due(timer, now) <==> Sub(now, timer.timeoutTick) < HALF
  {}

  /** Placing behind entries none of which is later. */
  lemma {:induction false} PlaceBehind(a: seq<nat>, s: seq<nat>, key: Keys, t: nat)
    requires forall x <- a :: KeyOf(key, x) <= KeyOf(key, t)
    ensures Place(a + s, key, t) == a + Place(s, key, t)
    decreases |a|
  {
    if a == [] {
      assert a + s == s;
    } else {
      PlaceBehind(a[1..], s, key, t);
      assert (a + s)[1..] == a[1..] + s && a[0] in a;
    }
  }

  lemma FiredNext(q: seq<nat>, before: map<nat, Timer>, now: Tick, k: nat)
    requires Distinct(q) && k < |q| && q[k] in before
    ensures var timers := AfterFiring(before, q[..k], now);
      && timers[q[k]] == before[q[k]]
      && timers[q[k] := Fired(before[q[k]], now)] == AfterFiring(before, q[..k + 1], now)
    ensures Periodic(q[..k + 1], before) == if before[q[k]].periodic then Periodic(q[..k], before) + [q[k]]
              else Periodic(q[..k], before)
  {
    assert q[..k + 1] == q[..k] + [q[k]];
  }

  lemma CheckStep(q: seq<nat>, before: map<nat, Timer>, base: Tick, now: Tick, n: nat, k: nat,
                  queue: seq<nat>, timers: map<nat, Timer>, queue': seq<nat>, timers': map<nat, Timer>)
    requires CheckInv(q, before, base, now, n, k, queue, timers) && k < n && queue != [] && queue[0] == q[k]
    requires q[k] in timers && timers' == timers[q[k] := Fired(timers[q[k]], now)]
    requires queue' == if timers[q[k]].periodic then Place(queue[1..], RelKeys(timers', base), q[k]) else queue[1..]
    ensures CheckInv(q, before, base, now, n, k + 1, queue', timers')
  {
    FiredNext(q, before, now, k);
    var keyF := RelKeys(AfterFiring(before, q[..n], now), base);
    var tail := PlaceAll(q[n..], keyF, Periodic(q[..k], before));
    DropFirst(q, k, n, tail);
    if before[q[k]].periodic {
      Requeue(q, before, base, now, n, k, keyF, tail);
    }
  }

  lemma InvBounds(q: seq<nat>, before: map<nat, Timer>, base: Tick, now: Tick, n: nat, k: nat,
                  queue: seq<nat>, timers: map<nat, Timer>)
    requires CheckInv(q, before, base, now, n, k, queue, timers)
    ensures k <= n <= |q| && n == DueCount(q, before, now)
  {}

  lemma OneMore(q: seq<nat>, k: nat, fired: seq<nat>, t: nat)
    requires k < |q| && fired == q[..k] && t == q[k]
    ensures fired + [t] == q[..k + 1]
  {}

  lemma DropFirst(q: seq<nat>, k: nat, n: nat, tail: seq<nat>)
    requires k < n <= |q|
    ensures (q[k..n] + tail)[1..] == q[k + 1..n] + tail
  {}

  /** Re-queuing a periodic timer among the timers that are still due and those behind them. */
  lemma Requeue(q: seq<nat>, before: map<nat, Timer>, base: Tick, now: Tick, n: nat, k: nat, keyF: Keys, tail: seq<nat>)
    requires CheckPre(q, before, base, now, n) && k < n && q[k] in before && before[q[k]].periodic
    requires keyF == RelKeys(AfterFiring(before, q[..n], now), base)
    requires tail == PlaceAll(q[n..], keyF, Periodic(q[..k], before))
    ensures Place(q[k + 1..n] + tail, RelKeys(AfterFiring(before, q[..k + 1], now), base), q[k])
         == q[k + 1..n] + Place(tail, keyF, q[k])
  {
    var t := q[k];
    var key' := RelKeys(AfterFiring(before, q[..k + 1], now), base);
    DueFirst(q, before, base, now, n, k);
    PlaceBehind(q[k + 1..n], tail, key', t);
    assert q[..n][k] == t && t in q[..n];
    forall x <- tail ensures KeyOf(key', x) == KeyOf(keyF, x) {
      SameFinalKey(q, before, base, now, n, k, keyF, x);
    }
    PlaceSameKeys(tail, key', keyF, t);
  }

  /** The timers still to fire come before the one that was just armed again. */
  lemma DueFirst(q: seq<nat>, before: map<nat, Timer>, base: Tick, now: Tick, n: nat, k: nat)
    requires CheckPre(q, before, base, now, n) && k < n && q[k] in before && before[q[k]].periodic
    ensures var key' := RelKeys(AfterFiring(before, q[..k + 1], now), base);
      forall x <- q[k + 1..n] :: KeyOf(key', x) <= KeyOf(key', q[k])
  {
    var t := q[k];
    var key' := RelKeys(AfterFiring(before, q[..k + 1], now), base);
    DuePrefix(q, before, base, now, n, k);
    assert t in q && Bounded(before[t]);
    ArmedWindow(now, before[t].initTick, base);
    assert q[..k + 1] == q[..k] + [t];
    forall x <- q[k + 1..n] ensures KeyOf(key', x) <= KeyOf(key', t) {
      var i :| k + 1 <= i < n && q[i] == x;
      DuePrefix(q, before, base, now, n, i);
      DueByKey(before[x], now, base);
    }
  }

  /** What is queued behind the due timers already has the expiry it has at the end. */
  lemma SameFinalKey(q: seq<nat>, before: map<nat, Timer>, base: Tick, now: Tick, n: nat, k: nat, key: Keys, x: nat)
    requires CheckPre(q, before, base, now, n) && k < n
    requires x in PlaceAll(q[n..], key, Periodic(q[..k], before))
    ensures x in before && AfterFiring(before, q[..k + 1], now)[x] == AfterFiring(before, q[..n], now)[x]
  {
    TailBehind(q, before, base, now, n, k, key, x);
    assert q[..n] == q[..k] + q[k..n] && q[k..n] == [q[k]] + q[k + 1..n];
    assert q[..k + 1] == q[..k] + [q[k]];
  }

  lemma CheckEmpty(q: seq<nat>, before: map<nat, Timer>, base: Tick, now: Tick, n: nat, k: nat,
                   queue: seq<nat>, timers: map<nat, Timer>)
    requires CheckInv(q, before, base, now, n, k, queue, timers) && queue == []
    ensures k == n
  {}

  lemma CheckDone(q: seq<nat>, before: map<nat, Timer>, base: Tick, now: Tick, n: nat, k: nat,
                  queue: seq<nat>, timers: map<nat, Timer>)
    requires CheckInv(q, before, base, now, n, k, queue, timers) && n <= |q| && Counts(q, before, n)
    requires queue == [] || (queue[0] in timers && !Due(timers[queue[0]], now))
    ensures k == n
    ensures queue == PlaceAll(q[n..], RelKeys(timers, base), Periodic(q[..n], before))
    ensures forall x <- queue :: x in timers && !Due(timers[x], now)
  {
    if queue != [] { HeadDue(q, before, base, now, n, k, queue, timers); }
    var key := RelKeys(timers, base);
    assert queue == PlaceAll(q[n..], key, Periodic(q[..n], before));
    forall x <- queue ensures x in timers && !Due(timers[x], now) {
      TailNotDue(q, before, base, now, n, n, key, x);
    }
  }

  /** One check fires every due timer of the queue and no other, each of them once. */
  lemma FiresExactlyTheDue(q: seq<nat>, before: map<nat, Timer>, base: Tick, now: Tick, n: nat)
    requires CheckPre(q, before, base, now, n)
    ensures forall x <- q :: x in before && (x in q[..n] <==> Due(before[x], now))
    ensures Distinct(q[..n])
  {
    forall x <- q ensures x in before && (x in q[..n] <==> Due(before[x], now)) {
      var i :| 0 <= i < |q| && q[i] == x;
      DuePrefix(q, before, base, now, n, i);
      if i < n { assert q[..n][i] == x; }
    }
  }

  /** Whatever the number of rows and the height drawn, the lowest row changes as a plain ordered
      list would: the timer goes behind all timers that expire no later, in front of the rest. */
  lemma LowestRowIsPlainInsertion(rows: seq<seq<nat>>, key: Keys, t: nat, height: nat, rows': seq<seq<nat>>)
    returns (c: nat)
    requires |rows| > 0 && height >= 1 && Started(rows, key, t, height, rows')
    ensures IsCut(Without(rows[|rows| - 1], t), key, t, c)
    ensures rows'[|rows| - 1] == Without(rows[|rows| - 1], t)[..c] + [t] + Without(rows[|rows| - 1], t)[c..]
  {
    var low := Without(rows[|rows| - 1], t);
    c := CutExists(low, key, t);
    PlaceAtCut(low, key, t, c);
  }
}
