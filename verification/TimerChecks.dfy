/** When a check fires everything that is due and when it ends, exactly: a late check may arm a timer
    again in front of one that is still to fire, and then ends there.
 */
module TimerChecks {
  import opened Queues
  import opened Timers
  import opened TimerRuns

  // ---- the due timers at the front ----------------------------------------------------------

  /** Timer i of the queue is overdue by no less than timer j. */
  ghost predicate Before(c: Clock, i: nat, j: nat)
    requires i < |c.queue| && j < |c.queue|
  {
    c.queue[i] in c.timers && c.queue[j] in c.timers &&
    Sub(c.now, c.timers[c.queue[i]].timeoutTick) >= Sub(c.now, c.timers[c.queue[j]].timeoutTick)
  }

  /** The first n timers of the queue are due, the one that is overdue most first. */
  ghost predicate Front(c: Clock, n: nat) {
    && n == DueCount(c.queue, c.timers, c.now) && Distinct(c.queue)
    && (forall i, j :: 0 <= i < j < n ==> Before(c, i, j))
    && (forall x <- c.queue[..n] :: x in c.timers && Bounded(c.timers[x]))
  }

  lemma FrontReady(c: Clock, base: Tick, n: nat)
    requires CheckPre(c.queue, c.timers, base, c.now, n)
    ensures Front(c, n)
  {
    forall i, j | 0 <= i < j < n ensures Before(c, i, j) {
      DuePrefix(c.queue, c.timers, base, c.now, n, i);
      DuePrefix(c.queue, c.timers, base, c.now, n, j);
      DueByKey(c.timers[c.queue[i]], c.now, base);
      DueByKey(c.timers[c.queue[j]], c.now, base);
      assert InOrder(c.queue, RelKeys(c.timers, base), i, j);
    }
    forall x <- c.queue[..n] ensures x in c.timers && Bounded(c.timers[x]) {
      var i :| 0 <= i < n && c.queue[i] == x;
      DuePrefix(c.queue, c.timers, base, c.now, n, i);
    }
  }

  /** A timer armed for a period stops in front of a due one exactly when the two are too far apart. */
  lemma Overtakes(expiry: Tick, now: Tick, period: Tick)
    requires Sub(now, expiry) < HALF && period < HALF
    ensures 0 < Sub(expiry, Add(now, period)) < HALF <==> Sub(now, expiry) + period > HALF + 2
  {}

  lemma {:induction false} InsertBehind(a: seq<nat>, s: seq<nat>, timers: map<nat, Timer>, t: nat)
    requires forall x <- a :: !Later(timers, x, t)
    ensures Insert(a + s, timers, t) == a + Insert(s, timers, t)
    decreases |a|
  {
    if a == [] {
      assert a + s == s;
    } else {
      InsertBehind(a[1..], s, timers, t);
      assert (a + s)[1..] == a[1..] + s && a[0] in a;
    }
  }

  /** The timers still to fire are at the front, as they were. */
  ghost predicate AtFront(c: Clock, n: nat, k: nat, d: Clock)
    requires k <= n <= |c.queue|
  {
    && d.now == c.now && |d.queue| >= n - k && d.queue[..n - k] == c.queue[k..n]
    && forall x <- c.queue[k..n] :: x in c.timers && x in d.timers && d.timers[x] == c.timers[x]
  }

  lemma FrontGoes(c: Clock, n: nat, k: nat, d: Clock)
    requires Front(c, n) && k < n && AtFront(c, n, k, d)
    ensures Goes(d) && d.queue[0] == c.queue[k]
    ensures c.queue[k] in c.timers && d.timers[c.queue[k]] == c.timers[c.queue[k]]
    ensures d.queue[1..] == c.queue[k + 1..n] + d.queue[n - k..]
  {
    assert c.queue[k..n][0] == c.queue[k] && d.queue[..n - k][0] == d.queue[0] && c.queue[k] in c.queue[k..n];
    assert d.queue == d.queue[..n - k] + d.queue[n - k..];
  }

  /** The k-th timer, armed again, goes behind all that are still to fire. */
  lemma GoesBehind(c: Clock, n: nat, k: nat, x: nat, timers: map<nat, Timer>)
    requires Front(c, n) && k < n && (k + 1 < n ==> Clears(c.queue, c.timers, c.now, k)) && x in c.queue[k + 1..n]
    requires x in c.timers && x in timers && timers[x] == c.timers[x]
    requires c.queue[k] in c.timers && c.queue[k] in timers && c.timers[c.queue[k]].periodic
    requires timers[c.queue[k]] == Armed(c.timers[c.queue[k]], c.now)
    ensures !Later(timers, x, c.queue[k])
  {
    var j :| k < j < n && c.queue[j] == x;
    assert j > k + 1 ==> Before(c, k + 1, j);
    assert c.queue[k] in c.queue[..n];
    Overtakes(c.timers[x].timeoutTick, c.now, c.timers[c.queue[k]].initTick);
  }

  lemma FrontRound(c: Clock, n: nat, k: nat, d: Clock)
    requires Front(c, n) && k < n && AtFront(c, n, k, d) && (k + 1 < n ==> Clears(c.queue, c.timers, c.now, k))
    ensures Goes(d) && AtFront(c, n, k + 1, Round(d))
  {
    FrontGoes(c, n, k, d);
    var t, rest := c.queue[k], d.queue[n - k..];
    var timers := d.timers[t := Fired(d.timers[t], c.now)];
    forall x <- c.queue[k + 1..n] ensures x != t && x in c.queue[k..n] && x in timers && timers[x] == c.timers[x] {
      var j :| k < j < n && c.queue[j] == x;
      assert c.queue[k..n][j - k] == x;
    }
    if timers[t].periodic {
      forall x <- c.queue[k + 1..n] ensures !Later(timers, x, t) { GoesBehind(c, n, k, x, timers); }
      InsertBehind(c.queue[k + 1..n], rest, timers, t);
    }
  }

  lemma {:induction false} FrontKept(c: Clock, n: nat, k: nat)
    requires Front(c, n) && k <= n && ClearUpTo(c, n, k)
    ensures AtFront(c, n, k, Rounds(c, k))
    decreases k
  {
    if k > 0 {
      ClearAt(c, n, k - 1);
      FrontKept(c, n, k - 1);
      FrontRound(c, n, k - 1, Rounds(c, k - 1));
      RoundsAppend(c, k - 1);
    }
  }

  // ---- a check that is not in time ----------------------------------------------------------

  /** Timer i, armed again, goes in front of the next one, and the loop ends there. */
  lemma Stuck(c: Clock, n: nat, i: nat)
    requires Front(c, n) && i + 1 < n && ClearUpTo(c, n, i) && !Clears(c.queue, c.timers, c.now, i)
    ensures var d, x := Rounds(c, i + 1), c.queue[i + 1];
      && !Goes(d) && d.now == c.now && d.queue != [] && x in d.queue && x in d.timers && x in c.timers
      && d.timers[x] == c.timers[x] && Due(d.timers[x], d.now) && Sub(d.now, d.timers[x].timeoutTick) > 0
  {
    var d, t, x := Rounds(c, i), c.queue[i], c.queue[i + 1];
    FrontKept(c, n, i);
    FrontGoes(c, n, i, d);
    RoundsAppend(c, i);
    assert c.queue[i..n][1] == x && x in c.queue[i..n] && t in c.queue[..n] && x in c.queue[..n];
    var timers := d.timers[t := Fired(d.timers[t], c.now)];
    Overtakes(c.timers[x].timeoutTick, c.now, c.timers[t].initTick);
    RearmedDue(c.timers[t], c.now);
    assert d.queue[1..][0] == c.queue[i + 1..n][0] == x;
    assert Later(timers, x, t);
    assert Round(d).queue == [t] + d.queue[1..];
    assert Round(d).queue[1] == x;
  }

  lemma FirstUnclear(c: Clock) returns (i: nat)
    requires !InTime(c)
    ensures var n := DueCount(c.queue, c.timers, c.now);
      i + 1 < n && ClearUpTo(c, n, i) && !Clears(c.queue, c.timers, c.now, i)
  {
    var n := DueCount(c.queue, c.timers, c.now);
    i := 0;
    while i + 1 < n && Clears(c.queue, c.timers, c.now, i)
      invariant ClearUpTo(c, n, i)
      decreases n - i
    {
      i := i + 1;
    }
  }

  /** A check that is not in time ends with a due timer left in the queue. */
  lemma LateEnds(c: Clock, n: nat) returns (k: nat, x: nat)
    requires Front(c, n) && !InTime(c)
    ensures k <= |c.queue|
    ensures var d := Rounds(c, k);
      && !Goes(d) && d.now == c.now && d.queue != [] && x in d.queue && x in d.timers
      && Due(d.timers[x], d.now) && Sub(d.now, d.timers[x].timeoutTick) > 0
  {
    var i := FirstUnclear(c);
    Stuck(c, n, i);
    k, x := i + 1, c.queue[i + 1];
  }

  /** A check always ends, within as many rounds as there are timers. It leaves nothing due if and only
      if it is in time, and the same condition decides whether the queue is still in order. */
  lemma CheckExact(c: Clock)
    requires Inv(c)
    ensures !Goes(Checked(c))
    ensures InTime(c) <==> Inv(Checked(c))
    ensures InTime(c) <==> forall x <- Checked(c).queue :: x in Checked(c).timers && !Due(Checked(c).timers[x], c.now)
  {
    var n := DueCount(c.queue, c.timers, c.now);
    CheckReady(c, Since(c));
    if InTime(c) {
      LoopIs(c, Since(c), n);
      CheckKeeps(c);
    } else {
      FrontReady(c, Since(c), n);
      hide Front, InTime, Inv;
      var k, x := LateEnds(c, n);
      RoundsOver(c, k, |c.queue|);
      OutOfOrder(Checked(c), x);
    }
  }

  /** A queue whose head is not due but another timer is. */
  lemma OutOfOrder(d: Clock, x: nat)
    requires !Goes(d) && x in d.queue && x in d.timers
    requires Due(d.timers[x], d.now) && Sub(d.now, d.timers[x].timeoutTick) > 0
    ensures !Inv(d)
  {
    assert Since(d) == d.now;
    assert Inv(d) ==> Pending(d, d.now, x);
  }

  // ---- setting the clock --------------------------------------------------------------------

  /** The loop is over after k rounds and has left nothing due. */
  ghost predicate EndsClean(c: Clock, k: nat) {
    var d := Rounds(c, k);
    !Goes(d) && forall x <- d.queue :: x in d.timers && !Due(d.timers[x], d.now)
  }

  lemma EndUnique(c: Clock, k: nat, m: nat)
    requires !Goes(Rounds(c, k)) && !Goes(Rounds(c, m))
    ensures Rounds(c, k) == Rounds(c, m)
  {
    if k <= m { RoundsOver(c, k, m); } else { RoundsOver(c, m, k); }
  }

  lemma {:induction false} SameTime(c: Clock, k: nat)
    ensures Rounds(c, k).now == c.now
    decreases k
  {
    if k > 0 && Goes(c) { SameTime(Round(c), k - 1); }
  }

  /** After the clock was set to any reading, a check ends with nothing due left if and only if the head of
      the queue is due or nothing is, and the check is in time. */
  lemma SetClockFires(c: Clock, to: Tick)
    requires Inv(c)
    ensures var d := c.(now := to);
      (exists k: nat :: EndsClean(d, k)) <==>
        (HeadDueAt(c, to) || forall x <- c.queue :: x in c.timers && !Due(c.timers[x], to)) && InTime(d)
  {
    var d := c.(now := to);
    forall x <- c.queue ensures x in c.timers { assert Pending(c, Since(c), x); }
    if HeadDueAt(c, to) {
      SetClockKeeps(c, to);
      hide Inv, InTime;
      CheckExact(d);
      SameTime(d, |d.queue|);
      if InTime(d) { assert EndsClean(d, |d.queue|); }
      if k: nat :| EndsClean(d, k) { EndUnique(d, k, |d.queue|); }
    } else {
      assert DueCount(d.queue, d.timers, d.now) == 0;
      forall k: nat ensures Rounds(d, k) == d {}
      if forall x <- c.queue :: x in c.timers && !Due(c.timers[x], to) { assert EndsClean(d, 0); }
      if k: nat :| EndsClean(d, k) { assert Rounds(d, k) == d; }
    }
  }

  /** What Legal asks of ticks, settings of the clock and checks is exactly what keeps the queue in order. */
  lemma ClockExact(c: Clock, op: Op)
    requires Inv(c) && (op.TickOn? || op.SetClock? || op.CheckNow?)
    ensures Inv(Apply(c, op)) <==> Legal(c, op)
  {
    match op
    case SetClock(to) => SetClockKeeps(c, to);
    case CheckNow => CheckExact(c);
    case TickOn =>
      var d := NextTick(c);
      SetClockKeeps(c, d.now);
      if Inv(d) {
        CheckExact(d);
      } else {
        assert !HeadDueAt(c, d.now);
        assert !Goes(d) && Checked(d) == d;
      }
  }

  // ---- when a check ends --------------------------------------------------------------------

  /** Timer z is due, periodic and has no period. */
  predicate Spins(c: Clock, z: nat) {
    z in c.queue && z in c.timers && Due(c.timers[z], c.now) && c.timers[z].periodic && c.timers[z].initTick == 0
  }

  /** The queue is in order from a base, and everything in it lies within half the range of the clock. */
  ghost predicate Lined(c: Clock, base: Tick) {
    RowsOk([c.queue], c.timers, base) && forall x <- c.queue :: Reaches(c.timers, base, c.now, x)
  }

  /** Nothing is overdue: what is due expires now. */
  ghost predicate Steady(c: Clock) {
    Lined(c, c.now)
  }

  /** The head is taken off the queue and marked inactive. */
  lemma HeadOff(c: Clock, t: nat, idle: Timer)
    requires Steady(c) && c.queue != [] && t == c.queue[0] && !idle.activated
    ensures RowsOk([c.queue[1..]], c.timers[t := idle], c.now)
    ensures forall x :: x in c.queue[1..] <==> x in c.queue && x != t
  {
    OneRow(c.queue, c.timers, c.now);
    TailWithout(c.queue);
    WithoutElems(c.queue, t);
    RemoveRows([c.queue], c.timers, c.now, t, idle, [c.queue[1..]]);
  }

  /** A timer that is in no row is armed at `now` and inserted. */
  lemma ArmedAgain(rest: seq<nat>, timers: map<nat, Timer>, now: Tick, t: nat, idle: Timer)
    requires RowsOk([rest], timers[t := idle], now) && t !in rest && !idle.activated && idle.initTick < HALF
    requires forall x <- rest :: x in timers && Sub(timers[x].timeoutTick, now) < HALF
    ensures var timers' := timers[t := Armed(idle, now)]; var q := Insert(rest, timers', t);
      RowsOk([q], timers', now) && forall x :: x in q <==> x in rest || x == t
  {
    var armed := Armed(idle, now);
    var timers' := timers[t := armed];
    ArmedWindow(now, idle.initTick, now);
    InsertIsPlace(rest, timers', now, t);
    assert timers[t := idle][t := armed] == timers';
    OneRow(rest, timers[t := idle], now);
    InsertRows([rest], timers[t := idle], now, t, armed, 1, [Place(rest, RelKeys(timers', now), t)]);
    PlaceElems(rest, RelKeys(timers', now), t);
  }

  lemma RoundSteady(c: Clock)
    requires Steady(c) && Goes(c)
    ensures var c', t := Round(c), c.queue[0];
      && Steady(c') && c'.timers == c.timers[t := Fired(c.timers[t], c.now)]
      && forall x :: x in c'.queue <==> x in c.queue && (x == t ==> c.timers[t].periodic)
  {
    var t := c.queue[0];
    assert t in c.queue && Reaches(c.timers, c.now, c.now, t);
    var idle := c.timers[t].(activated := false);
    HeadOff(c, t, idle);
    forall x <- c.queue ensures x in c.timers && Sub(c.timers[x].timeoutTick, c.now) < HALF {
      assert Reaches(c.timers, c.now, c.now, x);
    }
    if c.timers[t].periodic {
      assert Armed(idle, c.now) == Fired(c.timers[t], c.now);
      ArmedAgain(c.queue[1..], c.timers, c.now, t, idle);
      ArmedKey(c.now, c.timers[t].initTick);
    }
    var c' := Round(c);
    forall x <- c'.queue ensures Reaches(c'.timers, c.now, c.now, x) {
      assert x in c.queue && Reaches(c.timers, c.now, c.now, x);
    }
    hide RowsOk, Insert, Reaches;
  }

  /** As long as a timer of period 0 is queued, the head of the queue is due, and firing it leaves z as it is. */
  lemma SpinsOn(c: Clock, z: nat)
    requires Steady(c) && Spins(c, z)
    ensures Goes(c) && Steady(Round(c)) && Spins(Round(c), z)
  {
    OneRow(c.queue, c.timers, c.now);
    TailSorted(c.queue, RelKeys(c.timers, c.now));
    assert c.queue[0] in c.queue && Reaches(c.timers, c.now, c.now, z) && Reaches(c.timers, c.now, c.now, c.queue[0]);
    DueByKey(c.timers[z], c.now, c.now);
    DueByKey(c.timers[c.queue[0]], c.now, c.now);
    RoundSteady(c);
    RearmedDue(c.timers[z], c.now);
  }

  /** So the loop is never over. */
  lemma {:induction false} NeverOver(c: Clock, z: nat, k: nat)
    requires Steady(c) && Spins(c, z)
    ensures Goes(Rounds(c, k))
    decreases k
  {
    SpinsOn(c, z);
    if k > 0 { NeverOver(Round(c), z, k - 1); }
  }

  lemma {:induction false} RoundsFrom(c: Clock, k: nat, m: nat)
    ensures Rounds(Rounds(c, k), m) == Rounds(c, k + m)
    decreases k
  {
    if k > 0 {
      if Goes(c) { RoundsFrom(Round(c), k - 1, m); }
    }
  }

  lemma LinedReady(c: Clock, base: Tick)
    requires Lined(c, base)
    ensures CheckPre(c.queue, c.timers, base, c.now, DueCount(c.queue, c.timers, c.now))
  {
    OneRow(c.queue, c.timers, base);
  }

  /** Where the timers are once all that was due has been fired. */
  lemma FiredElems(c: Clock, base: Tick, n: nat, x: nat)
    requires Lined(c, base) && n == DueCount(c.queue, c.timers, c.now)
    ensures x in c.queue[n..] ==> x in c.timers && x !in c.queue[..n]
    ensures x in Periodic(c.queue[..n], c.timers) <==> x in c.queue[..n] && x in c.timers && c.timers[x].periodic
    ensures x in c.queue[..n] ==> x in c.timers && Bounded(c.timers[x])
    ensures x in c.timers && AfterFiring(c.timers, c.queue[..n], c.now)[x].activated ==>
              x in c.queue[n..] || x in Periodic(c.queue[..n], c.timers)
  {
    OneRow(c.queue, c.timers, base);
    PeriodicElems(c.queue[..n], c.timers);
    assert c.queue == c.queue[..n] + c.queue[n..];
    if x in c.queue { assert Reaches(c.timers, base, c.now, x); }
  }

  lemma FiredSorted(c: Clock, base: Tick, n: nat, timers: map<nat, Timer>)
    requires Lined(c, base) && n == DueCount(c.queue, c.timers, c.now)
    requires timers == AfterFiring(c.timers, c.queue[..n], c.now)
    ensures var q := PlaceAll(c.queue[n..], RelKeys(timers, base), Periodic(c.queue[..n], c.timers));
      Sorted(q, RelKeys(timers, base)) && Distinct(q)
  {
    forall x <- c.queue[n..]
      ensures x in timers && x in c.timers && timers[x] == c.timers[x] && x !in c.queue[..n]
    {
      FiredElems(c, base, n, x);
    }
    forall x <- Periodic(c.queue[..n], c.timers) ensures x in c.queue[..n] { FiredElems(c, base, n, x); }
    hide Lined, AfterFiring, PlaceAll, Periodic, Sorted;
    LinedRow(c, base);
    CheckSorted(c, base, n, timers);
  }

  lemma LinedRow(c: Clock, base: Tick)
    requires Lined(c, base)
    ensures RowsOk([c.queue], c.timers, base)
  {}

  lemma FiredQueued(c: Clock, base: Tick, n: nat, timers: map<nat, Timer>, x: nat)
    requires Lined(c, base) && n == DueCount(c.queue, c.timers, c.now)
    requires timers == AfterFiring(c.timers, c.queue[..n], c.now)
    ensures x in c.queue[n..] || x in Periodic(c.queue[..n], c.timers) <==> Queued(timers, x)
  {
    FiredElems(c, base, n, x);
    if x in c.queue[n..] { assert x in c.queue && Reaches(c.timers, base, c.now, x); }
  }

  lemma RowFrom(q: seq<nat>, timers: map<nat, Timer>, base: Tick)
    requires Sorted(q, RelKeys(timers, base)) && Distinct(q) && forall x :: x in q <==> Queued(timers, x)
    ensures RowsOk([q], timers, base)
  {
    OneRow(q, timers, base);
  }

  /** Seen from the old base, the queue is then in order. */
  lemma FiredRow(c: Clock, base: Tick, n: nat, timers: map<nat, Timer>, q: seq<nat>)
    requires Lined(c, base) && n == DueCount(c.queue, c.timers, c.now)
    requires timers == AfterFiring(c.timers, c.queue[..n], c.now)
    requires q == PlaceAll(c.queue[n..], RelKeys(timers, base), Periodic(c.queue[..n], c.timers))
    ensures RowsOk([q], timers, base)
  {
    hide *;
    FiredSorted(c, base, n, timers);
    PlaceAllElems(c.queue[n..], RelKeys(timers, base), Periodic(c.queue[..n], c.timers));
    forall x ensures x in q <==> Queued(timers, x) { FiredQueued(c, base, n, timers, x); }
    RowFrom(q, timers, base);
  }

  lemma FiredReaches(c: Clock, base: Tick, n: nat, timers: map<nat, Timer>, key: Keys, x: nat)
    requires Lined(c, base) && n == DueCount(c.queue, c.timers, c.now)
    requires timers == AfterFiring(c.timers, c.queue[..n], c.now)
    requires x in PlaceAll(c.queue[n..], key, Periodic(c.queue[..n], c.timers))
    ensures x in timers && Sub(c.now, base) <= Sub(timers[x].timeoutTick, base)
    ensures Reaches(timers, c.now, c.now, x)
  {
    hide PlaceAll, Periodic, CheckPre;
    LinedReady(c, base);
    TailKey(c.queue, c.timers, base, c.now, n, n, key, x);
    Moved(timers[x].timeoutTick, base, c.now);
    PlaceAllElems(c.queue[n..], key, Periodic(c.queue[..n], c.timers));
    FiredElems(c, base, n, x);
    assert c.queue == c.queue[..n] + c.queue[n..];
    if x in c.queue[n..] { assert x in c.queue && Reaches(c.timers, base, c.now, x); }
  }

  /** The state after the n due timers have been fired in time. */
  lemma AfterFront(c: Clock, base: Tick, n: nat)
    requires Lined(c, base) && InTime(c) && n == DueCount(c.queue, c.timers, c.now)
    ensures var timers := AfterFiring(c.timers, c.queue[..n], c.now);
      Rounds(c, n)
        == Clock(c.now, timers, PlaceAll(c.queue[n..], RelKeys(timers, base), Periodic(c.queue[..n], c.timers)))
  {
    LinedReady(c, base);
    RoundsInv(c, base, n, n);
    assert c.queue[n..n] == [];
  }

  /** Once all that was due has been fired in time, nothing is overdue. */
  lemma BecomesSteady(c: Clock, base: Tick, n: nat, z: nat)
    requires Lined(c, base) && InTime(c) && n == DueCount(c.queue, c.timers, c.now) && Spins(c, z)
    ensures Steady(Rounds(c, n)) && Spins(Rounds(c, n), z)
  {
    var timers := AfterFiring(c.timers, c.queue[..n], c.now);
    var key, ps := RelKeys(timers, base), Periodic(c.queue[..n], c.timers);
    var q := PlaceAll(c.queue[n..], key, ps);
    SpinnerFired(c, base, n, z);
    hide *;
    AfterFront(c, base, n);
    FiredRow(c, base, n, timers, q);
    forall x <- q
      ensures x in timers && Sub(c.now, base) <= Sub(timers[x].timeoutTick, base) && Reaches(timers, c.now, c.now, x)
    {
      FiredReaches(c, base, n, timers, key, x);
    }
    MoveToNow(Clock(c.now, timers, q), base);
  }

  lemma MoveToNow(d: Clock, base: Tick)
    requires RowsOk([d.queue], d.timers, base)
    requires forall x <- d.queue :: x in d.timers && Sub(d.now, base) <= Sub(d.timers[x].timeoutTick, base)
    requires forall x <- d.queue :: Reaches(d.timers, d.now, d.now, x)
    ensures Steady(d)
  {
    LaterAgrees(d.queue, d.timers, base, d.now);
    Rebase([d.queue], d.timers, base, d.now);
  }

  lemma SpinnerFired(c: Clock, base: Tick, n: nat, z: nat)
    requires Lined(c, base) && n == DueCount(c.queue, c.timers, c.now) && Spins(c, z)
    ensures var timers := AfterFiring(c.timers, c.queue[..n], c.now);
      Spins(Clock(c.now, timers, PlaceAll(c.queue[n..], RelKeys(timers, base), Periodic(c.queue[..n], c.timers))), z)
  {
    var i :| 0 <= i < |c.queue| && c.queue[i] == z;
    LinedReady(c, base);
    DuePrefix(c.queue, c.timers, base, c.now, n, i);
    assert c.queue[..n][i] == z && z in c.queue[..n];
    FiredElems(c, base, n, z);
    var timers := AfterFiring(c.timers, c.queue[..n], c.now);
    PlaceAllElems(c.queue[n..], RelKeys(timers, base), Periodic(c.queue[..n], c.timers));
    RearmedDue(c.timers[z], c.now);
  }

  lemma SpinsForever(c: Clock, base: Tick, z: nat, k: nat)
    requires Lined(c, base) && InTime(c) && Spins(c, z)
    ensures Goes(Rounds(c, k))
  {
    var n := DueCount(c.queue, c.timers, c.now);
    hide *;
    BecomesSteady(c, base, n, z);
    NeverOver(Rounds(c, n), z, k);
    RoundsFrom(c, n, k);
    if !Goes(Rounds(c, k)) { RoundsOver(c, k, n + k); }
  }

  /** With periods that count a check in time ends. */
  lemma EndsInTime(c: Clock, base: Tick)
    requires Lined(c, base) && InTime(c) && forall z <- c.queue :: !Spins(c, z)
    ensures !Goes(Checked(c))
  {
    var n := DueCount(c.queue, c.timers, c.now);
    LinedReady(c, base);
    forall x <- c.queue[..n] ensures x in c.timers && Repeats(c.timers[x]) {
      FiredElems(c, base, n, x);
      var i :| 0 <= i < n && c.queue[i] == x;
      DuePrefix(c.queue, c.timers, base, c.now, n, i);
      assert x in c.queue && !Spins(c, x);
    }
    hide InTime, Lined, CheckPre;
    LoopIs(c, base, n);
  }

  lemma EndsLate(c: Clock, base: Tick) returns (k: nat)
    requires Lined(c, base) && !InTime(c)
    ensures !Goes(Rounds(c, k))
  {
    var n := DueCount(c.queue, c.timers, c.now);
    LinedReady(c, base);
    FrontReady(c, base, n);
    hide Front, InTime;
    var x;
    k, x := LateEnds(c, n);
  }

  /** A check ends if and only if it is not in time or no due timer has period 0. */
  lemma CheckEnds(c: Clock, base: Tick)
    requires Lined(c, base)
    ensures (exists k: nat :: !Goes(Rounds(c, k))) <==> !InTime(c) || forall z <- c.queue :: !Spins(c, z)
  {
    hide *;
    if !InTime(c) {
      var k := EndsLate(c, base);
    } else if z :| z in c.queue && Spins(c, z) {
      forall k: nat ensures Goes(Rounds(c, k)) { SpinsForever(c, base, z, k); }
    } else {
      EndsInTime(c, base);
      CheckedIs(c);
    }
  }

  lemma CheckedIs(c: Clock)
    ensures Checked(c) == Rounds(c, |c.queue|)
  {}
}
