/** Whole runs of timers under a clock that ticks, sleeps and is set.

    A state is the clock, the timers and the lowest row of the skip list. Insertion compares
    expiries as rt_timer_start does, by their wrapped difference, so a state and a step need no
    window; that the pending expiries always lie in one is a result here.
 */
module TimerRuns {
  import opened Queues
  import opened Timers

  datatype Clock = Clock(now: Tick, timers: map<nat, Timer>, queue: seq<nat>)

  const START := Clock(0, map[], [])

  /** The search of rt_timer_start stops in front of timer x. */
  predicate Later(timers: map<nat, Timer>, x: nat, t: nat) {
    x in timers && t in timers && 0 < Sub(timers[x].timeoutTick, timers[t].timeoutTick) < HALF
  }

  function Insert(s: seq<nat>, timers: map<nat, Timer>, t: nat): seq<nat> {
    if s == [] || Later(timers, s[0], t) then [t] + s else [s[0]] + Insert(s[1..], timers, t)
  }

  datatype Op =
    | Create(t: nat, time: Tick, periodic: bool)
    | SetTime(t: nat, time: Tick)
    | SetPeriodic(t: nat, periodic: bool)
    | Start(t: nat)
    | Stop(t: nat)
    | TickOn                             // the clock advances by one and the timers are checked
    | SetClock(to: Tick)                 // rt_tick_set
    | CheckNow                           // rt_timer_check on its own, as after a sleep

  // ---- the loop of rt_timer_check -----------------------------------------------------------

  /** The loop goes on: the head of the queue is due. */
  predicate Goes(c: Clock) {
    c.queue != [] && c.queue[0] in c.timers && Due(c.timers[c.queue[0]], c.now)
  }

  /** One round of the loop. */
  function Round(c: Clock): Clock
    requires Goes(c)
  {
    var t := c.queue[0];
    var timers := c.timers[t := Fired(c.timers[t], c.now)];
    Clock(c.now, timers, if timers[t].periodic then Insert(c.queue[1..], timers, t) else c.queue[1..])
  }

  /** The state after k rounds, or at the end of the loop if it ends before. */
  function Rounds(c: Clock, k: nat): Clock
    decreases k
  {
    if k == 0 || !Goes(c) then c else Rounds(Round(c), k - 1)
  }

  /** The timers fired by these rounds. */
  function Shots(c: Clock, k: nat): seq<nat>
    decreases k
  {
    if k == 0 || !Goes(c) then [] else [c.queue[0]] + Shots(Round(c), k - 1)
  }

  /** rt_timer_check, for queues whose periodic timers have a period: then the loop is over after as
      many rounds as there are timers in the queue, see CheckExact. */
  function Checked(c: Clock): Clock {
    Rounds(c, |c.queue|)
  }

  /** The timers that a check at this moment fires, in order. */
  function FiredNow(c: Clock): seq<nat> {
    Shots(c, |c.queue|)
  }

  function NextTick(c: Clock): Clock {
    c.(now := Add(c.now, 1))
  }

  /** The timers fired by a step. */
  function FiredBy(c: Clock, op: Op): seq<nat> {
    if op.TickOn? then FiredNow(NextTick(c)) else if op.CheckNow? then FiredNow(c) else []
  }

  function Apply(c: Clock, op: Op): Clock {
    match op
    case Create(t, time, periodic) => c.(timers := c.timers[t := Timer(time, 0, periodic, false)])
    case SetTime(t, time) =>
      if t in c.timers then c.(timers := c.timers[t := c.timers[t].(initTick := time)]) else c
    case SetPeriodic(t, periodic) =>
      if t in c.timers then c.(timers := c.timers[t := c.timers[t].(periodic := periodic)]) else c
    case Start(t) =>
      if t in c.timers then
        var timers := c.timers[t := Armed(c.timers[t], c.now)];
        Clock(c.now, timers, Insert(Without(c.queue, t), timers, t))
      else c
    case Stop(t) =>
      if t in c.timers
      then Clock(c.now, c.timers[t := c.timers[t].(activated := false)], Without(c.queue, t))
      else c
    case TickOn => Checked(NextTick(c))
    case SetClock(to) => c.(now := to)
    case CheckNow => Checked(c)
  }

  // ---- the window ---------------------------------------------------------------------------

  /** The reading of the clock from which the queue is in order: the expiry of its head when that is
      over, and now otherwise. */
  function Origin(now: Tick, timers: map<nat, Timer>, queue: seq<nat>): Tick {
    if queue != [] && queue[0] in timers && Due(timers[queue[0]], now) then timers[queue[0]].timeoutTick else now
  }

  function Since(c: Clock): Tick {
    Origin(c.now, c.timers, c.queue)
  }

  /** An active timer that expires at or after the base, by less than half the range. */
  ghost predicate Pending(c: Clock, base: Tick, x: nat) {
    x in c.timers && c.timers[x].activated && Repeats(c.timers[x]) && Sub(c.timers[x].timeoutTick, base) < HALF
  }

  /** The queue holds exactly the active timers, each once and in order of expiry, and the clock and
      all of them lie within half the range behind the base. */
  ghost predicate Windowed(c: Clock, base: Tick) {
    RowsOk([c.queue], c.timers, base) && Sub(c.now, base) < HALF && forall x <- c.queue :: Pending(c, base, x)
  }

  ghost predicate Inv(c: Clock) {
    Windowed(c, Since(c))
  }

  /** A check at this moment is in time: no timer that it arms again goes in front of one that is due. */
  predicate InTime(c: Clock) {
    Catches(c.queue, c.timers, c.now)
  }

  /** What the callers must see to: timers exist; a started timer lasts less than half the range, as
      rt_timer_start asserts, and a periodic one has a period; nothing is overdue by so much that it
      does not fit into half the range with a started timer; the clock is set, or ticks on, to a reading
      at which the head of the queue is due or from which everything pending lies ahead; and a check is
      in time. For the clock and the checks this is exactly what keeps the order (SetClockKeeps and
      CheckExact). */
  predicate Legal(c: Clock, op: Op) {
    match op
    case Create(t, _, _) => t !in c.timers
    case SetTime(t, time) => t in c.timers && (c.timers[t].activated ==> Repeats(c.timers[t].(initTick := time)))
    case SetPeriodic(t, on) => t in c.timers && (c.timers[t].activated ==> Repeats(c.timers[t].(periodic := on)))
    case Start(t) => t in c.timers && c.timers[t].initTick < HALF && Repeats(c.timers[t])
                     && Sub(Add(c.now, c.timers[t].initTick), StartBase(c, t)) < HALF
    case Stop(t) => t in c.timers
    case TickOn => (HeadDueAt(c, NextTick(c).now) || AllAhead(c, NextTick(c).now)) && InTime(NextTick(c))
    case SetClock(to) => HeadDueAt(c, to) || AllAhead(c, to)
    case CheckNow => InTime(c)
  }

  /** The origin of the queue without t. */
  function StartBase(c: Clock, t: nat): Tick {
    Origin(c.now, c.timers, Without(c.queue, t))
  }

  predicate HeadDueAt(c: Clock, to: Tick) {
    c.queue != [] && c.queue[0] in c.timers && Due(c.timers[c.queue[0]], to)
  }

  predicate AllAhead(c: Clock, to: Tick) {
    forall x <- c.queue :: x in c.timers && Sub(c.timers[x].timeoutTick, to) < HALF
  }

  lemma Moved(a: Tick, base: Tick, base': Tick)
    requires Sub(base', base) <= Sub(a, base)
    ensures Sub(a, base') == Sub(a, base) - Sub(base', base)
  {}

  /** Any window that covers the clock and what is pending may be replaced by the one from the origin. */
  lemma Reorigin(c: Clock, base: Tick)
    requires Windowed(c, base)
    ensures Inv(c)
  {
    var origin := Since(c);
    OneRow(c.queue, c.timers, base);
    OriginCovers(c, base);
    forall x <- c.queue ensures Pending(c, origin, x) { assert Pending(c, base, x); }
    WindowsAgree(c.queue, c.timers, base, origin);
    Rebase([c.queue], c.timers, base, origin);
  }

  lemma OriginCovers(c: Clock, base: Tick)
    requires Windowed(c, base) && Sorted(c.queue, RelKeys(c.timers, base))
    ensures Sub(c.now, Since(c)) < HALF
    ensures forall x <- c.queue :: x in c.timers && Sub(c.timers[x].timeoutTick, Since(c)) < HALF
  {
    if c.queue != [] {
      var h := c.queue[0];
      assert h in c.queue && Pending(c, base, h);
      DueByKey(c.timers[h], c.now, base);
      TailSorted(c.queue, RelKeys(c.timers, base));
      if HeadDueAt(c, c.now) { Moved(c.now, base, Since(c)); }
      forall x <- c.queue ensures x in c.timers && Sub(c.timers[x].timeoutTick, Since(c)) < HALF {
        assert Pending(c, base, x);
        Moved(c.timers[x].timeoutTick, base, Since(c));
      }
    }
  }

  /** The invariant says that there is a window at all. */
  lemma InvIff(c: Clock)
    ensures Inv(c) <==> exists base: Tick :: Windowed(c, base)
  {
    if base: Tick :| Windowed(c, base) { Reorigin(c, base); }
  }

  // ---- insertion by wrapped difference ------------------------------------------------------

  /** Among comparable expiries insertion by wrapped difference is insertion by expiry. */
  lemma {:induction false} InsertIsPlace(s: seq<nat>, timers: map<nat, Timer>, base: Tick, t: nat)
    requires t in timers
    requires forall x <- s :: x in timers && Comparable(timers[x].timeoutTick, timers[t].timeoutTick, base)
    ensures Insert(s, timers, t) == Place(s, RelKeys(timers, base), t)
    decreases |s|
  {
    if s != [] {
      assert s[0] in s;
      WrappedOrder(timers[s[0]].timeoutTick, timers[t].timeoutTick, base);
      InsertIsPlace(s[1..], timers, base, t);
    }
  }

  // ---- one step -----------------------------------------------------------------------------

  lemma OneRow(q: seq<nat>, timers: map<nat, Timer>, base: Tick)
    ensures RowsOk([q], timers, base) <==>
            && Sorted(q, RelKeys(timers, base)) && Distinct(q)
            && (forall x <- q :: Queued(timers, x))
            && (forall x <- timers :: timers[x].activated ==> x in q)
  {
    assert [q][0] == q;
    assert RowOk([q], RelKeys(timers, base), 0) <==> Sorted(q, RelKeys(timers, base)) && Distinct(q);
  }

  lemma CreateKeeps(c: Clock, base: Tick, t: nat, timer: Timer)
    requires Windowed(c, base) && t !in c.timers && !timer.activated
    ensures Windowed(c.(timers := c.timers[t := timer]), base)
  {
    NotInRow([c.queue], c.timers, base, 0, t);
    StillRemoved([c.queue], c.timers, base, t, timer);
    forall x <- c.queue ensures Pending(c.(timers := c.timers[t := timer]), base, x) { assert Pending(c, base, x); }
  }

  lemma ControlKeeps(c: Clock, base: Tick, t: nat, timer: Timer)
    requires Windowed(c, base) && t in c.timers && (timer.activated ==> Repeats(timer))
    requires timer.activated == c.timers[t].activated && timer.timeoutTick == c.timers[t].timeoutTick
    ensures Windowed(c.(timers := c.timers[t := timer]), base)
  {
    ControlRows([c.queue], c.timers, base, t, timer);
    forall x <- c.queue ensures Pending(c.(timers := c.timers[t := timer]), base, x) { assert Pending(c, base, x); }
  }

  lemma StopKeeps(c: Clock, base: Tick, t: nat, timer: Timer)
    requires Windowed(c, base) && t in c.timers && !timer.activated
    ensures Windowed(Clock(c.now, c.timers[t := timer], Without(c.queue, t)), base)
  {
    var rest := Without(c.queue, t);
    RemoveRows([c.queue], c.timers, base, t, timer, [rest]);
    WithoutElems(c.queue, t);
    forall x <- rest ensures Pending(Clock(c.now, c.timers[t := timer], rest), base, x) { assert Pending(c, base, x); }
  }

  lemma ArmedKey(now: Tick, time: Tick)
    requires time < HALF
    ensures Sub(Add(now, time), now) == time
  {}

  /** A timer that is not queued is armed within the window and inserted. */
  lemma InsertArmed(c: Clock, base: Tick, t: nat, armed: Timer)
    requires Windowed(c, base) && t !in c.queue && t in c.timers && armed.activated && Repeats(armed)
    requires Sub(armed.timeoutTick, base) < HALF
    ensures var timers := c.timers[t := armed]; var q := Place(c.queue, RelKeys(timers, base), t);
      Insert(c.queue, timers, t) == q && Windowed(Clock(c.now, timers, q), base)
  {
    var timers := c.timers[t := armed];
    forall x <- c.queue ensures x in timers && timers[x] == c.timers[x] && Pending(c, base, x) {}
    InsertIsPlace(c.queue, timers, base, t);
    var q := Place(c.queue, RelKeys(timers, base), t);
    InsertRows([c.queue], c.timers, base, t, armed, 1, [q]);
    PlaceElems(c.queue, RelKeys(timers, base), t);
    forall x <- q ensures Pending(Clock(c.now, timers, q), base, x) { assert x != t ==> Pending(c, base, x); }
  }

  /** The stopped timer out of the way, what is left has the origin for the start. */
  lemma Stopped(c: Clock, t: nat, idle: Timer)
    requires Inv(c) && t in c.timers && !idle.activated
    ensures var mid := Clock(c.now, c.timers[t := idle], Without(c.queue, t));
      Windowed(mid, StartBase(c, t)) && t !in mid.queue
  {
    var mid := Clock(c.now, c.timers[t := idle], Without(c.queue, t));
    StopKeeps(c, Since(c), t, idle);
    Reorigin(mid, Since(c));
    WithoutElems(c.queue, t);
    assert mid.queue != [] ==> mid.queue[0] in mid.queue;
    assert Since(mid) == StartBase(c, t);
  }

  lemma StartKeeps(c: Clock, t: nat)
    requires Inv(c) && Legal(c, Start(t))
    ensures Inv(Apply(c, Start(t))) && Windowed(Apply(c, Start(t)), StartBase(c, t))
    ensures var timers := c.timers[t := Armed(c.timers[t], c.now)];
      Apply(c, Start(t)).queue == Place(Without(c.queue, t), RelKeys(timers, StartBase(c, t)), t)
  {
    var armed := Armed(c.timers[t], c.now);
    var idle := armed.(activated := false);
    var mid := Clock(c.now, c.timers[t := idle], Without(c.queue, t));
    assert mid.timers[t := armed] == c.timers[t := armed];
    StartIs(c, t);
    Stopped(c, t, idle);
    hide *;
    InsertArmed(mid, StartBase(c, t), t, armed);
    Reorigin(Apply(c, Start(t)), StartBase(c, t));
  }

  lemma StartIs(c: Clock, t: nat)
    requires t in c.timers
    ensures var timers := c.timers[t := Armed(c.timers[t], c.now)];
      Apply(c, Start(t)) == Clock(c.now, timers, Insert(Without(c.queue, t), timers, t))
  {}

  /** The clock may be set exactly to the readings that Legal allows. */
  lemma SetClockKeeps(c: Clock, to: Tick)
    requires Inv(c)
    ensures Inv(c.(now := to)) <==> Legal(c, SetClock(to))
  {
    var c', base := c.(now := to), Since(c);
    OneRow(c.queue, c.timers, base);
    forall x <- c.queue ensures Pending(c, base, x) {}
    if HeadDueAt(c, to) {
      var head := c.timers[c.queue[0]].timeoutTick;
      TailSorted(c.queue, RelKeys(c.timers, base));
      assert c.queue[0] in c.queue;
      forall x <- c.queue ensures Sub(c.timers[x].timeoutTick, head) < HALF {
        assert Pending(c, base, x);
        Moved(c.timers[x].timeoutTick, base, head);
      }
      WindowsAgree(c.queue, c.timers, base, head);
      Rebase([c.queue], c.timers, base, head);
      forall x <- c.queue ensures Pending(c', head, x) { assert Pending(c, base, x); }
    } else if AllAhead(c, to) {
      WindowsAgree(c.queue, c.timers, base, to);
      Rebase([c.queue], c.timers, base, to);
      forall x <- c.queue ensures Pending(c', to, x) { assert Pending(c, base, x); }
    }
    if Inv(c') && !HeadDueAt(c, to) {
      forall x <- c.queue ensures x in c.timers && Sub(c.timers[x].timeoutTick, to) < HALF {
        assert Pending(c', to, x);
      }
    }
  }

  // ---- a check ------------------------------------------------------------------------------

  /** The state in which a check starts. */
  lemma CheckReady(c: Clock, base: Tick)
    requires Windowed(c, base)
    ensures CheckPre(c.queue, c.timers, base, c.now, DueCount(c.queue, c.timers, c.now))
    ensures Counts(c.queue, c.timers, DueCount(c.queue, c.timers, c.now))
  {
    OneRow(c.queue, c.timers, base);
    forall x <- c.queue ensures Reaches(c.timers, base, c.now, x) && Repeats(c.timers[x]) {
      assert Pending(c, base, x);
    }
  }

  /** The first k due timers, armed again, go behind the ones that follow. */
  predicate ClearUpTo(c: Clock, n: nat, k: nat)
    requires n <= |c.queue|
  {
    forall j: nat | j < k && j < n - 1 :: Clears(c.queue, c.timers, c.now, j)
  }

  lemma {:induction false} RoundsAppend(c: Clock, k: nat)
    ensures Rounds(c, k + 1) == if Goes(Rounds(c, k)) then Round(Rounds(c, k)) else Rounds(c, k)
    ensures Shots(c, k + 1) == Shots(c, k) + if Goes(Rounds(c, k)) then [Rounds(c, k).queue[0]] else []
    decreases k
  {
    if k > 0 && Goes(c) { RoundsAppend(Round(c), k - 1); }
  }

  /** Once the loop has ended nothing more happens. */
  lemma {:induction false} RoundsOver(c: Clock, k: nat, m: nat)
    requires !Goes(Rounds(c, k)) && k <= m
    ensures Rounds(c, m) == Rounds(c, k) && Shots(c, m) == Shots(c, k)
    decreases m
  {
    if k < m {
      RoundsOver(c, k, m - 1);
      RoundsAppend(c, m - 1);
    }
  }

  /** The rounds are those of the loop of the check. */
  lemma {:induction false} RoundsInv(c: Clock, base: Tick, n: nat, k: nat)
    requires CheckPre(c.queue, c.timers, base, c.now, n) && k <= n && ClearUpTo(c, n, k)
    ensures var d := Rounds(c, k);
      d.now == c.now && CheckInv(c.queue, c.timers, base, c.now, n, k, d.queue, d.timers)
    decreases k
  {
    if k == 0 {
      CheckStart(c.queue, c.timers, base, c.now, n);
    } else {
      ClearAt(c, n, k - 1);
      hide CheckInv, CheckPre, Clears, ClearUpTo, Round;
      RoundsInv(c, base, n, k - 1);
      RoundsAppend(c, k - 1);
      NextRound(c, Rounds(c, k - 1), base, n, k - 1);
    }
  }

  lemma {:induction false} ShotsAre(c: Clock, base: Tick, n: nat, k: nat)
    requires k <= n <= |c.queue| && CheckPre(c.queue, c.timers, base, c.now, n) && ClearUpTo(c, n, k)
    ensures Shots(c, k) == c.queue[..k]
    decreases k
  {
    hide *;
    NoShots(c);
    if k > 0 {
      ClearAt(c, n, k - 1);
      RoundsInv(c, base, n, k - 1);
      NextRound(c, Rounds(c, k - 1), base, n, k - 1);
      ShotsAre(c, base, n, k - 1);
      NextShot(c, k - 1);
    }
  }

  lemma NoShots(c: Clock)
    ensures Shots(c, 0) == c.queue[..0]
  {}

  lemma NextShot(c: Clock, k: nat)
    requires k < |c.queue| && Shots(c, k) == c.queue[..k]
    requires Goes(Rounds(c, k)) && Rounds(c, k).queue[0] == c.queue[k]
    ensures Shots(c, k + 1) == c.queue[..k + 1]
  {
    RoundsAppend(c, k);
    assert c.queue[..k + 1] == c.queue[..k] + [c.queue[k]];
  }

  lemma ClearAt(c: Clock, n: nat, k: nat)
    requires n <= |c.queue| && ClearUpTo(c, n, k + 1)
    ensures ClearUpTo(c, n, k) && (k + 1 < n ==> Clears(c.queue, c.timers, c.now, k))
  {}

  lemma NextRound(c: Clock, d: Clock, base: Tick, n: nat, k: nat)
    requires d.now == c.now && k < n && CheckInv(c.queue, c.timers, base, c.now, n, k, d.queue, d.timers)
    requires k + 1 < n ==> k + 1 < |c.queue| && Clears(c.queue, c.timers, c.now, k)
    ensures Goes(d) && Round(d).now == c.now && n <= |c.queue| && d.queue[0] == c.queue[k]
    ensures CheckInv(c.queue, c.timers, base, c.now, n, k + 1, Round(d).queue, Round(d).timers)
  {
    InvBounds(c.queue, c.timers, base, c.now, n, k, d.queue, d.timers);
    HeadIs(c.queue, c.timers, base, c.now, n, k, d.queue, d.timers);
    var t := d.queue[0];
    var timers := d.timers[t := Fired(d.timers[t], c.now)];
    if timers[t].periodic {
      forall x <- d.queue[1..]
        ensures x in timers && Comparable(timers[x].timeoutTick, timers[t].timeoutTick, base)
      {
        RearmFits(c.queue, c.timers, base, c.now, n, k, d.queue, d.timers, x);
      }
      InsertIsPlace(d.queue[1..], timers, base, t);
    }
    hide *;
    CheckStep(c.queue, c.timers, base, c.now, n, k, d.queue, d.timers, Round(d).queue, Round(d).timers);
  }

  /** A check in time fires the due timers at the front and then ends. */
  lemma LoopIs(c: Clock, base: Tick, n: nat)
    requires CheckPre(c.queue, c.timers, base, c.now, n) && InTime(c)
    requires n <= |c.queue| && Counts(c.queue, c.timers, n)
    ensures !Goes(Checked(c)) && FiredNow(c) == c.queue[..n]
    ensures var timers := AfterFiring(c.timers, c.queue[..n], c.now);
      Checked(c)
        == Clock(c.now, timers, PlaceAll(c.queue[n..], RelKeys(timers, base), Periodic(c.queue[..n], c.timers)))
  {
    var d := Rounds(c, n);
    RoundsInv(c, base, n, n);
    ShotsAre(c, base, n, n);
    if d.queue != [] { HeadDue(c.queue, c.timers, base, c.now, n, n, d.queue, d.timers); }
    RoundsOver(c, n, |c.queue|);
    CheckDone(c.queue, c.timers, base, c.now, n, n, d.queue, d.timers);
  }

  // ---- a check in time ----------------------------------------------------------------------

  /** An active timer that is not due and lies within half the range ahead. */
  ghost predicate Ahead(timers: map<nat, Timer>, base: Tick, now: Tick, x: nat) {
    && x in timers && timers[x].activated && Repeats(timers[x])
    && Sub(now, base) < Sub(timers[x].timeoutTick, base)
    && 1 <= Sub(timers[x].timeoutTick, now) < HALF
  }

  /** A re-armed timer lies ahead. */
  lemma RearmedAhead(c: Clock, base: Tick, n: nat, x: nat)
    requires Windowed(c, base) && n == DueCount(c.queue, c.timers, c.now)
    requires x in Periodic(c.queue[..n], c.timers)
    ensures x in c.queue[..n] && Ahead(AfterFiring(c.timers, c.queue[..n], c.now), base, c.now, x)
  {
    PeriodicElems(c.queue[..n], c.timers);
    var i :| 0 <= i < n && c.queue[i] == x;
    assert x in c.queue && Pending(c, base, x);
    ArmedWindow(c.now, c.timers[x].initTick, base);
    ArmedKey(c.now, c.timers[x].initTick);
  }

  /** What stays queued behind the fired timers was not due, and is untouched. */
  lemma RestAhead(c: Clock, base: Tick, n: nat, x: nat)
    requires Windowed(c, base) && n == DueCount(c.queue, c.timers, c.now) && x in c.queue[n..]
    ensures x in c.timers && x !in c.queue[..n] && Ahead(c.timers, base, c.now, x)
  {
    CheckReady(c, base);
    var i :| n <= i < |c.queue| && c.queue[i] == x;
    DuePrefix(c.queue, c.timers, base, c.now, n, i);
    assert Pending(c, base, x) && x in c.queue;
    DueByKey(c.timers[x], c.now, base);
    Moved(c.timers[x].timeoutTick, base, c.now);
  }

  /** What is fired comes back ahead if it is periodic, and the rest is as it was. */
  lemma CheckElems(c: Clock, base: Tick, n: nat, timers: map<nat, Timer>)
    requires Windowed(c, base) && n == DueCount(c.queue, c.timers, c.now)
    requires timers == AfterFiring(c.timers, c.queue[..n], c.now)
    ensures forall x <- c.queue[n..] :: Ahead(timers, base, c.now, x) && x in c.timers && timers[x] == c.timers[x]
              && x !in c.queue[..n]
    ensures forall x <- Periodic(c.queue[..n], c.timers) :: Ahead(timers, base, c.now, x) && x in c.queue[..n]
    ensures forall x <- timers | timers[x].activated :: x in c.queue[n..] || x in Periodic(c.queue[..n], c.timers)
  {
    var fired, rest, ps := c.queue[..n], c.queue[n..], Periodic(c.queue[..n], c.timers);
    PeriodicElems(fired, c.timers);
    forall x <- rest ensures Ahead(timers, base, c.now, x) && x in c.timers && timers[x] == c.timers[x] && x !in fired {
      RestAhead(c, base, n, x);
    }
    forall x <- ps ensures Ahead(timers, base, c.now, x) && x in fired {
      RearmedAhead(c, base, n, x);
    }
    forall x <- timers | timers[x].activated ensures x in ps || x in rest {
      ActiveSplits(c, base, n, x);
    }
  }

  lemma ActiveSplits(c: Clock, base: Tick, n: nat, x: nat)
    requires RowsOk([c.queue], c.timers, base) && n == DueCount(c.queue, c.timers, c.now)
    requires x in c.timers && AfterFiring(c.timers, c.queue[..n], c.now)[x].activated
    ensures x in c.queue[..n] || x in c.queue[n..]
  {
    OneRow(c.queue, c.timers, base);
    assert c.queue == c.queue[..n] + c.queue[n..];
  }

  lemma {:induction false} PlaceAllOk(s: seq<nat>, key: Keys, ts: seq<nat>)
    requires Sorted(s, key) && Distinct(s) && Distinct(ts) && forall x <- ts :: x !in s
    ensures Sorted(PlaceAll(s, key, ts), key) && Distinct(PlaceAll(s, key, ts))
    decreases |ts|
  {
    if ts != [] {
      var front, t := ts[..|ts| - 1], ts[|ts| - 1];
      PlaceAllOk(s, key, front);
      PlaceAllElems(s, key, front);
      assert t in ts && t !in front;
      PlaceSorted(PlaceAll(s, key, front), key, t);
      PlaceDistinct(PlaceAll(s, key, front), key, t);
    }
  }

  lemma {:induction false} PeriodicDistinct(ts: seq<nat>, timers: map<nat, Timer>)
    requires Distinct(ts)
    ensures Distinct(Periodic(ts, timers))
    decreases |ts|
  {
    if ts != [] {
      PeriodicDistinct(ts[..|ts| - 1], timers);
      PeriodicElems(ts[..|ts| - 1], timers);
    }
  }

  lemma RestSorted(s: seq<nat>, key: Keys, n: nat)
    requires Sorted(s, key) && Distinct(s) && n <= |s|
    ensures Sorted(s[n..], key) && Distinct(s[n..]) && Distinct(s[..n])
  {
    forall i, j | 0 <= i < j < |s[n..]| ensures InOrder(s[n..], key, i, j) {
      assert InOrder(s, key, n + i, n + j);
    }
  }

  lemma CheckSorted(c: Clock, base: Tick, n: nat, timers: map<nat, Timer>)
    requires RowsOk([c.queue], c.timers, base) && n <= |c.queue|
    requires forall x <- c.queue[n..] :: x in timers && x in c.timers && timers[x] == c.timers[x] && x !in c.queue[..n]
    requires forall x <- Periodic(c.queue[..n], c.timers) :: x in c.queue[..n]
    ensures var q := PlaceAll(c.queue[n..], RelKeys(timers, base), Periodic(c.queue[..n], c.timers));
      Sorted(q, RelKeys(timers, base)) && Distinct(q)
  {
    var fired, rest, key := c.queue[..n], c.queue[n..], RelKeys(timers, base);
    OneRow(c.queue, c.timers, base);
    RestSorted(c.queue, RelKeys(c.timers, base), n);
    SortedSameKeys(rest, RelKeys(c.timers, base), key);
    PeriodicDistinct(fired, c.timers);
    PlaceAllOk(rest, key, Periodic(fired, c.timers));
  }

  lemma RowAhead(q: seq<nat>, timers: map<nat, Timer>, base: Tick, now: Tick)
    requires Sorted(q, RelKeys(timers, base)) && Distinct(q) && forall x <- q :: Ahead(timers, base, now, x)
    requires forall x <- timers | timers[x].activated :: x in q
    ensures RowsOk([q], timers, base)
  {
    OneRow(q, timers, base);
  }

  /** The queue after a check, seen from the base. */
  lemma CheckQueue(c: Clock, base: Tick, n: nat, timers: map<nat, Timer>, q: seq<nat>)
    requires Windowed(c, base) && n == DueCount(c.queue, c.timers, c.now)
    requires timers == AfterFiring(c.timers, c.queue[..n], c.now)
    requires q == PlaceAll(c.queue[n..], RelKeys(timers, base), Periodic(c.queue[..n], c.timers))
    ensures RowsOk([q], timers, base)
    ensures forall x <- q :: Ahead(timers, base, c.now, x)
    ensures forall x :: x in q <==> x in c.queue[n..] || x in Periodic(c.queue[..n], c.timers)
  {
    CheckElems(c, base, n, timers);
    CheckSorted(c, base, n, timers);
    hide *;
    PlaceAllElems(c.queue[n..], RelKeys(timers, base), Periodic(c.queue[..n], c.timers));
    RowAhead(q, timers, base, c.now);
  }

  lemma AheadWindow(now: Tick, q: seq<nat>, timers: map<nat, Timer>, base: Tick)
    requires RowsOk([q], timers, base) && forall x <- q :: Ahead(timers, base, now, x)
    ensures Windowed(Clock(now, timers, q), now) && Since(Clock(now, timers, q)) == now
    ensures forall x <- q :: x in timers && !Due(timers[x], now)
  {
    forall x <- q ensures x in timers && Sub(timers[x].timeoutTick, now) < HALF && !Due(timers[x], now) {
      assert Ahead(timers, base, now, x);
    }
    forall x <- q ensures Sub(now, base) <= Sub(timers[x].timeoutTick, base) { assert Ahead(timers, base, now, x); }
    LaterAgrees(q, timers, base, now);
    Rebase([q], timers, base, now);
    forall x <- q ensures Pending(Clock(now, timers, q), now, x) {
      assert Ahead(timers, base, now, x);
    }
    if q != [] { assert q[0] in q; }
  }

  /** One check in time: the due timers of the queue are fired and no others, each once, and
      everything queued afterwards still lies ahead of the clock. */
  lemma CheckKeeps(c: Clock)
    requires Inv(c) && InTime(c)
    ensures var c', fired := Checked(c), FiredNow(c);
      && Inv(c') && Since(c') == c'.now == c.now
      && (forall x <- c'.queue :: x in c'.timers && !Due(c'.timers[x], c'.now))
      && (forall x <- c.queue :: x in c.timers && (x in fired <==> Due(c.timers[x], c.now)))
      && Distinct(fired) && (forall x <- fired :: x in c.queue)
  {
    var n, base := DueCount(c.queue, c.timers, c.now), Since(c);
    var timers := AfterFiring(c.timers, c.queue[..n], c.now);
    var q := PlaceAll(c.queue[n..], RelKeys(timers, base), Periodic(c.queue[..n], c.timers));
    CheckReady(c, base);
    LoopIs(c, base, n);
    FiresExactlyTheDue(c.queue, c.timers, base, c.now, n);
    hide Windowed, Catches, RowsOk, CheckPre, AfterFiring, PlaceAll, Checked, FiredNow;
    CheckQueue(c, base, n, timers, q);
    AheadWindow(c.now, q, timers, base);
  }

  /** A tick, in particular. */
  lemma TickKeeps(c: Clock)
    requires Inv(c) && Legal(c, TickOn)
    ensures Inv(NextTick(c))
    ensures var c', fired, now := Apply(c, TickOn), FiredBy(c, TickOn), NextTick(c).now;
      && Inv(c') && Since(c') == c'.now == now
      && (forall x <- c'.queue :: x in c'.timers && !Due(c'.timers[x], now))
      && (forall x <- c.queue :: x in c.timers && (x in fired <==> Due(c.timers[x], now)))
      && Distinct(fired) && (forall x <- fired :: x in c.queue)
  {
    SetClockKeeps(c, NextTick(c).now);
    assert Legal(c, SetClock(NextTick(c).now));
    hide Inv, Checked, FiredNow, InTime;
    CheckKeeps(NextTick(c));
  }

  /** A check that is late by no more than the periods allow is in time. */
  lemma LittleLate(c: Clock, late: nat)
    requires forall x <- c.queue :: x in c.timers
               && (Due(c.timers[x], c.now) ==> Sub(c.now, c.timers[x].timeoutTick) <= late)
               && (c.timers[x].periodic ==> late + c.timers[x].initTick <= HALF + 2)
    ensures InTime(c)
  {
    forall i: nat | i < DueCount(c.queue, c.timers, c.now) - 1 ensures Clears(c.queue, c.timers, c.now, i) {
      assert c.queue[i] in c.queue && c.queue[i + 1] in c.queue;
    }
  }

  /** With nothing overdue a tick and a check need no leave. */
  lemma CheckedLegal(c: Clock)
    requires Inv(c) && Since(c) == c.now
    ensures Legal(c, TickOn) && Legal(c, CheckNow)
  {
    forall x <- c.queue ensures Pending(c, c.now, x) {}
    LittleLate(c, 1);
    LittleLate(NextTick(c), 1);
    if c.queue != [] && !HeadDueAt(c, NextTick(c).now) {
      OneRow(c.queue, c.timers, c.now);
      TailSorted(c.queue, RelKeys(c.timers, c.now));
      assert c.queue[0] in c.queue && Pending(c, c.now, c.queue[0]);
    }
  }

  // ---- every run ----------------------------------------------------------------------------

  lemma StepKeeps(c: Clock, op: Op)
    requires Inv(c) && Legal(c, op)
    ensures Inv(Apply(c, op))
  {
    StepWindow(c, op);
  }

  /** The window from which the queue is in order right after a step. */
  function BaseAfter(c: Clock, op: Op): Tick {
    match op
    case Start(t) => StartBase(c, t)
    case TickOn => NextTick(c).now
    case SetClock(to) => Since(c.(now := to))
    case CheckNow => c.now
    case _ => Since(c)
  }

  lemma StepWindow(c: Clock, op: Op)
    requires Inv(c) && Legal(c, op)
    ensures Windowed(Apply(c, op), BaseAfter(c, op)) && Inv(Apply(c, op))
  {
    hide Windowed, Checked, Since, StartBase;
    match op
    case Create(t, time, periodic) =>
      CreateKeeps(c, Since(c), t, Timer(time, 0, periodic, false));
      Reorigin(Apply(c, op), Since(c));
    case SetTime(t, time) =>
      ControlKeeps(c, Since(c), t, c.timers[t].(initTick := time));
      Reorigin(Apply(c, op), Since(c));
    case SetPeriodic(t, on) =>
      ControlKeeps(c, Since(c), t, c.timers[t].(periodic := on));
      Reorigin(Apply(c, op), Since(c));
    case Start(t) => StartKeeps(c, t);
    case Stop(t) => StopKeeps(c, Since(c), t, c.timers[t].(activated := false)); Reorigin(Apply(c, op), Since(c));
    case TickOn => TickKeeps(c);
    case SetClock(to) => SetClockKeeps(c, to);
    case CheckNow => CheckKeeps(c);
  }

  predicate LegalRun(c: Clock, ops: seq<Op>)
    decreases |ops|
  {
    ops == [] || (Legal(c, ops[0]) && LegalRun(Apply(c, ops[0]), ops[1..]))
  }

  function Run(c: Clock, ops: seq<Op>): Clock
    decreases |ops|
  {
    if ops == [] then c else Run(Apply(c, ops[0]), ops[1..])
  }

  /** Everything a run fires, in order. */
  function FiredIn(c: Clock, ops: seq<Op>): seq<nat>
    decreases |ops|
  {
    if ops == [] then [] else FiredBy(c, ops[0]) + FiredIn(Apply(c, ops[0]), ops[1..])
  }

  /** In every run the pending timers stay in order, within half the range behind the oldest of them
      that is overdue, or ahead of the clock if none is. */
  lemma {:induction false} EveryRun(c: Clock, ops: seq<Op>)
    requires Inv(c) && LegalRun(c, ops)
    ensures Inv(Run(c, ops))
    decreases |ops|
  {
    if ops != [] {
      StepKeeps(c, ops[0]);
      EveryRun(Apply(c, ops[0]), ops[1..]);
    }
  }

  /** From the start of the system: in every run a check fires exactly the timers that are due. */
  lemma EveryRunFromStart(ops: seq<Op>, x: nat)
    requires LegalRun(START, ops)
    ensures var c := Run(START, ops);
      && Inv(c)
      && (x in c.queue <==> x in c.timers && c.timers[x].activated)
      && (Legal(c, CheckNow) && x in c.queue ==> (x in FiredNow(c) <==> Due(c.timers[x], c.now)))
      && (Legal(c, TickOn) && x in c.queue ==> (x in FiredBy(c, TickOn) <==> Due(c.timers[x], NextTick(c).now)))
  {
    OneRow([], map[], 0);
    EveryRun(START, ops);
    var c := Run(START, ops);
    OneRow(c.queue, c.timers, Since(c));
    if x in c.queue { assert Pending(c, Since(c), x); }
    if Legal(c, CheckNow) { CheckKeeps(c); }
    if Legal(c, TickOn) { TickKeeps(c); }
  }
}
