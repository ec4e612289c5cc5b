/** When timers fire: on time under a ticking clock, and at the first check that finds them due
    however the clock is set.
 */
module TimerFirings {
  import opened Queues
  import opened Timers
  import opened TimerRuns

  /** The operation does not start or stop timer t. */
  predicate LeavesAlone(op: Op, t: nat) {
    match op
    case Start(u) => u != t
    case Stop(u) => u != t
    case _ => true
  }

  // ---- at the first check that finds it due ------------------------------------------------

  predicate Checks(op: Op) {
    op.TickOn? || op.CheckNow?
  }

  /** The reading of the clock at which an operation checks the timers. */
  function CheckTime(c: Clock, op: Op): Tick {
    if op.TickOn? then NextTick(c).now else c.now
  }

  /** Some check of the run takes place when the expiry is over, by less than half the range. */
  predicate MeetsExpiry(c: Clock, ops: seq<Op>, expiry: Tick)
    decreases |ops|
  {
    ops != [] &&
    ((Checks(ops[0]) && Sub(CheckTime(c, ops[0]), expiry) < HALF) || MeetsExpiry(Apply(c, ops[0]), ops[1..], expiry))
  }

  /** What an operation that leaves t alone does to it: a check that finds it due fires it, and
      otherwise it stays as it is. */
  lemma StepSpares(c: Clock, op: Op, t: nat)
    requires Inv(c) && Legal(c, op) && t in c.queue && LeavesAlone(op, t)
    ensures t in c.timers
    ensures t in FiredBy(c, op) <==> Checks(op) && Due(c.timers[t], CheckTime(c, op))
    ensures t !in FiredBy(c, op) ==>
      var c' := Apply(c, op); t in c'.queue && t in c'.timers && c'.timers[t].timeoutTick == c.timers[t].timeoutTick
  {
    assert Pending(c, Since(c), t);
    match op
    case TickOn =>
      TickKeeps(c);
      if t !in FiredBy(c, op) { CheckSpares(NextTick(c), t); }
    case CheckNow =>
      CheckKeeps(c);
      if t !in FiredBy(c, op) { CheckSpares(c, t); }
    case Stop(u) => WithoutElems(c.queue, u);
    case Start(u) =>
      WithoutElems(c.queue, u);
      StartKeeps(c, u);
      PlaceElems(Without(c.queue, u), RelKeys(c.timers[u := Armed(c.timers[u], c.now)], StartBase(c, u)), u);
    case _ =>
  }

  lemma CheckSpares(c: Clock, t: nat)
    requires Inv(c) && InTime(c) && t in c.queue && t !in FiredNow(c)
    ensures var c' := Checked(c); t in c.timers && t in c'.queue && t in c'.timers && c'.timers[t] == c.timers[t]
  {
    var n, base := DueCount(c.queue, c.timers, c.now), Since(c);
    var timers := AfterFiring(c.timers, c.queue[..n], c.now);
    var q := PlaceAll(c.queue[n..], RelKeys(timers, base), Periodic(c.queue[..n], c.timers));
    InvBase(c);
    hide *;
    CheckReady(c, base);
    LoopIs(c, base, n);
    BehindFired(c.queue, n, t);
    CheckElems(c, base, n, timers);
    CheckQueue(c, base, n, timers, q);
  }

  lemma InvBase(c: Clock)
    ensures Inv(c) ==> Windowed(c, Since(c))
  {}

  lemma BehindFired(q: seq<nat>, n: nat, t: nat)
    requires n <= |q| && t in q && t !in q[..n]
    ensures t in q[n..]
  {
    assert q == q[..n] + q[n..];
  }

  /** However the clock is set within the rules, a pending timer that is left alone is fired in a run
      if and only if some check of the run finds it due. */
  lemma {:induction false} FiresWhenDue(c: Clock, ops: seq<Op>, t: nat)
    requires Inv(c) && LegalRun(c, ops) && t in c.queue && forall op <- ops :: LeavesAlone(op, t)
    ensures t in c.timers && (t in FiredIn(c, ops) <==> MeetsExpiry(c, ops, c.timers[t].timeoutTick))
    decreases |ops|
  {
    assert Pending(c, Since(c), t);
    if ops != [] {
      assert ops[0] in ops;
      StepSpares(c, ops[0], t);
      if t !in FiredBy(c, ops[0]) {
        StepKeeps(c, ops[0]);
        FiresWhenDue(Apply(c, ops[0]), ops[1..], t);
      }
    }
  }

  // ---- under a ticking clock ----------------------------------------------------------------

  function Ticks(ops: seq<Op>): nat {
    if ops == [] then 0 else (if ops[0].TickOn? then 1 else 0) + Ticks(ops[1..])
  }

  /** The operation leaves t alone, and the clock only ticks. */
  predicate LetsTick(op: Op, t: nat) {
    LeavesAlone(op, t) && !op.SetClock? && !op.CheckNow?
  }

  /** The ticks until pending timer t is fired: the time left, or the next tick if it is due. */
  function Wait(c: Clock, t: nat): (n: nat)
    requires t in c.timers
    ensures n > 0
  {
    if Due(c.timers[t], c.now) then 1 else Sub(c.timers[t].timeoutTick, c.now)
  }

  /** One tick less to wait, unless the timer is due at it. */
  lemma WaitStep(c: Clock, t: nat)
    requires Inv(c) && Legal(c, TickOn) && t in c.queue && t in c.timers
    ensures Wait(c, t) == 1 <==> Due(c.timers[t], NextTick(c).now)
    ensures Wait(c, t) != 1 ==> Wait(NextTick(c), t) == Wait(c, t) - 1
  {
    var timer, base := c.timers[t], Since(c);
    assert Pending(c, base, t);
    DueByKey(timer, c.now, base);
    DueByKey(timer, NextTick(c).now, base);
    if !Due(timer, c.now) { Moved(timer.timeoutTick, base, c.now); }
  }

  lemma StepWaits(c: Clock, op: Op, t: nat)
    requires Inv(c) && Legal(c, op) && t in c.queue && LetsTick(op, t) && t in c.timers
    ensures op.TickOn? && Wait(c, t) == 1 ==> t in FiredBy(c, op)
    ensures !(op.TickOn? && Wait(c, t) == 1) ==>
      var c' := Apply(c, op);
      t !in FiredBy(c, op) && t in c'.queue && t in c'.timers
          && Wait(c', t) == Wait(c, t) - (if op.TickOn? then 1 else 0)
  {
    StepSpares(c, op, t);
    if op.TickOn? {
      WaitStep(c, t);
      TickKeeps(c);
    }
  }

  /** A pending timer that is left alone fires in a run exactly when the run has as many ticks as
      the timer still had to wait: never early, never late, never lost. */
  lemma {:induction false} FiresOnTime(c: Clock, ops: seq<Op>, t: nat)
    requires Inv(c) && LegalRun(c, ops) && t in c.queue && t in c.timers
    requires forall op <- ops :: LetsTick(op, t)
    ensures t in FiredIn(c, ops) <==> Ticks(ops) >= Wait(c, t)
    decreases |ops|
  {
    if ops != [] {
      assert ops[0] in ops;
      StepWaits(c, ops[0], t);
      if !(ops[0].TickOn? && Wait(c, t) == 1) {
        StepKeeps(c, ops[0]);
        FiresOnTime(Apply(c, ops[0]), ops[1..], t);
      }
    }
  }

  /** A timer started for `initTick` ticks, and then left alone, fires at the tick with that number
      from the start; with duration 0 at the next one. */
  lemma StartedFiresOnTime(c: Clock, t: nat, ops: seq<Op>)
    requires Inv(c) && Legal(c, Start(t)) && LegalRun(Apply(c, Start(t)), ops)
    requires forall op <- ops :: LetsTick(op, t)
    ensures t in FiredIn(Apply(c, Start(t)), ops) <==>
              Ticks(ops) >= (if c.timers[t].initTick == 0 then 1 else c.timers[t].initTick)
  {
    StartKeeps(c, t);
    PlaceElems(Without(c.queue, t), RelKeys(c.timers[t := Armed(c.timers[t], c.now)], StartBase(c, t)), t);
    ArmedKey(c.now, c.timers[t].initTick);
    FiresOnTime(Apply(c, Start(t)), ops, t);
  }

  /** A periodic timer is pending again as soon as it has been fired, for one whole period. */
  lemma PeriodicAgain(c: Clock, t: nat)
    requires Inv(c) && Legal(c, TickOn) && t in FiredBy(c, TickOn) && t in c.timers && c.timers[t].periodic
    ensures var c' := Apply(c, TickOn);
      t in c'.queue && t in c'.timers && c'.timers[t] == Armed(c.timers[t], c'.now)
          && Wait(c', t) == c.timers[t].initTick
  {
    TickKeeps(c);
    assert t in c.queue && Pending(c, Since(c), t);
    ArmedKey(NextTick(c).now, c.timers[t].initTick);
    RearmedDue(c.timers[t], NextTick(c).now);
    hide Inv, InTime, Checked, FiredNow;
    CheckRearms(NextTick(c), t);
  }

  lemma CheckRearms(c: Clock, t: nat)
    requires Inv(c) && InTime(c) && t in FiredNow(c) && t in c.timers && c.timers[t].periodic
    ensures var c' := Checked(c); t in c'.queue && t in c'.timers && c'.timers[t] == Armed(c.timers[t], c.now)
  {
    var n, base := DueCount(c.queue, c.timers, c.now), Since(c);
    var timers := AfterFiring(c.timers, c.queue[..n], c.now);
    CheckReady(c, base);
    LoopIs(c, base, n);
    PeriodicElems(c.queue[..n], c.timers);
    hide Inv, Windowed, InTime, Checked, FiredNow, PlaceAll, Periodic;
    CheckQueue(c, base, n, timers, PlaceAll(c.queue[n..], RelKeys(timers, base), Periodic(c.queue[..n], c.timers)));
  }

  lemma CheckDisarms(c: Clock, t: nat)
    requires Inv(c) && InTime(c) && t in FiredNow(c) && t in c.timers && !c.timers[t].periodic
    ensures t in Checked(c).timers && !Checked(c).timers[t].activated
  {
    CheckReady(c, Since(c));
    LoopIs(c, Since(c), DueCount(c.queue, c.timers, c.now));
  }

  /** A one-shot timer that has been fired is pending no more. */
  lemma OneShotGone(c: Clock, t: nat)
    requires Inv(c) && Legal(c, TickOn) && t in FiredBy(c, TickOn) && t in c.timers && !c.timers[t].periodic
    ensures var c' := Apply(c, TickOn); t !in c'.queue && t in c'.timers && !c'.timers[t].activated
  {
    TickKeeps(c);
    CheckDisarms(NextTick(c), t);
    var c' := Apply(c, TickOn);
    hide Checked, InTime, FiredNow;
    assert t in c'.queue ==> Pending(c', Since(c'), t);
  }

  // ---- how often a periodic timer fires -----------------------------------------------------

  lemma {:induction false} CountOnce(s: seq<nat>, t: nat)
    requires Distinct(s)
    ensures multiset(s)[t] == if t in s then 1 else 0
    decreases |s|
  {
    if s != [] {
      CountOnce(s[1..], t);
      assert s == [s[0]] + s[1..];
    }
  }

  /** Firings in n ticks when the first comes after `wait` of them and one more after every `period`. */
  function Firings(n: nat, wait: nat, period: nat): nat
    requires wait > 0 && period > 0
  {
    if n < wait then 0 else 1 + Firings(n - wait, period, period)
  }

  predicate LeavesPeriod(op: Op, t: nat) {
    LetsTick(op, t) && !(op.SetTime? && op.t == t) && !(op.SetPeriodic? && op.t == t)
  }

  lemma PeriodKept(c: Clock, op: Op, t: nat)
    requires Inv(c) && Legal(c, op) && t in c.timers && LeavesPeriod(op, t)
    ensures t in Apply(c, op).timers && Apply(c, op).timers[t].initTick == c.timers[t].initTick
    ensures Apply(c, op).timers[t].periodic == c.timers[t].periodic
  {
    RoundsStatic(c, |c.queue|, t);
    RoundsStatic(NextTick(c), |c.queue|, t);
    hide Rounds;
  }

  lemma {:induction false} RoundsStatic(c: Clock, k: nat, t: nat)
    requires t in c.timers
    ensures var d := Rounds(c, k);
      && t in d.timers
      && d.timers[t].initTick == c.timers[t].initTick && d.timers[t].periodic == c.timers[t].periodic
    decreases k
  {
    if k > 0 && Goes(c) { RoundsStatic(Round(c), k - 1, t); }
  }

  /** What one step fires of a periodic timer, and what is left to wait. */
  lemma PeriodicStep(c: Clock, op: Op, t: nat, later: nat)
    requires Inv(c) && Legal(c, op) && t in c.queue && t in c.timers && c.timers[t].periodic && LeavesPeriod(op, t)
    ensures var c' := Apply(c, op); var period := c.timers[t].initTick;
      && period > 0 && t in c'.queue && t in c'.timers && c'.timers[t].periodic && c'.timers[t].initTick == period
      && multiset(FiredBy(c, op))[t] + Firings(later, Wait(c', t), period)
         == Firings(later + (if op.TickOn? then 1 else 0), Wait(c, t), period)
  {
    assert Pending(c, Since(c), t);
    StepWaits(c, op, t);
    PeriodKept(c, op, t);
    FiredDistinct(c, op);
    CountOnce(FiredBy(c, op), t);
    if op.TickOn? && Wait(c, t) == 1 { PeriodicAgain(c, t); }
    hide Inv, Legal, Apply, FiredBy;
  }

  /** A periodic timer that is left alone fires once its wait is over and then once every period,
      in whatever run of the other timers. */
  lemma {:induction false} PeriodicFires(c: Clock, ops: seq<Op>, t: nat)
    requires Inv(c) && LegalRun(c, ops) && t in c.queue && t in c.timers && c.timers[t].periodic
    requires forall op <- ops :: LeavesPeriod(op, t)
    ensures c.timers[t].initTick > 0
    ensures multiset(FiredIn(c, ops))[t] == Firings(Ticks(ops), Wait(c, t), c.timers[t].initTick)
    decreases |ops|
  {
    hide *;
    HasPeriod(c, t);
    FiredCount(c, ops, t);
    RunTail(c, ops);
    if ops == [] {
      NoFirings(Wait(c, t), c.timers[t].initTick);
    } else {
      assert ops[0] in ops;
      PeriodicStep(c, ops[0], t, Ticks(ops[1..]));
      StepKeeps(c, ops[0]);
      PeriodicFires(Apply(c, ops[0]), ops[1..], t);
    }
  }

  lemma HasPeriod(c: Clock, t: nat)
    requires Inv(c) && t in c.queue && t in c.timers && c.timers[t].periodic
    ensures c.timers[t].initTick > 0
  {
    assert Pending(c, Since(c), t);
  }

  lemma RunTail(c: Clock, ops: seq<Op>)
    requires LegalRun(c, ops)
    ensures ops == [] ==> Ticks(ops) == 0
    ensures ops != [] ==> Legal(c, ops[0]) && LegalRun(Apply(c, ops[0]), ops[1..])
                          && Ticks(ops) == Ticks(ops[1..]) + if ops[0].TickOn? then 1 else 0
  {}

  lemma FiredCount(c: Clock, ops: seq<Op>, t: nat)
    ensures multiset(FiredIn(c, ops))[t] ==
            if ops == [] then 0 else multiset(FiredBy(c, ops[0]))[t] + multiset(FiredIn(Apply(c, ops[0]), ops[1..]))[t]
  {}

  lemma NoFirings(wait: nat, period: nat)
    requires wait > 0 && period > 0
    ensures Firings(0, wait, period) == 0
  {}

  lemma FiredDistinct(c: Clock, op: Op)
    requires Inv(c) && Legal(c, op)
    ensures Distinct(FiredBy(c, op))
  {
    if op.TickOn? { TickKeeps(c); } else if op.CheckNow? { CheckKeeps(c); }
  }
}
