/** The skip list carries out the steps of the runs: every operation on it, at any height, is a step,
    and every sequence of operations a run.
 */
module TimerSteps {
  import opened Queues
  import opened Timers
  import opened TimerRuns

  /** The state of the system without its upper rows. */
  ghost function View(sys: TimerSystem): Clock
    requires sys.rows.Length == sys.levels > 0
    reads sys, sys.rows
  {
    Clock(sys.tick, sys.timers, sys.Queue())
  }

  /** All rows are in order from the origin of the lowest one. */
  ghost predicate Ready(sys: TimerSystem)
    reads sys, sys.rows
  {
    sys.rows.Length == sys.levels > 0 && Inv(View(sys)) && sys.Valid(Since(View(sys)))
  }

  /** Rows that are in order from one base are so from the origin: of two windows, */
  lemma Settle(rows: seq<seq<nat>>, c: Clock, base: Tick)
    requires RowsOk(rows, c.timers, base) && rows[|rows| - 1] == c.queue && Inv(c) && Windowed(c, base)
    ensures RowsOk(rows, c.timers, Since(c))
  {
    forall x <- c.queue ensures x in c.timers && Sub(c.timers[x].timeoutTick, Since(c)) < HALF {
      assert Pending(c, Since(c), x) && Pending(c, base, x);
    }
    WindowsAgree(c.queue, c.timers, base, Since(c));
    Rebase(rows, c.timers, base, Since(c));
  }

  /** and when everything lies ahead of the clock. */
  lemma SettleAhead(rows: seq<seq<nat>>, c: Clock, base: Tick)
    requires RowsOk(rows, c.timers, base) && rows[|rows| - 1] == c.queue && Since(c) == c.now
    requires forall x <- c.queue :: Ahead(c.timers, base, c.now, x)
    ensures RowsOk(rows, c.timers, Since(c))
  {
    forall x <- c.queue ensures x in c.timers && Sub(c.now, base) <= Sub(c.timers[x].timeoutTick, base) {
      assert Ahead(c.timers, base, c.now, x);
    }
    LaterAgrees(c.queue, c.timers, base, c.now);
    Rebase(rows, c.timers, base, c.now);
  }

  /** The lowest row of a started timer, in the terms of the runs. */
  lemma StartedRow(c: Clock, rows: seq<seq<nat>>, t: nat, height: nat, rows': seq<seq<nat>>, timers: map<nat, Timer>)
    requires Inv(c) && Legal(c, Start(t)) && |rows| > 0 && rows[|rows| - 1] == c.queue && height >= 1
    requires timers == c.timers[t := Armed(c.timers[t], c.now)]
    requires Started(rows, RelKeys(timers, StartBase(c, t)), t, height, rows')
    ensures Clock(c.now, timers, rows'[|rows| - 1]) == Apply(c, Start(t))
  {
    StartKeeps(c, t);
  }

  /** A legal start finds room in the window of the other timers. */
  lemma CanStart(c: Clock, t: nat)
    requires Inv(c) && Legal(c, Start(t))
    ensures Insertable(c.timers, StartBase(c, t), t, Add(c.now, c.timers[t].initTick))
    ensures forall x <- c.queue, y <- c.queue :: x != t && y != t ==> Agree(c.timers, Since(c), StartBase(c, t), x, y)
  {
    var idle := c.timers[t].(activated := false);
    var mid := Clock(c.now, c.timers[t := idle], Without(c.queue, t));
    Stopped(c, t, idle);
    WithoutElems(c.queue, t);
    OneRow(c.queue, c.timers, Since(c));
    forall x <- mid.queue
      ensures x in c.timers && Sub(c.timers[x].timeoutTick, Since(c)) <= HALF
      ensures Sub(c.timers[x].timeoutTick, StartBase(c, t)) < HALF
    {
      assert Pending(c, Since(c), x) && Pending(mid, StartBase(c, t), x);
    }
    WindowsAgree(mid.queue, c.timers, Since(c), StartBase(c, t));
    forall x <- c.queue, y <- c.queue | x != t && y != t
      ensures Agree(c.timers, Since(c), StartBase(c, t), x, y)
    {
      assert x in mid.queue && y in mid.queue;
    }
  }

  method StartTimer(sys: TimerSystem, t: nat)
    requires Ready(sys) && Legal(View(sys), Start(t))
    modifies sys, sys.rows
    ensures Ready(sys) && View(sys) == Apply(old(View(sys)), Start(t))
  {
    hide RowsOk, Apply, Started, ExtraLevels, RelKeys, Insertable, Since, StartBase, Windowed;
    ghost var c, before := View(sys), sys.rows[..];
    CanStart(c, t);
    StepWindow(c, Start(t));
    sys.Start(t, Since(c), StartBase(c, t));
    StartedRow(c, before, t, 1 + ExtraLevels(sys.randomNr, sys.levels - 1), sys.rows[..], sys.timers);
    Settle(sys.rows[..], View(sys), StartBase(c, t));
  }

  method StopTimer(sys: TimerSystem, t: nat)
    requires Ready(sys) && Legal(View(sys), Stop(t))
    modifies sys, sys.rows
    ensures Ready(sys) && View(sys) == Apply(old(View(sys)), Stop(t))
  {
    hide RowsOk, Since, Windowed;
    ghost var c := View(sys);
    StepWindow(c, Stop(t));
    var ok := sys.Stop(t, Since(c));
    Settle(sys.rows[..], View(sys), Since(c));
  }

  /** rt_timer_check. */
  method CheckTimers(sys: TimerSystem) returns (fired: seq<nat>)
    requires Ready(sys) && InTime(View(sys))
    modifies sys, sys.rows
    ensures Ready(sys) && View(sys) == Checked(old(View(sys))) && fired == FiredNow(old(View(sys)))
  {
    hide RowsOk, Windowed, Since, AfterFiring, PlaceAll, Checked, Periodic, RelKeys, FiredNow, Ahead;
    ghost var c, base := View(sys), Since(View(sys));
    ghost var n := DueCount(c.queue, c.timers, c.now);
    CanCheck(c);
    CheckKeeps(c);
    fired := sys.Check(base);
    CheckQueue(c, base, n, sys.timers, sys.Queue());
    SettleAhead(sys.rows[..], View(sys), base);
  }

  lemma CanCheck(c: Clock)
    requires Inv(c) && InTime(c)
    ensures Windowed(c, Since(c)) && Catches(c.queue, c.timers, c.now)
    ensures forall x <- c.queue :: Reaches(c.timers, Since(c), c.now, x)
    ensures forall x <- c.queue :: x in c.timers && (Due(c.timers[x], c.now) ==> Repeats(c.timers[x]))
    ensures var n, base := DueCount(c.queue, c.timers, c.now), Since(c); var fired := c.queue[..n];
      var timers := AfterFiring(c.timers, fired, c.now);
      FiredNow(c) == fired
      && Checked(c) == Clock(c.now, timers, PlaceAll(c.queue[n..], RelKeys(timers, base), Periodic(fired, c.timers)))
  {
    CheckReady(c, Since(c));
    LoopIs(c, Since(c), DueCount(c.queue, c.timers, c.now));
    forall x <- c.queue ensures x in c.timers && Repeats(c.timers[x]) { assert Pending(c, Since(c), x); }
  }

  /** The clock ticks and the timers are checked, as in rt_tick_increase. */
  method TickAndCheck(sys: TimerSystem) returns (fired: seq<nat>)
    requires Ready(sys) && Legal(View(sys), TickOn)
    modifies sys, sys.rows
    ensures Ready(sys) && View(sys) == Apply(old(View(sys)), TickOn)
    ensures fired == FiredBy(old(View(sys)), TickOn)
  {
    hide RowsOk, Windowed, Since, InTime, Checked, FiredNow;
    ghost var c := View(sys);
    TickKeeps(c);
    MovedClock(sys.rows[..], c, NextTick(c).now);
    sys.tick := Add(sys.tick, 1);
    fired := CheckTimers(sys);
  }

  lemma MovedClock(rows: seq<seq<nat>>, c: Clock, to: Tick)
    requires RowsOk(rows, c.timers, Since(c)) && rows[|rows| - 1] == c.queue && Inv(c) && Inv(c.(now := to))
    ensures RowsOk(rows, c.timers, Since(c.(now := to)))
  {
    var c' := c.(now := to);
    forall x <- c.queue ensures x in c.timers && Sub(c.timers[x].timeoutTick, Since(c')) < HALF {
      assert Pending(c', Since(c'), x);
    }
    forall x <- c.queue ensures Sub(c.timers[x].timeoutTick, Since(c)) <= HALF { assert Pending(c, Since(c), x); }
    WindowsAgree(c.queue, c.timers, Since(c), Since(c'));
    Rebase(rows, c.timers, Since(c), Since(c'));
  }

  /** Every operation on the skip list is a step of a run. */
  method Perform(sys: TimerSystem, op: Op) returns (fired: seq<nat>)
    requires Ready(sys) && Legal(View(sys), op)
    modifies sys, sys.rows
    ensures Ready(sys) && View(sys) == Apply(old(View(sys)), op)
    ensures fired == FiredBy(old(View(sys)), op)
  {
    hide RowsOk, Windowed, Since, InTime, Checked, FiredNow, StartBase;
    ghost var c := View(sys);
    StepWindow(c, op);
    fired := [];
    match op
    case Create(t, time, periodic) =>
      sys.Init(t, time, periodic, Since(c));
      Settle(sys.rows[..], View(sys), Since(c));
    case SetTime(t, time) =>
      sys.SetTime(t, time, Since(c));
      Settle(sys.rows[..], View(sys), Since(c));
    case SetPeriodic(t, on) =>
      sys.SetPeriodic(t, on, Since(c));
      Settle(sys.rows[..], View(sys), Since(c));
    case Start(t) => StartTimer(sys, t);
    case Stop(t) => StopTimer(sys, t);
    case TickOn => fired := TickAndCheck(sys);
    case SetClock(to) =>
      MovedClock(sys.rows[..], c, to);
      sys.tick := to;
    case CheckNow => fired := CheckTimers(sys);
  }

  /** Any sequence of operations makes the run and fires what the run fires. */
  method PerformAll(sys: TimerSystem, ops: seq<Op>) returns (log: seq<nat>)
    requires Ready(sys) && LegalRun(View(sys), ops)
    modifies sys, sys.rows
    ensures Ready(sys) && View(sys) == Run(old(View(sys)), ops)
    ensures log == FiredIn(old(View(sys)), ops)
  {
    log := [];
    var i := 0;
    while i < |ops|
      invariant i <= |ops| && Ready(sys) && LegalRun(View(sys), ops[i..])
      invariant Run(View(sys), ops[i..]) == Run(old(View(sys)), ops)
      invariant log + FiredIn(View(sys), ops[i..]) == FiredIn(old(View(sys)), ops)
    {
      assert ops[i..][1..] == ops[i + 1..];
      ghost var c := View(sys);
      var fired := Perform(sys, ops[i]);
      LogStep(log, fired, c, ops[i..]);
      log := log + fired;
      i := i + 1;
    }
  }

  lemma LogStep(log: seq<nat>, fired: seq<nat>, c: Clock, ops: seq<Op>)
    requires ops != [] && fired == FiredBy(c, ops[0])
    ensures log + FiredIn(c, ops) == log + fired + FiredIn(Apply(c, ops[0]), ops[1..])
  {
    hide FiredBy, Apply;
  }
}
