/** What programming a timer does: how often it fires afterwards, and that a stopped one does not. */
module TimerLaws {
  import opened Queues
  import opened Timers
  import opened TimerRuns
  import opened TimerFirings

  // ---- silence ------------------------------------------------------------------------------

  lemma {:induction false} InsertOnly(s: seq<nat>, timers: map<nat, Timer>, t: nat)
    ensures forall x :: x in Insert(s, timers, t) <==> x in s || x == t
    decreases |s|
  {
    if s != [] && !Later(timers, s[0], t) {
      InsertOnly(s[1..], timers, t);
      assert s == [s[0]] + s[1..];
    }
  }

  /** A check queues nobody who was not queued, and fires nobody else. */
  lemma {:induction false} RoundsOnly(c: Clock, k: nat)
    ensures forall x <- Rounds(c, k).queue :: x in c.queue
    ensures forall x <- Shots(c, k) :: x in c.queue
    decreases k
  {
    if k > 0 && Goes(c) {
      var t := c.queue[0];
      InsertOnly(c.queue[1..], c.timers[t := Fired(c.timers[t], c.now)], t);
      RoundsOnly(Round(c), k - 1);
      assert c.queue == [t] + c.queue[1..];
    }
  }

  /** A timer that is not queued is neither fired nor queued by anything but its start. */
  lemma SilentStep(c: Clock, op: Op, t: nat)
    requires t !in c.queue && op != Start(t)
    ensures t !in FiredBy(c, op) && t !in Apply(c, op).queue
  {
    match op
    case TickOn => RoundsOnly(NextTick(c), |c.queue|);
    case CheckNow => RoundsOnly(c, |c.queue|);
    case Stop(u) => WithoutElems(c.queue, u);
    case Start(u) =>
      if u in c.timers {
        WithoutElems(c.queue, u);
        InsertOnly(Without(c.queue, u), c.timers[u := Armed(c.timers[u], c.now)], u);
      }
    case _ =>
  }

  lemma {:induction false} Silent(c: Clock, ops: seq<Op>, t: nat)
    requires t !in c.queue && Start(t) !in ops
    ensures t !in FiredIn(c, ops) && t !in Run(c, ops).queue
    decreases |ops|
  {
    if ops != [] {
      assert ops[0] in ops && Start(t) !in ops[1..];
      SilentStep(c, ops[0], t);
      Silent(Apply(c, ops[0]), ops[1..], t);
    }
  }

  /** A stopped timer does not fire before it is started again, whatever else happens. */
  lemma StoppedStaysSilent(c: Clock, t: nat, ops: seq<Op>)
    requires t in c.timers && Start(t) !in ops
    ensures t !in FiredIn(Apply(c, Stop(t)), ops) && t !in Run(Apply(c, Stop(t)), ops).queue
  {
    WithoutElems(c.queue, t);
    Silent(Apply(c, Stop(t)), ops, t);
  }

  // ---- a one-shot timer ---------------------------------------------------------------------

  /** A pending one-shot timer that is left alone fires once, when its wait is over. */
  lemma {:induction false} OneShotFires(c: Clock, ops: seq<Op>, t: nat)
    requires Inv(c) && LegalRun(c, ops) && t in c.queue && t in c.timers && !c.timers[t].periodic
    requires forall op <- ops :: LeavesPeriod(op, t)
    ensures multiset(FiredIn(c, ops))[t] == if Ticks(ops) >= Wait(c, t) then 1 else 0
    decreases |ops|
  {
    if ops != [] {
      var op, rest := ops[0], ops[1..];
      assert op in ops;
      StepWaits(c, op, t);
      PeriodKept(c, op, t);
      FiredDistinct(c, op);
      CountOnce(FiredBy(c, op), t);
      StepKeeps(c, op);
      if op.TickOn? && Wait(c, t) == 1 {
        OneShotGone(c, t);
        assert !LeavesPeriod(Start(t), t) && forall o <- rest :: o in ops;
        Silent(Apply(c, op), rest, t);
      } else {
        OneShotFires(Apply(c, op), rest, t);
      }
      hide Inv, Legal, Apply, FiredBy;
    }
  }

  // ---- programming --------------------------------------------------------------------------

  /** The wait of a timer that was started for n ticks. */
  function FirstWait(n: nat): (w: nat)
    ensures w > 0
  {
    if n == 0 then 1 else n
  }

  lemma StartedWaits(c: Clock, t: nat)
    requires Inv(c) && Legal(c, Start(t))
    ensures var c' := Apply(c, Start(t));
      && Inv(c') && t in c'.queue && t in c'.timers && Wait(c', t) == FirstWait(c.timers[t].initTick)
      && c'.timers[t].periodic == c.timers[t].periodic && c'.timers[t].initTick == c.timers[t].initTick
  {
    StartKeeps(c, t);
    StepKeeps(c, Start(t));
    PlaceElems(Without(c.queue, t), RelKeys(c.timers[t := Armed(c.timers[t], c.now)], StartBase(c, t)), t);
    ArmedKey(c.now, c.timers[t].initTick);
  }

  /** The firings of a timer of n ticks in a run of so many. */
  function Expected(ticks: nat, n: nat, periodic: bool): nat
    requires periodic ==> n > 0
  {
    if periodic then Firings(ticks, n, n) else if ticks >= FirstWait(n) then 1 else 0
  }

  /** A timer that is started and then left alone fires once after its time or, if it is periodic, after every
      multiple of it. */
  lemma StartedFires(c: Clock, t: nat, ops: seq<Op>)
    requires Inv(c) && Legal(c, Start(t)) && LegalRun(Apply(c, Start(t)), ops)
    requires forall op <- ops :: LeavesPeriod(op, t)
    ensures t in c.timers && (c.timers[t].periodic ==> c.timers[t].initTick > 0)
    ensures multiset(FiredIn(Apply(c, Start(t)), ops))[t]
              == Expected(Ticks(ops), c.timers[t].initTick, c.timers[t].periodic)
  {
    StartedWaits(c, t);
    if c.timers[t].periodic {
      PeriodicFires(Apply(c, Start(t)), ops, t);
    } else {
      OneShotFires(Apply(c, Start(t)), ops, t);
    }
  }

  /** So it is the time and the kind that were set last which count: those a timer was made with, or those it was
      given by rt_timer_control. */
  lemma ProgrammedFires(c: Clock, t: nat, n: Tick, periodic: bool, first: seq<Op>, ops: seq<Op>)
    requires first == [Create(t, n, periodic)] || first == [SetTime(t, n), SetPeriodic(t, periodic)]
             || first == [SetPeriodic(t, periodic), SetTime(t, n)]
    requires Inv(c) && LegalRun(c, first) && Legal(Run(c, first), Start(t))
    requires LegalRun(Apply(Run(c, first), Start(t)), ops) && forall op <- ops :: LeavesPeriod(op, t)
    ensures periodic ==> n > 0
    ensures multiset(FiredIn(Apply(Run(c, first), Start(t)), ops))[t] == Expected(Ticks(ops), n, periodic)
  {
    EveryRun(c, first);
    Programmed(c, t, n, periodic, first);
    StartedFires(Run(c, first), t, ops);
  }

  lemma Programmed(c: Clock, t: nat, n: Tick, periodic: bool, first: seq<Op>)
    requires first == [Create(t, n, periodic)] || first == [SetTime(t, n), SetPeriodic(t, periodic)]
             || first == [SetPeriodic(t, periodic), SetTime(t, n)]
    requires LegalRun(c, first)
    ensures var c' := Run(c, first); t in c'.timers && c'.timers[t].initTick == n && c'.timers[t].periodic == periodic
  {
    if |first| == 2 {
      var mid := Apply(c, first[0]);
      assert first[1..] == [first[1]] && first[1..][1..] == [];
      assert Run(c, first) == Apply(mid, first[1]) by { assert Run(mid, first[1..]) == Run(Apply(mid, first[1]), []); }
    } else {
      assert first[1..] == [];
    }
  }

  // ---- heights ------------------------------------------------------------------------------

  function Pow4(n: nat): (p: nat)
    ensures p > 0
  {
    if n == 0 then 1 else 4 * Pow4(n - 1)
  }

  /** A timer is linked into l rows above the lowest, as far as there are so many, for one start in 4^l: whenever
      the counter of starts is a multiple of that. */
  lemma {:induction false} Heights(r: nat, most: nat, l: nat)
    requires l <= most
    ensures ExtraLevels(r, most) >= l <==> r % Pow4(l) == 0
    decreases l
  {
    if l > 0 {
      Heights(r / 4, most - 1, l - 1);
      DividedTwice(r, Pow4(l - 1));
    }
  }

  lemma DividedTwice(r: nat, p: nat)
    requires p > 0
    ensures r % (4 * p) == 0 <==> r % 4 == 0 && (r / 4) % p == 0
  {
    if r % 4 == 0 && (r / 4) % p == 0 {
      var q := (r / 4) / p;
      assert r == 4 * (p * q) == (4 * p) * q;
      Multiple(r, 4 * p, q);
    }
    if r % (4 * p) == 0 {
      var q := r / (4 * p);
      assert r == (4 * p) * q == 4 * (p * q);
      Multiple(r, 4, p * q);
      Multiple(r / 4, p, q);
    }
  }

  lemma Multiple(x: nat, n: nat, q: nat)
    requires n > 0 && x == n * q
    ensures x % n == 0 && x / n == q
  {
    var d := x / n - q;
    assert n * d == -(x % n);
    Bounded(n, d);
  }

  lemma Bounded(n: int, d: int)
    requires n > 0
    ensures d >= 1 ==> n * d >= n
    ensures d <= -1 ==> n * d <= -n
  {}
}
