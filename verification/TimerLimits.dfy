/** Where timers go wrong, in states that are reached: a check that never ends, clocks that are set so
    that a due timer is not fired, and a check that comes too late.
 */
module TimerLimits {
  import opened Queues
  import opened Timers
  import opened TimerRuns
  import opened TimerChecks

  /** One timer of period 0, armed one tick ago: the check goes on for ever. */
  lemma SpinningState()
    ensures var c := Clock(1, map[1 := Timer(0, 0, true, true)], [1]);
      Lined(c, 0) && InTime(c) && Spins(c, 1) && forall k: nat :: Goes(Rounds(c, k))
  {
    var c := Clock(1, map[1 := Timer(0, 0, true, true)], [1]);
    OneRow(c.queue, c.timers, 0);
    assert InTime(c);
    forall k: nat ensures Goes(Rounds(c, k)) { SpinsForever(c, 0, 1, k); }
  }

  // ---- setting the clock --------------------------------------------------------------------

  /** A reading that Legal refuses leaves a due timer unfired, or puts a pending one so far ahead that
      it is out of order with what is started next. */
  lemma SetClockRefused(c: Clock, to: Tick)
    requires Inv(c) && !Legal(c, SetClock(to))
    ensures FiredNow(c.(now := to)) == []
    ensures exists x <- c.queue :: x in c.timers
              && (Due(c.timers[x], to) || HALF <= Sub(c.timers[x].timeoutTick, to) <= HALF + 2)
  {
    forall x <- c.queue ensures x in c.timers { assert Pending(c, Since(c), x); }
    assert !Goes(c.(now := to));
  }

  /** With nothing overdue the clock may be set ahead by anything less than half the range, as after a
      sleep, and the check that follows is in order when the periodic timers have room. */
  lemma SleepLegal(c: Clock, ticks: Tick)
    requires Inv(c) && Since(c) == c.now && ticks < HALF
    requires forall x <- c.queue :: x in c.timers && c.timers[x].periodic ==> ticks + c.timers[x].initTick <= HALF + 2
    ensures var to := Add(c.now, ticks);
      Legal(c, SetClock(to)) && Inv(c.(now := to)) && Legal(c.(now := to), CheckNow)
  {
    var to := Add(c.now, ticks);
    OneRow(c.queue, c.timers, c.now);
    forall x <- c.queue ensures x in c.timers && Pending(c, c.now, x) {}
    if c.queue != [] {
      var h := c.timers[c.queue[0]];
      assert c.queue[0] in c.queue;
      DueByKey(h, to, c.now);
      TailSorted(c.queue, RelKeys(c.timers, c.now));
      if Due(h, to) {
        Moved(to, c.now, h.timeoutTick);
      } else {
        forall x <- c.queue ensures Sub(c.timers[x].timeoutTick, to) < HALF {
          Moved(c.timers[x].timeoutTick, c.now, to);
        }
      }
    }
    SetClockKeeps(c, to);
    SleepInTime(c, ticks);
  }

  lemma SleepInTime(c: Clock, ticks: Tick)
    requires Inv(c) && Since(c) == c.now && ticks < HALF
    requires forall x <- c.queue :: x in c.timers && c.timers[x].periodic ==> ticks + c.timers[x].initTick <= HALF + 2
    ensures InTime(c.(now := Add(c.now, ticks)))
  {
    var to := Add(c.now, ticks);
    forall x <- c.queue
      ensures x in c.timers && (Due(c.timers[x], to) ==> Sub(to, c.timers[x].timeoutTick) <= ticks)
    {
      assert Pending(c, c.now, x);
    }
    LittleLate(c.(now := to), ticks);
  }

  // ---- without the window -------------------------------------------------------------------

  /** Three one-shot timers of 16 ticks, started at clock readings a third of the range apart,
      between which the clock is set and does not tick. */
  const LOST_RUN: seq<Op> := [
    Create(1, 16, false), Create(2, 16, false), Create(3, 16, false),
    Start(1), SetClock(0x5555_5555), Start(2), SetClock(0xaaaa_aaaa), Start(3)]

  function Lost(): Clock {
    Run(START, LOST_RUN)
  }

  function Shot(expiry: Tick, activated: bool): Timer {
    Timer(16, expiry, false, activated)
  }

  const LOST_TIMERS := map[1 := Shot(0x10, true), 2 := Shot(0x5555_5565, true), 3 := Shot(0xaaaa_aaba, true)]

  lemma RunFrom(c: Clock, ops: seq<Op>, i: nat)
    requires i < |ops|
    ensures Run(c, ops[i..]) == Run(Apply(c, ops[i]), ops[i + 1..])
  {
    assert ops[i..][1..] == ops[i + 1..];
  }

  const IDLE := map[1 := Shot(0, false), 2 := Shot(0, false), 3 := Shot(0, false)]
  const ONE := IDLE[1 := Shot(0x10, true)]
  const TWO := ONE[2 := Shot(0x5555_5565, true)]

  lemma CreatedThree()
    ensures Apply(Apply(Apply(START, Create(1, 16, false)), Create(2, 16, false)), Create(3, 16, false))
              == Clock(0, IDLE, [])
  {}

  lemma StartedEach()
    ensures Apply(Clock(0, IDLE, []), Start(1)) == Clock(0, ONE, [1])
    ensures Apply(Clock(0x5555_5555, ONE, [1]), Start(2)) == Clock(0x5555_5555, TWO, [1, 2])
    ensures Apply(Clock(0xaaaa_aaaa, TWO, [1, 2]), Start(3)) == Clock(0xaaaa_aaaa, LOST_TIMERS, [3, 1, 2])
  {
    assert [1][1..] == [] && Insert([1], TWO, 2) == [1] + Insert([], TWO, 2);
    assert TWO[3 := Shot(0xaaaa_aaba, true)] == LOST_TIMERS;
  }

  /** Where the run leads, step by step. */
  lemma LostIs()
    ensures Lost() == Clock(0xaaaa_aaaa, LOST_TIMERS, [3, 1, 2])
  {
    var ops := LOST_RUN;
    CreatedThree();
    StartedEach();
    var c1 := Apply(START, ops[0]);
    var c2 := Apply(c1, ops[1]);
    hide Apply, Run;
    assert ops[0..] == ops;
    RunFrom(START, ops, 0);
    RunFrom(c1, ops, 1);
    RunFrom(c2, ops, 2);
    RunFrom(Clock(0, IDLE, []), ops, 3);
    RunFrom(Clock(0, ONE, [1]), ops, 4);
    SetIs(Clock(0, ONE, [1]), 0x5555_5555);
    RunFrom(Clock(0x5555_5555, ONE, [1]), ops, 5);
    RunFrom(Clock(0x5555_5555, TWO, [1, 2]), ops, 6);
    SetIs(Clock(0x5555_5555, TWO, [1, 2]), 0xaaaa_aaaa);
    RunFrom(Clock(0xaaaa_aaaa, TWO, [1, 2]), ops, 7);
    NothingLeft(Clock(0xaaaa_aaaa, LOST_TIMERS, [3, 1, 2]));
    assert ops[8..] == [];
  }

  lemma SetIs(c: Clock, to: Tick)
    ensures Apply(c, SetClock(to)) == c.(now := to)
  {}

  lemma NothingLeft(c: Clock)
    ensures Run(c, []) == c
  {}

  /** The window is lost: no base puts the queue in order, the three expiries each come after the
      next, and the next tick fires nothing although timer 2 is long due. */
  lemma WindowLost()
    ensures forall base: Tick :: !Windowed(Lost(), base)
    ensures !TransitiveOn({0x10, 0x5555_5565, 0xaaaa_aaba})
    ensures var c := NextTick(Lost()); 2 in c.timers && 2 in c.queue && Due(c.timers[2], c.now) && FiredNow(c) == []
  {
    LostIs();
    forall base: Tick ensures !Windowed(Lost(), base) { NoBase(base); }
    var a: Tick, b: Tick, c: Tick := 0x10, 0x5555_5565, 0xaaaa_aaba;
    assert NotLater(a, b) && NotLater(b, c) && !NotLater(a, c);
    var next := NextTick(Lost());
    assert next.queue[0] == 3 && next.queue[2] == 2;
    assert !Due(next.timers[3], next.now);
  }

  /** No window covers the three expiries. */
  lemma NoBase(base: Tick)
    ensures !Windowed(Clock(0xaaaa_aaaa, LOST_TIMERS, [3, 1, 2]), base)
  {
    var c := Clock(0xaaaa_aaaa, LOST_TIMERS, [3, 1, 2]);
    assert c.queue[0] in c.queue && c.queue[1] in c.queue && c.queue[2] in c.queue;
    assert !(Pending(c, base, 1) && Pending(c, base, 2) && Pending(c, base, 3));
  }

  // ---- a check too late ---------------------------------------------------------------------

  /** A periodic timer of 0x5000_0000 ticks and a one-shot one of 5, which expire one tick apart. */
  const LATE_RUN: seq<Op> := [
    Create(1, 0x5000_0000, true), Create(2, 5, false), SetClock(0xb000_0000), Start(1), SetClock(0xffff_fffc), Start(2)]

  const RESTING := map[1 := Timer(0x5000_0000, 0, true, false), 2 := Timer(5, 0, false, false)]
  const FIRST := RESTING[1 := Timer(0x5000_0000, 0, true, true)]
  const BOTH := FIRST[2 := Timer(5, 1, false, true)]
  const LATE := Clock(0xffff_fffc, BOTH, [1, 2])

  /** The run leads from c to d. */
  predicate Leads(c: Clock, ops: seq<Op>, d: Clock) {
    LegalRun(c, ops) && Run(c, ops) == d
  }

  lemma LeadsOn(c: Clock, op: Op, mid: Clock, ops: seq<Op>, d: Clock)
    requires Legal(c, op) && Apply(c, op) == mid && Leads(mid, ops, d)
    ensures Leads(c, [op] + ops, d)
  {
    assert ([op] + ops)[1..] == ops;
  }

  lemma LateCreates()
    ensures var c := Clock(0, map[1 := Timer(0x5000_0000, 0, true, false)], []);
      && Legal(START, Create(1, 0x5000_0000, true)) && Apply(START, Create(1, 0x5000_0000, true)) == c
      && Legal(c, Create(2, 5, false)) && Apply(c, Create(2, 5, false)) == Clock(0, RESTING, [])
  {}

  lemma LateStarts()
    ensures var c := Clock(0xb000_0000, RESTING, []);
      && Legal(c.(now := 0), SetClock(0xb000_0000)) && Apply(c.(now := 0), SetClock(0xb000_0000)) == c
      && Legal(c, Start(1)) && Apply(c, Start(1)) == Clock(0xb000_0000, FIRST, [1])
    ensures var c := Clock(0xffff_fffc, FIRST, [1]);
      && Legal(c.(now := 0xb000_0000), SetClock(0xffff_fffc))
      && Apply(c.(now := 0xb000_0000), SetClock(0xffff_fffc)) == c
      && Legal(c, Start(2)) && Apply(c, Start(2)) == LATE
  {
    assert [1][1..] == [] && Insert([1], BOTH, 2) == [1] + Insert([], BOTH, 2);
    assert RESTING[1 := Armed(RESTING[1], 0xb000_0000)] == FIRST;
    assert FIRST[2 := Armed(FIRST[2], 0xffff_fffc)] == BOTH;
  }

  lemma LateReached()
    ensures Leads(START, LATE_RUN, LATE)
  {
    var c1, c2 := Clock(0, map[1 := Timer(0x5000_0000, 0, true, false)], []), Clock(0, RESTING, []);
    var c3, c4 := Clock(0xb000_0000, RESTING, []), Clock(0xb000_0000, FIRST, [1]);
    var c5 := Clock(0xffff_fffc, FIRST, [1]);
    var r6: seq<Op> := [Start(2)] + [];
    var r5 := [SetClock(0xffff_fffc)] + r6;
    var r4 := [Start(1)] + r5;
    var r3 := [SetClock(0xb000_0000)] + r4;
    var r2 := [Create(2, 5, false)] + r3;
    assert LATE_RUN == [Create(1, 0x5000_0000, true)] + r2;
    assert Leads(LATE, [], LATE);
    hide Legal, Apply, Leads;
    LateCreates();
    LateStarts();
    LeadsOn(c5, Start(2), LATE, [], LATE);
    LeadsOn(c4, SetClock(0xffff_fffc), c5, r6, LATE);
    LeadsOn(c3, Start(1), c4, r5, LATE);
    LeadsOn(c2, SetClock(0xb000_0000), c3, r4, LATE);
    LeadsOn(c1, Create(2, 5, false), c2, r3, LATE);
    LeadsOn(START, Create(1, 0x5000_0000, true), c1, r2, LATE);
  }

  /** In a state that is reached the clock is set so far ahead, though by less than half the range, that
      timer 1 goes in front of timer 2 when it is armed again: the check ends after it and leaves 2, which is
      long due, unfired, and the queue out of order. */
  lemma LateCheck()
    ensures Leads(START, LATE_RUN, LATE) && Inv(LATE) && Legal(LATE, SetClock(0x4000_0000))
    ensures var c := Apply(LATE, SetClock(0x4000_0000));
      && Inv(c) && Goes(c) && !InTime(c) && FiredNow(c) == [1] && Checked(c) == Rounds(c, 1) && !Inv(Checked(c))
      && Checked(c).queue == [1, 2] && 2 in Checked(c).timers && Due(Checked(c).timers[2], Checked(c).now)
  {
    LateReached();
    OneRow([], map[], 0);
    EveryRun(START, LATE_RUN);
    var c := Apply(LATE, SetClock(0x4000_0000));
    SetClockKeeps(LATE, 0x4000_0000);
    assert !Clears(c.queue, c.timers, c.now, 0);
    CheckExact(c);
    var timers := c.timers[1 := Fired(c.timers[1], c.now)];
    assert c.queue[1..] == [2] && Later(timers, 2, 1);
    RoundsOver(c, 1, 2);
  }
}
