/** What the scheduler promises over whole runs. */
module SchedulerRuns {
  import opened Wrappers
  import opened Queues
  import opened Scheduling

  /** The state after rt_system_scheduler_init. */
  function Initial(): State {
    State(map[], seq(PRIORITIES, i => []), {}, None, 0)
  }

  /** Every operation of the run happens in a state in which the source allows it. */
  ghost predicate Legal(s: State, acts: seq<Action>)
    requires Inv(s)
    decreases |acts|
  {
    acts != [] ==> Enabled(s, acts[0]) && (StepKeeps(s, acts[0]); Legal(Step(s, acts[0]), acts[1..]))
  }

  ghost function Run(s: State, acts: seq<Action>): (r: State)
    requires Inv(s) && Legal(s, acts)
    ensures Inv(r)
    decreases |acts|
  {
    if acts == [] then s else (StepKeeps(s, acts[0]); Run(Step(s, acts[0]), acts[1..]))
  }

  lemma InitialInv()
    ensures Inv(Initial())
  {
    assert forall p: nat :: p < PRIORITIES ==> QueueOk(Initial(), p);
  }

  /** In every reachable state bit p is set exactly when queue p is not empty, and queue p holds
      exactly the ready threads of priority p, each once; at most the current thread is running. */
  lemma EveryRun(acts: seq<Action>, p: nat, t: nat)
    requires Inv(Initial()) && Legal(Initial(), acts) && p < PRIORITIES
    ensures var s := Run(Initial(), acts);
      && |s.queues| == PRIORITIES
      && (p in s.group <==> s.queues[p] != [])
      && (t in s.queues[p] <==> t in s.threads && s.threads[t].stat == Ready && s.threads[t].prio == p)
      && Distinct(s.queues[p])
      && (t in s.threads && s.threads[t].stat == Running ==> s.current == Some(t))
  {
    var s := Run(Initial(), acts);
    assert QueueOk(s, p);
    if t in s.threads { assert ThreadOk(s, t, s.threads[t]); }
  }

  // ---- one scheduling pass ------------------------------------------------------------------

  predicate Runnable(s: State, t: nat) {
    t in s.threads && (s.threads[t].stat == Ready || s.threads[t].stat == Running)
  }

  lemma ScheduleStates(s: State, t: nat)
    requires Inv(s) && s.current.Some? && s.lockNest == 0
    ensures var s' := Step(s, Reschedule);
      && (t in s'.threads <==> t in s.threads)
      && (t in s.threads ==> s'.threads[t].prio == s.threads[t].prio)
      && (Runnable(s', t) <==> Runnable(s, t))
  {
    InvHeads(s);
    if s.group != {} { var p, to := Candidate(s); }
  }

  /** A scheduling pass with the scheduler unlocked and a runnable thread at hand leaves exactly
      one thread running, no ready thread more urgent than it, and the same threads runnable. */
  lemma ScheduleSettles(s: State, t: nat)
    requires Inv(s) && s.current.Some? && s.lockNest == 0
    requires s.group != {} || s.threads[s.current.value].stat == Running
    ensures Inv(Step(s, Reschedule))
    ensures var s' := Step(s, Reschedule);
      && s'.current.Some? && s'.threads[s'.current.value].stat == Running
      && (t in s'.threads && s'.threads[t].stat == Running ==> t == s'.current.value)
      && (t in s'.threads && s'.threads[t].stat == Ready ==> s'.threads[s'.current.value].prio <= s'.threads[t].prio)
      && (Runnable(s', t) <==> Runnable(s, t))
  {
    StepKeeps(s, Reschedule);
    ScheduleStates(s, t);
    InvHeads(s);
    if t in s.threads { ReadyBit(s, t); }
    if s.group != {} { var p, to := Candidate(s); }
  }

  lemma ReadyBit(s: State, t: nat)
    requires Inv(s) && t in s.threads
    ensures s.threads[t].stat == Ready ==> s.threads[t].prio in s.group
  {
    assert ThreadOk(s, t, s.threads[t]);
    assert QueueOk(s, s.threads[t].prio);
  }

  /** An operation that ends in rt_schedule once the scheduler has been started. */
  ghost function ThenSchedule(s: State, a: Action): (r: State)
    requires Inv(s) && Enabled(s, a)
    ensures Inv(r)
  {
    StepKeeps(s, a);
    var mid := Step(s, a);
    if mid.current.Some? then (StepKeeps(mid, Reschedule); Step(mid, Reschedule)) else mid
  }

  /** rt_exit_critical. */
  ghost function LeaveNow(s: State): (r: State)
    requires Inv(s)
    ensures Inv(r)
  {
    StepKeeps(s, Exit);
    if Exited(s.lockNest) == 0 then ThenSchedule(s, Exit) else Step(s, Exit)
  }

  // ---- yielding -----------------------------------------------------------------------------

  /** rt_thread_yield. */
  ghost function YieldNow(s: State): (r: State)
    requires Inv(s) && s.current.Some?
    ensures Inv(r)
  {
    StepKeeps(s, Yield);
    StepKeeps(Step(s, Yield), Reschedule);
    Step(Step(s, Yield), Reschedule)
  }

  /** rt_tick_increase, without the timers. */
  ghost function TickNow(s: State): (r: State)
    requires Inv(s) && s.current.Some?
    ensures Inv(r)
  {
    StepKeeps(s, Tick);
    StepKeeps(Step(s, Tick), Reschedule);
    if Decrement(s.threads[s.current.value].remaining) == 0 then Step(Step(s, Tick), Reschedule) else Step(s, Tick)
  }

  /** The yield flag of a running thread that yields survives the pass exactly when the scheduler
      is locked or no other thread is ready. */
  lemma YieldFlag(s: State)
    requires Inv(s) && s.current.Some? && s.threads[s.current.value].stat == Running
    ensures var c := s.current.value;
      c in YieldNow(s).threads && (YieldNow(s).threads[c].yielded <==> s.lockNest != 0 || s.group == {})
  {
    var s1 := Step(s, Yield);
    StepKeeps(s, Yield);
    InvHeads(s1);
    if s1.group != {} { var p, to := Candidate(s1); }
  }

  /** So it does at the end of a time slice, which sets it too. */
  lemma SliceFlag(s: State)
    requires Inv(s) && s.current.Some? && s.threads[s.current.value].stat == Running
    requires Decrement(s.threads[s.current.value].remaining) == 0
    ensures var c := s.current.value;
      c in TickNow(s).threads && (TickNow(s).threads[c].yielded <==> s.lockNest != 0 || s.group == {})
  {
    var s1 := Step(s, Tick);
    StepKeeps(s, Tick);
    InvHeads(s1);
    if s1.group != {} { var p, to := Candidate(s1); }
  }

  /** A thread of the same priority that is resumed while nothing else is ready takes the processor
      exactly when the flag of the current thread is still set. */
  lemma StaleYield(s: State, t: nat)
    requires Inv(s) && s.current.Some? && s.lockNest == 0 && s.group == {}
    requires s.threads[s.current.value].stat == Running
    requires t in s.threads && s.threads[t].stat == Suspend && s.threads[t].prio == s.threads[s.current.value].prio
    ensures var c, s' := s.current.value, ThenSchedule(s, Resumption(t));
      s'.current == Some(if s.threads[c].yielded then t else c)
  {
    var c, q := s.current.value, s.threads[t].prio;
    var s1 := Step(s, Resumption(t));
    StepKeeps(s, Resumption(t));
    InvHeads(s1);
    assert ThreadOk(s, t, s.threads[t]) && QueueOk(s, q);
    assert s1.group == {q} && s1.queues[q] == [t];
    var p, to := Candidate(s1);
    assert p == q && to == t;
  }

  /** Threads 1 and 2 of priority 5 in the states given, one of them current or none. */
  function Pair(stat1: Stat, yielded: bool, second: map<nat, Tcb>, ready: seq<nat>, current: Option<nat>): State {
    State(map[1 := Tcb(5, 5, if stat1 == Init then {} else {5}, stat1, yielded, 10, 10)] + second,
          Initial().queues[5 := ready], if ready == [] then {} else {5}, current, 0)
  }

  function Second(stat: Stat): map<nat, Tcb> {
    map[2 := Tcb(5, 5, if stat == Init then {} else {5}, stat, false, 10, 10)]
  }

  const STALE_TAIL: seq<Action> :=
    [NewThread(2, 5, 10)] + ([Startup(2)] + ([Suspension(2)] + ([Yield] + ([Reschedule] + []))))
  const STALE_RUN: seq<Action> := [NewThread(1, 5, 10), Startup(1), Begin] + STALE_TAIL

  lemma StaleStart(s: State)
    requires Inv(s)
    ensures s == Initial() ==>
              Enabled(s, NewThread(1, 5, 10)) && Step(s, NewThread(1, 5, 10)) == Pair(Init, false, map[], [], None)
    ensures s == Pair(Init, false, map[], [], None) ==>
              Enabled(s, Startup(1)) && Step(s, Startup(1)) == Pair(Ready, false, map[], [1], None)
  {
    assert Initial().queues[5 := []] == Initial().queues;
    hide Inv;
    if s == Pair(Init, false, map[], [], None) {
      var s', r := Step(s, Startup(1)), Pair(Ready, false, map[], [1], None);
      assert s.queues[5] + [1] == [1] && s.queues[5 := [1]] == r.queues;
      assert s'.threads == r.threads && s'.queues == r.queues && s'.group == r.group;
    }
  }

  lemma StaleBegin(s: State)
    requires Inv(s) && s == Pair(Ready, false, map[], [1], None)
    ensures Enabled(s, Begin) && Step(s, Begin) == Pair(Running, false, map[], [], Some(1))
  {
    InvHeads(s);
    assert Lowest(s.group, 0) == 5;
    hide Inv;
  }

  lemma StaleSecond(s: State)
    requires Inv(s)
    ensures s == Pair(Running, false, map[], [], Some(1)) ==>
              Enabled(s, NewThread(2, 5, 10))
                  && Step(s, NewThread(2, 5, 10)) == Pair(Running, false, Second(Init), [], Some(1))
    ensures s == Pair(Running, false, Second(Init), [], Some(1)) ==>
              Enabled(s, Startup(2)) && Step(s, Startup(2)) == Pair(Running, false, Second(Ready), [2], Some(1))
  {
    hide Inv;
    if s == Pair(Running, false, Second(Init), [], Some(1)) {
      var s', r := Step(s, Startup(2)), Pair(Running, false, Second(Ready), [2], Some(1));
      assert s.queues[5] + [2] == [2] && s.queues[5 := [2]] == r.queues;
      assert s'.threads == r.threads && s'.queues == r.queues && s'.group == r.group;
    }
  }

  lemma StaleWait(s: State)
    requires Inv(s)
    ensures s == Pair(Running, false, Second(Ready), [2], Some(1)) ==>
              Enabled(s, Suspension(2)) && Step(s, Suspension(2)) == Pair(Running, false, Second(Suspend), [], Some(1))
    ensures s == Pair(Running, false, Second(Suspend), [], Some(1)) ==>
              Enabled(s, Yield) && Step(s, Yield) == Pair(Running, true, Second(Suspend), [], Some(1))
    ensures s == Pair(Running, true, Second(Suspend), [], Some(1)) ==>
              Enabled(s, Reschedule) && Step(s, Reschedule) == s
  {
    hide Inv;
  }

  /** The run leads from s to s'. */
  ghost predicate Leads(s: State, acts: seq<Action>, s': State) {
    Inv(s) && Legal(s, acts) && Run(s, acts) == s'
  }

  lemma LeadsOn(s: State, a: Action, mid: State, acts: seq<Action>, s': State)
    requires Inv(s) && Enabled(s, a) && Step(s, a) == mid && Leads(mid, acts, s')
    ensures Leads(s, [a] + acts, s')
  {
    assert ([a] + acts)[1..] == acts;
  }

  /** Thread 1 is alone and starts thread 2, which waits; then 1 yields. */
  lemma StaleTail()
    ensures Leads(Pair(Running, false, map[], [], Some(1)), STALE_TAIL,
              Pair(Running, true, Second(Suspend), [], Some(1)))
  {
    var s3, s4 := Pair(Running, false, map[], [], Some(1)), Pair(Running, false, Second(Init), [], Some(1));
    var s5, s6 := Pair(Running, false, Second(Ready), [2], Some(1)), Pair(Running, false, Second(Suspend), [], Some(1));
    var s7 := Pair(Running, true, Second(Suspend), [], Some(1));
    assert Inv(s7) ==> Leads(s7, [], s7);
    hide *;
    StaleStates();
    StaleSecond(s3);
    StaleSecond(s4);
    StaleWait(s5);
    StaleWait(s6);
    StaleWait(s7);
    LeadsOn(s7, Reschedule, s7, [], s7);
    LeadsOn(s6, Yield, s7, [Reschedule] + [], s7);
    LeadsOn(s5, Suspension(2), s6, [Yield] + ([Reschedule] + []), s7);
    LeadsOn(s4, Startup(2), s5, [Suspension(2)] + ([Yield] + ([Reschedule] + [])), s7);
    LeadsOn(s3, NewThread(2, 5, 10), s4, [Startup(2)] + ([Suspension(2)] + ([Yield] + ([Reschedule] + []))), s7);
  }

  lemma StaleRun()
    ensures Leads(Initial(), STALE_RUN, Pair(Running, true, Second(Suspend), [], Some(1)))
  {
    var s0, s1, s2 := Initial(), Pair(Init, false, map[], [], None), Pair(Ready, false, map[], [1], None);
    var s3, s7 := Pair(Running, false, map[], [], Some(1)), Pair(Running, true, Second(Suspend), [], Some(1));
    assert STALE_RUN == [NewThread(1, 5, 10)] + ([Startup(1)] + ([Begin] + STALE_TAIL));
    hide *;
    InitialInv();
    StaleTail();
    StaleStates();
    StaleStart(s0);
    StaleStart(s1);
    StaleBegin(s2);
    LeadsOn(s2, Begin, s3, STALE_TAIL, s7);
    LeadsOn(s1, Startup(1), s2, [Begin] + STALE_TAIL, s7);
    LeadsOn(s0, NewThread(1, 5, 10), s1, [Startup(1)] + ([Begin] + STALE_TAIL), s7);
  }

  /** A reachable state: thread 1 has yielded with nothing else ready and keeps the flag, so that thread 2
      takes the processor from it as soon as it is resumed, although 1 has not yielded again. */
  lemma StaleYieldReached()
    ensures exists s ::
      Leads(Initial(), STALE_RUN, s) && s.current == Some(1) && Enabled(s, Resumption(2))
      && s.threads[2].prio == s.threads[1].prio && ThenSchedule(s, Resumption(2)).current == Some(2)
  {
    var s := Pair(Running, true, Second(Suspend), [], Some(1));
    StaleRun();
    StaleStates();
    StaleYield7(s);
  }

  lemma StaleStates()
    ensures Inv(Pair(Init, false, map[], [], None)) && Inv(Pair(Ready, false, map[], [1], None))
    ensures Inv(Pair(Running, false, map[], [], Some(1))) && Inv(Pair(Running, false, Second(Init), [], Some(1)))
    ensures Inv(Pair(Running, false, Second(Ready), [2], Some(1)))
    ensures Inv(Pair(Running, false, Second(Suspend), [], Some(1)))
    ensures Inv(Pair(Running, true, Second(Suspend), [], Some(1)))
  {
    InitialInv();
    hide *;
    var s0, s1, s2 := Initial(), Pair(Init, false, map[], [], None), Pair(Ready, false, map[], [1], None);
    var s3, s4 := Pair(Running, false, map[], [], Some(1)), Pair(Running, false, Second(Init), [], Some(1));
    var s5, s6 := Pair(Running, false, Second(Ready), [2], Some(1)), Pair(Running, false, Second(Suspend), [], Some(1));
    StaleStart(s0);
    StepKeeps(s0, NewThread(1, 5, 10));
    StaleStart(s1);
    StepKeeps(s1, Startup(1));
    StaleBegin(s2);
    StepKeeps(s2, Begin);
    StaleSecond(s3);
    StepKeeps(s3, NewThread(2, 5, 10));
    StaleSecond(s4);
    StepKeeps(s4, Startup(2));
    StaleWait(s5);
    StepKeeps(s5, Suspension(2));
    StaleWait(s6);
    StepKeeps(s6, Yield);
  }

  lemma StaleYield7(s: State)
    requires s == Pair(Running, true, Second(Suspend), [], Some(1))
    ensures Inv(s) ==> Enabled(s, Resumption(2)) && ThenSchedule(s, Resumption(2)).current == Some(2)
  {
    if Inv(s) { StaleYield(s, 2); }
  }

  // ---- round robin --------------------------------------------------------------------------

  /** The current thread runs, and no ready thread is more urgent. */
  ghost predicate Top(s: State) {
    && Inv(s) && s.current.Some? && s.lockNest == 0
    && s.threads[s.current.value].stat == Running
    && forall p :: p in s.group ==> s.threads[s.current.value].prio <= p
  }

  /** The current thread and the threads waiting for the processor at its priority, in order. */
  ghost function Ring(s: State): seq<nat>
    requires Top(s)
  {
    [s.current.value] + s.queues[s.threads[s.current.value].prio]
  }

  function TurnLeft(ring: seq<nat>): seq<nat>
    requires ring != []
  {
    ring[1..] + [ring[0]]
  }

  /** A current thread whose yield flag is set goes to the end of its queue. */
  lemma YieldingPass(s: State)
    requires Top(s) && s.threads[s.current.value].yielded
    ensures var s' := Step(s, Reschedule);
      && Top(s') && Ring(s') == TurnLeft(Ring(s))
      && s'.threads[s'.current.value].prio == s.threads[s.current.value].prio
  {
    StepKeeps(s, Reschedule);
    InvHeads(s);
    var c := s.current.value;
    var q := s.threads[c].prio;
    assert QueueOk(s, q);
    NotQueued(s, c, {c});
    if s.group != {} {
      var p, to := Candidate(s);
      if p == q {
        TailOfQueue(s.queues[q], c);
      } else {
        WithoutAbsent(s.queues[q], c);
      }
    }
  }

  /** Appending c and removing the head. */
  lemma TailOfQueue(queue: seq<nat>, c: nat)
    requires queue != [] && Distinct(queue) && c !in queue
    ensures Without(queue + [c], queue[0]) == queue[1..] + [c]
  {
    assert (queue + [c])[1..] == queue[1..] + [c];
    assert forall i :: 0 <= i < |queue[1..]| ==> queue[1..][i] != queue[0];
    WithoutAbsent(queue[1..] + [c], queue[0]);
  }

  lemma YieldTurns(s: State)
    requires Top(s)
    ensures Top(YieldNow(s)) && Ring(YieldNow(s)) == TurnLeft(Ring(s))
  {
    StepKeeps(s, Yield);
    YieldingPass(Step(s, Yield));
  }

  // ---- time slices --------------------------------------------------------------------------

  /** Ticks until the slice of the current thread is over; the counter wraps. */
  function SliceLeft(remaining: nat): nat {
    if remaining == 0 then TICKS else remaining
  }

  ghost function Ticks(s: State, n: nat): State
    requires Top(s) && n <= SliceLeft(s.threads[s.current.value].remaining)
    decreases n
  {
    if n == 0 then s
    else if n == SliceLeft(s.threads[s.current.value].remaining) && n == 1 then TickNow(s)
    else (QuietTick(s); Ticks(TickNow(s), n - 1))
  }

  /** A tick before the end of the slice only counts. */
  lemma QuietTick(s: State)
    requires Top(s) && SliceLeft(s.threads[s.current.value].remaining) > 1
    ensures Top(TickNow(s)) && Ring(TickNow(s)) == Ring(s)
    ensures SliceLeft(TickNow(s).threads[TickNow(s).current.value].remaining)
              == SliceLeft(s.threads[s.current.value].remaining) - 1
  {
    StepKeeps(s, Tick);
  }

  lemma LastTick(s: State)
    requires Top(s) && SliceLeft(s.threads[s.current.value].remaining) == 1
    ensures Top(TickNow(s)) && Ring(TickNow(s)) == TurnLeft(Ring(s))
  {
    StepKeeps(s, Tick);
    YieldingPass(Step(s, Tick));
  }

  /** The end of a time slice hands the processor on as a yield does. */
  lemma {:induction false} SliceTurns(s: State, n: nat)
    requires Top(s) && n == SliceLeft(s.threads[s.current.value].remaining) && n > 0
    ensures Top(Ticks(s, n)) && Ring(Ticks(s, n)) == TurnLeft(Ring(s))
    decreases n
  {
    if n == 1 {
      LastTick(s);
    } else {
      QuietTick(s);
      SliceTurns(TickNow(s), n - 1);
    }
  }

  datatype Turn = ByYield | BySlice

  ghost function TakeTurn(s: State, turn: Turn): (r: State)
    requires Top(s)
    ensures Top(r) && Ring(r) == TurnLeft(Ring(s))
  {
    YieldTurns(s);
    SliceTurns(s, SliceLeft(s.threads[s.current.value].remaining));
    match turn
    case ByYield => YieldNow(s)
    case BySlice => Ticks(s, SliceLeft(s.threads[s.current.value].remaining))
  }

  ghost function TakeTurns(s: State, turns: seq<Turn>): (r: State)
    requires Top(s)
    ensures Top(r)
    decreases |turns|
  {
    if turns == [] then s else TakeTurns(TakeTurn(s, turns[0]), turns[1..])
  }

  lemma {:induction false} TurnsRotate(s: State, turns: seq<Turn>)
    requires Top(s) && |turns| <= |Ring(s)|
    ensures Ring(TakeTurns(s, turns)) == Ring(s)[|turns|..] + Ring(s)[..|turns|]
    decreases |turns|, 0
  {
    var ring := Ring(s);
    if turns == [] {
      assert ring[0..] + ring[..0] == ring;
    } else {
      var s1 := TakeTurn(s, turns[0]);
      RotateOn(s1, turns[1..], ring);
    }
  }

  lemma {:induction false} RotateOn(s: State, rest: seq<Turn>, ring: seq<nat>)
    requires Top(s) && |rest| < |ring| && Ring(s) == TurnLeft(ring)
    ensures Ring(TakeTurns(s, rest)) == ring[|rest| + 1..] + ring[..|rest| + 1]
    decreases |rest|, 1
  {
    TurnsRotate(s, rest);
    RotateOnce(ring, |rest| + 1);
  }

  lemma RotateOnce(ring: seq<nat>, k: nat)
    requires 0 < k <= |ring|
    ensures TurnLeft(ring)[k - 1..] + TurnLeft(ring)[..k - 1] == ring[k..] + ring[..k]
  {
    assert TurnLeft(ring)[k - 1..] == ring[k..] + [ring[0]];
    assert TurnLeft(ring)[..k - 1] == ring[1..k];
  }

  /** With n threads waiting at the priority of the current one and nothing more urgent ready, n+1
      yields or slice expiries, in any mixture, restore the queue, and the i-th of them leaves the
      i-th thread of the ring running; the threads of the ring are all different. */
  lemma RoundRobin(s: State, turns: seq<Turn>, i: nat)
    requires Top(s) && |turns| == |Ring(s)| && i < |turns|
    ensures Ring(TakeTurns(s, turns)) == Ring(s)
    ensures TakeTurns(s, turns[..i]).current == Some(Ring(s)[i])
    ensures Distinct(Ring(s))
  {
    var ring := Ring(s);
    TurnsRotate(s, turns);
    TurnsRotate(s, turns[..i]);
    assert ring[|ring|..] + ring[..|ring|] == ring;
    assert Ring(TakeTurns(s, turns[..i]))[0] == ring[i];
    var c := s.current.value;
    NotQueued(s, c, {c});
    assert QueueOk(s, s.threads[c].prio);
  }

  // ---- nested critical sections -------------------------------------------------------------

  /** The number of critical sections open after an operation; a stray exit closes none. */
  function DepthAfter(depth: nat, a: Action): nat {
    match a
    case Enter => depth + 1
    case Exit => if depth == 0 then 0 else depth - 1
    case _ => depth
  }

  /** At every moment of the run the scheduler is locked exactly inside critical sections; in
      particular an exit unlocks it, and so reschedules, exactly when it leaves the outermost one. */
  ghost predicate LockRight(s: State, depth: nat, acts: seq<Action>)
    requires Inv(s) && Legal(s, acts)
    decreases |acts|
  {
    && (s.lockNest == 0 <==> depth == 0)
    && (acts != [] ==> (StepKeeps(s, acts[0]); LockRight(Step(s, acts[0]), DepthAfter(depth, acts[0]), acts[1..])))
  }

  /** No exit is made with more than 2^15 sections open, and never are there 2^16. */
  predicate NestsInRange(depth: nat, acts: seq<Action>)
    decreases |acts|
  {
    && depth < 0x1_0000
    && (acts != [] ==> (acts[0].Exit? ==> depth <= 0x8000) && NestsInRange(DepthAfter(depth, acts[0]), acts[1..]))
  }

  /** Only entering and leaving critical sections changes the counter. */
  lemma LockStep(s: State, a: Action)
    requires Inv(s) && Enabled(s, a)
    ensures Step(s, a).lockNest == if a.Enter? then Wrap16(s.lockNest + 1) else if a.Exit? then Exited(s.lockNest)
              else s.lockNest
  {
    InvHeads(s);
    if a.Reschedule? && s.group != {} { var p, to := Candidate(s); }
  }

  /** What one step does to a counter that shows the depth. */
  lemma LockDepth(depth: nat)
    requires depth < 0x1_0000
    ensures Wrap16(depth) == 0 <==> depth == 0
    ensures Wrap16(Wrap16(depth) + 1) == Wrap16(depth + 1)
    ensures depth <= 0x8000 ==> Exited(Wrap16(depth)) == Wrap16(DepthAfter(depth, Exit))
    ensures depth > 0x8000 ==> Exited(Wrap16(depth)) == 0
  {}

  /** The 16-bit counter locks the scheduler exactly inside critical sections if and only if the
      nesting stays in its range. */
  lemma {:induction false} LockIff(s: State, depth: nat, acts: seq<Action>)
    requires Inv(s) && Legal(s, acts) && s.lockNest == Wrap16(depth) && depth <= 0x1_0000
    ensures LockRight(s, depth, acts) <==> NestsInRange(depth, acts)
    decreases |acts|
  {
    if depth < 0x1_0000 {
      LockDepth(depth);
      if acts != [] {
        StepKeeps(s, acts[0]);
        LockStep(s, acts[0]);
        if acts[0].Exit? ==> depth <= 0x8000 {
          LockIff(Step(s, acts[0]), DepthAfter(depth, acts[0]), acts[1..]);
        }
      }
    }
  }

  /** From the start of the system on, and so for every run. */
  lemma LockFromStart(acts: seq<Action>)
    requires Inv(Initial()) && Legal(Initial(), acts)
    ensures LockRight(Initial(), 0, acts) <==> NestsInRange(0, acts)
  {
    LockIff(Initial(), 0, acts);
  }

  function FinalDepth(depth: nat, acts: seq<Action>): nat
    decreases |acts|
  {
    if acts == [] then depth else FinalDepth(DepthAfter(depth, acts[0]), acts[1..])
  }

  function MaxDepth(depth: nat, acts: seq<Action>): nat
    decreases |acts|
  {
    if acts == [] then depth
    else
      var rest := MaxDepth(DepthAfter(depth, acts[0]), acts[1..]);
      if rest < depth then depth else rest
  }

  /** For a run that leaves all its critical sections the condition is that never more than 2^15
      are open. */
  lemma {:induction false} BalancedInRange(depth: nat, acts: seq<Action>)
    requires FinalDepth(depth, acts) == 0
    ensures NestsInRange(depth, acts) <==> MaxDepth(depth, acts) <= 0x8000
    decreases |acts|
  {
    if acts != [] {
      BalancedInRange(DepthAfter(depth, acts[0]), acts[1..]);
    }
  }

  /** Enter n critical sections and leave one. */
  function Nested(n: nat): seq<Action> {
    if n == 0 then [Exit] else [Enter] + Nested(n - 1)
  }

  lemma {:induction false} NestedRun(s: State, depth: nat, n: nat)
    requires Inv(s) && s.lockNest == Wrap16(depth)
    ensures Legal(s, Nested(n)) && Run(s, Nested(n)) == s.(lockNest := Exited(Wrap16(depth + n)))
    ensures FinalDepth(depth, Nested(n)) == if depth + n == 0 then 0 else depth + n - 1
    decreases n
  {
    if n > 0 {
      assert Nested(n)[1..] == Nested(n - 1);
      StepKeeps(s, Enter);
      NestedRun(Step(s, Enter), depth + 1, n - 1);
    } else {
      assert Nested(0)[1..] == [];
      StepKeeps(s, Exit);
    }
  }

  /** The first exit from 32769 nested sections unlocks the scheduler with 32768 of them open. */
  lemma TooDeep(s: State)
    requires Inv(s) && s.lockNest == 0
    ensures Legal(s, Nested(0x8001)) && Run(s, Nested(0x8001)).lockNest == 0
    ensures FinalDepth(0, Nested(0x8001)) == 0x8000
  {
    assert Exited(Wrap16(0 + 0x8001)) == 0 && Wrap16(0) == 0;
    hide *;
    NestedRun(s, 0, 0x8001);
  }
}
