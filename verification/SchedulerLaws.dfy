/** The life of a thread, and who of the ready threads gets the processor. */
module SchedulerLaws {
  import opened Wrappers
  import opened Queues
  import opened Ipc
  import opened Scheduling
  import opened SchedulerRuns
  import opened WaitOrder

  // ---- the life of a thread -----------------------------------------------------------------

  /** The operation takes thread u off the processor or out of its ready queue. */
  predicate Stops(s: State, a: Action, u: nat) {
    a == Suspension(u) || (a.Finish? && s.current == Some(u))
  }

  predicate Wakes(a: Action, u: nat) {
    a == Resumption(u) || a == Expiry(u)
  }

  /** At most the state and the yield flag of thread u have changed, between states in which it can run. */
  predicate Passed(s: State, s': State, u: nat) {
    && s'.threads.Keys == s.threads.Keys && u in s.threads && u in s'.threads
    && s'.threads[u] == s.threads[u].(stat := s'.threads[u].stat, yielded := s'.threads[u].yielded)
    && (s'.threads[u].yielded ==> s.threads[u].yielded)
    && (s'.threads[u].stat == s.threads[u].stat || (Runnable(s, u) && Runnable(s', u)))
  }

  lemma PassLife(s: State, u: nat)
    requires Inv(s) && s.current.Some? && u in s.threads
    ensures Passed(s, Step(s, Reschedule), u)
  {
    InvHeads(s);
    if s.lockNest == 0 && s.group != {} { var p, to := Candidate(s); }
  }

  lemma BeginLife(s: State, u: nat)
    requires Inv(s) && Enabled(s, Begin) && u in s.threads
    ensures Passed(s, Step(s, Begin), u)
  {
    InvHeads(s);
    var p, to := Candidate(s);
  }

  /** What an operation makes of a thread. Its initial priority and its time slice never change; its priority
      changes only on request, to what was asked for, and at its start; its yield flag is set only by a yield or an
      expired slice of its own. */
  lemma Fields(s: State, a: Action, u: nat)
    requires Inv(s) && Enabled(s, a) && u in s.threads
    ensures var s' := Step(s, a);
      && u in s'.threads
      && s'.threads[u].initPrio == s.threads[u].initPrio && s'.threads[u].initTick == s.threads[u].initTick
      && s'.threads[u].prio == (if a.NewPriority? && a.thread == u then a.prio
                                else if a == Startup(u) then s.threads[u].initPrio else s.threads[u].prio)
      && (s'.threads[u].yielded ==> s.threads[u].yielded || ((a.Yield? || a.Tick?) && s.current == Some(u)))
      && (s'.threads[u].remaining != s.threads[u].remaining ==> (a.Yield? || a.Tick?) && s.current == Some(u))
  {
    hide Inv, Without, Schedule, StartScheduler, Lowest, Heads;
    if a.Reschedule? { PassLife(s, u); } else if a.Begin? { BeginLife(s, u); }
  }

  function StatOf(s: State, u: nat): Stat {
    if u in s.threads then s.threads[u].stat else Init
  }

  /** The states of a thread: it is started once, runs or is ready until it is suspended or ends, and is suspended
      until it is resumed or its timer fires. */
  lemma Life(s: State, a: Action, u: nat)
    requires Inv(s) && Enabled(s, a) && u in s.threads
    ensures var s' := Step(s, a); var before, after := s.threads[u].stat, StatOf(s', u);
      && (after == Init <==> before == Init && a != Startup(u))
      && (after == Close <==> before == Close || (a.Finish? && s.current == Some(u)))
      && (after == Suspend <==> (before == Suspend && !Wakes(a, u) && !(a.Finish? && s.current == Some(u)))
                                || (Runnable(s, u) && a == Suspension(u)))
      && (Runnable(s', u) <==>
            (Runnable(s, u) && !Stops(s, a, u)) || (before == Suspend && Wakes(a, u)) || a == Startup(u))
  {
    hide Inv, Without, Schedule, StartScheduler, Lowest, Heads, QueueOk, Core, Wrap16, Exited;
    NotInitial(s, u);
    if a.Reschedule? { PassLife(s, u); } else if a.Begin? { BeginLife(s, u); }
  }

  lemma NotInitial(s: State, u: nat)
    requires Inv(s) && u in s.threads
    ensures s.current == Some(u) ==> s.threads[u].stat in {Running, Suspend, Close}
    ensures s.threads[u].stat == Running ==> s.current == Some(u)
  {}

  /** Threads come into being with the priority and the slice they are made with, and never vanish here. */
  lemma Comes(s: State, a: Action, u: nat)
    requires Inv(s) && Enabled(s, a)
    ensures var s' := Step(s, a);
      && (u in s'.threads <==> u in s.threads || (a.NewThread? && a.thread == u))
      && (a.NewThread? && a.thread == u ==>
            s'.threads[u].prio == s'.threads[u].initPrio == a.prio && s'.threads[u].stat == Init
            && s'.threads[u].remaining == s'.threads[u].initTick == a.initTick && !s'.threads[u].yielded)
  {
    if a.Reschedule? {
      if x :| x in s.threads { PassLife(s, x); }
      InvHeads(s);
    } else if a.Begin? {
      InvHeads(s);
      var p, to := Candidate(s);
      BeginLife(s, to);
    }
  }

  /** A thread can be resumed exactly if it is suspended, and suspended exactly if it is ready or runs. */
  lemma Outcomes(s: State, u: nat)
    requires Inv(s) && u in s.threads
    ensures ResumeThread(s, u).1 == if s.threads[u].stat == Suspend then EOk else EError
    ensures SuspendThread(s, u).1 == if Runnable(s, u) then EOk else EError
    ensures ResumeThread(s, u).1 == EError ==> ResumeThread(s, u).0 == s
    ensures SuspendThread(s, u).1 == EError ==> SuspendThread(s, u).0 == s
  {}

  // ---- ready queues -------------------------------------------------------------------------

  /** Every ready queue is in the order in which its threads became ready. */
  ghost predicate AllServed(queues: seq<seq<nat>>, stamps: Stamps, now: nat) {
    forall p :: 0 <= p < |queues| ==> QueueServed(queues, p, stamps, now)
  }

  ghost predicate QueueServed(queues: seq<seq<nat>>, p: nat, stamps: Stamps, now: nat)
    requires p < |queues|
  {
    Served(queues[p], Fifo, map[], stamps, now)
  }

  /** Thread t becomes ready now. */
  function Stamp(stamps: Stamps, t: nat, now: nat): Stamps {
    stamps[t := now]
  }

  lemma OthersServed(list: seq<nat>, t: nat, stamps: Stamps, now: nat)
    requires Served(list, Fifo, map[], stamps, now) && t !in list
    ensures Served(list, Fifo, map[], Stamp(stamps, t, now), now + 1)
  {
    var stamps' := Stamp(stamps, t, now);
    forall i, j | 0 <= i < j < |list| ensures InTurn(list, Fifo, map[], stamps', i, j) {
      assert InTurn(list, Fifo, map[], stamps, i, j) && list[i] in list && list[j] in list;
    }
  }

  lemma LastServed(list: seq<nat>, t: nat, stamps: Stamps, now: nat)
    requires Served(list, Fifo, map[], stamps, now) && t !in list
    ensures Served(list + [t], Fifo, map[], Stamp(stamps, t, now), now + 1)
  {
    var stamps' := Stamp(stamps, t, now);
    var list' := list + [t];
    OthersServed(list, t, stamps, now);
    forall i, j | 0 <= i < j < |list'| ensures InTurn(list', Fifo, map[], stamps', i, j) {
      assert list[i] in list;
      if j < |list| { assert InTurn(list, Fifo, map[], stamps', i, j); }
    }
  }

  lemma EnqueueServed(s: State, t: nat, stamps: Stamps, now: nat)
    requires Shape(s) && t in s.threads && AllServed(s.queues, stamps, now)
    requires forall p: nat :: p < PRIORITIES ==> t !in s.queues[p]
    ensures AllServed(Enqueue(s, t).queues, Stamp(stamps, t, now), now + 1)
  {
    var queues, stamps', later := Enqueue(s, t).queues, Stamp(stamps, t, now), now + 1;
    forall p | 0 <= p < |queues| ensures QueueServed(queues, p, stamps', later) {
      assert QueueServed(s.queues, p, stamps, now);
      LastServed(s.queues[p], t, stamps, now);
      OthersServed(s.queues[p], t, stamps, now);
    }
  }

  lemma RemoveServed(s: State, t: nat, stamps: Stamps, now: nat)
    requires Shape(s) && t in s.threads && AllServed(s.queues, stamps, now)
    ensures AllServed(RemoveThread(s, t).queues, stamps, now)
  {
    var queues := RemoveThread(s, t).queues;
    forall p | 0 <= p < |queues| ensures QueueServed(queues, p, stamps, now) {
      assert QueueServed(s.queues, p, stamps, now);
      WithoutServed(s.queues[p], t, Fifo, map[], stamps, now);
    }
  }

  lemma LaterServed(queues: seq<seq<nat>>, stamps: Stamps, now: nat)
    requires AllServed(queues, stamps, now)
    ensures AllServed(queues, stamps, now + 1)
  {
    var later := now + 1;
    forall p | 0 <= p < |queues| ensures QueueServed(queues, p, stamps, later) {
      assert QueueServed(queues, p, stamps, now);
    }
  }

  /** The thread that an operation makes ready, if any: one that was not, or that changes its queue. */
  function BecomesReady(s: State, s': State, a: Action): Option<nat> {
    match a
    case Startup(t) => Some(t)
    case Resumption(t) => if StatOf(s, t) != Ready && StatOf(s', t) == Ready then Some(t) else None
    case Expiry(t) => if StatOf(s, t) != Ready && StatOf(s', t) == Ready then Some(t) else None
    case NewPriority(t, _) => if StatOf(s, t) == Ready then Some(t) else None
    case Reschedule =>
      if s.current.Some? && StatOf(s, s.current.value) == Running && StatOf(s', s.current.value) == Ready then s.current
      else None
    case _ => None
  }

  function StampsAfter(stamps: Stamps, s: State, s': State, a: Action, now: nat): Stamps {
    var t := BecomesReady(s, s', a);
    if t.Some? then Stamp(stamps, t.value, now) else stamps
  }

  lemma PassServed(s: State, stamps: Stamps, now: nat)
    requires Inv(s) && s.current.Some? && AllServed(s.queues, stamps, now)
    ensures var s' := Step(s, Reschedule);
      AllServed(s'.queues, StampsAfter(stamps, s, s', Reschedule, now), now + 1)
  {
    InvHeads(s);
    LaterServed(s.queues, stamps, now);
    if s.lockNest == 0 && s.group != {} {
      var p, to := Candidate(s);
      var c := s.current.value;
      var s1 := ClearYield(s, c);
      if Stays(s.threads[c], p) {
        RemoveServed(s1, c, stamps, now + 1);
      } else {
        var s2 := s1.(current := Some(to));
        if s.threads[c].stat == Running {
          NotQueued(s, c, {c});
          EnqueueServed(s2, c, stamps, now);
          RemoveServed(Enqueue(s2, c), to, Stamp(stamps, c, now), now + 1);
        } else {
          RemoveServed(s2, to, stamps, now + 1);
        }
      }
    }
  }

  lemma StepServed(s: State, a: Action, stamps: Stamps, now: nat)
    requires Inv(s) && Enabled(s, a) && AllServed(s.queues, stamps, now)
    ensures AllServed(Step(s, a).queues, StampsAfter(stamps, s, Step(s, a), a, now), now + 1)
  {
    LaterServed(s.queues, stamps, now);
    match a
    case Reschedule => PassServed(s, stamps, now);
    case Begin =>
      InvHeads(s);
      var p, to := Candidate(s);
      RemoveServed(s.(current := Some(to)), to, stamps, now + 1);
    case Startup(t) =>
      NotQueued(s, t, CurrentSet(s));
      EnqueueServed(s.(threads := s.threads[t := s.threads[t].(prio := s.threads[t].initPrio,
        mask := {s.threads[t].initPrio}, stat := Suspend, yielded := false)]), t, stamps, now);
    case Suspension(t) => RemoveServed(s, t, stamps, now + 1);
    case Resumption(t) => if s.threads[t].stat == Suspend { WakeServed(s, t, stamps, now); }
    case Expiry(t) => WakeServed(s, t, stamps, now);
    case NewPriority(t, prio) =>
      if s.threads[t].stat == Ready {
        assert ThreadOk(s, t, s.threads[t]);
        RemoveCore(s, t, CurrentSet(s));
        RemoveServed(s, t, stamps, now);
        EnqueueServed(SetPriority(RemoveThread(s, t), t, prio), t, stamps, now);
      }
    case Finish => RemoveServed(s, s.current.value, stamps, now + 1);
    case _ =>
  }

  lemma WakeServed(s: State, t: nat, stamps: Stamps, now: nat)
    requires Inv(s) && t in s.threads && s.threads[t].stat == Suspend && AllServed(s.queues, stamps, now)
    ensures s.current != Some(t) ==> AllServed(InsertThread(s, t).queues, Stamp(stamps, t, now), now + 1)
    ensures s.current == Some(t) ==> InsertThread(s, t).queues == s.queues
  {
    if s.current != Some(t) {
      NotQueued(s, t, CurrentSet(s));
      EnqueueServed(s, t, stamps, now);
    }
  }

  /** When each thread became ready last, in a run. */
  ghost function StampsIn(stamps: Stamps, s: State, acts: seq<Action>, now: nat): Stamps
    requires Inv(s) && Legal(s, acts)
    decreases |acts|
  {
    if acts == [] then stamps
    else
      StepKeeps(s, acts[0]);
      StampsIn(StampsAfter(stamps, s, Step(s, acts[0]), acts[0], now), Step(s, acts[0]), acts[1..], now + 1)
  }

  /** In every run every ready queue is in the order in which its threads became ready. */
  lemma {:induction false} ReadyInOrder(s: State, acts: seq<Action>, stamps: Stamps, now: nat)
    requires Inv(s) && Legal(s, acts) && AllServed(s.queues, stamps, now)
    ensures AllServed(Run(s, acts).queues, StampsIn(stamps, s, acts, now), now + |acts|)
    decreases |acts|
  {
    if acts != [] {
      StepServed(s, acts[0], stamps, now);
      StepKeeps(s, acts[0]);
      hide Inv, AllServed, Step, Enabled, StampsAfter;
      ReadyInOrder(Step(s, acts[0]), acts[1..], StampsAfter(stamps, s, Step(s, acts[0]), acts[0], now), now + 1);
    }
  }

  /** The current thread may keep the processor although thread u is ready. */
  predicate MayStay(s: State, u: nat)
    requires s.current.Some? && s.current.value in s.threads && u in s.threads
  {
    var c, other := s.threads[s.current.value], s.threads[u];
    c.stat == Running && (c.prio < other.prio || (c.prio == other.prio && !c.yielded))
  }

  /** Thread t goes before thread u: it is more urgent, or as urgent and has been ready for longer. */
  ghost predicate GoesBefore(s: State, stamps: Stamps, t: nat, u: nat)
    requires t in s.threads && u in s.threads
  {
    && s.threads[t].stat == Ready && s.threads[t].prio <= s.threads[u].prio
    && (s.threads[t].prio == s.threads[u].prio && u != t ==> Ahead(Fifo, map[], stamps, t, u))
  }

  /** So the processor goes to the thread that has been ready for longest among the most urgent ones; the thread
      that has it keeps it only if it runs, and none of these is more urgent, nor as urgent after it has
      yielded. */
  lemma LongestReady(s: State, stamps: Stamps, now: nat, u: nat)
    requires Inv(s) && s.current.Some? && s.lockNest == 0 && AllServed(s.queues, stamps, now)
    requires u in s.threads && s.threads[u].stat == Ready
    ensures var s' := Step(s, Reschedule);
      && s'.current.Some? && s'.current.value in s.threads
      && (if s'.current == s.current then MayStay(s, u) else GoesBefore(s, stamps, s'.current.value, u))
  {
    assert ThreadOk(s, u, s.threads[u]);
    var q := s.threads[u].prio;
    assert QueueOk(s, q);
    InvHeads(s);
    var p, to := Candidate(s);
    assert p <= q;
    if p == q && u != to {
      assert QueueServed(s.queues, p, stamps, now);
      FirstAhead(s.queues[p], Fifo, map[], stamps, now, u);
    }
  }

  /** And it does change hands if a ready thread is more urgent than the current one, or as urgent after it has
      yielded, or if the current one cannot run. */
  lemma HandsOver(s: State, u: nat)
    requires Inv(s) && s.current.Some? && s.lockNest == 0 && u in s.threads && s.threads[u].stat == Ready
    requires !MayStay(s, u)
    ensures Step(s, Reschedule).current != s.current
  {
    assert ThreadOk(s, u, s.threads[u]);
    assert QueueOk(s, s.threads[u].prio);
    InvHeads(s);
    var p, to := Candidate(s);
    NotQueued(s, s.current.value, {s.current.value});
  }

  /** The scheduler starts with such a thread. */
  lemma FirstChosen(s: State, stamps: Stamps, now: nat, u: nat)
    requires Inv(s) && Enabled(s, Begin) && AllServed(s.queues, stamps, now)
    requires u in s.threads && s.threads[u].stat == Ready
    ensures var s' := Step(s, Begin);
      && s'.current.Some? && s'.current.value in s.threads && StatOf(s', s'.current.value) == Running
      && GoesBefore(s, stamps, s'.current.value, u)
  {
    assert ThreadOk(s, u, s.threads[u]);
    var q := s.threads[u].prio;
    assert QueueOk(s, q);
    InvHeads(s);
    var p, to := Candidate(s);
    assert p <= q;
    if p == q && u != to {
      assert QueueServed(s.queues, p, stamps, now);
      FirstAhead(s.queues[p], Fifo, map[], stamps, now, u);
    }
  }

  // ---- critical sections --------------------------------------------------------------------

  /** No moment of the run is outside of all critical sections. */
  predicate StaysInside(depth: nat, acts: seq<Action>)
    decreases |acts|
  {
    depth > 0 && (acts != [] ==> StaysInside(DepthAfter(depth, acts[0]), acts[1..]))
  }

  /** With the scheduler locked a pass changes nothing. */
  lemma LockedPass(s: State)
    requires Inv(s) && s.current.Some? && s.lockNest != 0
    ensures Step(s, Reschedule) == s
  {}

  /** Inside a critical section the current thread keeps the processor, whatever becomes ready meanwhile, as long as
      the nesting stays in its range. */
  lemma {:induction false} InsideKeepsProcessor(s: State, depth: nat, acts: seq<Action>)
    requires Inv(s) && Legal(s, acts) && s.current.Some? && s.lockNest == Wrap16(depth)
    requires NestsInRange(depth, acts) && StaysInside(depth, acts)
    ensures Run(s, acts).current == s.current
    decreases |acts|
  {
    if acts != [] {
      LockDepth(depth);
      StepKeeps(s, acts[0]);
      LockStep(s, acts[0]);
      CurrentStays(s, acts[0]);
      hide Inv, Step, Enabled;
      InsideKeepsProcessor(Step(s, acts[0]), DepthAfter(depth, acts[0]), acts[1..]);
    }
  }

  lemma CurrentStays(s: State, a: Action)
    requires Inv(s) && Enabled(s, a) && s.current.Some? && s.lockNest != 0
    ensures Step(s, a).current == s.current
  {
    if a.Reschedule? { LockedPass(s); }
  }
}
