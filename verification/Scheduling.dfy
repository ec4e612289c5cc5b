/** The scheduler and the states of threads: `scheduler.c`, `thread.c` and the tick of `clock.c`.

    The functions say what each interrupt-disabled operation does to the whole state; the class
    in Scheduler carries the operations out in place. A word used as a bit mask is the set of the
    numbers of its bits.
 */
module Scheduling {
  import opened Wrappers
  import opened Queues
  import opened Ipc

  const PRIORITIES: nat := 32         // RT_THREAD_PRIORITY_MAX
  const TICKS: nat := 0x1_0000_0000   // remaining_tick is a 32-bit unsigned counter

  datatype Stat = Init | Ready | Suspend | Running | Close

  /** `yielded` is RT_THREAD_STAT_YIELD, `mask` is number_mask. */
  datatype Tcb = Tcb(
    prio: nat, initPrio: nat, mask: set<nat>, stat: Stat, yielded: bool, initTick: nat, remaining: nat)

  datatype State = State(
    threads: map<nat, Tcb>, queues: seq<seq<nat>>, group: set<nat>, current: Option<nat>, lockNest: int)

  /** `__rt_ffs(group) - 1`: the number of the lowest bit. */
  function Lowest(group: set<nat>, from: nat): (r: nat)
    requires exists p :: p in group && from <= p < PRIORITIES
    ensures r in group && from <= r < PRIORITIES && forall p :: p in group && from <= p ==> r <= p
    decreases PRIORITIES - from
  {
    if from in group then from else Lowest(group, from + 1)
  }

  ghost predicate TcbOk(tcb: Tcb) {
    tcb.prio < PRIORITIES && tcb.initPrio < PRIORITIES && forall p :: p in tcb.mask ==> p < PRIORITIES
  }

  /** The sizes and keys without which the operations would leave the tables. */
  ghost predicate Shape(s: State) {
    && |s.queues| == PRIORITIES
    && (forall p :: p in s.group ==> p < PRIORITIES)
    && (forall t :: t in s.threads ==> TcbOk(s.threads[t]))
    && (s.current.Some? ==> s.current.value in s.threads)
  }

  function SetStat(s: State, t: nat, stat: Stat): State
    requires t in s.threads
  {
    s.(threads := s.threads[t := s.threads[t].(stat := stat)])
  }

  // ---- ready queues -------------------------------------------------------------------------

  /** rt_schedule_insert_thread of a thread that is not the current one. */
  function Enqueue(s: State, t: nat): State
    requires Shape(s) && t in s.threads
  {
    var p := s.threads[t].prio;
    SetStat(s, t, Ready).(queues := s.queues[p := s.queues[p] + [t]], group := s.group + s.threads[t].mask)
  }

  function InsertThread(s: State, t: nat): State
    requires Shape(s) && t in s.threads
  {
    if s.current == Some(t) then SetStat(s, t, Running) else Enqueue(s, t)
  }

  /** rt_schedule_remove_thread; StepKeeps shows that no other queue can hold the thread. */
  function RemoveThread(s: State, t: nat): State
    requires Shape(s) && t in s.threads
  {
    var p := s.threads[t].prio;
    var queue := Without(s.queues[p], t);
    s.(queues := s.queues[p := queue], group := if queue == [] then s.group - s.threads[t].mask else s.group)
  }

  // ---- rt_schedule --------------------------------------------------------------------------

  /** The current thread keeps the processor against ready threads of priority p. */
  predicate Stays(c: Tcb, p: nat) {
    c.stat == Running && (c.prio < p || (c.prio == p && !c.yielded))
  }

  /** The first thread of every queue whose bit is set exists. */
  ghost predicate Heads(s: State) {
    forall p :: p in s.group ==> p < |s.queues| && s.queues[p] != [] && s.queues[p][0] in s.threads
  }

  /** The processor goes from thread c to thread `to`. */
  function SwitchTo(s: State, c: nat, to: nat): State
    requires Shape(s) && c in s.threads && to in s.threads
  {
    var s1 := s.(current := Some(to));
    var s2 := if s.threads[c].stat == Running then InsertThread(s1, c) else s1;
    SetStat(RemoveThread(s2, to), to, Running)
  }

  function ClearYield(s: State, c: nat): State
    requires c in s.threads
  {
    if s.threads[c].stat == Running then s.(threads := s.threads[c := s.threads[c].(yielded := false)]) else s
  }

  function Schedule(s: State): State
    requires Shape(s) && Heads(s) && s.current.Some?
  {
    if s.lockNest != 0 || s.group == {} then s
    else
      var p := (assert exists p :: p in s.group; Lowest(s.group, 0));
      var c := s.current.value;
      var to := if Stays(s.threads[c], p) then c else s.queues[p][0];
      if to != c then SwitchTo(ClearYield(s, c), c, to)
      else SetStat(RemoveThread(ClearYield(s, c), c), c, Running)
  }

  // ---- threads ------------------------------------------------------------------------------

  /** rt_thread_resume; a thread that is not suspended is left alone. */
  function ResumeThread(s: State, t: nat): (State, Outcome)
    requires Shape(s) && t in s.threads
  {
    if s.threads[t].stat != Suspend then (s, EError) else (InsertThread(s, t), EOk)
  }

  /** rt_thread_suspend; only the current thread may be running. */
  function SuspendThread(s: State, t: nat): (State, Outcome)
    requires Shape(s) && t in s.threads
  {
    if s.threads[t].stat != Ready && s.threads[t].stat != Running then (s, EError)
    else (SetStat(RemoveThread(s, t), t, Suspend), EOk)
  }

  /** rt_thread_startup up to its rescheduling. */
  function StartThread(s: State, t: nat): State
    requires Shape(s) && t in s.threads && s.threads[t].stat == Init
  {
    var tcb := s.threads[t];
    var s1 := s.(threads := s.threads[t := tcb.(prio := tcb.initPrio, mask := {tcb.initPrio}, stat := Suspend,
        yielded := false)]);
    ResumeThread(s1, t).0
  }

  function SetPriority(s: State, t: nat, prio: nat): State
    requires t in s.threads
  {
    s.(threads := s.threads[t := s.threads[t].(prio := prio, mask := {prio})])
  }

  /** rt_thread_control(RT_THREAD_CTRL_CHANGE_PRIORITY). */
  function ChangePriority(s: State, t: nat, prio: nat): State
    requires Shape(s) && t in s.threads && prio < PRIORITIES
  {
    if s.threads[t].stat == Ready then InsertThread(SetPriority(RemoveThread(s, t), t, prio), t)
    else SetPriority(s, t, prio)
  }

  /** The part of rt_thread_yield before rt_schedule. */
  function MarkYield(s: State): State
    requires s.current.Some? && s.current.value in s.threads
  {
    var c := s.current.value;
    s.(threads := s.threads[c := s.threads[c].(remaining := s.threads[c].initTick, yielded := true)])
  }

  /** `-- remaining_tick` on an unsigned counter. */
  function Decrement(n: nat): nat {
    if n == 0 then TICKS - 1 else n - 1
  }

  /** The part of rt_tick_increase before rt_schedule: an expired slice is a yield. */
  function CountTick(s: State): State
    requires s.current.Some? && s.current.value in s.threads
  {
    var c := s.current.value;
    var left := Decrement(s.threads[c].remaining);
    var tcb := s.threads[c].(remaining := left);
    s.(threads := s.threads[c := if left == 0 then tcb.(remaining := tcb.initTick, yielded := true) else tcb])
  }

  /** rt_system_scheduler_start. */
  function StartScheduler(s: State): State
    requires Shape(s) && Heads(s) && s.group != {}
  {
    var to := s.queues[(assert exists p :: p in s.group; Lowest(s.group, 0))][0];
    SetStat(RemoveThread(s.(current := Some(to)), to), to, Running)
  }

  /** The part of rt_thread_exit before rt_schedule. */
  function CloseCurrent(s: State): State
    requires Shape(s) && s.current.Some?
  {
    var c := s.current.value;
    var s1 := RemoveThread(s, c);
    s1.(threads := s1.threads[c := s1.threads[c].(stat := Close, yielded := false)])
  }

  // ---- critical sections --------------------------------------------------------------------

  /** A signed 16-bit number, which rt_scheduler_lock_nest is. */
  function Wrap16(n: int): int {
    (n + 0x8000) % 0x1_0000 - 0x8000
  }

  /** rt_scheduler_lock_nest after rt_exit_critical, which reschedules when this is 0. */
  function Exited(nest: int): int {
    var left := Wrap16(nest - 1);
    if left <= 0 then 0 else left
  }

  // ---- the invariant ------------------------------------------------------------------------

  /** Queue p holds ready threads of priority p, each once; bit p says whether there are any. */
  ghost predicate QueueOk(s: State, p: nat)
    requires p < |s.queues|
  {
    && (p in s.group <==> s.queues[p] != [])
    && Distinct(s.queues[p])
    && (forall t :: t in s.queues[p] ==> t in s.threads && s.threads[t].stat == Ready && s.threads[t].prio == p)
  }

  /** A ready thread is in the queue of its priority, and the mask of a started one is up to date. */
  ghost predicate ThreadOk(s: State, t: nat, tcb: Tcb)
    requires |s.queues| == PRIORITIES
  {
    && TcbOk(tcb)
    && (tcb.stat == Ready ==> t in s.queues[tcb.prio])
    && (tcb.stat != Init ==> tcb.mask == {tcb.prio})
  }

  /** Queues, bits and threads agree, except that nothing is claimed about where the threads of
      `loose` are; no other thread is running. */
  ghost predicate Core(s: State, loose: set<nat>) {
    && Shape(s)
    && (forall p: nat :: p < PRIORITIES ==> QueueOk(s, p))
    && (forall t :: t in s.threads && t !in loose ==> ThreadOk(s, t, s.threads[t]) && s.threads[t].stat != Running)
  }

  ghost function CurrentSet(s: State): set<nat> {
    if s.current.Some? then {s.current.value} else {}
  }

  /** Bit p of the group is set exactly when queue p is not empty, a ready thread is in exactly
      the queue of its priority, and every other thread is in none. */
  ghost predicate Inv(s: State) {
    && Core(s, CurrentSet(s))
    && (s.current.Some? ==> var c := s.threads[s.current.value];
          c.stat in {Running, Suspend, Close} && ThreadOk(s, s.current.value, c))
  }

  lemma InvHeads(s: State)
    requires Inv(s)
    ensures Heads(s)
  {
    forall p | p in s.group ensures s.queues[p] != [] && s.queues[p][0] in s.threads {
      assert QueueOk(s, p);
      assert s.queues[p][0] in s.queues[p];
    }
  }

  /** The stretches that run with interrupts disabled; most of the source's operations are one of
      them followed by Reschedule, and anything may happen in between. */
  datatype Action =
    | NewThread(thread: nat, prio: nat, initTick: nat)     // rt_thread_init
    | Begin                                                // rt_system_scheduler_start
    | Startup(thread: nat)                                 // rt_thread_startup
    | Suspension(thread: nat)                              // rt_thread_suspend
    | Resumption(thread: nat)                              // rt_thread_resume
    | Expiry(thread: nat)                                  // rt_thread_timeout
    | NewPriority(thread: nat, prio: nat)                  // rt_thread_control
    | Yield                                                // rt_thread_yield
    | Tick                                                 // rt_tick_increase, without the timers
    | Enter                                                // rt_enter_critical
    | Exit                                                 // rt_exit_critical
    | Finish                                               // rt_thread_exit
    | Reschedule                                           // rt_schedule

  /** What the source asserts or takes for granted before an operation. */
  ghost predicate Enabled(s: State, a: Action) {
    match a
    case NewThread(t, prio, _) => t !in s.threads && prio < PRIORITIES
    case Begin => s.current.None? && s.group != {}
    case Startup(t) => t in s.threads && s.threads[t].stat == Init
    case Suspension(t) => t in s.threads
    case Resumption(t) => t in s.threads
    case Expiry(t) => t in s.threads && s.threads[t].stat == Suspend
    case NewPriority(t, prio) => t in s.threads && prio < PRIORITIES
    case Enter => true
    case Exit => true
    case _ => s.current.Some?
  }

  ghost function Step(s: State, a: Action): State
    requires Inv(s) && Enabled(s, a)
  {
    match a
    case NewThread(t, prio, initTick) =>
      s.(threads := s.threads[t := Tcb(prio, prio, {}, Init, false, initTick, initTick)])
    case Begin => (InvHeads(s); StartScheduler(s))
    case Startup(t) => StartThread(s, t)
    case Suspension(t) => SuspendThread(s, t).0
    case Resumption(t) => ResumeThread(s, t).0
    case Expiry(t) => InsertThread(s, t)
    case NewPriority(t, prio) => ChangePriority(s, t, prio)
    case Yield => MarkYield(s)
    case Tick => CountTick(s)
    case Enter => s.(lockNest := Wrap16(s.lockNest + 1))
    case Exit => s.(lockNest := Exited(s.lockNest))
    case Finish => CloseCurrent(s)
    case Reschedule => (InvHeads(s); Schedule(s))
  }

  // ---- queues and bits ----------------------------------------------------------------------

  /** A thread that is in no queue is put at the end of its own. */
  lemma EnqueueCore(s: State, t: nat, loose: set<nat>)
    requires Core(s, loose) && t in s.threads && s.threads[t].mask == {s.threads[t].prio}
    requires forall p: nat :: p < PRIORITIES ==> t !in s.queues[p]
    ensures Core(Enqueue(s, t), loose - {t})
    ensures ThreadOk(Enqueue(s, t), t, Enqueue(s, t).threads[t])
  {
    var s' := Enqueue(s, t);
    forall p: nat | p < PRIORITIES ensures QueueOk(s', p) {
      assert QueueOk(s, p);
    }
    forall u | u in s'.threads && u !in loose - {t}
      ensures ThreadOk(s', u, s'.threads[u]) && s'.threads[u].stat != Running {
      if u != t { assert ThreadOk(s, u, s.threads[u]); }
    }
  }

  /** A thread is taken off the queue of its priority, wherever it was before. */
  lemma RemoveCore(s: State, t: nat, loose: set<nat>)
    requires Core(s, loose) && t in s.threads && s.threads[t].mask == {s.threads[t].prio}
    ensures Core(RemoveThread(s, t), loose + {t})
    ensures forall p: nat :: p < PRIORITIES ==> t !in RemoveThread(s, t).queues[p]
  {
    var s', tcb := RemoveThread(s, t), s.threads[t];
    WithoutElems(s.queues[tcb.prio], t);
    forall p: nat | p < PRIORITIES ensures QueueOk(s', p) && t !in s'.queues[p] {
      assert QueueOk(s, p);
      WithoutDistinct(s.queues[p], t);
    }
    forall u | u in s'.threads && u !in loose + {t}
      ensures ThreadOk(s', u, s'.threads[u]) && s'.threads[u].stat != Running {
      assert ThreadOk(s, u, s.threads[u]);
    }
  }

  /** A thread that is in no queue changes. */
  lemma SetCore(s: State, t: nat, tcb: Tcb, loose: set<nat>)
    requires Core(s, loose) && t in s.threads && TcbOk(tcb)
    requires forall p: nat :: p < PRIORITIES ==> t !in s.queues[p]
    ensures Core(s.(threads := s.threads[t := tcb]), loose + {t})
  {
    var s' := s.(threads := s.threads[t := tcb]);
    forall p: nat | p < PRIORITIES ensures QueueOk(s', p) {
      assert QueueOk(s, p);
    }
    forall u | u in s'.threads && u !in loose + {t}
      ensures ThreadOk(s', u, s'.threads[u]) && s'.threads[u].stat != Running {
      assert ThreadOk(s, u, s.threads[u]);
    }
  }

  lemma NotQueued(s: State, t: nat, loose: set<nat>)
    requires Core(s, loose) && t in s.threads && s.threads[t].stat != Ready
    ensures forall p: nat :: p < PRIORITIES ==> t !in s.queues[p]
  {
    forall p: nat | p < PRIORITIES ensures t !in s.queues[p] {
      assert QueueOk(s, p);
    }
  }

  // ---- every operation ----------------------------------------------------------------------

  lemma InsertKeeps(s: State, t: nat)
    requires Inv(s) && t in s.threads && s.threads[t].stat == Suspend
    ensures Inv(InsertThread(s, t))
  {
    assert ThreadOk(s, t, s.threads[t]);
    if s.current == Some(t) {
      NotQueued(s, t, {t});
      SetCore(s, t, s.threads[t].(stat := Running), {t});
    } else {
      NotQueued(s, t, CurrentSet(s));
      EnqueueCore(s, t, CurrentSet(s));
    }
  }

  lemma StartupKeeps(s: State, t: nat)
    requires Inv(s) && t in s.threads && s.threads[t].stat == Init
    ensures Inv(StartThread(s, t))
  {
    var tcb := s.threads[t];
    var tcb' := tcb.(prio := tcb.initPrio, mask := {tcb.initPrio}, stat := Suspend, yielded := false);
    NotQueued(s, t, CurrentSet(s));
    SetCore(s, t, tcb', CurrentSet(s));
    InsertKeeps(s.(threads := s.threads[t := tcb']), t);
  }

  lemma SuspendKeeps(s: State, t: nat)
    requires Inv(s) && t in s.threads
    ensures Inv(SuspendThread(s, t).0)
  {
    if s.threads[t].stat == Ready || s.threads[t].stat == Running {
      assert ThreadOk(s, t, s.threads[t]);
      RemoveCore(s, t, CurrentSet(s));
      SetCore(RemoveThread(s, t), t, s.threads[t].(stat := Suspend), CurrentSet(s) + {t});
    }
  }

  lemma PriorityKeeps(s: State, t: nat, prio: nat)
    requires Inv(s) && t in s.threads && prio < PRIORITIES
    ensures Inv(ChangePriority(s, t, prio))
  {
    assert ThreadOk(s, t, s.threads[t]);
    var tcb := s.threads[t].(prio := prio, mask := {prio});
    if s.threads[t].stat == Ready {
      RemoveCore(s, t, CurrentSet(s));
      var s1 := RemoveThread(s, t);
      SetCore(s1, t, tcb, CurrentSet(s) + {t});
      EnqueueCore(SetPriority(s1, t, prio), t, CurrentSet(s) + {t});
    } else {
      NotQueued(s, t, CurrentSet(s));
      SetCore(s, t, tcb, CurrentSet(s));
    }
  }

  /** A change of the current thread that leaves its state and priority alone. */
  lemma CurrentKeeps(s: State, tcb: Tcb)
    requires Inv(s) && s.current.Some?
    requires var c := s.threads[s.current.value];
      tcb.prio == c.prio && tcb.initPrio == c.initPrio && tcb.mask == c.mask && tcb.stat == c.stat
    ensures Inv(s.(threads := s.threads[s.current.value := tcb]))
  {
    NotQueued(s, s.current.value, CurrentSet(s));
    SetCore(s, s.current.value, tcb, CurrentSet(s));
  }

  lemma FinishKeeps(s: State)
    requires Inv(s) && s.current.Some?
    ensures Inv(CloseCurrent(s))
  {
    var c := s.current.value;
    RemoveCore(s, c, {c});
    SetCore(RemoveThread(s, c), c, s.threads[c].(stat := Close, yielded := false), {c});
  }

  /** The processor goes to a ready thread `to`; the thread it had before, if any, is already
      back in a queue or not running. */
  lemma HandOver(s: State, to: nat)
    requires Core(s, {to}) && to in s.threads && s.threads[to].stat == Ready
               && s.threads[to].mask == {s.threads[to].prio}
    requires s.current == Some(to)
    ensures Inv(SetStat(RemoveThread(s, to), to, Running))
  {
    RemoveCore(s, to, {to});
    SetCore(RemoveThread(s, to), to, s.threads[to].(stat := Running), {to});
  }

  lemma SwitchKeeps(s: State, to: nat)
    requires Inv(s) && s.current.Some? && to in s.threads && s.threads[to].stat == Ready
    ensures Inv(SwitchTo(s, s.current.value, to))
  {
    var c := s.current.value;
    var s1 := s.(current := Some(to));
    assert ThreadOk(s, to, s.threads[to]);
    assert Core(s1, {c}) by { assert forall p: nat :: p < PRIORITIES ==> (QueueOk(s1, p) <==> QueueOk(s, p)); }
    if s.threads[c].stat == Running {
      NotQueued(s1, c, {c});
      EnqueueCore(s1, c, {c});
      CoreMono(Enqueue(s1, c), {}, {to});
      HandOver(Enqueue(s1, c), to);
    } else {
      CoreTight(s1, c);
      CoreMono(s1, {}, {to});
      HandOver(s1, to);
    }
  }

  lemma CoreMono(s: State, loose: set<nat>, more: set<nat>)
    requires Core(s, loose) && loose <= more
    ensures Core(s, more)
  {}

  lemma CoreTight(s: State, c: nat)
    requires Core(s, {c}) && c in s.threads && ThreadOk(s, c, s.threads[c]) && s.threads[c].stat != Running
    ensures Core(s, {})
  {}

  /** The first thread of the most urgent queue. */
  lemma Candidate(s: State) returns (p: nat, to: nat)
    requires Inv(s) && s.group != {}
    ensures p in s.group && p < PRIORITIES && p == Lowest(s.group, 0)
    ensures s.queues[p] != [] && to == s.queues[p][0] && to in s.threads
    ensures s.threads[to].stat == Ready && s.threads[to].prio == p
  {
    assert exists q :: q in s.group;
    p := Lowest(s.group, 0);
    assert QueueOk(s, p);
    to := s.queues[p][0];
    assert to in s.queues[p];
  }

  lemma BeginKeeps(s: State)
    requires Inv(s) && s.current.None? && s.group != {} && Heads(s)
    ensures Inv(StartScheduler(s))
  {
    var p, to := Candidate(s);
    var s1 := s.(current := Some(to));
    assert ThreadOk(s, to, s.threads[to]);
    assert Core(s1, {}) by { assert forall q: nat :: q < PRIORITIES ==> (QueueOk(s1, q) <==> QueueOk(s, q)); }
    CoreMono(s1, {}, {to});
    HandOver(s1, to);
  }

  lemma ScheduleKeeps(s: State)
    requires Inv(s) && s.current.Some? && Heads(s)
    ensures Inv(Schedule(s))
  {
    if s.lockNest == 0 && s.group != {} {
      var p, to := Candidate(s);
      var c := s.current.value;
      var s1 := ClearYield(s, c);
      assert Inv(s1) by { if s.threads[c].stat == Running { CurrentKeeps(s, s.threads[c].(yielded := false)); } }
      if Stays(s.threads[c], p) {
        RemoveCore(s1, c, {c});
        SetCore(RemoveThread(s1, c), c, s1.threads[c].(stat := Running), {c});
      } else {
        SwitchKeeps(s1, to);
      }
    }
  }

  lemma StepKeeps(s: State, a: Action)
    requires Inv(s) && Enabled(s, a)
    ensures Inv(Step(s, a))
  {
    InvHeads(s);
    match a
    case NewThread(t, prio, initTick) => NewThreadKeeps(s, t, prio, initTick);
    case Begin => BeginKeeps(s);
    case Startup(t) => StartupKeeps(s, t);
    case Suspension(t) => SuspendKeeps(s, t);
    case Resumption(t) => if s.threads[t].stat == Suspend { InsertKeeps(s, t); }
    case Expiry(t) => InsertKeeps(s, t);
    case NewPriority(t, prio) => PriorityKeeps(s, t, prio);
    case Yield => CurrentKeeps(s, MarkYield(s).threads[s.current.value]);
    case Tick => CurrentKeeps(s, CountTick(s).threads[s.current.value]);
    case Enter => LockKeeps(s, Wrap16(s.lockNest + 1));
    case Exit => LockKeeps(s, Exited(s.lockNest));
    case Finish => FinishKeeps(s);
    case Reschedule => ScheduleKeeps(s);
  }

  lemma LockKeeps(s: State, nest: int)
    requires Inv(s)
    ensures Inv(s.(lockNest := nest))
  {
    var s' := s.(lockNest := nest);
    assert forall p: nat :: p < PRIORITIES ==> (QueueOk(s', p) <==> QueueOk(s, p));
  }

  lemma NewThreadKeeps(s: State, t: nat, prio: nat, initTick: nat)
    requires Inv(s) && t !in s.threads && prio < PRIORITIES
    ensures Inv(s.(threads := s.threads[t := Tcb(prio, prio, {}, Init, false, initTick, initTick)]))
  {
    var s' := s.(threads := s.threads[t := Tcb(prio, prio, {}, Init, false, initTick, initTick)]);
    forall p: nat | p < PRIORITIES ensures QueueOk(s', p) {
      assert QueueOk(s, p);
    }
    forall u | u in s'.threads && u !in CurrentSet(s)
      ensures ThreadOk(s', u, s'.threads[u]) && s'.threads[u].stat != Running {
      if u != t { assert ThreadOk(s, u, s.threads[u]); }
    }
  }
}
