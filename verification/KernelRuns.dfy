/** Runs of many threads over many mutexes on the scheduler.

    A state has the scheduler's part, with the threads and their queues, and the mutexes' part. Every
    interrupt-disabled region is one step, a scheduling pass among them, and calls are made by the
    thread that is running.
 */
module KernelRuns {
  import opened Wrappers
  import opened Queues
  import opened Ipc
  import opened Mutexes
  import opened Scheduling
  import opened ReadyLists
  import opened KernelMutexes
  import Locks = MutexRuns
  import Priority = MutexPriority
  import Runs = SchedulerRuns

  datatype System = System(kernel: State, locks: Locks.System)

  datatype Act =
    | Take(mutex: nat, time: int)       // rt_mutex_take by the current thread
    | Release(mutex: nat)               // rt_mutex_release by the current thread
    | Expire(thread: nat)               // the timer of a thread that waits for a mutex
    | Other(action: Action)             // anything else that the scheduler does

  // ---- what every step relies on ------------------------------------------------------------

  /** A thread that waits for a mutex is suspended. */
  ghost predicate Sleeps(s: System, t: nat) {
    t in s.kernel.threads && s.kernel.threads[t].stat == Suspend
  }

  /** The owner of a mutex has been started, and the priority kept for it is one. */
  ghost predicate OwnerOk(s: System, m: nat)
    requires m in s.locks.mutexes
  {
    var mutex := s.locks.mutexes[m];
    mutex.owner.Some? ==>
      && mutex.owner.value in s.kernel.threads && s.kernel.threads[mutex.owner.value].stat != Init
      && 0 <= mutex.original < PRIORITIES
  }

  /** Both parts are in order and agree. */
  ghost predicate Linked(s: System) {
    && Inv(s.kernel) && Locks.Inv(s.locks) && s.locks.prio == Urgency(s.kernel.threads)
    && (forall t <- s.locks.waiting :: Sleeps(s, t))
    && (forall m <- s.locks.mutexes :: OwnerOk(s, m))
  }

  predicate Calls(s: System) {
    s.kernel.current.Some? && s.kernel.current.value in s.kernel.threads
    && s.kernel.threads[s.kernel.current.value].stat == Running
  }

  /** A thread that waits for a mutex is left to wait. */
  predicate LeavesWaiting(s: System, a: Action) {
    match a
    case Resumption(t) => t !in s.locks.waiting
    case Expiry(t) => t !in s.locks.waiting
    case Finish => s.kernel.current.Some? ==> s.kernel.current.value !in s.locks.waiting
    case _ => true
  }

  ghost predicate Possible(s: System, act: Act) {
    match act
    case Take(m, _) => Calls(s) && m in s.locks.mutexes
    case Release(m) => Calls(s) && m in s.locks.mutexes
    case Expire(t) => Locks.Enabled(s.locks, Locks.Expire(t))
    case Other(a) => Enabled(s.kernel, a) && LeavesWaiting(s, a)
  }

  /** The mutexes' part of a call. */
  function Call(s: System, act: Act): Locks.Action
    requires act.Other? || act.Expire? || Calls(s)
  {
    match act
    case Take(m, time) => Locks.Take(s.kernel.current.value, m, time)
    case Release(m) => Locks.Release(s.kernel.current.value, m)
    case Expire(t) => Locks.Expire(t)
    case Other(_) => Locks.Expire(0)
  }

  ghost predicate MustWait(s: System, m: nat, time: int)
    requires Linked(s) && Calls(s) && m in s.locks.mutexes
  {
    var mutex := s.locks.mutexes[m];
    mutex.owner.Some? && mutex.owner != s.kernel.current && time != 0
  }

  predicate IsLast(s: System, m: nat)
    requires m in s.locks.mutexes
  {
    s.kernel.current.Some? && s.locks.mutexes[m].owner == s.kernel.current && s.locks.mutexes[m].hold == 1
  }

  lemma CanWait(s: System, m: nat, time: int)
    requires Linked(s) && Calls(s) && m in s.locks.mutexes
    ensures MustWait(s, m, time) ==> Blocks(s.kernel, s.locks.mutexes[m].owner.value, s.kernel.current.value)
  {
    assert OwnerOk(s, m);
  }

  lemma CanWake(s: System, m: nat)
    requires Linked(s) && Calls(s) && m in s.locks.mutexes && IsLast(s, m)
    ensures 0 <= s.locks.mutexes[m].original < PRIORITIES && WaitersOf(s.kernel, s.locks.mutexes[m].waiters)
  {
    var waiters := s.locks.mutexes[m].waiters;
    assert OwnerOk(s, m) && Locks.MutexOk(s.locks, m);
    if waiters != [] { assert waiters[0] in waiters && Sleeps(s, waiters[0]); }
  }

  ghost function Step(s: System, act: Act): System
    requires Linked(s) && Possible(s, act)
  {
    match act
    case Take(m, time) =>
      CanWait(s, m, time);
      System(if MustWait(s, m, time) then Asleep(s.kernel, s.locks.mutexes[m].owner.value, s.kernel.current.value)
             else s.kernel,
             Locks.Step(s.locks, Call(s, act)))
    case Release(m) =>
      System(if IsLast(s, m) then
               CanWake(s, m);
               Woken(s.kernel, s.kernel.current.value, s.locks.mutexes[m].original, s.locks.mutexes[m].waiters)
             else s.kernel,
             Locks.Step(s.locks, Call(s, act)))
    case Expire(t) =>
      CanExpire(s, t);
      System(Scheduling.Step(s.kernel, Expiry(t)), Locks.Step(s.locks, Call(s, act)))
    case Other(a) =>
      var k := Scheduling.Step(s.kernel, a);
      System(k, s.locks.(prio := Urgency(k.threads)))
  }

  lemma CanExpire(s: System, t: nat)
    requires Linked(s) && t in s.locks.waiting
    ensures Enabled(s.kernel, Expiry(t))
  {
    assert Sleeps(s, t);
  }

  // ---- what a region does to the threads ----------------------------------------------------

  lemma AsleepThread(s: State, o: nat, t: nat, u: nat)
    requires Blocks(s, o, t) && u in s.threads
    ensures var s' := Asleep(s, o, t);
      && u in s'.threads && s'.threads[u].initPrio == s.threads[u].initPrio
      && s'.threads[u].stat == if u == t then Suspend else s.threads[u].stat
  {
    BoostKeeps(s, o, t);
    SuspendedThreads(Boosted(s, o, t), t);
  }

  lemma SuspendedThreads(s: State, t: nat)
    requires Shape(s) && t in s.threads && (s.threads[t].stat == Ready || s.threads[t].stat == Running)
    ensures SuspendThread(s, t).0.threads == s.threads[t := s.threads[t].(stat := Suspend)]
  {}

  lemma WokenThread(s: State, t: nat, prio: nat, waiters: seq<nat>, u: nat)
    requires Inv(s) && t in s.threads && s.threads[t].stat == Running && prio < PRIORITIES && WaitersOf(s, waiters)
    requires u in s.threads
    ensures var s' := Woken(s, t, prio, waiters);
      && u in s'.threads && s'.threads[u].initPrio == s.threads[u].initPrio
      && (s.threads[u].stat != Init ==> s'.threads[u].stat != Init)
      && (waiters == [] || u != waiters[0] ==> s'.threads[u].stat == s.threads[u].stat)
  {
    RestoreIs(s, t, prio);
  }

  /** What any operation of the scheduler leaves alone. */
  lemma OtherThread(s: State, a: Action, u: nat)
    requires Inv(s) && Enabled(s, a) && u in s.threads
    ensures var s' := Scheduling.Step(s, a);
      && u in s'.threads && s'.threads[u].initPrio == s.threads[u].initPrio
      && (s.threads[u].stat != Init ==> s'.threads[u].stat != Init)
      && (a != Startup(u) && !(a.NewPriority? && a.thread == u) ==> s'.threads[u].prio == s.threads[u].prio)
    ensures s.threads[u].stat == Suspend && a != Resumption(u) && a != Expiry(u)
            && !(a.Finish? && s.current == Some(u)) ==>
              Scheduling.Step(s, a).threads[u].stat == Suspend
  {
    hide Schedule, SwitchTo, StartScheduler;
    if a.Begin? {
      FirstPass(s, u);
    } else if a.Reschedule? {
      AnyPass(s, u);
    }
  }

  lemma FirstPass(s: State, u: nat)
    requires Inv(s) && Enabled(s, Begin) && u in s.threads
    ensures var s' := Scheduling.Step(s, Begin);
      && u in s'.threads && s'.threads[u].initPrio == s.threads[u].initPrio
      && s'.threads[u].prio == s.threads[u].prio && (s.threads[u].stat != Init ==> s'.threads[u].stat != Init)
      && (s.threads[u].stat == Suspend ==> s'.threads[u].stat == Suspend)
  {
    var p, to := Candidate(s);
  }

  lemma AnyPass(s: State, u: nat)
    requires Inv(s) && Enabled(s, Reschedule) && u in s.threads
    ensures var s' := Scheduling.Step(s, Reschedule);
      && u in s'.threads && s'.threads[u].initPrio == s.threads[u].initPrio
      && s'.threads[u].prio == s.threads[u].prio && (s.threads[u].stat != Init ==> s'.threads[u].stat != Init)
      && (s.threads[u].stat == Suspend ==> s'.threads[u].stat == Suspend)
  {
    if s.group != {} { var p, to := Candidate(s); }
  }

  /** A thread that has not been started is given its initial priority when it is. */
  lemma StartedThread(s: State, a: Action, u: nat)
    requires Inv(s) && Enabled(s, a) && u in s.threads && a == Startup(u)
    ensures var s' := Scheduling.Step(s, a); u in s'.threads && s'.threads[u].prio == s.threads[u].initPrio
  {}

  lemma SameThreads(s: State, a: Action, u: nat)
    requires Inv(s) && Enabled(s, a)
    ensures u in Scheduling.Step(s, a).threads <==> u in s.threads || (a.NewThread? && a.thread == u)
  {
    if a.Begin? || a.Reschedule? {
      if s.group != {} { var p, to := Candidate(s); }
    }
  }

  // ---- every step keeps the two parts together ----------------------------------------------

  /** Only the priorities change, and no thread goes away. */
  lemma LocksPrio(l: Locks.System, prio: Keys)
    requires Locks.Inv(l) && l.prio.Keys <= prio.Keys
    ensures Locks.Inv(l.(prio := prio))
  {
    var l' := l.(prio := prio);
    forall m <- l'.mutexes ensures Locks.MutexOk(l', m) { assert Locks.MutexOk(l, m); }
    forall t <- l'.waiting ensures Locks.WaitOk(l', t) { assert Locks.WaitOk(l, t); }
  }

  lemma TakeLinks(s: System, m: nat, time: int)
    requires Linked(s) && Possible(s, Take(m, time))
    ensures Linked(Step(s, Take(m, time)))
  {
    hide Inv, Locks.Inv, Locks.Step, Asleep, Urgency, Inherited;
    var s', t, mutex := Step(s, Take(m, time)), s.kernel.current.value, s.locks.mutexes[m];
    Locks.StepKeeps(s.locks, Call(s, Take(m, time)));
    CanWait(s, m, time);
    TakeIs(s, m, time);
    assert OwnerOk(s, m);
    if MustWait(s, m, time) {
      AsleepIs(s.kernel, mutex.owner.value, t);
      forall u <- s.kernel.threads { AsleepThread(s.kernel, mutex.owner.value, t, u); }
    } else {
      RunnerPrio(s.kernel, t);
      UrgencyAt(s.kernel.threads, t);
    }
    forall u <- s'.locks.waiting ensures Sleeps(s', u) {
      if u != t { assert u in s.locks.waiting && Sleeps(s, u); }
    }
    forall k <- s'.locks.mutexes ensures OwnerOk(s', k) {
      assert OwnerOk(s, k);
    }
  }

  lemma RunnerPrio(s: State, t: nat)
    requires Inv(s) && t in s.threads
    ensures s.threads[t].prio < PRIORITIES
  {}

  lemma TakeEnabled(s: System, m: nat, time: int)
    requires Linked(s) && Possible(s, Take(m, time))
    ensures Locks.Enabled(s.locks, Call(s, Take(m, time))) && Locks.Enabled(s.locks, Call(s, Release(m)))
  {
    assert s.kernel.current.value in s.locks.waiting ==> Sleeps(s, s.kernel.current.value);
  }

  /** What a take does to the mutexes' part. */
  lemma TakeIs(s: System, m: nat, time: int)
    requires Linked(s) && Possible(s, Take(m, time))
    ensures var t, mutex, l' := s.kernel.current.value, s.locks.mutexes[m], Locks.Step(s.locks, Call(s, Take(m, time)));
      && l'.mutexes.Keys == s.locks.mutexes.Keys
      && (forall k <- l'.mutexes | k != m :: l'.mutexes[k] == s.locks.mutexes[k])
      && (MustWait(s, m, time) ==>
            && l'.prio == Inherited(s.locks.prio, mutex.owner.value, t)
            && l'.mutexes[m].owner == mutex.owner && l'.mutexes[m].original == mutex.original
            && l'.waiting.Keys == s.locks.waiting.Keys + {t})
      && (!MustWait(s, m, time) ==>
            && l'.prio == s.locks.prio && l'.waiting == s.locks.waiting
            && ((l'.mutexes[m].owner == mutex.owner && l'.mutexes[m].original == mutex.original)
                || (l'.mutexes[m].owner == Some(t) && l'.mutexes[m].original == KeyOf(s.locks.prio, t))))
  {
    assert Locks.MutexOk(s.locks, m);
    TakeEnabled(s, m, time);
    hide Inv, Urgency, Locks.Inv, Suspended;
  }

  /** What a release does to the mutexes' part. */
  lemma ReleaseIs(s: System, m: nat)
    requires Linked(s) && Possible(s, Release(m))
    ensures var t, mutex, l' := s.kernel.current.value, s.locks.mutexes[m], Locks.Step(s.locks, Call(s, Release(m)));
      && l'.mutexes.Keys == s.locks.mutexes.Keys
      && (forall k <- l'.mutexes | k != m :: l'.mutexes[k] == s.locks.mutexes[k])
      && (!IsLast(s, m) ==>
            && l'.prio == s.locks.prio && l'.waiting == s.locks.waiting
            && l'.mutexes[m].owner == mutex.owner && l'.mutexes[m].original == mutex.original)
      && (IsLast(s, m) ==>
            && l'.prio == s.locks.prio[t := mutex.original] && l'.waiting.Keys <= s.locks.waiting.Keys
            && (mutex.waiters != [] ==> mutex.waiters[0] !in l'.waiting)
            && l'.mutexes[m].owner == (if mutex.waiters == [] then None else Some(mutex.waiters[0]))
            && (mutex.waiters != [] ==> l'.mutexes[m].original == KeyOf(l'.prio, mutex.waiters[0])))
  {
    assert Locks.MutexOk(s.locks, m);
    TakeEnabled(s, m, 0);
    Locks.ReleaseShape(s.locks, s.kernel.current.value, m);
  }

  lemma ReleaseLinks(s: System, m: nat)
    requires Linked(s) && Possible(s, Release(m))
    ensures Linked(Step(s, Release(m)))
  {
    hide Inv, Locks.Inv, Locks.Step, Woken, Urgency;
    var s', t, mutex := Step(s, Release(m)), s.kernel.current.value, s.locks.mutexes[m];
    Locks.StepKeeps(s.locks, Call(s, Release(m)));
    ReleaseIs(s, m);
    assert OwnerOk(s, m);
    if IsLast(s, m) {
      CanWake(s, m);
      WokenIs(s.kernel, t, mutex.original, mutex.waiters);
      forall u <- s.kernel.threads { WokenThread(s.kernel, t, mutex.original, mutex.waiters, u); }
      if mutex.waiters != [] { UrgencyAt(s'.kernel.threads, mutex.waiters[0]); }
    }
    forall u <- s'.locks.waiting ensures Sleeps(s', u) {
      assert u in s.locks.waiting && Sleeps(s, u);
    }
    forall k <- s'.locks.mutexes ensures OwnerOk(s', k) {
      assert OwnerOk(s, k);
    }
  }

  lemma UrgencyAt(threads: map<nat, Tcb>, t: nat)
    requires t in threads
    ensures KeyOf(Urgency(threads), t) == threads[t].prio
  {}

  /** What a timeout does to the mutexes' part. */
  lemma ExpireIs(s: System, t: nat)
    requires Linked(s) && Possible(s, Expire(t))
    ensures var l' := Locks.Step(s.locks, Call(s, Expire(t)));
      && l'.mutexes.Keys == s.locks.mutexes.Keys && l'.prio == s.locks.prio
      && l'.waiting.Keys == s.locks.waiting.Keys - {t}
      && forall k <- l'.mutexes ::
           l'.mutexes[k].owner == s.locks.mutexes[k].owner && l'.mutexes[k].original == s.locks.mutexes[k].original
  {}

  lemma ExpireLinks(s: System, t: nat)
    requires Linked(s) && Possible(s, Expire(t))
    ensures Linked(Step(s, Expire(t)))
  {
    hide Scheduling.Step, Inv, Locks.Inv, Locks.Step, Enabled, Urgency;
    var s' := Step(s, Expire(t));
    CanExpire(s, t);
    StepKeeps(s.kernel, Expiry(t));
    Locks.StepKeeps(s.locks, Call(s, Expire(t)));
    ExpireIs(s, t);
    OtherUrgency(s.kernel, Expiry(t));
    forall u <- s'.locks.waiting ensures Sleeps(s', u) {
      assert u in s.locks.waiting && Sleeps(s, u);
      OtherThread(s.kernel, Expiry(t), u);
    }
    forall k <- s'.locks.mutexes ensures OwnerOk(s', k) {
      assert OwnerOk(s, k);
      if s.locks.mutexes[k].owner.Some? { OtherThread(s.kernel, Expiry(t), s.locks.mutexes[k].owner.value); }
    }
  }

  /** Only new threads, their start and changes from outside touch the priorities. */
  lemma OtherUrgency(s: State, a: Action)
    requires Inv(s) && Enabled(s, a)
    ensures var s' := Scheduling.Step(s, a);
      && Urgency(s.threads).Keys <= Urgency(s'.threads).Keys
      && (!a.NewThread? && !a.NewPriority? && !a.Startup? ==> Urgency(s'.threads) == Urgency(s.threads))
  {
    forall u { SameThreads(s, a, u); }
    forall u <- s.threads { OtherThread(s, a, u); }
    hide Scheduling.Step, Inv;
  }

  lemma OtherLinks(s: System, a: Action)
    requires Linked(s) && Possible(s, Other(a))
    ensures Linked(Step(s, Other(a)))
  {
    hide Scheduling.Step, Inv, Locks.Inv, Locks.Step, Enabled, Urgency;
    var s' := Step(s, Other(a));
    StepKeeps(s.kernel, a);
    OtherUrgency(s.kernel, a);
    LocksPrio(s.locks, Urgency(s'.kernel.threads));
    forall u <- s'.locks.waiting ensures Sleeps(s', u) {
      assert u in s.locks.waiting && Sleeps(s, u);
      OtherThread(s.kernel, a, u);
    }
    forall k <- s'.locks.mutexes ensures OwnerOk(s', k) {
      assert OwnerOk(s, k);
      if s.locks.mutexes[k].owner.Some? { OtherThread(s.kernel, a, s.locks.mutexes[k].owner.value); }
    }
  }

  lemma StepLinks(s: System, act: Act)
    requires Linked(s) && Possible(s, act)
    ensures Linked(Step(s, act))
  {
    match act
    case Take(m, time) => TakeLinks(s, m, time);
    case Release(m) => ReleaseLinks(s, m);
    case Expire(t) => ExpireLinks(s, t);
    case Other(a) => OtherLinks(s, a);
  }

  // ---- runs ---------------------------------------------------------------------------------

  ghost predicate LegalRun(s: System, acts: seq<Act>)
    requires Linked(s)
    decreases |acts|
  {
    acts != [] ==> Possible(s, acts[0]) && (StepLinks(s, acts[0]); LegalRun(Step(s, acts[0]), acts[1..]))
  }

  /** Whatever threads do with whatever mutexes, scheduler and mutexes stay in order and agree: who waits is
      suspended, who owns a mutex has been started, and an inherited priority is the thread's priority. */
  ghost function Run(s: System, acts: seq<Act>): (r: System)
    requires Linked(s) && LegalRun(s, acts)
    ensures Linked(r)
    decreases |acts|
  {
    if acts == [] then s else (StepLinks(s, acts[0]); Run(Step(s, acts[0]), acts[1..]))
  }

  // ---- inheritance --------------------------------------------------------------------------

  /** The priorities the threads were created with. */
  function Bases(threads: map<nat, Tcb>): Keys {
    map t | t in threads :: threads[t].initPrio
  }

  ghost predicate Fresh(s: System, t: nat)
    requires t in s.kernel.threads
  {
    s.kernel.threads[t].stat == Init ==> s.kernel.threads[t].prio == s.kernel.threads[t].initPrio
  }

  /** Every mutex is ordered by priority and its owner has inherited from its waiters; a thread that owns
      none has the priority it was created with. */
  ghost predicate Good(s: System) {
    Linked(s) && Priority.PriorityInv(s.locks, Bases(s.kernel.threads)) && forall t <- s.kernel.threads :: Fresh(s, t)
  }

  /** A thread takes no second mutex, and priorities are not changed from outside. */
  ghost predicate Disciplined(s: System, act: Act) {
    match act
    case Take(m, time) => Calls(s) && Priority.Single(s.locks, Call(s, act))
    case Other(a) => !a.NewPriority?
    case _ => true
  }

  /** A new thread enters. */
  lemma PriorityExtends(l: Locks.System, base: Keys, t: nat, p: int)
    requires Priority.PriorityInv(l, base) && t !in l.prio
    ensures Priority.PriorityInv(l.(prio := l.prio[t := p]), base[t := p])
  {
    var l', base' := l.(prio := l.prio[t := p]), base[t := p];
    LocksPrio(l, l'.prio);
    forall m <- l'.mutexes ensures Priority.InheritOk(l', base', m) {
      assert Priority.InheritOk(l, base, m) && Locks.MutexOk(l, m);
      forall w <- l.mutexes[m].waiters ensures w != t && KeyOf(l'.prio, w) == KeyOf(l.prio, w) {
        assert Locks.WaitOk(l, w);
      }
      SortedSameKeys(l.mutexes[m].waiters, l.prio, l'.prio);
    }
    forall u: nat ensures Priority.BaseOk(l', base', u) {
      assert Priority.BaseOk(l, base, u);
      assert forall m :: Priority.Owns(l', u, m) <==> Priority.Owns(l, u, m);
    }
  }

  lemma BasesKept(threads: map<nat, Tcb>, threads': map<nat, Tcb>)
    requires threads'.Keys == threads.Keys && forall t <- threads :: threads'[t].initPrio == threads[t].initPrio
    ensures Bases(threads') == Bases(threads)
  {}

  lemma FreshKept(s: System, s': System, u: nat)
    requires u in s.kernel.threads && u in s'.kernel.threads && Fresh(s, u)
    requires s'.kernel.threads[u].initPrio == s.kernel.threads[u].initPrio
    requires s'.kernel.threads[u].stat == Init ==>
               s.kernel.threads[u].stat == Init && s'.kernel.threads[u].prio == s.kernel.threads[u].prio
    ensures Fresh(s', u)
  {}

  lemma TakeGood(s: System, m: nat, time: int)
    requires Good(s) && Possible(s, Take(m, time)) && Disciplined(s, Take(m, time))
    ensures Good(Step(s, Take(m, time)))
  {
    hide Inv, Locks.Inv, Locks.Step, Asleep, Urgency, Bases, Priority.PriorityInv;
    var s', t, mutex := Step(s, Take(m, time)), s.kernel.current.value, s.locks.mutexes[m];
    TakeLinks(s, m, time);
    CanWait(s, m, time);
    TakeEnabled(s, m, time);
    Priority.TakeInherits(s.locks, Bases(s.kernel.threads), t, m, time);
    assert OwnerOk(s, m);
    if MustWait(s, m, time) {
      var o := mutex.owner.value;
      AsleepIs(s.kernel, o, t);
      forall u <- s.kernel.threads ensures u in s'.kernel.threads && Fresh(s', u)
        ensures s'.kernel.threads[u].initPrio == s.kernel.threads[u].initPrio
      {
        AsleepThread(s.kernel, o, t, u);
        UrgencyAt(s.kernel.threads, u);
        UrgencyAt(s'.kernel.threads, u);
        assert Fresh(s, u);
        FreshKept(s, s', u);
      }
      BasesKept(s.kernel.threads, s'.kernel.threads);
    } else {
      forall u <- s'.kernel.threads ensures Fresh(s', u) { assert Fresh(s, u); }
    }
  }

  lemma ReleaseGood(s: System, m: nat)
    requires Good(s) && Possible(s, Release(m))
    ensures Good(Step(s, Release(m)))
  {
    hide Inv, Locks.Inv, Locks.Step, Woken, Urgency, Bases, Priority.PriorityInv;
    var s', t, mutex := Step(s, Release(m)), s.kernel.current.value, s.locks.mutexes[m];
    ReleaseLinks(s, m);
    TakeEnabled(s, m, 0);
    Priority.ReleaseInherits(s.locks, Bases(s.kernel.threads), t, m);
    if IsLast(s, m) {
      CanWake(s, m);
      WokenIs(s.kernel, t, mutex.original, mutex.waiters);
      forall u <- s.kernel.threads ensures u in s'.kernel.threads && Fresh(s', u)
        ensures s'.kernel.threads[u].initPrio == s.kernel.threads[u].initPrio
      {
        WokenThread(s.kernel, t, mutex.original, mutex.waiters, u);
        UrgencyAt(s.kernel.threads, u);
        UrgencyAt(s'.kernel.threads, u);
        assert Fresh(s, u);
        FreshKept(s, s', u);
      }
      BasesKept(s.kernel.threads, s'.kernel.threads);
    } else {
      forall u <- s'.kernel.threads ensures Fresh(s', u) { assert Fresh(s, u); }
    }
  }

  lemma ExpireGood(s: System, t: nat)
    requires Good(s) && Possible(s, Expire(t))
    ensures Good(Step(s, Expire(t)))
  {
    hide Inv, Enabled, Locks.Inv, Locks.Step, Scheduling.Step, Urgency, Bases, Priority.PriorityInv;
    var s' := Step(s, Expire(t));
    ExpireLinks(s, t);
    CanExpire(s, t);
    Priority.ExpireInherits(s.locks, Bases(s.kernel.threads), t);
    forall u { SameThreads(s.kernel, Expiry(t), u); }
    forall u <- s.kernel.threads ensures u in s'.kernel.threads && Fresh(s', u)
      ensures s'.kernel.threads[u].initPrio == s.kernel.threads[u].initPrio
    {
      OtherThread(s.kernel, Expiry(t), u);
      assert Fresh(s, u);
      FreshKept(s, s', u);
    }
    BasesKept(s.kernel.threads, s'.kernel.threads);
  }

  lemma OtherGood(s: System, a: Action)
    requires Good(s) && Possible(s, Other(a)) && Disciplined(s, Other(a))
    ensures Good(Step(s, Other(a)))
  {
    hide Inv, Enabled, Locks.Inv, Locks.Step, Scheduling.Step, Priority.PriorityInv;
    var s' := Step(s, Other(a));
    OtherLinks(s, a);
    forall u { SameThreads(s.kernel, a, u); }
    forall u <- s.kernel.threads
      ensures u in s'.kernel.threads && Fresh(s', u) && s'.kernel.threads[u].prio == s.kernel.threads[u].prio
      ensures s'.kernel.threads[u].initPrio == s.kernel.threads[u].initPrio
    {
      assert Fresh(s, u);
      OtherThread(s.kernel, a, u);
      if a == Startup(u) {
        NeverStarted(s.kernel, u);
        StartedThread(s.kernel, a, u);
      }
    }
    if a.NewThread? {
      NewThreadIs(s.kernel, a);
      assert Bases(s'.kernel.threads) == Bases(s.kernel.threads)[a.thread := a.prio];
      assert Urgency(s'.kernel.threads) == s.locks.prio[a.thread := a.prio];
      PriorityExtends(s.locks, Bases(s.kernel.threads), a.thread, a.prio);
      forall u <- s'.kernel.threads ensures Fresh(s', u) { assert u != a.thread ==> Fresh(s', u); }
    } else {
      BasesKept(s.kernel.threads, s'.kernel.threads);
      assert Urgency(s'.kernel.threads) == Urgency(s.kernel.threads);
    }
  }

  lemma NeverStarted(s: State, u: nat)
    requires Inv(s) && Enabled(s, Startup(u))
    ensures s.threads[u].stat == Init
  {}

  lemma NewThreadIs(s: State, a: Action)
    requires Inv(s) && a.NewThread? && Enabled(s, a)
    ensures a.thread !in s.threads
    ensures Scheduling.Step(s, a).threads
         == s.threads[a.thread := Tcb(a.prio, a.prio, {}, Init, false, a.initTick, a.initTick)]
  {}

  lemma StepGood(s: System, act: Act)
    requires Good(s) && Possible(s, act) && Disciplined(s, act)
    ensures Good(Step(s, act))
  {
    match act
    case Take(m, time) => TakeGood(s, m, time);
    case Release(m) => ReleaseGood(s, m);
    case Expire(t) => ExpireGood(s, t);
    case Other(a) => OtherGood(s, a);
  }

  ghost predicate DisciplinedRun(s: System, acts: seq<Act>)
    requires Linked(s) && LegalRun(s, acts)
    decreases |acts|
  {
    acts != [] ==> Disciplined(s, acts[0]) && (StepLinks(s, acts[0]); DisciplinedRun(Step(s, acts[0]), acts[1..]))
  }

  /** With priority order and one mutex per thread inheritance holds in every run, on the threads of the
      scheduler and whatever else these do. */
  lemma {:induction false} EveryRun(s: System, acts: seq<Act>)
    requires Good(s) && LegalRun(s, acts) && DisciplinedRun(s, acts)
    ensures Good(Run(s, acts))
    decreases |acts|
  {
    if acts != [] {
      StepLinks(s, acts[0]);
      StepGood(s, acts[0]);
      EveryRun(Step(s, acts[0]), acts[1..]);
    }
  }

  /** The start of the system: no thread yet, and free mutexes ordered by priority. */
  ghost predicate Start(s: System) {
    && s.kernel == Runs.Initial() && Locks.Initial(s.locks) && s.locks.prio == map[]
    && forall m <- s.locks.mutexes :: s.locks.mutexes[m].flag == Prio
  }

  lemma StartGood(s: System)
    requires Start(s)
    ensures Good(s)
  {
    Runs.InitialInv();
    Priority.InitialPriority(s.locks);
    assert Urgency(map[]) == map[] && Bases(map[]) == map[];
    forall m <- s.locks.mutexes ensures OwnerOk(s, m) {}
  }

  /** No priority inversion, in any run from the start: after a scheduling pass, while the owner of a mutex
      can run, no thread has the processor that is less urgent than one that waits for the mutex. */
  lemma NeverInverted(s: System, acts: seq<Act>, m: nat, w: nat)
    requires Start(s) && Linked(s) && LegalRun(s, acts) && DisciplinedRun(s, acts)
    ensures var r := Run(s, acts);
      m in r.locks.mutexes && w in r.locks.mutexes[m].waiters ==>
        r.locks.mutexes[m].owner.Some? && w in r.kernel.threads &&
        (r.kernel.current.Some? && r.kernel.lockNest == 0 && Runs.Runnable(r.kernel, r.locks.mutexes[m].owner.value) ==>
           var k := Passed(r.kernel);
           && k.current.Some? && k.current.value in k.threads && k.threads[k.current.value].stat == Running
           && k.threads[k.current.value].prio <= r.kernel.threads[w].prio)
  {
    StartGood(s);
    EveryRun(s, acts);
    var r := Run(s, acts);
    if m in r.locks.mutexes && w in r.locks.mutexes[m].waiters {
      WaiterInherits(r, m, w);
      if r.kernel.current.Some? && r.kernel.lockNest == 0 && Runs.Runnable(r.kernel, r.locks.mutexes[m].owner.value) {
        hide Good, Linked, Inv;
        NoInversion(r.kernel, r.locks.mutexes[m], w);
      }
    }
  }

  lemma WaiterInherits(s: System, m: nat, w: nat)
    requires Good(s) && m in s.locks.mutexes && w in s.locks.mutexes[m].waiters
    ensures Inv(s.kernel) && s.locks.mutexes[m].owner.Some? && w in s.kernel.threads
    ensures KeyOf(Urgency(s.kernel.threads), s.locks.mutexes[m].owner.value) <= KeyOf(Urgency(s.kernel.threads), w)
  {
    assert Locks.MutexOk(s.locks, m) && Priority.InheritOk(s.locks, Bases(s.kernel.threads), m);
    assert Sleeps(s, w);
  }
}
