/** A run that ends in a release after which the processor is with the wrong thread: the waiter that has
    raised the owner gives up before the owner releases.
 */
module KernelWitness {
  import opened Wrappers
  import opened Queues
  import opened Ipc
  import opened Mutexes
  import opened Scheduling
  import opened ReadyLists
  import opened KernelMutexes
  import Whole = KernelRuns
  import Locks = MutexRuns
  import Runs = SchedulerRuns

  // ---- the states of the run ----------------------------------------------------------------

  function Thread(prio: nat, own: nat, stat: Stat): Tcb {
    Tcb(prio, own, if stat == Init then {} else {prio}, stat, false, 10, 10)
  }

  /** The threads of `ready` are in queue p, the others in none. */
  function InQueue(threads: map<nat, Tcb>, p: nat, ready: seq<nat>, current: Option<nat>): State
    requires p < PRIORITIES
  {
    State(threads, Runs.Initial().queues[p := ready], if ready == [] then {} else {p}, current, 0)
  }

  /** Thread 1 of priority 9, and thread 2 of priority 3. */
  function Alone(stat: Stat): map<nat, Tcb> {
    map[1 := Thread(9, 9, stat)]
  }

  function Two(prio: nat, stat1: Stat, stat2: Stat): map<nat, Tcb> {
    map[1 := Thread(prio, 9, stat1), 2 := Thread(3, 3, stat2)]
  }

  lemma KernelStart(s: State)
    requires Inv(s)
    ensures s == Runs.Initial() ==>
              Enabled(s, NewThread(1, 9, 10)) && Step(s, NewThread(1, 9, 10)) == InQueue(Alone(Init), 9, [], None)
    ensures s == InQueue(Alone(Init), 9, [], None) ==>
              Enabled(s, Startup(1)) && Step(s, Startup(1)) == InQueue(Alone(Ready), 9, [1], None)
  {
    assert Runs.Initial().queues[9 := []] == Runs.Initial().queues;
    hide Inv;
    if s == InQueue(Alone(Init), 9, [], None) {
      var s', r := Step(s, Startup(1)), InQueue(Alone(Ready), 9, [1], None);
      assert s.queues[9] + [1] == [1] && s.queues[9 := [1]] == r.queues;
      assert s'.threads == r.threads && s'.queues == r.queues && s'.group == r.group;
    }
  }

  lemma KernelBegin(s: State)
    requires Inv(s) && s == InQueue(Alone(Ready), 9, [1], None)
    ensures Enabled(s, Begin) && Step(s, Begin) == InQueue(Alone(Running), 9, [], Some(1))
  {
    InvHeads(s);
    assert Lowest(s.group, 0) == 9;
    hide Inv;
  }

  lemma KernelSecond(s: State)
    requires Inv(s)
    ensures s == InQueue(Alone(Running), 9, [], Some(1)) ==>
              && Enabled(s, NewThread(2, 3, 10))
              && Step(s, NewThread(2, 3, 10)) == InQueue(Two(9, Running, Init), 3, [], Some(1))
    ensures s == InQueue(Two(9, Running, Init), 3, [], Some(1)) ==>
              Enabled(s, Startup(2)) && Step(s, Startup(2)) == InQueue(Two(9, Running, Ready), 3, [2], Some(1))
  {
    assert Runs.Initial().queues[9 := []] == Runs.Initial().queues == Runs.Initial().queues[3 := []];
    hide Inv;
    if s == InQueue(Two(9, Running, Init), 3, [], Some(1)) {
      var s', r := Step(s, Startup(2)), InQueue(Two(9, Running, Ready), 3, [2], Some(1));
      assert s.queues[3] + [2] == [2] && s.queues[3 := [2]] == r.queues;
      assert s'.threads == r.threads && s'.queues == r.queues && s'.group == r.group;
    }
  }

  /** Thread 2 takes the processor from thread 1, which becomes ready. */
  lemma KernelSwitch(s: State)
    requires Inv(s) && s == InQueue(Two(9, Running, Ready), 3, [2], Some(1))
    ensures Enabled(s, Reschedule) && Step(s, Reschedule) == InQueue(Two(9, Ready, Running), 9, [1], Some(2))
  {
    InvHeads(s);
    assert Lowest(s.group, 0) == 3;
    hide Inv;
    var s', r := Step(s, Reschedule), InQueue(Two(9, Ready, Running), 9, [1], Some(2));
    assert s.queues[9] + [1] == [1];
    assert s'.threads == r.threads && s'.group == r.group;
    assert s'.queues == r.queues;
  }

  /** Thread 1 moves to queue 3. */
  lemma KernelBoost(s: State)
    requires Inv(s) && s == InQueue(Two(9, Ready, Running), 9, [1], Some(2))
    ensures Blocks(s, 1, 2) && Boosted(s, 1, 2) == InQueue(Two(3, Ready, Running), 3, [1], Some(2))
  {
    var s1, r := RemoveThread(s, 1), InQueue(Two(3, Ready, Running), 3, [1], Some(2));
    hide Inv;
    assert Without(s.queues[9], 1) == [];
    assert s1.queues == Runs.Initial().queues && s1.group == {};
    assert s1.queues[3] + [1] == [1];
    var s' := InsertThread(SetPriority(s1, 1, 3), 1);
    assert s'.threads == r.threads;
    assert s'.group == r.group && s'.queues == r.queues;
  }

  /** Thread 2 waits for the mutex of thread 1. */
  lemma KernelWait(s: State)
    requires Inv(s) && s == InQueue(Two(9, Ready, Running), 9, [1], Some(2))
    ensures Blocks(s, 1, 2) && Asleep(s, 1, 2) == InQueue(Two(3, Ready, Suspend), 3, [1], Some(2))
  {
    KernelBoost(s);
    var b, r := Boosted(s, 1, 2), InQueue(Two(3, Ready, Suspend), 3, [1], Some(2));
    hide Inv, Boosted;
    assert Without(b.queues[3], 2) == [1];
    var s' := SuspendThread(b, 2).0;
    assert s'.threads == r.threads;
    assert s'.group == r.group && s'.queues == r.queues;
  }

  /** So that it runs. */
  lemma KernelBack(s: State)
    requires Inv(s) && s == InQueue(Two(3, Ready, Suspend), 3, [1], Some(2))
    ensures Enabled(s, Reschedule) && Step(s, Reschedule) == InQueue(Two(3, Running, Suspend), 3, [], Some(1))
  {
    InvHeads(s);
    assert Lowest(s.group, 0) == 3;
    hide Inv;
    assert Without([1], 1) == [];
  }

  /** The waiter gives up and is ready. */
  lemma KernelTimeout(s: State)
    requires Inv(s) && s == InQueue(Two(3, Running, Suspend), 3, [], Some(1))
    ensures Enabled(s, Expiry(2)) && Step(s, Expiry(2)) == InQueue(Two(3, Running, Ready), 3, [2], Some(1))
  {
    hide Inv;
    var s', r := Step(s, Expiry(2)), InQueue(Two(3, Running, Ready), 3, [2], Some(1));
    assert s.queues[3] + [2] == [2];
    assert s'.threads == r.threads && s'.queues == r.queues && s'.group == r.group;
  }

  /** The pass that follows changes nothing, as both are of priority 3 now. */
  lemma KernelStays(s: State)
    requires Inv(s) && s == InQueue(Two(3, Running, Ready), 3, [2], Some(1))
    ensures Enabled(s, Reschedule) && Step(s, Reschedule) == s
  {
    InvHeads(s);
    assert Lowest(s.group, 0) == 3;
    hide Inv;
    assert Without([2], 1) == [2];
  }

  lemma KernelRelease(s: State)
    requires Inv(s) && s == InQueue(Two(3, Running, Ready), 3, [2], Some(1))
    ensures WaitersOf(s, []) && Woken(s, 1, 9, []) == InQueue(Two(9, Running, Ready), 3, [2], Some(1))
  {
    RestoreIs(s, 1, 9);
    hide Inv;
    assert Woken(s, 1, 9, []).threads == Two(9, Running, Ready);
  }

  // ---- the mutex ----------------------------------------------------------------------------

  /** Mutex 0, owned by thread 1 or free. */
  function Lock(prio: Keys, owner: Option<nat>, waiters: seq<nat>, log: seq<Locks.Event>): Locks.System {
    Locks.System(
      map[0 := if owner.None? then InitMutex(Prio) else MutexState(Prio, 0, owner, 1, 9, waiters)], prio,
      if waiters == [] then map[] else map[2 := Locks.Wait(0, true)], log)
  }

  const OWN: Keys := map[1 := 9, 2 := 3]
  const RAISED: Keys := map[1 := 3, 2 := 3]
  const TOOK: seq<Locks.Event> := [Locks.Took(1, 0)]
  const AFTER: seq<Locks.Event> := [Locks.Took(1, 0), Locks.Gave(1, 0)]

  lemma LockTaken(l: Locks.System)
    requires Locks.Inv(l) && l == Lock(map[1 := 9], None, [], [])
    ensures Locks.Step(l, Locks.Take(1, 0, 0)) == Lock(map[1 := 9], Some(1), [], TOOK)
  {
    hide Locks.Inv;
  }

  lemma LockWaits(l: Locks.System)
    requires Locks.Inv(l) && l == Lock(OWN, Some(1), [], TOOK)
    ensures Locks.Step(l, Locks.Take(2, 0, 5)) == Lock(RAISED, Some(1), [2], TOOK)
  {
    assert Locks.MutexOk(l, 0);
    hide Locks.Inv, Locks.MutexOk;
    var r, waits := Locks.Step(l, Locks.Take(2, 0, 5)), Lock(RAISED, Some(1), [2], TOOK);
    assert l.prio[1 := 3] == RAISED;
    assert r.prio == waits.prio && r.waiting == waits.waiting && r.log == waits.log;
    assert r.mutexes[0] == waits.mutexes[0];
    assert r.mutexes == waits.mutexes;
  }

  lemma LockExpires(l: Locks.System)
    requires Locks.Inv(l) && l == Lock(RAISED, Some(1), [2], TOOK)
    ensures Locks.Step(l, Locks.Expire(2)) == Lock(RAISED, Some(1), [], TOOK)
  {
    hide Locks.Inv;
  }

  lemma LockReleased(l: Locks.System)
    requires Locks.Inv(l) && l == Lock(RAISED, Some(1), [], TOOK)
    ensures Locks.Step(l, Locks.Release(1, 0)) == Lock(OWN, None, [], AFTER)
  {
    assert Locks.MutexOk(l, 0);
    hide Locks.Inv, Locks.MutexOk;
    var r, free := Locks.Step(l, Locks.Release(1, 0)), Lock(OWN, None, [], AFTER);
    assert l.log + [Locks.Gave(1, 0)] + [] == AFTER;
    assert r.prio == free.prio && r.waiting == free.waiting && r.log == free.log;
    assert r.mutexes == free.mutexes;
  }

  // ---- the run ------------------------------------------------------------------------------

  /** The run leads from s to s'. */
  ghost predicate Leads(s: Whole.System, acts: seq<Whole.Act>, s': Whole.System) {
    Whole.Linked(s) && Whole.LegalRun(s, acts) && Whole.Run(s, acts) == s'
  }

  lemma LeadsOn(s: Whole.System, act: Whole.Act, mid: Whole.System, acts: seq<Whole.Act>, s': Whole.System)
    requires Whole.Linked(s) && Whole.Possible(s, act) && Whole.Step(s, act) == mid && Leads(mid, acts, s')
    ensures Leads(s, [act] + acts, s')
  {
    assert ([act] + acts)[1..] == acts;
  }

  /** A step of the scheduler alone. */
  lemma OtherStep(s: Whole.System, a: Action, k: State, prio: Keys)
    requires Whole.Linked(s) && Enabled(s.kernel, a) && Whole.LeavesWaiting(s, a) && Step(s.kernel, a) == k
    requires Urgency(k.threads) == prio
    ensures Whole.Possible(s, Whole.Other(a))
    ensures Whole.Step(s, Whole.Other(a)) == Whole.System(k, s.locks.(prio := prio))
  {
    hide Step, Enabled, Inv;
  }

  /** A take that waits. */
  lemma TakeStep(s: Whole.System, o: nat, t: nat, time: int, k: State, l: Locks.System)
    requires Whole.Linked(s) && 0 in s.locks.mutexes && s.locks.mutexes[0].owner == Some(o) && time != 0
    requires Blocks(s.kernel, o, t) && Asleep(s.kernel, o, t) == k && Locks.Step(s.locks, Locks.Take(t, 0, time)) == l
    ensures Whole.Possible(s, Whole.Take(0, time)) && Whole.Step(s, Whole.Take(0, time)) == Whole.System(k, l)
  {
    hide Inv, Locks.Inv, Locks.Step, Asleep;
  }

  lemma ExpireStep(s: Whole.System, t: nat, k: State, l: Locks.System)
    requires Whole.Linked(s) && Locks.Enabled(s.locks, Locks.Expire(t))
    requires Enabled(s.kernel, Expiry(t)) && Step(s.kernel, Expiry(t)) == k && Locks.Step(s.locks, Locks.Expire(t)) == l
    ensures Whole.Possible(s, Whole.Expire(t)) && Whole.Step(s, Whole.Expire(t)) == Whole.System(k, l)
  {
    hide Inv, Locks.Inv, Locks.Step, Step, Enabled;
  }

  lemma ReleaseStep(s: Whole.System, t: nat, prio: nat, k: State, l: Locks.System)
    requires Whole.Linked(s) && s.kernel.current == Some(t) && t in s.kernel.threads && prio < PRIORITIES
    requires s.kernel.threads[t].stat == Running && 0 in s.locks.mutexes
    requires var m := s.locks.mutexes[0]; m.owner == Some(t) && m.hold == 1 && m.original == prio && m.waiters == []
    requires WaitersOf(s.kernel, []) && Woken(s.kernel, t, prio, []) == k
    requires Locks.Step(s.locks, Locks.Release(t, 0)) == l
    ensures Whole.Possible(s, Whole.Release(0)) && Whole.Step(s, Whole.Release(0)) == Whole.System(k, l)
  {
    hide Inv, Locks.Inv, Locks.Step, Woken;
  }

  lemma UrgencyOf(threads: map<nat, Tcb>, p: nat, ready: seq<nat>, current: Option<nat>)
    requires p < PRIORITIES
    ensures InQueue(threads, p, ready, current).threads == threads
  {}

  lemma LockPrio(prio: Keys, prio': Keys, owner: Option<nat>, waiters: seq<nat>, log: seq<Locks.Event>)
    ensures Lock(prio, owner, waiters, log).(prio := prio') == Lock(prio', owner, waiters, log)
  {}

  lemma LockOwned(prio: Keys, waiters: seq<nat>)
    ensures var l := Lock(prio, Some(1), waiters, TOOK);
      && 0 in l.mutexes && l.mutexes[0] == MutexState(Prio, 0, Some(1), 1, 9, waiters)
      && (waiters != [] ==> Locks.Enabled(l, Locks.Expire(2)))
  {}

  lemma Urgencies()
    ensures Urgency(Alone(Init)) == Urgency(Alone(Ready)) == Urgency(Alone(Running)) == map[1 := 9]
    ensures forall p: nat, a: Stat, b: Stat :: Urgency(Two(p, a, b)) == map[1 := p, 2 := 3]
  {}

  // the states that the run passes through
  const S0 := Whole.System(Runs.Initial(), Lock(map[], None, [], []))
  const S1 := Whole.System(InQueue(Alone(Init), 9, [], None), Lock(map[1 := 9], None, [], []))
  const S2 := Whole.System(InQueue(Alone(Ready), 9, [1], None), Lock(map[1 := 9], None, [], []))
  const S3 := Whole.System(InQueue(Alone(Running), 9, [], Some(1)), Lock(map[1 := 9], None, [], []))
  const S4 := Whole.System(InQueue(Alone(Running), 9, [], Some(1)), Lock(map[1 := 9], Some(1), [], TOOK))
  const S5 := Whole.System(InQueue(Two(9, Running, Init), 3, [], Some(1)), Lock(OWN, Some(1), [], TOOK))
  const S6 := Whole.System(InQueue(Two(9, Running, Ready), 3, [2], Some(1)), Lock(OWN, Some(1), [], TOOK))
  const S7 := Whole.System(InQueue(Two(9, Ready, Running), 9, [1], Some(2)), Lock(OWN, Some(1), [], TOOK))
  const S8 := Whole.System(InQueue(Two(3, Ready, Suspend), 3, [1], Some(2)), Lock(RAISED, Some(1), [2], TOOK))
  const S9 := Whole.System(InQueue(Two(3, Running, Suspend), 3, [], Some(1)), Lock(RAISED, Some(1), [2], TOOK))
  const S10 := Whole.System(InQueue(Two(3, Running, Ready), 3, [2], Some(1)), Lock(RAISED, Some(1), [], TOOK))
  const S11 := Whole.System(InQueue(Two(9, Running, Ready), 3, [2], Some(1)), Lock(OWN, None, [], AFTER))

  lemma Step0()
    requires Whole.Linked(S0)
    ensures Whole.Possible(S0, Whole.Other(NewThread(1, 9, 10)))
    ensures Whole.Step(S0, Whole.Other(NewThread(1, 9, 10))) == S1
  {
    Urgencies();
    UrgencyOf(Alone(Init), 9, [], None);
    LockPrio(map[], map[1 := 9], None, [], []);
    hide Whole.Possible, Whole.Step, Whole.Linked, Whole.Calls, Enabled, Step, Inv, Urgency, Locks.Inv, Locks.Step;
    hide Asleep, Woken, InQueue, Two, Alone, Lock, Thread;
    KernelOf(S0);
    KernelStart(S0.kernel);
    OtherStep(S0, NewThread(1, 9, 10), S1.kernel, map[1 := 9]);
  }

  lemma Step1()
    requires Whole.Linked(S1)
    ensures Whole.Possible(S1, Whole.Other(Startup(1)))
    ensures Whole.Step(S1, Whole.Other(Startup(1))) == S2
  {
    Urgencies();
    UrgencyOf(Alone(Ready), 9, [1], None);
    LockPrio(map[1 := 9], map[1 := 9], None, [], []);
    hide Whole.Possible, Whole.Step, Whole.Linked, Whole.Calls, Enabled, Step, Inv, Urgency, Locks.Inv, Locks.Step;
    hide Asleep, Woken, InQueue, Two, Alone, Lock, Thread;
    KernelOf(S1);
    KernelStart(S1.kernel);
    OtherStep(S1, Startup(1), S2.kernel, map[1 := 9]);
  }

  lemma Step2()
    requires Whole.Linked(S2)
    ensures Whole.Possible(S2, Whole.Other(Begin))
    ensures Whole.Step(S2, Whole.Other(Begin)) == S3
  {
    Urgencies();
    UrgencyOf(Alone(Running), 9, [], Some(1));
    LockPrio(map[1 := 9], map[1 := 9], None, [], []);
    hide Whole.Possible, Whole.Step, Whole.Linked, Whole.Calls, Enabled, Step, Inv, Urgency, Locks.Inv, Locks.Step;
    hide Asleep, Woken, InQueue, Two, Alone, Lock, Thread;
    KernelOf(S2);
    KernelBegin(S2.kernel);
    OtherStep(S2, Begin, S3.kernel, map[1 := 9]);
  }

  lemma Step3()
    requires Whole.Linked(S3)
    ensures Whole.Possible(S3, Whole.Take(0, 0))
    ensures Whole.Step(S3, Whole.Take(0, 0)) == S4
  {
    LockTaken(S3.locks);
    hide Step, Inv, Locks.Inv, Locks.Step, Urgency, Asleep, Enabled;
  }

  lemma Step4()
    requires Whole.Linked(S4)
    ensures Whole.Possible(S4, Whole.Other(NewThread(2, 3, 10)))
    ensures Whole.Step(S4, Whole.Other(NewThread(2, 3, 10))) == S5
  {
    Urgencies();
    UrgencyOf(Two(9, Running, Init), 3, [], Some(1));
    LockPrio(map[1 := 9], OWN, Some(1), [], TOOK);
    hide Whole.Possible, Whole.Step, Whole.Linked, Whole.Calls, Enabled, Step, Inv, Urgency, Locks.Inv, Locks.Step;
    hide Asleep, Woken, InQueue, Two, Alone, Lock, Thread;
    KernelOf(S4);
    KernelSecond(S4.kernel);
    OtherStep(S4, NewThread(2, 3, 10), S5.kernel, OWN);
  }

  lemma Step5()
    requires Whole.Linked(S5)
    ensures Whole.Possible(S5, Whole.Other(Startup(2)))
    ensures Whole.Step(S5, Whole.Other(Startup(2))) == S6
  {
    Urgencies();
    UrgencyOf(Two(9, Running, Ready), 3, [2], Some(1));
    LockPrio(OWN, OWN, Some(1), [], TOOK);
    hide Whole.Possible, Whole.Step, Whole.Linked, Whole.Calls, Enabled, Step, Inv, Urgency, Locks.Inv, Locks.Step;
    hide Asleep, Woken, InQueue, Two, Alone, Lock, Thread;
    KernelOf(S5);
    KernelSecond(S5.kernel);
    OtherStep(S5, Startup(2), S6.kernel, OWN);
  }

  lemma Step6()
    requires Whole.Linked(S6)
    ensures Whole.Possible(S6, Whole.Other(Reschedule))
    ensures Whole.Step(S6, Whole.Other(Reschedule)) == S7
  {
    Urgencies();
    UrgencyOf(Two(9, Ready, Running), 9, [1], Some(2));
    LockPrio(OWN, OWN, Some(1), [], TOOK);
    hide Whole.Possible, Whole.Step, Whole.Linked, Whole.Calls, Enabled, Step, Inv, Urgency, Locks.Inv, Locks.Step;
    hide Asleep, Woken, InQueue, Two, Alone, Lock, Thread;
    KernelOf(S6);
    KernelSwitch(S6.kernel);
    OtherStep(S6, Reschedule, S7.kernel, OWN);
  }

  lemma Step7()
    requires Whole.Linked(S7)
    ensures Whole.Possible(S7, Whole.Take(0, 5))
    ensures Whole.Step(S7, Whole.Take(0, 5)) == S8
  {
    LockOwned(OWN, []);
    hide Whole.Possible, Whole.Step, Whole.Linked, Whole.Calls, Enabled, Step, Inv, Urgency, Locks.Inv, Locks.Step;
    hide Asleep, Woken, InQueue, Two, Alone, Lock, Thread;
    KernelOf(S7);
    LockWaits(S7.locks);
    KernelWait(S7.kernel);
    TakeStep(S7, 1, 2, 5, S8.kernel, S8.locks);
  }

  lemma Step8()
    requires Whole.Linked(S8)
    ensures Whole.Possible(S8, Whole.Other(Reschedule))
    ensures Whole.Step(S8, Whole.Other(Reschedule)) == S9
  {
    Urgencies();
    UrgencyOf(Two(3, Running, Suspend), 3, [], Some(1));
    LockPrio(RAISED, RAISED, Some(1), [2], TOOK);
    hide Whole.Possible, Whole.Step, Whole.Linked, Whole.Calls, Enabled, Step, Inv, Urgency, Locks.Inv, Locks.Step;
    hide Asleep, Woken, InQueue, Two, Alone, Lock, Thread;
    KernelOf(S8);
    KernelBack(S8.kernel);
    OtherStep(S8, Reschedule, S9.kernel, RAISED);
  }

  lemma Step9()
    requires Whole.Linked(S9)
    ensures Whole.Possible(S9, Whole.Expire(2))
    ensures Whole.Step(S9, Whole.Expire(2)) == S10
  {
    LockOwned(RAISED, [2]);
    hide Whole.Possible, Whole.Step, Whole.Linked, Whole.Calls, Enabled, Step, Inv, Urgency, Locks.Inv, Locks.Step;
    hide Asleep, Woken, InQueue, Two, Alone, Lock, Thread;
    KernelOf(S9);
    LockExpires(S9.locks);
    KernelTimeout(S9.kernel);
    ExpireStep(S9, 2, S10.kernel, S10.locks);
  }

  lemma Step10()
    requires Whole.Linked(S10)
    ensures Whole.Possible(S10, Whole.Release(0))
    ensures Whole.Step(S10, Whole.Release(0)) == S11
  {
    LockOwned(RAISED, []);
    assert S10.kernel.current == Some(1) && 1 in S10.kernel.threads && S10.kernel.threads[1].stat == Running;
    hide Whole.Possible, Whole.Step, Whole.Linked, Whole.Calls, Enabled, Step, Inv, Urgency, Locks.Inv, Locks.Step;
    hide Asleep, Woken, InQueue, Two, Alone, Lock, Thread;
    KernelOf(S10);
    LockReleased(S10.locks);
    KernelRelease(S10.kernel);
    ReleaseStep(S10, 1, 9, S11.kernel, S11.locks);
  }

  lemma KernelOf(s: Whole.System)
    requires Whole.Linked(s)
    ensures Inv(s.kernel) && Locks.Inv(s.locks)
  {}

  /** In a run from the start thread 1 takes the mutex, thread 2 waits for it, raises thread 1 and gives up,
      and thread 1 releases. */
  const TAIL: seq<Whole.Act> :=
    [Whole.Take(0, 5)] + ([Whole.Other(Reschedule)] + ([Whole.Expire(2)] + ([Whole.Release(0)] + [])))
  const MIDDLE: seq<Whole.Act> :=
    [Whole.Take(0, 0)] + ([Whole.Other(NewThread(2, 3, 10))] +
    ([Whole.Other(Startup(2))] + ([Whole.Other(Reschedule)] + TAIL)))
  const ACTS: seq<Whole.Act> :=
    [Whole.Other(NewThread(1, 9, 10))] + ([Whole.Other(Startup(1))] + ([Whole.Other(Begin)] + MIDDLE))

  lemma Tail()
    requires Whole.Linked(S7)
    ensures Leads(S7, TAIL, S11)
  {
    hide Whole.Linked, Whole.Possible, Whole.Step, Leads, InQueue, Two, Alone, Lock, Thread;
    Step7();
    Whole.StepLinks(S7, Whole.Take(0, 5));
    Step8();
    Whole.StepLinks(S8, Whole.Other(Reschedule));
    Step9();
    Whole.StepLinks(S9, Whole.Expire(2));
    Step10();
    Whole.StepLinks(S10, Whole.Release(0));
    NoMore(S11);
    LeadsOn(S10, Whole.Release(0), S11, [], S11);
    var r10: seq<Whole.Act> := [Whole.Release(0)] + [];
    LeadsOn(S9, Whole.Expire(2), S10, r10, S11);
    var r9 := [Whole.Expire(2)] + r10;
    LeadsOn(S8, Whole.Other(Reschedule), S9, r9, S11);
    var r8 := [Whole.Other(Reschedule)] + r9;
    LeadsOn(S7, Whole.Take(0, 5), S8, r8, S11);
  }

  lemma Middle()
    requires Whole.Linked(S3)
    ensures Leads(S3, MIDDLE, S11)
  {
    hide Whole.Linked, Whole.Possible, Whole.Step, Leads, InQueue, Two, Alone, Lock, Thread;
    Step3();
    Whole.StepLinks(S3, Whole.Take(0, 0));
    Step4();
    Whole.StepLinks(S4, Whole.Other(NewThread(2, 3, 10)));
    Step5();
    Whole.StepLinks(S5, Whole.Other(Startup(2)));
    Step6();
    Whole.StepLinks(S6, Whole.Other(Reschedule));
    Tail();
    LeadsOn(S6, Whole.Other(Reschedule), S7, TAIL, S11);
    var r6 := [Whole.Other(Reschedule)] + TAIL;
    LeadsOn(S5, Whole.Other(Startup(2)), S6, r6, S11);
    var r5 := [Whole.Other(Startup(2))] + r6;
    LeadsOn(S4, Whole.Other(NewThread(2, 3, 10)), S5, r5, S11);
    var r4 := [Whole.Other(NewThread(2, 3, 10))] + r5;
    LeadsOn(S3, Whole.Take(0, 0), S4, r4, S11);
  }

  lemma FromStart()
    requires Whole.Linked(S0)
    ensures Leads(S0, ACTS, S11)
  {
    hide Whole.Linked, Whole.Possible, Whole.Step, Leads, InQueue, Two, Alone, Lock, Thread;
    Step0();
    Whole.StepLinks(S0, Whole.Other(NewThread(1, 9, 10)));
    Step1();
    Whole.StepLinks(S1, Whole.Other(Startup(1)));
    Step2();
    Whole.StepLinks(S2, Whole.Other(Begin));
    Middle();
    LeadsOn(S2, Whole.Other(Begin), S3, MIDDLE, S11);
    var r2 := [Whole.Other(Begin)] + MIDDLE;
    LeadsOn(S1, Whole.Other(Startup(1)), S2, r2, S11);
    var r1 := [Whole.Other(Startup(1))] + r2;
    LeadsOn(S0, Whole.Other(NewThread(1, 9, 10)), S1, r1, S11);
  }

  lemma NoMore(s: Whole.System)
    requires Whole.Linked(s)
    ensures Leads(s, [], s)
  {}

  /** The processor is with a thread of priority 9 and a thread of priority 3 is ready. */
  predicate Unsettled(k: State) {
    && k.current == Some(1) && k.lockNest == 0 && 1 in k.threads && 2 in k.threads
    && k.threads[1].stat == Running && k.threads[1].prio == 9
    && k.threads[2].stat == Ready && k.threads[2].prio == 3
  }

  /** From the start the run leads to a state in which thread 1 goes on at priority 9 after its release,
      although thread 2, of priority 3, is ready. */
  lemma UnsettledReached()
    ensures ACTS[|ACTS| - 1] == Whole.Release(0)
    ensures exists s, s' :: Whole.Start(s) && Leads(s, ACTS, s') && Unsettled(s'.kernel)
  {
    assert Whole.Start(S0) && Unsettled(S11.kernel);
    Whole.StartGood(S0);
    assert Whole.Linked(S0);
    hide Whole.Linked, Whole.Start, Unsettled, Leads, InQueue, Two, Alone, Lock, Thread;
    FromStart();
  }
}
