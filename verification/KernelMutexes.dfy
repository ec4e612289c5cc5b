/** The mutex of `ipc.c` on the kernel's threads: a boosted owner changes its ready queue, a blocked
    thread stands in the linked wait list of the mutex, and the next owner becomes ready.
 */
module KernelMutexes {
  import opened Wrappers
  import opened Queues
  import opened Ipc
  import opened ThreadLinks
  import opened Scheduling
  import opened ReadyLists
  import opened Mutexes
  import opened Scheduler
  import Runs = SchedulerRuns

  // ---- what a pass does for an owner ----------------------------------------------------------

  /** The kernel after rt_schedule. */
  ghost function Passed(s: State): (r: State)
    requires Inv(s) && s.current.Some?
    ensures Inv(r) && r.lockNest == s.lockNest
  {
    StepKeeps(s, Reschedule);
    Step(s, Reschedule)
  }

  /** After a pass no thread runs that is less urgent than a thread that could have run. */
  lemma PassFavours(s: State, o: nat)
    requires Inv(s) && s.current.Some? && s.lockNest == 0 && Runs.Runnable(s, o)
    ensures var s' := Passed(s);
      && s'.current.Some? && s'.current.value in s'.threads
      && s'.threads[s'.current.value].stat == Running
      && s'.threads[s'.current.value].prio <= s.threads[o].prio
  {
    Runs.ReadyBit(s, o);
    Runs.ScheduleSettles(s, o);
    Runs.ScheduleStates(s, o);
  }

  /** While the owner can run and has inherited the priorities of its waiters, no thread that is less
      urgent than one of the waiters has the processor after a pass. */
  lemma NoInversion(s: State, m: MutexState, w: nat)
    requires Inv(s) && s.current.Some? && s.lockNest == 0
    requires m.owner.Some? && Runs.Runnable(s, m.owner.value) && w in m.waiters && w in s.threads
    requires KeyOf(Urgency(s.threads), m.owner.value) <= KeyOf(Urgency(s.threads), w)
    ensures var s' := Passed(s);
      && s'.current.Some? && s'.current.value in s'.threads
      && s'.threads[s'.current.value].stat == Running
      && s'.threads[s'.current.value].prio <= s.threads[w].prio
  {
    PassFavours(s, m.owner.value);
  }

  /** The first waiter is a thread. */
  ghost predicate WaitersOf(s: State, waiters: seq<nat>) {
    waiters != [] ==> waiters[0] in s.threads && s.threads[waiters[0]].stat == Suspend
  }

  /** The kernel after the running thread t has got the priority back and the first waiter was resumed. */
  ghost function Woken(s: State, t: nat, prio: nat, waiters: seq<nat>): (r: State)
    requires Inv(s) && t in s.threads && s.threads[t].stat == Running && prio < PRIORITIES && WaitersOf(s, waiters)
    ensures Inv(r) && r.current == s.current
  {
    PriorityKeeps(s, t, prio);
    var s1 := ChangePriority(s, t, prio);
    if waiters == [] then s1 else (StepKeeps(s1, Resumption(waiters[0])); ResumeThread(s1, waiters[0]).0)
  }

  lemma WokenIs(s: State, t: nat, prio: nat, waiters: seq<nat>)
    requires Inv(s) && t in s.threads && s.threads[t].stat == Running && prio < PRIORITIES && WaitersOf(s, waiters)
    ensures var s' := Woken(s, t, prio, waiters);
      && s'.lockNest == s.lockNest && s'.threads.Keys == s.threads.Keys
      && Urgency(s'.threads) == Urgency(s.threads)[t := prio]
      && Runs.Runnable(s', t)
      && (waiters != [] ==> Runs.Runnable(s', waiters[0]) && s'.threads[waiters[0]].prio < PRIORITIES)
  {
    RestoreIs(s, t, prio);
  }

  lemma RestoreIs(s: State, t: nat, prio: nat)
    requires Inv(s) && t in s.threads && s.threads[t].stat == Running && prio < PRIORITIES
    ensures prio == s.threads[t].prio ==> ChangePriority(s, t, prio) == s
    ensures ChangePriority(s, t, prio).threads == s.threads[t := s.threads[t].(prio := prio, mask := {prio})]
  {
    assert ThreadOk(s, t, s.threads[t]);
  }

  /** When nobody waits for the mutex any more, a release leaves the processor with a thread that is less
      urgent than a ready one exactly when a more urgent ready queue than that of the restored priority is
      not empty: no pass follows. */
  lemma ReleaseUnsettled(s: State, t: nat, prio: nat)
    requires Inv(s) && s.current == Some(t) && t in s.threads && s.threads[t].stat == Running && prio < PRIORITIES
    ensures var s' := Woken(s, t, prio, []);
      && s'.current == Some(t) && t in s'.threads && s'.threads[t].stat == Running
      && ((exists u <- s'.threads :: s'.threads[u].stat == Ready && s'.threads[u].prio < s'.threads[t].prio)
          <==> exists p <- s.group :: p < prio)
  {
    var s' := Woken(s, t, prio, []);
    RestoreIs(s, t, prio);
    assert s'.group == s.group && s'.queues == s.queues;
    if u :| u in s'.threads && s'.threads[u].stat == Ready && s'.threads[u].prio < s'.threads[t].prio {
      Runs.ReadyBit(s', u);
      assert s'.threads[u].prio in s.group;
    }
    if p :| p in s.group && p < prio {
      assert QueueOk(s, p) && s.queues[p][0] in s.queues[p];
      var u := s.queues[p][0];
      assert u in s'.threads && s'.threads[u].stat == Ready && s'.threads[u].prio == p;
    }
  }

  lemma PassUrgency(s: State)
    requires Inv(s) && s.current.Some?
    ensures Urgency(Passed(s).threads) == Urgency(s.threads)
  {
    if s.lockNest == 0 {
      forall t { Runs.ScheduleStates(s, t); }
    }
  }

  // ---- the mutex ------------------------------------------------------------------------------

  /** Thread t runs and is about to block on something that thread o owns. */
  ghost predicate Blocks(s: State, o: nat, t: nat) {
    Inv(s) && o in s.threads && t in s.threads && o != t && s.current == Some(t) && s.threads[t].stat == Running
  }

  /** The kernel after t has passed its priority on to o. */
  ghost function Boosted(s: State, o: nat, t: nat): State
    requires Blocks(s, o, t)
  {
    if s.threads[t].prio < s.threads[o].prio then ChangePriority(s, o, s.threads[t].prio) else s
  }

  /** The kernel after t has then gone to sleep. */
  ghost function Asleep(s: State, o: nat, t: nat): (r: State)
    requires Blocks(s, o, t)
    ensures Inv(r) && r.current == Some(t)
  {
    BoostKeeps(s, o, t);
    SuspendKeeps(Boosted(s, o, t), t);
    SuspendThread(Boosted(s, o, t), t).0
  }

  function Inherited(prio: Keys, o: nat, t: nat): Keys {
    if KeyOf(prio, t) < KeyOf(prio, o) then prio[o := KeyOf(prio, t)] else prio
  }

  lemma BoostKeeps(s: State, o: nat, t: nat)
    requires Blocks(s, o, t)
    ensures Blocks(Boosted(s, o, t), o, t) && Boosted(s, o, t).lockNest == s.lockNest
    ensures s.threads[t].prio < PRIORITIES
    ensures Urgency(Boosted(s, o, t).threads) == Inherited(Urgency(s.threads), o, t)
  {
    assert ThreadOk(s, t, s.threads[t]);
    PriorityKeeps(s, o, s.threads[t].prio);
  }

  lemma AsleepIs(s: State, o: nat, t: nat)
    requires Blocks(s, o, t)
    ensures var s' := Asleep(s, o, t);
      && s'.current == Some(t) && s'.lockNest == s.lockNest && s'.threads.Keys == s.threads.Keys
      && Urgency(s'.threads) == Inherited(Urgency(s.threads), o, t)
  {
    BoostKeeps(s, o, t);
    SuspendedTcb(Boosted(s, o, t), t);
  }

  class KernelMutex {
    const kernel: Kernel
    const at: nat                       // the address of parent.suspend_thread
    const flag: Flag
    var value: nat
    var owner: Option<nat>
    var hold: nat
    var original: nat

    ghost function View(): MutexState
      reads this, kernel
    {
      MutexState(flag, value, owner, hold, original, Members(kernel.lists, at))
    }

    ghost function Prios(): Keys
      reads kernel
    {
      Urgency(kernel.threads)
    }

    ghost predicate Valid()
      reads this, kernel
    {
      && kernel.Valid() && kernel.IsWaitList(at) && Coherent(View())
      && (owner.Some? ==> owner.value in kernel.threads && original < PRIORITIES)
    }

    /** rt_mutex_init. */
    constructor (kernel: Kernel, at: nat, flag: Flag)
      requires kernel.Valid() && !Known(kernel.lists, at) && at !in kernel.threads
      modifies kernel`next, kernel`prev, kernel`lists
      ensures Valid() && View() == InitMutex(flag) && this.kernel == kernel && this.at == at
      ensures kernel.View() == old(kernel.View())
    {
      this.kernel, this.at, this.flag := kernel, at, flag;
      value, owner, hold, original := 1, None, 0, 0xff;
      new;
      kernel.NewWaitList(at);
    }

    ghost predicate IsRunning(t: nat)
      reads kernel
    {
      kernel.current == Some(t) && t in kernel.threads && kernel.threads[t].stat == Running
    }

    /** The owner inherits the priority of t, which goes to sleep in the wait list. */
    method Block(o: nat, t: nat)
      requires kernel.Valid() && kernel.IsWaitList(at) && Blocks(kernel.View(), o, t)
      modifies kernel`threads, kernel`group, kernel`next, kernel`prev, kernel`lists
      ensures kernel.Valid() && kernel.IsWaitList(at)
      ensures kernel.View() == Asleep(old(kernel.View()), o, t)
      ensures Members(kernel.lists, at)
           == Suspended(old(Members(kernel.lists, at)), t, flag, Inherited(old(Prios()), o, t))
      ensures kernel.threads.Keys == old(kernel.threads).Keys
      ensures OthersKept(old(kernel.lists), kernel.lists, kernel.heads, kernel.threads.Keys, at)
    {
      hide OthersKept;
      hide Inv, Wired, Resting, ReadyQueues, Shape, Suspended, Inherited, WaitsKept, ChangePriority, SuspendThread;
      BoostKeeps(kernel.View(), o, t);
      ghost var lists := kernel.lists;
      KeptSelf(lists, kernel.heads, kernel.threads.Keys);
      if kernel.threads[t].prio < kernel.threads[o].prio {
        kernel.SetPriority(o, kernel.threads[t].prio);
        WaitListKept(lists, kernel.lists, kernel.heads, kernel.threads.Keys, at);
      }
      ghost var mid := kernel.lists;
      kernel.SuspendOn(at, t, flag);
      KeptOthers(lists, mid, kernel.lists, kernel.heads, kernel.threads.Keys, at);
    }

    /** rt_mutex_take by the current thread t up to its return or suspension, and what it leaves to
        whom. */
    method TakeRegion(t: nat, time: int) returns (r: Outcome)
      requires Valid() && IsRunning(t)
      modifies this, kernel`threads, kernel`group, kernel`next, kernel`prev, kernel`lists
      ensures (View(), Prios(), r) == TakeOf(old(View()), old(Prios()), t, time)
      ensures Valid()
      ensures r != Blocked ==> kernel.View() == old(kernel.View())
      ensures r == Blocked ==> owner.Some? && Blocks(old(kernel.View()), owner.value, t)
      ensures r == Blocked ==> kernel.View() == Asleep(old(kernel.View()), owner.value, t)
      ensures kernel.threads.Keys == old(kernel.threads).Keys
      ensures OthersKept(old(kernel.lists), kernel.lists, kernel.heads, kernel.threads.Keys, at)
    {
      hide Inv, Wired, Resting, ReadyQueues, Shape, Suspended, Asleep, OthersKept;
      OthersSelf(kernel, at);
      RunnerWaitsNowhere(kernel, at, t);
      CoherentTake(View(), Prios(), t, time);
      if owner == Some(t) {
        if hold >= HOLD_MAX {
          return EFull;
        }
        hold := hold + 1;
        return EOk;
      }
      if value > 0 {
        value := value - 1;
        owner := Some(t);
        original := kernel.threads[t].prio;
        hold := hold + 1;
        return EOk;
      }
      if time == 0 {
        return ETimeout;
      }
      AsleepIs(kernel.View(), owner.value, t);
      Block(owner.value, t);
      return Blocked;
    }

    /** rt_mutex_take by the current thread t up to its return or until the processor has gone on: if
        the owner can run, then to no thread less urgent than t, which waits for it. */
    method Take(t: nat, time: int) returns (r: Outcome)
      requires Valid() && IsRunning(t)
      modifies this, kernel
      ensures (View(), Prios(), r) == TakeOf(old(View()), old(Prios()), t, time)
      ensures Valid()
      ensures r != Blocked ==> kernel.View() == old(kernel.View())
      ensures r == Blocked ==> owner.Some? && Blocks(old(kernel.View()), owner.value, t)
      ensures r == Blocked ==>
                kernel.View() == Passed(Asleep(old(kernel.View()), owner.value, t))
      ensures r == Blocked && kernel.lockNest == 0 && Runs.Runnable(old(kernel.View()), owner.value) ==>
                && kernel.current.Some? && IsRunning(kernel.current.value)
                && kernel.threads[kernel.current.value].prio <= old(kernel.threads)[t].prio
    {
      hide Inv, Wired, Resting, ReadyQueues, Shape, Asleep, TakeOf, Coherent;
      r := TakeRegion(t, time);
      if r == Blocked {
        BlockedPass(old(kernel.View()), owner.value, t);
        Pass();
      }
    }

    /** The running thread t gets its own priority back and the first waiter, if any, becomes ready. */
    method Wake(t: nat, prio: nat)
      requires kernel.Valid() && kernel.IsWaitList(at) && IsRunning(t) && prio < PRIORITIES
      modifies kernel`threads, kernel`group, kernel`next, kernel`prev, kernel`lists
      ensures kernel.Valid() && kernel.IsWaitList(at) && kernel.threads.Keys == old(kernel.threads).Keys
      ensures WaitersOf(old(kernel.View()), old(Members(kernel.lists, at)))
      ensures kernel.View() == Woken(old(kernel.View()), t, prio, old(Members(kernel.lists, at)))
      ensures Members(kernel.lists, at) == Rest(old(Members(kernel.lists, at)))
      ensures OthersKept(old(kernel.lists), kernel.lists, kernel.heads, kernel.threads.Keys, at)
    {
      hide Inv, Wired, Resting, ReadyQueues, Shape, WaitsKept, ChangePriority, ResumeThread, OthersKept;
      RestoreIs(kernel.View(), t, prio);
      FirstWaiter(kernel, at);
      ghost var lists := kernel.lists;
      KeptSelf(lists, kernel.heads, kernel.threads.Keys);
      if prio != kernel.threads[t].prio {
        kernel.SetPriority(t, prio);
        WaitListKept(lists, kernel.lists, kernel.heads, kernel.threads.Keys, at);
      }
      FirstWaiter(kernel, at);
      WokenIs(old(kernel.View()), t, prio, kernel.lists[at]);
      ghost var mid := kernel.lists;
      OthersSelf(kernel, at);
      if kernel.next[at] != at {
        kernel.ResumeFirst(at);
      }
      KeptOthers(lists, mid, kernel.lists, kernel.heads, kernel.threads.Keys, at);
    }

    /** rt_mutex_release by the current thread t up to its rescheduling, which is due when a thread was woken. */
    method ReleaseRegion(t: nat) returns (r: Outcome, woken: bool)
      requires Valid() && IsRunning(t)
      modifies this, kernel`threads, kernel`group, kernel`next, kernel`prev, kernel`lists
      ensures (View(), Prios(), r) == ReleaseOf(old(View()), old(Prios()), t)
      ensures Valid() && r != EFull && (woken <==> old(LastRelease(t)) && old(View()).waiters != [])
      ensures !old(LastRelease(t)) ==> kernel.View() == old(kernel.View())
      ensures old(LastRelease(t)) ==> old(original) < PRIORITIES && WaitersOf(old(kernel.View()), old(View()).waiters)
      ensures old(LastRelease(t)) ==>
                kernel.View() == Woken(old(kernel.View()), t, old(original), old(View()).waiters)
      ensures kernel.threads.Keys == old(kernel.threads).Keys
      ensures OthersKept(old(kernel.lists), kernel.lists, kernel.heads, kernel.threads.Keys, at)
    {
      hide Inv, Wired, Resting, ReadyQueues, Shape, Woken, Urgency, OthersKept;
      CoherentRelease(View(), Prios(), t);
      OthersSelf(kernel, at);
      if owner != Some(t) {
        return EError, false;
      }
      woken := false;
      hold := hold - 1;
      if hold == 0 {
        FirstWaiter(kernel, at);
        WokenIs(kernel.View(), t, original, Members(kernel.lists, at));
        woken := LetGo(t);
      }
      return EOk, woken;
    }

    /** rt_mutex_release by the current thread t; the processor goes on only when a thread was woken, and
        then to none less urgent than that thread or t at its own priority. */
    method Release(t: nat) returns (r: Outcome)
      requires Valid() && IsRunning(t)
      modifies this, kernel
      ensures (View(), Prios(), r) == ReleaseOf(old(View()), old(Prios()), t)
      ensures Valid() && r != EFull
      ensures !old(LastRelease(t)) ==> kernel.View() == old(kernel.View())
      ensures old(LastRelease(t)) ==> old(original) < PRIORITIES && WaitersOf(old(kernel.View()), old(View()).waiters)
      ensures old(LastRelease(t)) ==> var s := Woken(old(kernel.View()), t, old(original), old(View()).waiters);
        kernel.View() == if old(View()).waiters == [] then s else Passed(s)
      ensures old(LastRelease(t)) && old(View()).waiters != [] && kernel.lockNest == 0 ==>
                && kernel.current.Some? && IsRunning(kernel.current.value) && owner == Some(old(View()).waiters[0])
                && kernel.threads[kernel.current.value].prio <= KeyOf(Prios(), owner.value)
                && kernel.threads[kernel.current.value].prio <= old(original)
    {
      hide Inv, Wired, Resting, ReadyQueues, Shape, Woken, Urgency, OthersKept, Coherent;
      ghost var s, waiters, prio := kernel.View(), Members(kernel.lists, at), original;
      var woken;
      r, woken := ReleaseRegion(t);
      if woken {
        WokenPass(s, t, prio, waiters);
        Pass();
      }
    }

    /** The mutex goes to the first waiter or becomes free. */
    method LetGo(t: nat) returns (woken: bool)
      requires kernel.Valid() && kernel.IsWaitList(at) && IsRunning(t)
      requires owner == Some(t) && hold == 0 && value == 0 && original < PRIORITIES
      modifies this, kernel`threads, kernel`group, kernel`next, kernel`prev, kernel`lists
      ensures kernel.Valid() && kernel.IsWaitList(at) && WaitersOf(old(kernel.View()), old(View()).waiters)
      ensures kernel.View() == Woken(old(kernel.View()), t, old(original), old(View()).waiters)
      ensures woken <==> old(View()).waiters != []
      ensures !woken ==> View() == MutexState(flag, 1, None, 0, 0xff, [])
      ensures woken ==> var waiters := old(View()).waiters;
        && waiters[0] in kernel.threads && KeyOf(Prios(), waiters[0]) == original < PRIORITIES
        && View() == MutexState(flag, 0, Some(waiters[0]), 1, original, waiters[1..])
      ensures kernel.threads.Keys == old(kernel.threads).Keys
      ensures OthersKept(old(kernel.lists), kernel.lists, kernel.heads, kernel.threads.Keys, at)
    {
      hide Inv, Wired, Resting, ReadyQueues, Shape, Woken, OthersKept;
      FirstWaiter(kernel, at);
      WokenIs(kernel.View(), t, original, kernel.lists[at]);
      var next := kernel.next[at];
      woken := next != at;
      Wake(t, original);
      if woken {
        owner := Some(next);
        original := kernel.threads[next].prio;
        hold := hold + 1;
      } else {
        value := value + 1;
        owner := None;
        original := 0xff;
      }
    }

    ghost predicate LastRelease(t: nat)
      reads this
    {
      owner == Some(t) && hold == 1
    }

    /** rt_thread_timeout of a thread that waits for the mutex, before its rt_schedule. */
    method TimeoutRegion(t: nat)
      requires Valid() && t in Members(kernel.lists, at)
      modifies kernel`threads, kernel`group, kernel`next, kernel`prev, kernel`lists
      ensures View() == GiveUp(old(View()), t) && Valid() && Prios() == old(Prios())
      ensures Enabled(old(kernel.View()), Expiry(t)) && kernel.View() == Step(old(kernel.View()), Expiry(t))
      ensures kernel.threads.Keys == old(kernel.threads).Keys
      ensures OthersKept(old(kernel.lists), kernel.lists, kernel.heads, kernel.threads.Keys, at)
    {
      hide Inv, Wired, Resting, ReadyQueues, Shape, WaitsKept, OthersKept, Coherent, Urgency, Removing;
      CoherentGiveUp(View(), t);
      WaiterLeaves(kernel, at, t);
      ExpiryUrgency(kernel.View(), t);
      LeavingKept(kernel.Nodes(), kernel.lists, kernel.heads, kernel.threads.Keys, at, t);
      ghost var lists, before := Removing(kernel.lists, t), kernel.lists;
      kernel.WakeTimedOut(t);
      WaitListKept(lists, kernel.lists, kernel.heads, kernel.threads.Keys, at);
      OthersThen(before, lists, kernel.lists, kernel.heads, kernel.threads.Keys, at);
    }

    /** rt_thread_timeout of a thread that waits for the mutex. */
    method Timeout(t: nat)
      requires Valid() && kernel.current.Some? && t in Members(kernel.lists, at)
      modifies kernel
      ensures View() == GiveUp(old(View()), t) && Valid() && Prios() == old(Prios())
      ensures Enabled(old(kernel.View()), Expiry(t)) && kernel.View() == old(kernel.Scheduled(Expiry(t)))
    {
      hide Inv, Wired, Resting, ReadyQueues, Shape, OthersKept, Coherent, Urgency;
      TimeoutRegion(t);
      Pass();
    }

    /** rt_schedule leaves the mutex and the priorities alone. */
    method Pass()
      requires Valid() && kernel.current.Some?
      modifies kernel
      ensures Valid() && View() == old(View()) && Prios() == old(Prios())
      ensures kernel.View() == Passed(old(kernel.View()))
    {
      hide Inv, Wired, Resting, ReadyQueues, Shape, WaitsKept, Coherent, Urgency;
      PassUrgency(kernel.View());
      ghost var lists := kernel.lists;
      kernel.Reschedule();
      WaitListKept(lists, kernel.lists, kernel.heads, kernel.threads.Keys, at);
    }
  }

  lemma FirstWaiter(k: Kernel, at: nat)
    requires k.Valid() && k.IsWaitList(at)
    ensures WaitersOf(k.View(), k.lists[at]) && at in k.next && (k.next[at] == at <==> k.lists[at] == [])
    ensures k.lists[at] != [] ==> k.next[at] == k.lists[at][0]
  {
    WaitWalk(k.Nodes(), k.lists, k.heads, k.threads.Keys, at, 0);
    if k.lists[at] != [] { WaiterSuspended(k.View(), k.Nodes(), k.lists, k.heads, at, 0); }
  }

  lemma WaiterLeaves(k: Kernel, at: nat, t: nat)
    requires k.Valid() && k.IsWaitList(at) && t in k.lists[at]
    ensures t in k.threads && k.threads[t].stat == Suspend
    ensures at in Removing(k.lists, t) && Removing(k.lists, t)[at] == Without(k.lists[at], t)
  {
    var i :| 0 <= i < |k.lists[at]| && k.lists[at][i] == t;
    WaiterSuspended(k.View(), k.Nodes(), k.lists, k.heads, at, i);
  }

  lemma ExpiryUrgency(s: State, t: nat)
    requires Inv(s) && t in s.threads && s.threads[t].stat == Suspend
    ensures Urgency(Step(s, Expiry(t)).threads) == Urgency(s.threads)
  {}

  lemma WokenPass(s: State, t: nat, prio: nat, waiters: seq<nat>)
    requires Inv(s) && t in s.threads && s.threads[t].stat == Running && s.current == Some(t) && prio < PRIORITIES
    requires WaitersOf(s, waiters) && waiters != []
    ensures var s' := Passed(Woken(s, t, prio, waiters));
      s'.lockNest == 0 ==>
        && s'.current.Some? && s'.current.value in s'.threads
        && s'.threads[s'.current.value].stat == Running
        && s'.threads[s'.current.value].prio <= KeyOf(Urgency(s'.threads), waiters[0])
        && s'.threads[s'.current.value].prio <= prio
  {
    WokenIs(s, t, prio, waiters);
    var s1 := Woken(s, t, prio, waiters);
    PassUrgency(s1);
    if s1.lockNest == 0 {
      assert KeyOf(Urgency(s1.threads), t) == prio;
      PassFavours(s1, t);
      PassFavours(s1, waiters[0]);
    }
  }

  lemma BlockedPass(s: State, o: nat, t: nat)
    requires Blocks(s, o, t)
    ensures Inv(Asleep(s, o, t)) && Asleep(s, o, t).current == Some(t)
    ensures var s' := Passed(Asleep(s, o, t));
      s'.lockNest == 0 && Runs.Runnable(s, o) ==>
        && s'.current.Some? && s'.current.value in s'.threads
        && s'.threads[s'.current.value].stat == Running
        && s'.threads[s'.current.value].prio <= s.threads[t].prio
  {
    var s1 := Asleep(s, o, t);
    if s1.lockNest == 0 && Runs.Runnable(s, o) {
      AsleepOwner(s, o, t);
      PassFavours(s1, o);
    }
  }

  lemma AsleepOwner(s: State, o: nat, t: nat)
    requires Blocks(s, o, t) && Runs.Runnable(s, o)
    ensures Runs.Runnable(Asleep(s, o, t), o) && Asleep(s, o, t).threads[o].prio <= s.threads[t].prio
  {
    BoostKeeps(s, o, t);
    assert s.threads[o].stat == Ready;
    SuspendedTcb(Boosted(s, o, t), t);
  }

  lemma OthersSelf(k: Kernel, at: nat)
    ensures OthersKept(k.lists, k.lists, k.heads, k.threads.Keys, at)
  {}

  lemma RunnerWaitsNowhere(k: Kernel, at: nat, t: nat)
    requires k.Valid() && k.IsWaitList(at) && t in k.threads && k.threads[t].stat == Running
    ensures t !in Members(k.lists, at) && k.threads[t].prio < PRIORITIES
  {
    NotWaiting(k.View(), k.Nodes(), k.lists, k.heads, at, t);
    assert ThreadOk(k.View(), t, k.threads[t]);
  }

  lemma WaitListKept(lists: Lists, lists': Lists, heads: seq<nat>, threads: set<nat>, at: nat)
    requires WaitsKept(lists, lists', heads, threads) && at in lists && at !in heads && at !in threads
    ensures at in lists' && lists'[at] == lists[at]
  {}
}
