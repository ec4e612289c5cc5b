/** The steps of the runs carried out by the kernel and its mutexes, on their linked lists. */
module KernelSteps {
  import opened Wrappers
  import opened Queues
  import opened Ipc
  import opened Mutexes
  import opened Scheduling
  import opened ReadyLists
  import ThreadLinks
  import opened KernelMutexes
  import opened Scheduler
  import Whole = KernelRuns
  import Locks = MutexRuns

  /** The object stands for mutex m. */
  ghost predicate Stands(k: Kernel, x: KernelMutex, s: Whole.System, m: nat)
    reads k, x
  {
    x.kernel == k && x.Valid() && m in s.locks.mutexes && x.View() == s.locks.mutexes[m]
  }

  ghost predicate Apart(ms: map<nat, KernelMutex>) {
    forall m <- ms, n <- ms :: m != n ==> ms[m] != ms[n] && ms[m].at != ms[n].at
  }

  /** The kernel and the mutexes are in the state. */
  ghost predicate Represents(k: Kernel, ms: map<nat, KernelMutex>, s: Whole.System)
    reads k, ms.Values
  {
    && k.Valid() && k.View() == s.kernel && ms.Keys == s.locks.mutexes.Keys
    && (forall m <- ms :: Stands(k, ms[m], s, m)) && Apart(ms)
  }

  /** What a take comes to, in the terms of one mutex. */
  lemma TakeParts(s: Whole.System, m: nat, time: int)
    requires Whole.Linked(s) && Whole.Possible(s, Whole.Take(m, time))
    ensures Coherent(s.locks.mutexes[m]) && s.locks.prio == Urgency(s.kernel.threads)
    ensures var t, s' := s.kernel.current.value, Whole.Step(s, Whole.Take(m, time));
      var (mutex, _, r) := TakeOf(s.locks.mutexes[m], s.locks.prio, t, time);
      && s'.locks.mutexes == s.locks.mutexes[m := mutex]
      && (r == Blocked ==>
            && mutex.owner.Some? && Blocks(s.kernel, mutex.owner.value, t)
            && s'.kernel == Asleep(s.kernel, mutex.owner.value, t))
      && (r != Blocked ==> s'.kernel == s.kernel)
  {
    assert Locks.MutexOk(s.locks, m);
    Whole.TakeEnabled(s, m, time);
    Whole.CanWait(s, m, time);
    hide Inv, Locks.Inv, Asleep, Suspended, Urgency;
  }

  lemma Together(k: Kernel, ms: map<nat, KernelMutex>, s: Whole.System)
    requires k.Valid() && k.View() == s.kernel && ms.Keys == s.locks.mutexes.Keys && Apart(ms)
    requires forall n <- ms :: Stands(k, ms[n], s, n)
    ensures Represents(k, ms, s)
  {}

  lemma OneBefore(k: Kernel, x: KernelMutex, m: nat, s: Whole.System)
    requires Stands(k, x, s, m) && k.View() == s.kernel && Whole.Linked(s) && Whole.Calls(s)
    ensures x.kernel == k && x.Valid() && k.current.Some? && k.current == s.kernel.current
    ensures x.IsRunning(k.current.value) && x.Prios() == s.locks.prio && x.View() == s.locks.mutexes[m]
  {}

  lemma OneAfter(k: Kernel, x: KernelMutex, m: nat, s: Whole.System)
    requires x.kernel == k && x.Valid() && m in s.locks.mutexes && x.View() == s.locks.mutexes[m]
    ensures Stands(k, x, s, m) && k.Valid()
  {}

  lemma LastIs(x: KernelMutex, k: Kernel)
    requires k.current.Some?
    ensures x.LastRelease(k.current.value) <==> x.View().owner == Some(k.current.value) && x.View().hold == 1
    ensures x.View().original == x.original
  {}

  lemma OwnerIs(x: KernelMutex)
    ensures x.View().owner == x.owner
  {}

  lemma CallsFrom(s: Whole.System, m: nat, time: int)
    ensures Whole.Linked(s) && Whole.Possible(s, Whole.Take(m, time)) ==> Whole.Calls(s) && m in s.locks.mutexes
    ensures Whole.Linked(s) && Whole.Possible(s, Whole.Release(m)) ==> Whole.Calls(s) && m in s.locks.mutexes
  {}

  /** rt_mutex_take by the running thread, at the mutex alone. */
  method TakeOne(k: Kernel, x: KernelMutex, m: nat, time: int, ghost s: Whole.System) returns (r: Outcome)
    requires Stands(k, x, s, m) && k.View() == s.kernel
    requires Whole.Linked(s) && Whole.Possible(s, Whole.Take(m, time))
    modifies k, x
    ensures k.Valid() && k.View() == Whole.Step(s, Whole.Take(m, time)).kernel
    ensures Stands(k, x, Whole.Step(s, Whole.Take(m, time)), m)
    ensures k.threads.Keys == old(k.threads).Keys
    ensures OthersKept(old(k.lists), k.lists, k.heads, k.threads.Keys, x.at)
  {
    hide *;
    CallsFrom(s, m, time);
    OneBefore(k, x, m, s);
    TakeParts(s, m, time);
    r := x.TakeRegion(k.current.value, time);
    OwnerIs(x);
    OneAfter(k, x, m, Whole.Step(s, Whole.Take(m, time)));
  }

  /** The fields of the object and its list of the given lists are those of the mutex. */
  ghost predicate Was(x: KernelMutex, k: Kernel, lists: ThreadLinks.Lists, threads: set<nat>, mutex: MutexState)
    reads x
  {
    && x.kernel == k && x.at in lists && x.at !in k.heads && x.at !in threads
    && MutexState(x.flag, x.value, x.owner, x.hold, x.original, lists[x.at]) == mutex && Coherent(mutex)
    && (x.owner.Some? ==> x.owner.value in threads && x.original < PRIORITIES)
  }

  lemma StandsIs(k: Kernel, x: KernelMutex, s: Whole.System, m: nat)
    requires k.Valid() && m in s.locks.mutexes
    ensures Stands(k, x, s, m) <==> Was(x, k, k.lists, k.threads.Keys, s.locks.mutexes[m])
  {}

  lemma Before(k: Kernel, ms: map<nat, KernelMutex>, s: Whole.System)
    requires Represents(k, ms, s)
    ensures k.Valid() && k.View() == s.kernel && ms.Keys == s.locks.mutexes.Keys && Apart(ms)
    ensures forall n <- ms :: Stands(k, ms[n], s, n) && Was(ms[n], k, k.lists, k.threads.Keys, s.locks.mutexes[n])
  {
    forall n <- ms ensures Was(ms[n], k, k.lists, k.threads.Keys, s.locks.mutexes[n]) {
      assert Stands(k, ms[n], s, n);
      StandsIs(k, ms[n], s, n);
    }
  }

  lemma ApartAt(ms: map<nat, KernelMutex>, n: nat, m: nat)
    requires Apart(ms) && n in ms && m in ms && n != m
    ensures ms[n] != ms[m] && ms[n].at != ms[m].at
  {}

  lemma ElsewhereKept(k: Kernel, x: KernelMutex, lists: ThreadLinks.Lists, mutex: MutexState, o: nat)
    requires Was(x, k, lists, k.threads.Keys, mutex) && x.at != o
    requires OthersKept(lists, k.lists, k.heads, k.threads.Keys, o)
    ensures Was(x, k, k.lists, k.threads.Keys, mutex)
  {}

  lemma TakeKeepsOthers(s: Whole.System, m: nat, time: int)
    requires Whole.Linked(s) && Whole.Possible(s, Whole.Take(m, time))
    ensures var s' := Whole.Step(s, Whole.Take(m, time));
      && m in s.locks.mutexes && s'.locks.mutexes.Keys == s.locks.mutexes.Keys
      && forall n <- s.locks.mutexes | n != m :: s'.locks.mutexes[n] == s.locks.mutexes[n]
  {
    TakeParts(s, m, time);
  }

  /** rt_mutex_take by the running thread. */
  method TakeMutex(k: Kernel, ms: map<nat, KernelMutex>, m: nat, time: int, ghost s: Whole.System)
    returns (r: Outcome)
    requires Represents(k, ms, s) && Whole.Linked(s) && Whole.Possible(s, Whole.Take(m, time))
    modifies k, ms.Values
    ensures Represents(k, ms, Whole.Step(s, Whole.Take(m, time)))
  {
    hide *;
    Before(k, ms, s);
    ghost var s', lists := Whole.Step(s, Whole.Take(m, time)), k.lists;
    TakeKeepsOthers(s, m, time);
    r := TakeOne(k, ms[m], m, time, s);
    forall n <- ms ensures Stands(k, ms[n], s', n) {
      if n != m {
        ApartAt(ms, n, m);
        ElsewhereKept(k, ms[n], lists, s.locks.mutexes[n], ms[m].at);
        StandsIs(k, ms[n], s', n);
      }
    }
    Together(k, ms, s');
  }

  /** What a release comes to, in the terms of one mutex. */
  lemma ReleaseParts(s: Whole.System, m: nat)
    requires Whole.Linked(s) && Whole.Possible(s, Whole.Release(m))
    ensures Coherent(s.locks.mutexes[m]) && s.locks.prio == Urgency(s.kernel.threads)
    ensures var t, s', mutex := s.kernel.current.value, Whole.Step(s, Whole.Release(m)), s.locks.mutexes[m];
      && s'.locks.mutexes == s.locks.mutexes[m := ReleaseOf(mutex, s.locks.prio, t).0]
      && (mutex.owner == Some(t) && mutex.hold == 1 ==>
            && 0 <= mutex.original < PRIORITIES && WaitersOf(s.kernel, mutex.waiters)
            && s'.kernel == Woken(s.kernel, t, mutex.original, mutex.waiters))
      && (!(mutex.owner == Some(t) && mutex.hold == 1) ==> s'.kernel == s.kernel)
  {
    assert Locks.MutexOk(s.locks, m);
    Whole.TakeEnabled(s, m, 0);
    if Whole.IsLast(s, m) { Whole.CanWake(s, m); }
    hide Inv, Locks.Inv, Woken, Urgency;
  }

  lemma ReleaseKeepsOthers(s: Whole.System, m: nat)
    requires Whole.Linked(s) && Whole.Possible(s, Whole.Release(m))
    ensures var s' := Whole.Step(s, Whole.Release(m));
      && m in s.locks.mutexes && s'.locks.mutexes.Keys == s.locks.mutexes.Keys
      && forall n <- s.locks.mutexes | n != m :: s'.locks.mutexes[n] == s.locks.mutexes[n]
  {
    ReleaseParts(s, m);
  }

  /** rt_mutex_release by the running thread, at the mutex alone. */
  method ReleaseOne(k: Kernel, x: KernelMutex, m: nat, ghost s: Whole.System) returns (r: Outcome, woken: bool)
    requires Stands(k, x, s, m) && k.View() == s.kernel
    requires Whole.Linked(s) && Whole.Possible(s, Whole.Release(m))
    modifies k, x
    ensures k.Valid() && k.View() == Whole.Step(s, Whole.Release(m)).kernel
    ensures Stands(k, x, Whole.Step(s, Whole.Release(m)), m)
    ensures k.threads.Keys == old(k.threads).Keys
    ensures OthersKept(old(k.lists), k.lists, k.heads, k.threads.Keys, x.at)
  {
    hide *;
    CallsFrom(s, m, 0);
    OneBefore(k, x, m, s);
    LastIs(x, k);
    ReleaseParts(s, m);
    r, woken := x.ReleaseRegion(k.current.value);
    OneAfter(k, x, m, Whole.Step(s, Whole.Release(m)));
  }

  /** rt_mutex_release by the running thread, up to its rescheduling. */
  method ReleaseMutex(k: Kernel, ms: map<nat, KernelMutex>, m: nat, ghost s: Whole.System)
    returns (r: Outcome, woken: bool)
    requires Represents(k, ms, s) && Whole.Linked(s) && Whole.Possible(s, Whole.Release(m))
    modifies k, ms.Values
    ensures Represents(k, ms, Whole.Step(s, Whole.Release(m)))
  {
    hide *;
    Before(k, ms, s);
    ghost var s', lists := Whole.Step(s, Whole.Release(m)), k.lists;
    ReleaseKeepsOthers(s, m);
    r, woken := ReleaseOne(k, ms[m], m, s);
    forall n <- ms ensures Stands(k, ms[n], s', n) {
      if n != m {
        ApartAt(ms, n, m);
        ElsewhereKept(k, ms[n], lists, s.locks.mutexes[n], ms[m].at);
        StandsIs(k, ms[n], s', n);
      }
    }
    Together(k, ms, s');
  }

  /** What a timeout comes to, in the terms of one mutex. */
  lemma ExpireParts(s: Whole.System, t: nat)
    requires Whole.Linked(s) && Whole.Possible(s, Whole.Expire(t))
    ensures var m, s' := s.locks.waiting[t].mutex, Whole.Step(s, Whole.Expire(t));
      && m in s.locks.mutexes && t in s.locks.mutexes[m].waiters && Enabled(s.kernel, Expiry(t))
      && s'.kernel == Step(s.kernel, Expiry(t))
      && s'.locks.mutexes == s.locks.mutexes[m := GiveUp(s.locks.mutexes[m], t)]
  {
    assert Locks.WaitOk(s.locks, t);
    Whole.CanExpire(s, t);
    hide Inv, Locks.Inv, Step, Enabled;
  }

  /** rt_thread_timeout of a thread that waits for mutex m, at the mutex alone. */
  method ExpireOne(k: Kernel, x: KernelMutex, t: nat, m: nat, ghost s: Whole.System)
    requires Stands(k, x, s, m) && k.View() == s.kernel
    requires Whole.Linked(s) && Whole.Possible(s, Whole.Expire(t)) && s.locks.waiting[t].mutex == m
    modifies k
    ensures k.Valid() && k.View() == Whole.Step(s, Whole.Expire(t)).kernel
    ensures Stands(k, x, Whole.Step(s, Whole.Expire(t)), m)
    ensures k.threads.Keys == old(k.threads).Keys
    ensures OthersKept(old(k.lists), k.lists, k.heads, k.threads.Keys, x.at)
  {
    ExpireParts(s, t);
    hide OthersKept, Coherent, Inv, Step, Whole.Step, Whole.Linked, Wired, Resting, ReadyQueues, GiveUp;
    x.TimeoutRegion(t);
  }

  /** The part of rt_thread_timeout before rt_schedule, of a thread that waits for mutex m. */
  method ExpireWait(k: Kernel, ms: map<nat, KernelMutex>, t: nat, m: nat, ghost s: Whole.System)
    requires Represents(k, ms, s) && Whole.Linked(s) && Whole.Possible(s, Whole.Expire(t))
    requires s.locks.waiting[t].mutex == m
    modifies k
    ensures Represents(k, ms, Whole.Step(s, Whole.Expire(t)))
  {
    hide *;
    Before(k, ms, s);
    ExpireParts(s, t);
    ghost var s', lists := Whole.Step(s, Whole.Expire(t)), k.lists;
    ExpireOne(k, ms[m], t, m, s);
    forall n <- ms ensures Stands(k, ms[n], s', n) {
      if n != m {
        ApartAt(ms, n, m);
        ElsewhereKept(k, ms[n], lists, s.locks.mutexes[n], ms[m].at);
        StandsIs(k, ms[n], s', n);
      }
    }
    Together(k, ms, s');
  }

  lemma NowhereKept(k: Kernel, x: KernelMutex, lists: ThreadLinks.Lists, mutex: MutexState)
    requires Was(x, k, lists, k.threads.Keys, mutex) && WaitsKept(lists, k.lists, k.heads, k.threads.Keys)
    ensures Was(x, k, k.lists, k.threads.Keys, mutex)
  {}

  lemma PassParts(s: Whole.System)
    requires Whole.Linked(s) && Whole.Possible(s, Whole.Other(Reschedule))
    ensures var s' := Whole.Step(s, Whole.Other(Reschedule));
      && s.kernel.current.Some? && Inv(s.kernel) && Enabled(s.kernel, Reschedule)
      && s'.kernel == Step(s.kernel, Reschedule) && s'.locks.mutexes == s.locks.mutexes
  {}

  lemma RunsSome(k: Kernel, s: State)
    requires k.View() == s && s.current.Some?
    ensures k.current.Some?
  {}

  /** rt_schedule. */
  method PassOn(k: Kernel, ms: map<nat, KernelMutex>, ghost s: Whole.System)
    requires Represents(k, ms, s) && Whole.Linked(s) && Whole.Possible(s, Whole.Other(Reschedule))
    modifies k
    ensures Represents(k, ms, Whole.Step(s, Whole.Other(Reschedule)))
  {
    hide *;
    Before(k, ms, s);
    ghost var s', lists := Whole.Step(s, Whole.Other(Reschedule)), k.lists;
    PassParts(s);
    RunsSome(k, s.kernel);
    k.Reschedule();
    forall n <- ms ensures Stands(k, ms[n], s', n) {
      NowhereKept(k, ms[n], lists, s.locks.mutexes[n]);
      StandsIs(k, ms[n], s', n);
    }
    Together(k, ms, s');
  }
}
