/** Who sleeps and who can run after the steps of mutexes, on the threads of the scheduler. */
module KernelLaws {
  import opened Wrappers
  import opened Queues
  import opened Ipc
  import opened Scheduling
  import opened KernelMutexes
  import opened KernelRuns
  import Runs = SchedulerRuns
  import Whole = KernelRuns

  /** Thread u is handed mutex m by its owner. */
  ghost predicate HandedTo(s: System, act: Act, u: nat)
    requires Linked(s) && Possible(s, act)
  {
    act.Release? && IsLast(s, act.mutex)
    && s.locks.mutexes[act.mutex].waiters != [] && s.locks.mutexes[act.mutex].waiters[0] == u
  }

  /** A thread falls asleep in a step of a mutex exactly when it takes one for which it must wait, and is woken,
      so that it can run, exactly when it is handed the mutex or its timer fires; all others are left as they
      are. */
  lemma WhoSleeps(s: System, act: Act, u: nat)
    requires Linked(s) && Possible(s, act) && !act.Other? && u in s.kernel.threads
    ensures var s' := Whole.Step(s, act);
      && u in s'.kernel.threads
      && (if act.Take? && MustWait(s, act.mutex, act.time) && s.kernel.current == Some(u)
          then s'.kernel.threads[u].stat == Suspend
          else if HandedTo(s, act, u) || act == Expire(u)
          then s.kernel.threads[u].stat == Suspend && Runs.Runnable(s'.kernel, u)
          else s'.kernel.threads[u].stat == s.kernel.threads[u].stat)
  {
    match act
    case Take(m, time) =>
      CanWait(s, m, time);
      if MustWait(s, m, time) { AsleepThread(s.kernel, s.locks.mutexes[m].owner.value, s.kernel.current.value, u); }
    case Release(m) =>
      if IsLast(s, m) {
        CanWake(s, m);
        WokenStat(s.kernel, s.kernel.current.value, s.locks.mutexes[m].original, s.locks.mutexes[m].waiters, u);
      }
    case Expire(t) =>
      CanExpire(s, t);
      ExpiredStat(s.kernel, t, u);
    case Other(_) =>
  }

  lemma WokenStat(s: State, t: nat, prio: nat, waiters: seq<nat>, u: nat)
    requires Inv(s) && t in s.threads && s.threads[t].stat == Running && prio < PRIORITIES && WaitersOf(s, waiters)
    requires u in s.threads
    ensures var s' := Woken(s, t, prio, waiters);
      && u in s'.threads
      && (if waiters != [] && u == waiters[0] then s.threads[u].stat == Suspend && Runs.Runnable(s', u)
          else s'.threads[u].stat == s.threads[u].stat)
  {
    RestoreIs(s, t, prio);
    WokenThread(s, t, prio, waiters, u);
  }

  lemma ExpiredStat(s: State, t: nat, u: nat)
    requires Inv(s) && Enabled(s, Expiry(t)) && u in s.threads
    ensures var s' := Scheduling.Step(s, Expiry(t));
      && u in s'.threads
      && (if u == t then Runs.Runnable(s', u) else s'.threads[u].stat == s.threads[u].stat)
  {}
}
