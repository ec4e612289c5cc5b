/** What takes and releases of a mutex give back, told from the state before them. */
module MutexLaws {
  import opened Wrappers
  import opened Queues
  import opened Ipc
  import opened Mutexes
  import Runs = MutexRuns

  /** A take succeeds at once exactly if the mutex is free or the caller's own and taken less than 255 times; it
      then counts. It is refused exactly if the caller has taken it 255 times; with somebody else's mutex the
      caller waits, as long as it has time, and the owner becomes at least as urgent. */
  lemma TakeOutcome(m: MutexState, prio: Keys, t: nat, time: int)
    requires Coherent(m) && t !in m.waiters
    ensures var (m', prio', r) := TakeOf(m, prio, t, time);
      && (r == EOk <==> m.owner.None? || (m.owner == Some(t) && m.hold < 255))
      && (r == EFull <==> m.owner == Some(t) && m.hold == 255)
      && (r == ETimeout <==> m.owner.Some? && m.owner != Some(t) && time == 0)
      && (r == Blocked <==> m.owner.Some? && m.owner != Some(t) && time != 0)
      && (r == EOk ==> m'.owner == Some(t) && m'.hold == m.hold + 1 && m'.waiters == m.waiters && prio' == prio)
      && (r == EOk ==> m'.original == if m.owner.None? then KeyOf(prio, t) else m.original)
      && (r != EOk ==> m'.owner == m.owner && m'.hold == m.hold && m'.original == m.original)
      && (r == EFull || r == ETimeout ==> m' == m && prio' == prio)
      && (r == Blocked ==>
            && (forall x :: x in m'.waiters <==> x in m.waiters || x == t)
            && (forall x: nat :: m.owner != Some(x) ==> KeyOf(prio', x) == KeyOf(prio, x))
            && KeyOf(prio', m.owner.value) == Least(KeyOf(prio, m.owner.value), KeyOf(prio, t)))
  {
    SuspendedElems(m.waiters, t, m.flag, TakeOf(m, prio, t, time).1);
  }

  function Least(a: int, b: int): int {
    if a < b then a else b
  }

  /** A release succeeds exactly for the owner. It counts down; the last one gives the owner the priority kept for
      it, and the mutex to the first waiter, with that one's priority kept, or to nobody. */
  lemma ReleaseOutcome(m: MutexState, prio: Keys, t: nat)
    requires Coherent(m)
    ensures var (m', prio', r) := ReleaseOf(m, prio, t);
      && (r == EOk <==> m.owner == Some(t)) && (r == EError <==> m.owner != Some(t))
      && (r == EError ==> m' == m && prio' == prio)
      && (r == EOk && m.hold > 1 ==> m' == m.(hold := m'.hold) && m'.hold + 1 == m.hold && prio' == prio)
      && (r == EOk && m.hold == 1 ==>
            && KeyOf(prio', t) == m.original && (forall x: nat :: x != t ==> KeyOf(prio', x) == KeyOf(prio, x))
            && (if m.waiters == [] then m' == InitMutex(m.flag)
                else m.waiters == [m'.owner.value] + m'.waiters && m'.owner.Some? && m'.hold == 1
                     && m'.original == KeyOf(prio, m'.owner.value) && m'.value == m.value))
  {}

  // ---- nested takes -------------------------------------------------------------------------

  /** Thread t takes the mutex n times, without waiting. */
  ghost function TakeTimes(m: MutexState, prio: Keys, t: nat, n: nat): (r: MutexState)
    requires Coherent(m) && t !in m.waiters && (m.owner.None? || m.owner == Some(t))
    ensures Coherent(r) && t !in r.waiters && (r.owner.None? || r.owner == Some(t))
    decreases n
  {
    if n == 0 then m
    else
      CoherentTake(m, prio, t, 0);
      TakeTimes(TakeOf(m, prio, t, 0).0, prio, t, n - 1)
  }

  ghost function ReleaseTimes(m: MutexState, prio: Keys, t: nat, n: nat): (r: (MutexState, Keys))
    requires Coherent(m)
    ensures Coherent(r.0)
    decreases n
  {
    if n == 0 then (m, prio)
    else
      CoherentRelease(m, prio, t);
      ReleaseTimes(ReleaseOf(m, prio, t).0, ReleaseOf(m, prio, t).1, t, n - 1)
  }

  /** Takes by one thread are counted up to 255. */
  lemma {:induction false} TakesCount(m: MutexState, prio: Keys, t: nat, n: nat)
    requires Coherent(m) && m.owner == Some(t) && m.hold + n <= 255
    ensures TakeTimes(m, prio, t, n) == m.(hold := m.hold + n)
    decreases n
  {
    if n > 0 {
      TakeOutcome(m, prio, t, 0);
      CoherentTake(m, prio, t, 0);
      TakesCount(TakeOf(m, prio, t, 0).0, prio, t, n - 1);
    }
  }

  lemma {:induction false} ReleasesCount(m: MutexState, prio: Keys, t: nat, n: nat)
    requires Coherent(m) && m.owner == Some(t) && n < m.hold
    ensures ReleaseTimes(m, prio, t, n) == (m.(hold := m.hold - n), prio)
    decreases n
  {
    if n > 0 {
      ReleaseOutcome(m, prio, t);
      CoherentRelease(m, prio, t);
      ReleasesCount(ReleaseOf(m, prio, t).0, prio, t, n - 1);
    }
  }

  lemma {:induction false} ReleasesSplit(m: MutexState, prio: Keys, t: nat, n: nat)
    requires Coherent(m)
    ensures var (m1, prio1) := ReleaseTimes(m, prio, t, n);
      ReleaseTimes(m, prio, t, n + 1) == (ReleaseOf(m1, prio1, t).0, ReleaseOf(m1, prio1, t).1)
    decreases n
  {
    CoherentRelease(m, prio, t);
    if n > 0 { ReleasesSplit(ReleaseOf(m, prio, t).0, ReleaseOf(m, prio, t).1, t, n - 1); }
  }

  /** A free mutex that a thread takes up to 255 times, and nobody comes to wait for, is free again after as many
      releases, with every thread at its priority; one take more is refused. */
  lemma TakeAndGiveBack(flag: Flag, prio: Keys, t: nat, n: nat)
    requires 0 < n <= 255
    ensures Coherent(InitMutex(flag))
    ensures var m := TakeTimes(InitMutex(flag), prio, t, n); var (free, prio') := ReleaseTimes(m, prio, t, n);
      && m.owner == Some(t) && m.hold == n
      && free == InitMutex(flag) && (forall x: nat :: KeyOf(prio', x) == KeyOf(prio, x))
      && TakeOf(m, prio, t, 0).2 == if n < 255 then EOk else EFull
  {
    var first := TakeOf(InitMutex(flag), prio, t, 0).0;
    TakeOutcome(InitMutex(flag), prio, t, 0);
    CoherentTake(InitMutex(flag), prio, t, 0);
    TakesCount(first, prio, t, n - 1);
    var m := TakeTimes(InitMutex(flag), prio, t, n);
    ReleasesCount(m, prio, t, n - 1);
    ReleasesSplit(m, prio, t, n - 1);
    ReleaseOutcome(ReleaseTimes(m, prio, t, n - 1).0, prio, t);
    TakeOutcome(m, prio, t, 0);
  }

  // ---- why a wait ends ----------------------------------------------------------------------

  /** The owner of mutex m gives it up for good, and thread t is the first that waits for it. */
  predicate GivenTo(s: Runs.System, a: Runs.Action, m: nat, t: nat)
    requires m in s.mutexes
  {
    var x := s.mutexes[m];
    && a.Release? && Runs.Enabled(s, a) && a.mutex == m && x.owner == Some(a.thread) && x.hold == 1
    && x.waiters != [] && x.waiters[0] == t
  }

  /** A wait ends exactly when the owner gives the mutex up with this thread first in the list, which then owns it,
      or when the thread's timer fires, after which it does not. */
  lemma WaitEnds(s: Runs.System, a: Runs.Action, t: nat)
    requires Runs.Inv(s) && t in s.waiting
    ensures var s', m := Runs.Step(s, a), s.waiting[t].mutex;
      && m in s.mutexes && m in s'.mutexes
      && (t !in s'.waiting <==> GivenTo(s, a, m, t) || (a == Runs.Expire(t) && s.waiting[t].timed))
      && (s'.mutexes[m].owner == Some(t) <==> GivenTo(s, a, m, t))
  {
    var m := s.waiting[t].mutex;
    assert Runs.WaitOk(s, t) && Runs.MutexOk(s, m);
    if Runs.Enabled(s, a) && a.Release? {
      assert Runs.MutexOk(s, a.mutex);
      ReleaseOutcome(s.mutexes[a.mutex], s.prio, a.thread);
      if a.mutex != m && s.mutexes[a.mutex].waiters != [] {
        assert s.mutexes[a.mutex].waiters[0] in s.mutexes[a.mutex].waiters;
      }
    }
    if Runs.Enabled(s, a) && a.Take? {
      assert Runs.MutexOk(s, a.mutex);
      TakeOutcome(s.mutexes[a.mutex], s.prio, a.thread, a.time);
    }
  }

  /** A wait begins exactly with a take that blocks, for the mutex taken, and is timed exactly if the caller does
      not wait for ever. */
  lemma WaitBegins(s: Runs.System, a: Runs.Action, t: nat)
    requires Runs.Inv(s) && t !in s.waiting
    ensures var s' := Runs.Step(s, a);
      && (t in s'.waiting <==>
            a.Take? && a.thread == t && Runs.Enabled(s, a)
            && s.mutexes[a.mutex].owner.Some? && s.mutexes[a.mutex].owner != Some(t) && a.time != 0)
      && (t in s'.waiting ==> s'.waiting[t].mutex == a.mutex && (s'.waiting[t].timed <==> a.time > 0))
  {
    if Runs.Enabled(s, a) && a.Take? {
      assert Runs.MutexOk(s, a.mutex);
      TakeOutcome(s.mutexes[a.mutex], s.prio, a.thread, a.time);
    }
  }
}
