/** Runs of many threads over many mutexes, with timeouts.

    Every interrupt-disabled region is one step and any runnable thread may take the next one,
    so these runs include every interleaving the scheduler can produce.
 */
module MutexRuns {
  import opened Wrappers
  import opened Queues
  import opened Ipc
  import opened Mutexes

  /** Took: a thread obtained one hold, by its own call or by handoff. Gave: it gave one up. */
  datatype Event = Took(thread: nat, mutex: nat) | Gave(thread: nat, mutex: nat)

  /** Where a blocked thread waits, and whether its timer is running. */
  datatype Wait = Wait(mutex: nat, timed: bool)

  datatype System = System(mutexes: map<nat, MutexState>, prio: Keys, waiting: map<nat, Wait>, log: seq<Event>)

  datatype Action = Take(thread: nat, mutex: nat, time: int) | Release(thread: nat, mutex: nat) | Expire(thread: nat)

  /** Nothing taken, nobody waiting. */
  ghost predicate Initial(s: System) {
    && s.waiting == map[] && s.log == []
    && forall m <- s.mutexes :: s.mutexes[m] == InitMutex(s.mutexes[m].flag)
  }

  /** A call needs a runnable thread of the system and an existing mutex; a timer can only fire
      for a thread that waits with one. */
  predicate Enabled(s: System, a: Action) {
    match a
    case Take(t, m, _) => t in s.prio && m in s.mutexes && t !in s.waiting
    case Release(t, m) => t in s.prio && m in s.mutexes && t !in s.waiting
    case Expire(t) => t in s.waiting && s.waiting[t].timed && s.waiting[t].mutex in s.mutexes
  }

  /** All mutexes are coherent and the wait lists agree with the threads' states. */
  ghost predicate Inv(s: System) {
    && (forall m <- s.mutexes :: MutexOk(s, m))
    && (forall t <- s.waiting :: WaitOk(s, t))
  }

  ghost predicate MutexOk(s: System, m: nat)
    requires m in s.mutexes
  {
    && Coherent(s.mutexes[m])
    && (forall w <- s.mutexes[m].waiters :: w in s.waiting && s.waiting[w].mutex == m)
    && (s.mutexes[m].owner.Some? ==> s.mutexes[m].owner.value in s.prio)
    && (forall t: nat :: HeldOk(s.log, s.mutexes[m], m, t))
  }

  function Holds(mutex: MutexState, t: nat): nat {
    if mutex.owner == Some(t) then mutex.hold else 0
  }

  /** The hold count of mutex m is what the history says about thread t. */
  ghost predicate HeldOk(log: seq<Event>, mutex: MutexState, m: nat, t: nat) {
    Held(log, t, m) == Holds(mutex, t)
  }

  ghost predicate WaitOk(s: System, t: nat)
    requires t in s.waiting
  {
    && t in s.prio
    && s.waiting[t].mutex in s.mutexes
    && t in s.mutexes[s.waiting[t].mutex].waiters
  }

  /** Holds obtained minus holds given up. */
  function Held(log: seq<Event>, t: nat, m: nat): int
  {
    if log == [] then 0
    else
      var e := log[|log| - 1];
      Held(log[..|log| - 1], t, m)
      + (if e == Took(t, m) then 1 else if e == Gave(t, m) then -1 else 0)
  }

  lemma HeldOne(log: seq<Event>, e: Event, t: nat, m: nat)
    ensures Held(log + [e], t, m) == Held(log, t, m)
              + (if e == Took(t, m) then 1 else if e == Gave(t, m) then -1 else 0)
  {
    assert (log + [e])[..|log|] == log;
  }

  function Step(s: System, a: Action): System
    requires Inv(s)
  {
    if !Enabled(s, a) then s
    else match a
      case Take(t, m, time) =>
        assert MutexOk(s, m);
        var (mutex, prio, r) := TakeOf(s.mutexes[m], s.prio, t, time);
        s.(mutexes := s.mutexes[m := mutex], prio := prio,
           waiting := if r == Blocked then s.waiting[t := Wait(m, time > 0)] else s.waiting,
           log := if r == EOk then s.log + [Took(t, m)] else s.log)
      case Release(t, m) =>
        assert MutexOk(s, m);
        var (mutex, prio, r) := ReleaseOf(s.mutexes[m], s.prio, t);
        var handoff := r == EOk && mutex.owner.Some? && mutex.owner != Some(t);
        s.(mutexes := s.mutexes[m := mutex], prio := prio,
           waiting := if handoff then s.waiting - {mutex.owner.value} else s.waiting,
           log := s.log + (if r == EOk then [Gave(t, m)] else [])
                        + (if handoff then [Took(mutex.owner.value, m)] else []))
      case Expire(t) =>
        var m := s.waiting[t].mutex;
        s.(mutexes := s.mutexes[m := GiveUp(s.mutexes[m], t)], waiting := s.waiting - {t})
  }

  // ---- every step keeps the invariant -------------------------------------------------------

  /** What a step at mutex m owes: m itself is in order, a thread's wait changes only at m, and
      the history grows only by events of m. */
  lemma Assemble(s: System, s': System, m: nat)
    requires Inv(s) && m in s.mutexes && m in s'.mutexes && s'.mutexes == s.mutexes[m := s'.mutexes[m]]
    requires s'.prio.Keys == s.prio.Keys
    requires MutexOk(s', m)
    requires forall t <- s'.waiting :: s'.waiting[t].mutex == m ==> t in s'.mutexes[m].waiters && t in s'.prio
    requires forall t <- s.waiting :: s.waiting[t].mutex != m ==> t in s'.waiting && s'.waiting[t] == s.waiting[t]
    requires forall t <- s'.waiting :: s'.waiting[t].mutex != m ==> t in s.waiting && s'.waiting[t] == s.waiting[t]
    requires OnlyAt(s.log, s'.log, m)
    ensures Inv(s')
  {
    forall k <- s'.mutexes ensures MutexOk(s', k) {
      if k != m {
        assert MutexOk(s, k);
        forall t: nat ensures HeldOk(s'.log, s'.mutexes[k], k, t) {
          assert HeldOk(s.log, s.mutexes[k], k, t);
          OnlyAtHeld(s.log, s'.log, m, t, k);
        }
      }
    }
    forall t <- s'.waiting ensures WaitOk(s', t) {
      if s'.waiting[t].mutex != m { assert WaitOk(s, t); }
    }
  }

  /** log' adds to log at most two events, both of mutex m. */
  ghost predicate OnlyAt(log: seq<Event>, log': seq<Event>, m: nat) {
    || log' == log
    || (exists e: Event :: e.mutex == m && log' == log + [e])
    || (exists e: Event, f: Event :: e.mutex == m && f.mutex == m && log' == log + [e] + [f])
  }

  lemma OnlyAtHeld(log: seq<Event>, log': seq<Event>, m: nat, t: nat, k: nat)
    requires OnlyAt(log, log', m) && k != m
    ensures Held(log', t, k) == Held(log, t, k)
  {
    if log' != log {
      if e: Event :| e.mutex == m && log' == log + [e] {
        HeldOne(log, e, t, k);
      } else {
        var e: Event, f: Event :| e.mutex == m && f.mutex == m && log' == log + [e] + [f];
        HeldOne(log, e, t, k);
        HeldOne(log + [e], f, t, k);
      }
    }
  }

  // ---- taking -------------------------------------------------------------------------------

  lemma TakeKeeps(s: System, t: nat, m: nat, time: int)
    requires Inv(s) && Enabled(s, Take(t, m, time))
    ensures Inv(Step(s, Take(t, m, time)))
  {
    var s' := Step(s, Take(t, m, time));
    assert MutexOk(s, m);
    var (mutex, prio, r) := TakeOf(s.mutexes[m], s.prio, t, time);
    SuspendedElems(s.mutexes[m].waiters, t, s.mutexes[m].flag, prio);
    forall u <- s'.waiting | s'.waiting[u].mutex == m ensures u in mutex.waiters && u in prio {
      if u != t { assert WaitOk(s, u); }
    }
    TakeMutexOk(s, t, m, time);
    if r == EOk { assert Took(t, m).mutex == m && s'.log == s.log + [Took(t, m)]; }
    Assemble(s, s', m);
  }

  lemma TakeMutexOk(s: System, t: nat, m: nat, time: int)
    requires Inv(s) && Enabled(s, Take(t, m, time))
    ensures MutexOk(Step(s, Take(t, m, time)), m)
  {
    var s' := Step(s, Take(t, m, time));
    assert MutexOk(s, m);
    var (mutex, prio, r) := TakeOf(s.mutexes[m], s.prio, t, time);
    CoherentTake(s.mutexes[m], s.prio, t, time);
    SuspendedElems(s.mutexes[m].waiters, t, s.mutexes[m].flag, prio);
    forall u: nat ensures HeldOk(s'.log, mutex, m, u) {
      assert HeldOk(s.log, s.mutexes[m], m, u);
      if r == EOk { HeldOne(s.log, Took(t, m), u, m); }
    }
  }

  // ---- releasing ----------------------------------------------------------------------------

  /** The thread that a release hands the mutex to, if any. */
  function Heir(mutex: MutexState, t: nat): Option<nat> {
    if mutex.owner == Some(t) && mutex.hold == 1 && mutex.waiters != [] then Some(mutex.waiters[0]) else None
  }

  lemma ReleaseShape(s: System, t: nat, m: nat)
    requires Inv(s) && Enabled(s, Release(t, m))
    ensures var s' := Step(s, Release(t, m)); var heir := Heir(s.mutexes[m], t);
      && s'.waiting == (if heir.Some? then s.waiting - {heir.value} else s.waiting)
      && s'.log == (if s.mutexes[m].owner != Some(t) then s.log
                    else if heir.Some? then s.log + [Gave(t, m)] + [Took(heir.value, m)]
                    else s.log + [Gave(t, m)])
      && s'.mutexes == s.mutexes[m := ReleaseOf(s.mutexes[m], s.prio, t).0]
      && s'.prio == ReleaseOf(s.mutexes[m], s.prio, t).1 && s'.prio.Keys == s.prio.Keys
    ensures Heir(s.mutexes[m], t).Some? ==>
              var h := Heir(s.mutexes[m], t).value;
              h != t && h in s.waiting && s.waiting[h].mutex == m && h in s.prio
              && s.mutexes[m].waiters == [h] + s.mutexes[m].waiters[1..]
  {
    HeirWaits(s, t, m);
    assert s.log + [] == s.log && s.log + [Gave(t, m)] + [] == s.log + [Gave(t, m)];
  }

  /** The heir of a mutex is a thread waiting for it. */
  lemma HeirWaits(s: System, t: nat, m: nat)
    requires Inv(s) && Enabled(s, Release(t, m))
    ensures Heir(s.mutexes[m], t).Some? ==>
              var h := Heir(s.mutexes[m], t).value;
              h != t && h in s.waiting && s.waiting[h].mutex == m && h in s.prio
              && s.mutexes[m].waiters == [h] + s.mutexes[m].waiters[1..]
  {
    assert MutexOk(s, m);
    var mutex := s.mutexes[m];
    if mutex.waiters != [] {
      assert mutex.waiters[0] in mutex.waiters;
      assert WaitOk(s, mutex.waiters[0]);
    }
  }

  lemma ReleaseKeeps(s: System, t: nat, m: nat)
    requires Inv(s) && Enabled(s, Release(t, m))
    ensures Inv(Step(s, Release(t, m)))
  {
    var s', heir := Step(s, Release(t, m)), Heir(s.mutexes[m], t);
    assert MutexOk(s, m);
    ReleaseShape(s, t, m);
    ReleaseMutexOk(s, t, m);
    forall u <- s'.waiting | s'.waiting[u].mutex == m ensures u in s'.mutexes[m].waiters && u in s'.prio {
      assert WaitOk(s, u);
    }
    if s.mutexes[m].owner == Some(t) {
      var gave := Gave(t, m);
      if heir.Some? {
        var took := Took(heir.value, m);
        assert gave.mutex == m && took.mutex == m && s'.log == s.log + [gave] + [took];
      } else {
        assert gave.mutex == m && s'.log == s.log + [gave];
      }
    }
    Assemble(s, s', m);
  }

  lemma ReleaseMutexOk(s: System, t: nat, m: nat)
    requires Inv(s) && Enabled(s, Release(t, m))
    ensures MutexOk(Step(s, Release(t, m)), m)
  {
    var s', heir := Step(s, Release(t, m)), Heir(s.mutexes[m], t);
    assert MutexOk(s, m);
    ReleaseShape(s, t, m);
    CoherentRelease(s.mutexes[m], s.prio, t);
    forall w <- s'.mutexes[m].waiters ensures w in s'.waiting && s'.waiting[w].mutex == m {
      assert w in s.mutexes[m].waiters;
    }
    forall u: nat ensures HeldOk(s'.log, s'.mutexes[m], m, u) {
      assert HeldOk(s.log, s.mutexes[m], m, u);
      HeldOne(s.log, Gave(t, m), u, m);
      if heir.Some? { HeldOne(s.log + [Gave(t, m)], Took(heir.value, m), u, m); }
    }
  }

  // ---- timing out ---------------------------------------------------------------------------

  lemma ExpireKeeps(s: System, t: nat)
    requires Inv(s) && Enabled(s, Expire(t))
    ensures Inv(Step(s, Expire(t)))
  {
    var s' := Step(s, Expire(t));
    var m := s.waiting[t].mutex;
    assert MutexOk(s, m) && WaitOk(s, t);
    CoherentGiveUp(s.mutexes[m], t);
    WithoutElems(s.mutexes[m].waiters, t);
    forall u: nat ensures HeldOk(s'.log, s'.mutexes[m], m, u) {
      assert HeldOk(s.log, s.mutexes[m], m, u);
    }
    forall u <- s'.waiting | s'.waiting[u].mutex == m ensures u in s'.mutexes[m].waiters && u in s'.prio {
      assert WaitOk(s, u);
    }
    assert MutexOk(s', m);
    Assemble(s, s', m);
  }

  lemma StepKeeps(s: System, a: Action)
    requires Inv(s)
    ensures Inv(Step(s, a))
  {
    if Enabled(s, a) {
      match a
      case Take(t, m, time) => TakeKeeps(s, t, m, time);
      case Release(t, m) => ReleaseKeeps(s, t, m);
      case Expire(t) => ExpireKeeps(s, t);
    }
  }

  // ---- all runs -----------------------------------------------------------------------------

  function Run(s: System, acts: seq<Action>): (r: System)
    requires Inv(s)
    ensures Inv(r)
    decreases |acts|
  {
    if acts == [] then s
    else
      StepKeeps(s, acts[0]);
      Run(Step(s, acts[0]), acts[1..])
  }

  lemma InitialInv(s: System)
    requires Initial(s)
    ensures Inv(s)
  {
    forall m <- s.mutexes ensures MutexOk(s, m) {
      forall t: nat ensures HeldOk(s.log, s.mutexes[m], m, t) {}
    }
  }

  /** Mutual exclusion over all runs: at most one thread has unmatched takes, it is the owner, and
      `hold` counts them; the mutex is available exactly when nobody has any. */
  lemma MutualExclusion(s: System, acts: seq<Action>, m: nat, t: nat, u: nat)
    requires Inv(s) && m in Run(s, acts).mutexes
    ensures var r := Run(s, acts); var mutex := r.mutexes[m];
      && (Held(r.log, t, m) > 0 && Held(r.log, u, m) > 0 ==> t == u)
      && (Held(r.log, t, m) > 0 ==> mutex.owner == Some(t) && mutex.hold == Held(r.log, t, m))
      && (mutex.value == 1 ==> Held(r.log, t, m) == 0)
      && (mutex.value != 1 ==> mutex.value == 0 && mutex.owner.Some? && Held(r.log, mutex.owner.value, m) > 0)
      && (mutex.waiters != [] ==> mutex.value == 0)
      && Held(r.log, t, m) >= 0
  {
    var r := Run(s, acts);
    assert MutexOk(r, m);
    assert HeldOk(r.log, r.mutexes[m], m, t) && HeldOk(r.log, r.mutexes[m], m, u);
    if r.mutexes[m].owner.Some? { assert HeldOk(r.log, r.mutexes[m], m, r.mutexes[m].owner.value); }
  }

  /** A release by anyone but the owner changes nothing at all, and release never reports overflow. */
  lemma ForeignRelease(s: System, t: nat, m: nat)
    requires Inv(s) && m in s.mutexes
    ensures Coherent(s.mutexes[m])
    ensures s.mutexes[m].owner != Some(t) ==> Step(s, Release(t, m)) == s
    ensures ReleaseOf(s.mutexes[m], s.prio, t).2 != EFull
  {
    assert MutexOk(s, m);
    if Enabled(s, Release(t, m)) { ReleaseShape(s, t, m); }
    if s.mutexes[m].owner != Some(t) { assert s.mutexes[m := s.mutexes[m]] == s.mutexes; }
  }
}
