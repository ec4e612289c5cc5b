/** Priority inheritance over all runs, and where it ends.

    It holds for RT_IPC_FLAG_PRIO mutexes while every thread takes a mutex only when it holds no
    other one. For RT_IPC_FLAG_FIFO mutexes and for nested ones it need not; the last part says
    exactly which steps lose it, and gives a run for each kind of them.
 */
module MutexPriority {
  import opened Wrappers
  import opened Queues
  import opened Ipc
  import opened Mutexes
  import opened MutexRuns

  predicate Owns(s: System, t: nat, m: nat) {
    m in s.mutexes && s.mutexes[m].owner == Some(t)
  }

  /** The owner of mutex m runs at least as urgently as every thread waiting for it. */
  ghost predicate Inherits(s: System, m: nat)
    requires m in s.mutexes
  {
    s.mutexes[m].owner.Some? ==>
      forall w <- s.mutexes[m].waiters :: KeyOf(s.prio, s.mutexes[m].owner.value) <= KeyOf(s.prio, w)
  }

  /** Mutex m orders its waiters by priority, its owner inherits from them and will get back its
      base priority; the owner is not waiting. */
  ghost predicate InheritOk(s: System, base: Keys, m: nat)
    requires m in s.mutexes
  {
    var mutex := s.mutexes[m];
    && mutex.flag == Prio
    && Sorted(mutex.waiters, s.prio)
    && Inherits(s, m)
    && (mutex.owner.Some? ==>
          var o := mutex.owner.value;
          o !in s.waiting && mutex.original == KeyOf(base, o) && KeyOf(s.prio, o) <= KeyOf(base, o))
  }

  /** A thread that owns no mutex runs at its base priority; no thread owns two. */
  ghost predicate BaseOk(s: System, base: Keys, t: nat) {
    && (KeyOf(s.prio, t) == KeyOf(base, t) || exists m :: Owns(s, t, m))
    && (forall m, k :: Owns(s, t, m) && Owns(s, t, k) ==> m == k)
  }

  ghost predicate PriorityInv(s: System, base: Keys) {
    && Inv(s)
    && (forall m <- s.mutexes :: InheritOk(s, base, m))
    && (forall t: nat :: BaseOk(s, base, t))
  }

  /** The caller's discipline: no second mutex. */
  ghost predicate Single(s: System, a: Action) {
    a.Take? ==> forall k :: Owns(s, a.thread, k) ==> k == a.mutex
  }

  lemma OthersKeepInherit(s: System, s': System, base: Keys, m: nat, k: nat)
    requires PriorityInv(s, base) && m in s.mutexes && k in s.mutexes && k != m
    requires k in s'.mutexes && s'.mutexes[k] == s.mutexes[k]
    requires forall w <- s.waiting :: w in s.mutexes[k].waiters ==> KeyOf(s'.prio, w) == KeyOf(s.prio, w)
    requires s.mutexes[k].owner.Some? ==>
               s.mutexes[k].owner.value !in s'.waiting
               && KeyOf(s'.prio, s.mutexes[k].owner.value) == KeyOf(s.prio, s.mutexes[k].owner.value)
    ensures InheritOk(s', base, k)
  {
    assert InheritOk(s, base, k) && MutexOk(s, k);
    SortedSameKeys(s.mutexes[k].waiters, s.prio, s'.prio);
  }

  // ---- taking -------------------------------------------------------------------------------

  lemma TakeInherits(s: System, base: Keys, t: nat, m: nat, time: int)
    requires PriorityInv(s, base) && Enabled(s, Take(t, m, time)) && Single(s, Take(t, m, time))
    ensures PriorityInv(Step(s, Take(t, m, time)), base)
  {
    var s' := Step(s, Take(t, m, time));
    assert MutexOk(s, m) && InheritOk(s, base, m) && BaseOk(s, base, t);
    StepKeeps(s, Take(t, m, time));
    var (mutex, prio, r) := TakeOf(s.mutexes[m], s.prio, t, time);
    if r == Blocked {
      BlockInherits(s, base, t, m, time);
    } else {
      GetInherits(s, base, t, m, time);
    }
  }

  lemma GetInherits(s: System, base: Keys, t: nat, m: nat, time: int)
    requires PriorityInv(s, base) && Enabled(s, Take(t, m, time)) && Single(s, Take(t, m, time))
    requires MutexOk(s, m) && TakeOf(s.mutexes[m], s.prio, t, time).2 != Blocked
    requires Inv(Step(s, Take(t, m, time)))
    ensures PriorityInv(Step(s, Take(t, m, time)), base)
  {
    var s' := Step(s, Take(t, m, time));
    assert InheritOk(s, base, m) && BaseOk(s, base, t);
    forall k <- s'.mutexes ensures InheritOk(s', base, k) {
      if k != m { assert InheritOk(s, base, k); OthersKeepInherit(s, s', base, m, k); }
    }
    forall u: nat ensures BaseOk(s', base, u) {
      assert BaseOk(s, base, u);
      OwnersAfterTake(s, t, m, time, u);
    }
  }

  lemma OwnersAfterTake(s: System, t: nat, m: nat, time: int, u: nat)
    requires Inv(s) && Enabled(s, Take(t, m, time))
    ensures var s' := Step(s, Take(t, m, time));
      forall k :: Owns(s', u, k) <==> Owns(s, u, k) || (s.mutexes[m].owner.None? && u == t && k == m)
  {
    assert MutexOk(s, m);
  }

  lemma BlockInherits(s: System, base: Keys, t: nat, m: nat, time: int)
    requires PriorityInv(s, base) && Enabled(s, Take(t, m, time)) && Single(s, Take(t, m, time))
    requires MutexOk(s, m) && TakeOf(s.mutexes[m], s.prio, t, time).2 == Blocked
    requires Inv(Step(s, Take(t, m, time)))
    ensures PriorityInv(Step(s, Take(t, m, time)), base)
  {
    var s' := Step(s, Take(t, m, time));
    forall k <- s'.mutexes ensures InheritOk(s', base, k) {
      BlockInheritOk(s, base, t, m, time, k);
    }
    forall u: nat ensures BaseOk(s', base, u) {
      BlockBaseOk(s, base, t, m, time, u);
    }
  }

  lemma BlockInheritOk(s: System, base: Keys, t: nat, m: nat, time: int, k: nat)
    requires PriorityInv(s, base) && Enabled(s, Take(t, m, time)) && Single(s, Take(t, m, time))
    requires MutexOk(s, m) && TakeOf(s.mutexes[m], s.prio, t, time).2 == Blocked
    requires k in s.mutexes
    ensures InheritOk(Step(s, Take(t, m, time)), base, k)
  {
    var s' := Step(s, Take(t, m, time));
    var o, waiters := s.mutexes[m].owner.value, s.mutexes[m].waiters;
    assert InheritOk(s, base, m);
    if k != m {
      assert InheritOk(s, base, k) && MutexOk(s, k) && BaseOk(s, base, o);
      assert Owns(s, o, m) && !Owns(s, o, k) && !Owns(s, t, k);
      OthersKeepInherit(s, s', base, m, k);
    } else {
      SortedSameKeys(waiters, s.prio, s'.prio);
      PlaceSorted(waiters, s'.prio, t);
      SuspendedElems(waiters, t, Prio, s'.prio);
    }
  }

  lemma BlockBaseOk(s: System, base: Keys, t: nat, m: nat, time: int, u: nat)
    requires PriorityInv(s, base) && Enabled(s, Take(t, m, time))
    requires MutexOk(s, m) && TakeOf(s.mutexes[m], s.prio, t, time).2 == Blocked
    ensures BaseOk(Step(s, Take(t, m, time)), base, u)
  {
    var s', o := Step(s, Take(t, m, time)), s.mutexes[m].owner.value;
    assert BaseOk(s, base, u);
    OwnersAfterTake(s, t, m, time, u);
    assert u == o ==> Owns(s', o, m);
    if u != o && exists k :: Owns(s, u, k) {
      var k :| Owns(s, u, k);
      assert Owns(s', u, k);
    }
  }

  // ---- releasing ----------------------------------------------------------------------------

  lemma OwnersAfterRelease(s: System, t: nat, m: nat, u: nat, k: nat)
    requires Inv(s) && Enabled(s, Release(t, m)) && s.mutexes[m].owner == Some(t) && s.mutexes[m].hold == 1
    ensures Owns(Step(s, Release(t, m)), u, k) <==>
              (if k == m then Heir(s.mutexes[m], t) == Some(u) else Owns(s, u, k))
  {
    ReleaseShape(s, t, m);
    assert MutexOk(s, m);
  }

  lemma ReleaseInherits(s: System, base: Keys, t: nat, m: nat)
    requires PriorityInv(s, base) && Enabled(s, Release(t, m))
    ensures PriorityInv(Step(s, Release(t, m)), base)
  {
    assert MutexOk(s, m);
    StepKeeps(s, Release(t, m));
    ReleaseShape(s, t, m);
    var s' := Step(s, Release(t, m));
    if s.mutexes[m].owner == Some(t) && s.mutexes[m].hold == 1 {
      FinalReleaseInherits(s, base, t, m);
    } else {
      OtherReleaseInherits(s, base, t, m);
    }
  }

  /** A nested release, or one by a thread that does not own the mutex. */
  lemma OtherReleaseInherits(s: System, base: Keys, t: nat, m: nat)
    requires PriorityInv(s, base) && Enabled(s, Release(t, m)) && Inv(Step(s, Release(t, m)))
    requires !(s.mutexes[m].owner == Some(t) && s.mutexes[m].hold == 1)
    ensures PriorityInv(Step(s, Release(t, m)), base)
  {
    var s' := Step(s, Release(t, m));
    assert MutexOk(s, m);
    ReleaseShape(s, t, m);
    forall k <- s'.mutexes ensures InheritOk(s', base, k) { assert InheritOk(s, base, k); }
    forall u: nat ensures BaseOk(s', base, u) {
      assert BaseOk(s, base, u);
      assert forall k :: Owns(s', u, k) <==> Owns(s, u, k);
    }
  }

  lemma FinalReleaseInherits(s: System, base: Keys, t: nat, m: nat)
    requires PriorityInv(s, base) && Enabled(s, Release(t, m)) && Inv(Step(s, Release(t, m)))
    requires s.mutexes[m].owner == Some(t) && s.mutexes[m].hold == 1
    ensures PriorityInv(Step(s, Release(t, m)), base)
    ensures KeyOf(Step(s, Release(t, m)).prio, t) == KeyOf(base, t)
  {
    var s', waiters := Step(s, Release(t, m)), s.mutexes[m].waiters;
    ReleaseShape(s, t, m);
    assert MutexOk(s, m) && InheritOk(s, base, m) && BaseOk(s, base, t) && Owns(s, t, m);
    forall k <- s'.mutexes ensures InheritOk(s', base, k) {
      if k != m {
        assert InheritOk(s, base, k) && MutexOk(s, k) && !Owns(s, t, k);
        OthersKeepInherit(s, s', base, m, k);
      } else if waiters != [] {
        HeirInherits(s, base, t, m);
      }
    }
    forall u: nat ensures BaseOk(s', base, u) { ReleaseBases(s, base, t, m, u); }
  }

  lemma ReleaseBases(s: System, base: Keys, t: nat, m: nat, u: nat)
    requires PriorityInv(s, base) && Enabled(s, Release(t, m)) && Inv(Step(s, Release(t, m)))
    requires s.mutexes[m].owner == Some(t) && s.mutexes[m].hold == 1
    ensures BaseOk(Step(s, Release(t, m)), base, u)
  {
    var s' := Step(s, Release(t, m));
    ReleaseShape(s, t, m);
    assert InheritOk(s, base, m) && BaseOk(s, base, t) && BaseOk(s, base, u) && Owns(s, t, m);
    forall k ensures Owns(s', u, k) <==> (if k == m then Heir(s.mutexes[m], t) == Some(u) else Owns(s, u, k)) {
      if k in s.mutexes { OwnersAfterRelease(s, t, m, u, k); }
    }
    if u != t && exists k :: Owns(s, u, k) {
      var k :| Owns(s, u, k);
      assert Owns(s', u, k);
    }
    if Heir(s.mutexes[m], t) == Some(u) { HeirOwnsNothing(s, base, t, m); }
  }

  /** A waiting thread owns nothing, so it runs at its base priority. */
  lemma HeirOwnsNothing(s: System, base: Keys, t: nat, m: nat)
    requires PriorityInv(s, base) && Enabled(s, Release(t, m)) && Heir(s.mutexes[m], t).Some?
    ensures var h := Heir(s.mutexes[m], t).value;
      (forall k :: !Owns(s, h, k)) && KeyOf(s.prio, h) == KeyOf(base, h)
  {
    ReleaseShape(s, t, m);
    var h := Heir(s.mutexes[m], t).value;
    assert BaseOk(s, base, h);
    forall k ensures !Owns(s, h, k) {
      if k in s.mutexes { assert InheritOk(s, base, k); }
    }
  }

  lemma HeirInherits(s: System, base: Keys, t: nat, m: nat)
    requires PriorityInv(s, base) && Enabled(s, Release(t, m)) && Heir(s.mutexes[m], t).Some?
    ensures InheritOk(Step(s, Release(t, m)), base, m)
  {
    ReleaseShape(s, t, m);
    HeirOwnsNothing(s, base, t, m);
    assert MutexOk(s, m) && InheritOk(s, base, m);
    var s', waiters := Step(s, Release(t, m)), s.mutexes[m].waiters;
    SortedSameKeys(waiters, s.prio, s'.prio);
    TailSorted(waiters, s'.prio);
    forall w <- waiters[1..] ensures KeyOf(s'.prio, waiters[0]) <= KeyOf(s'.prio, w) {
      assert w in waiters;
    }
  }

  // ---- timing out and whole runs ------------------------------------------------------------

  lemma ExpireInherits(s: System, base: Keys, t: nat)
    requires PriorityInv(s, base) && Enabled(s, Expire(t))
    ensures PriorityInv(Step(s, Expire(t)), base)
  {
    var s', m := Step(s, Expire(t)), s.waiting[t].mutex;
    StepKeeps(s, Expire(t));
    forall k <- s'.mutexes ensures InheritOk(s', base, k) {
      assert InheritOk(s, base, k);
      if k == m {
        WithoutElems(s.mutexes[m].waiters, t);
        WithoutSorted(s.mutexes[m].waiters, t, s.prio);
      }
    }
    forall u: nat ensures BaseOk(s', base, u) {
      assert BaseOk(s, base, u);
      assert forall k :: Owns(s', u, k) <==> Owns(s, u, k);
    }
  }

  ghost predicate SingleRun(s: System, acts: seq<Action>)
    requires Inv(s)
    decreases |acts|
  {
    acts == [] ||
    (StepKeeps(s, acts[0]); Single(s, acts[0]) && SingleRun(Step(s, acts[0]), acts[1..]))
  }

  /** In every run of threads that hold one mutex at a time, the owner of each mutex is always at
      least as urgent as every waiter, also after handoffs and timeouts, and every thread that
      owns no mutex has its base priority. */
  lemma {:induction false} InheritanceHolds(s: System, base: Keys, acts: seq<Action>)
    requires PriorityInv(s, base) && SingleRun(s, acts)
    ensures PriorityInv(Run(s, acts), base)
    decreases |acts|
  {
    if acts != [] {
      var a := acts[0];
      StepKeeps(s, a);
      if Enabled(s, a) {
        match a
        case Take(t, m, time) => TakeInherits(s, base, t, m, time);
        case Release(t, m) => ReleaseInherits(s, base, t, m);
        case Expire(t) => ExpireInherits(s, base, t);
      }
      InheritanceHolds(Step(s, a), base, acts[1..]);
    }
  }

  /** A system of priority-ordered mutexes starts out in order, with the priorities as they are. */
  lemma InitialPriority(s: System)
    requires Initial(s) && forall m <- s.mutexes :: s.mutexes[m].flag == Prio
    ensures PriorityInv(s, s.prio)
  {
    InitialInv(s);
    forall t: nat ensures BaseOk(s, s.prio, t) {
      assert forall m :: !Owns(s, t, m);
    }
  }

  /** From the start: with priority order everywhere and one mutex per thread, every run keeps
      inheritance, and a thread that owns nothing has the priority it started with. */
  lemma InheritanceFromStart(s: System, acts: seq<Action>)
    requires Initial(s) && (forall m <- s.mutexes :: s.mutexes[m].flag == Prio)
    requires Inv(s) && SingleRun(s, acts)
    ensures PriorityInv(Run(s, acts), s.prio)
  {
    InitialPriority(s);
    InheritanceHolds(s, s.prio, acts);
  }

  // ---- where inheritance ends ---------------------------------------------------------------

  /** After a handoff, with whatever flag, inheritance holds for the mutex exactly when no thread
      left waiting is more urgent than the first one. With priority order that is always so; with
      arrival order it need not be. */
  lemma HandoffInherits(s: System, t: nat, m: nat)
    requires Inv(s) && Enabled(s, Release(t, m)) && Heir(s.mutexes[m], t).Some?
    ensures m in Step(s, Release(t, m)).mutexes
    ensures Inherits(Step(s, Release(t, m)), m) <==>
              forall w <- s.mutexes[m].waiters :: KeyOf(s.prio, s.mutexes[m].waiters[0]) <= KeyOf(s.prio, w)
  {
    assert MutexOk(s, m);
    ReleaseShape(s, t, m);
    var s', waiters, h := Step(s, Release(t, m)), s.mutexes[m].waiters, s.mutexes[m].waiters[0];
    assert s'.mutexes[m].waiters == waiters[1..] && waiters == [h] + waiters[1..];
    assert forall w <- waiters :: KeyOf(s'.prio, w) == KeyOf(s.prio, w);
  }

  function FifoStart(): System {
    System(map[0 := InitMutex(Fifo)], map[1 := 5, 2 := 10, 3 := 3], map[], [])
  }

  function FifoExample(): System {
    System(map[0 := MutexState(Fifo, 0, Some(1), 1, 5, [2, 3])],
           map[1 := 3, 2 := 10, 3 := 3],
           map[2 := Wait(0, false), 3 := Wait(0, false)],
           [Took(1, 0)])
  }

  function FifoTaken(waiters: seq<nat>, waiting: map<nat, Wait>): System {
    System(map[0 := MutexState(Fifo, 0, Some(1), 1, 5, waiters)], map[1 := 5, 2 := 10, 3 := 3], waiting, [Took(1, 0)])
  }

  lemma FifoFirst(s: System)
    requires Inv(s) && s == FifoStart()
    ensures Step(s, Take(1, 0, 0)) == FifoTaken([], map[])
  {
    hide Inv;
  }

  lemma FifoSecond(s: System)
    requires Inv(s) && s == FifoTaken([], map[])
    ensures Step(s, Take(2, 0, -1)) == FifoTaken([2], map[2 := Wait(0, false)])
  {
    hide Inv;
    assert Suspended([], 2, Fifo, s.prio) == [2];
    assert !(KeyOf(s.prio, 2) < KeyOf(s.prio, 1));
  }

  lemma FifoThird(s: System)
    requires Inv(s) && s == FifoTaken([2], map[2 := Wait(0, false)])
    ensures Step(s, Take(3, 0, -1)) == FifoExample()
  {
    hide Inv;
    assert Suspended([2], 3, Fifo, s.prio) == [2, 3];
    assert s.prio[1 := 3] == map[1 := 3, 2 := 10, 3 := 3];
    assert s.waiting[3 := Wait(0, false)] == map[2 := Wait(0, false), 3 := Wait(0, false)];
  }

  /** Thread 1 takes a FIFO mutex, 2 and then 3 wait for it; 1 now runs at the urgency of 3. */
  lemma FifoReached()
    ensures Initial(FifoStart()) && Inv(FifoStart()) && Inv(FifoExample())
    ensures Run(FifoStart(), [Take(1, 0, 0), Take(2, 0, -1), Take(3, 0, -1)]) == FifoExample()
  {
    var s := FifoStart();
    InitialInv(s);
    RunThree(s, Take(1, 0, 0), Take(2, 0, -1), Take(3, 0, -1));
    hide *;
    FifoFirst(s);
    FifoSecond(Step(s, Take(1, 0, 0)));
    FifoThird(Step(Step(s, Take(1, 0, 0)), Take(2, 0, -1)));
  }

  lemma RunThree(s: System, a: Action, b: Action, c: Action)
    requires Inv(s)
    ensures Inv(Step(s, a)) && Inv(Step(Step(s, a), b)) && Inv(Step(Step(Step(s, a), b), c))
    ensures Run(s, [a, b, c]) == Step(Step(Step(s, a), b), c)
  {
    StepKeeps(s, a);
    StepKeeps(Step(s, a), b);
    StepKeeps(Step(Step(s, a), b), c);
    assert [a, b, c][1..] == [b, c] && [b, c][1..] == [c] && [c][1..] == [];
    assert Run(Step(Step(s, a), b), [c]) == Step(Step(Step(s, a), b), c);
    assert Run(Step(s, a), [b, c]) == Run(Step(Step(s, a), b), [c]);
  }

  /** A FIFO mutex: thread 1 runs at the urgency of waiter 3, releases, and the mutex goes to thread
      2, which is less urgent than the still waiting 3. */
  lemma FifoLosesInheritance()
    ensures Initial(FifoStart()) && Inv(FifoStart())
    ensures var s := Run(FifoStart(), [Take(1, 0, 0), Take(2, 0, -1), Take(3, 0, -1)]);
      0 in s.mutexes && Inherits(s, 0) && 0 in Step(s, Release(1, 0)).mutexes && !Inherits(Step(s, Release(1, 0)), 0)
  {
    FifoReached();
    FifoLoses(FifoExample());
  }

  lemma FifoLoses(s: System)
    requires s == FifoExample() && Inv(s)
    ensures Inherits(s, 0) && 0 in Step(s, Release(1, 0)).mutexes && !Inherits(Step(s, Release(1, 0)), 0)
  {
    var w := s.mutexes[0].waiters;
    assert w[1] == 3 && 3 in w;
    HandoffInherits(s, 1, 0);
  }

  /** Giving up mutex m for good while still owning mutex k keeps inheritance at k exactly when the
      priority restored from m is no less urgent than every waiter of k. */
  lemma NestedRelease(s: System, t: nat, m: nat, k: nat)
    requires Inv(s) && Enabled(s, Release(t, m)) && Owns(s, t, m) && Owns(s, t, k) && m != k
    requires s.mutexes[m].hold == 1
    ensures k in Step(s, Release(t, m)).mutexes
    ensures Inherits(Step(s, Release(t, m)), k) <==>
              forall w <- s.mutexes[k].waiters :: s.mutexes[m].original <= KeyOf(s.prio, w)
  {
    assert MutexOk(s, m) && MutexOk(s, k);
    ReleaseShape(s, t, m);
    var s' := Step(s, Release(t, m));
    assert s'.mutexes[k] == s.mutexes[k];
    assert forall w <- s.mutexes[k].waiters :: KeyOf(s'.prio, w) == KeyOf(s.prio, w);
  }

  function NestedStart(): System {
    System(map[0 := InitMutex(Prio), 1 := InitMutex(Prio)], map[1 := 9, 2 := 4], map[], [])
  }

  function NestedExample(): System {
    System(map[0 := MutexState(Prio, 0, Some(1), 1, 9, []), 1 := MutexState(Prio, 0, Some(1), 1, 9, [2])],
           map[1 := 4, 2 := 4],
           map[2 := Wait(1, false)],
           [Took(1, 0), Took(1, 1)])
  }

  function NestedTaken(second: MutexState, log: seq<Event>): System {
    System(map[0 := MutexState(Prio, 0, Some(1), 1, 9, []), 1 := second], map[1 := 9, 2 := 4], map[], log)
  }

  lemma NestedFirst(s: System)
    requires Inv(s) && s == NestedStart()
    ensures Step(s, Take(1, 0, 0)) == NestedTaken(InitMutex(Prio), [Took(1, 0)])
  {
    hide Inv;
  }

  lemma NestedSecond(s: System)
    requires Inv(s) && s == NestedTaken(InitMutex(Prio), [Took(1, 0)])
    ensures Step(s, Take(1, 1, 0)) == NestedTaken(MutexState(Prio, 0, Some(1), 1, 9, []), [Took(1, 0), Took(1, 1)])
  {
    hide Inv;
  }

  lemma NestedThird(s: System)
    requires Inv(s) && s == NestedTaken(MutexState(Prio, 0, Some(1), 1, 9, []), [Took(1, 0), Took(1, 1)])
    ensures Step(s, Take(2, 1, -1)) == NestedExample()
  {
    hide Inv;
    assert s.prio[1 := 4] == map[1 := 4, 2 := 4];
    assert Suspended([], 2, Prio, s.prio[1 := 4]) == [2];
    assert Suspended([], 2, Prio, s.prio) == [2];
  }

  /** Thread 1 takes two mutexes, and thread 2 waits for the second. */
  lemma NestedReached()
    ensures Initial(NestedStart()) && Inv(NestedStart()) && Inv(NestedExample())
    ensures Run(NestedStart(), [Take(1, 0, 0), Take(1, 1, 0), Take(2, 1, -1)]) == NestedExample()
  {
    var s := NestedStart();
    InitialInv(s);
    RunThree(s, Take(1, 0, 0), Take(1, 1, 0), Take(2, 1, -1));
    hide *;
    NestedFirst(s);
    NestedSecond(Step(s, Take(1, 0, 0)));
    NestedThird(Step(Step(s, Take(1, 0, 0)), Take(1, 1, 0)));
  }

  /** Two nested mutexes: giving up the inner one drops the urgency inherited through the outer one. */
  lemma NestedLosesInheritance()
    ensures Initial(NestedStart()) && Inv(NestedStart())
    ensures var s := Run(NestedStart(), [Take(1, 0, 0), Take(1, 1, 0), Take(2, 1, -1)]);
      1 in s.mutexes && Inherits(s, 1) && 1 in Step(s, Release(1, 0)).mutexes && !Inherits(Step(s, Release(1, 0)), 1)
  {
    NestedReached();
    NestedLoses(NestedExample());
  }

  lemma NestedLoses(s: System)
    requires s == NestedExample() && Inv(s)
    ensures Inherits(s, 1) && 1 in Step(s, Release(1, 0)).mutexes && !Inherits(Step(s, Release(1, 0)), 1)
  {
    var w := s.mutexes[1].waiters;
    assert w[0] == 2 && 2 in w;
    NestedRelease(s, 1, 0, 1);
  }

  // ---- exactly which steps lose inheritance -------------------------------------------------

  /** Thread t is to wait for mutex m: it makes m's owner more urgent, which in turn waits for k, and
      nobody tells the owner of k. */
  predicate LosesByTake(s: System, t: nat, m: nat, time: int, k: nat)
    requires m in s.mutexes && k in s.mutexes
  {
    var owner, holder := s.mutexes[m].owner, s.mutexes[k].owner;
    && k != m && time != 0
    && owner.Some? && owner != Some(t) && holder.Some?
    && KeyOf(s.prio, t) < KeyOf(s.prio, owner.value)
    && owner.value in s.mutexes[k].waiters
    && KeyOf(s.prio, t) < KeyOf(s.prio, holder.value)
  }

  /** Thread t gives up m: a handoff of k itself to a first waiter that is not the most urgent one, or
      a priority restored from m that is too low for k. */
  predicate LosesByRelease(s: System, t: nat, m: nat, k: nat)
    requires m in s.mutexes && k in s.mutexes
  {
    && Owns(s, t, m) && s.mutexes[m].hold == 1
    && if k == m then
         exists w <- s.mutexes[m].waiters :: KeyOf(s.prio, w) < KeyOf(s.prio, s.mutexes[m].waiters[0])
       else
         Owns(s, t, k) && exists w <- s.mutexes[k].waiters :: KeyOf(s.prio, w) < s.mutexes[m].original
  }

  predicate Loses(s: System, a: Action, k: nat)
    requires k in s.mutexes
  {
    Enabled(s, a) &&
    match a
    case Take(t, m, time) => LosesByTake(s, t, m, time, k)
    case Release(t, m) => LosesByRelease(s, t, m, k)
    case Expire(_) => false
  }

  lemma TakeLoses(s: System, t: nat, m: nat, time: int, k: nat)
    requires Inv(s) && Enabled(s, Take(t, m, time)) && k in s.mutexes && Inherits(s, k)
    ensures k in Step(s, Take(t, m, time)).mutexes
    ensures Inherits(Step(s, Take(t, m, time)), k) <==> !LosesByTake(s, t, m, time, k)
  {
    assert MutexOk(s, m) && MutexOk(s, k);
    var s' := Step(s, Take(t, m, time));
    SuspendedElems(s.mutexes[m].waiters, t, s.mutexes[m].flag, s'.prio);
  }

  lemma ReleaseLoses(s: System, t: nat, m: nat, k: nat)
    requires Inv(s) && Enabled(s, Release(t, m)) && k in s.mutexes && Inherits(s, k)
    ensures k in Step(s, Release(t, m)).mutexes
    ensures Inherits(Step(s, Release(t, m)), k) <==> !LosesByRelease(s, t, m, k)
  {
    assert MutexOk(s, m) && MutexOk(s, k);
    ReleaseShape(s, t, m);
    if Owns(s, t, m) && s.mutexes[m].hold == 1 {
      if k == m && s.mutexes[m].waiters != [] {
        HandoffInherits(s, t, m);
      } else if k != m && Owns(s, t, k) {
        NestedRelease(s, t, m, k);
      }
    }
  }

  lemma ExpireLoses(s: System, t: nat, k: nat)
    requires Inv(s) && Enabled(s, Expire(t)) && k in s.mutexes && Inherits(s, k)
    ensures k in Step(s, Expire(t)).mutexes && Inherits(Step(s, Expire(t)), k)
  {
    WithoutElems(s.mutexes[k].waiters, t);
  }

  /** Whatever the flags and however the mutexes are nested, a step keeps inheritance at mutex k if
      and only if it is none of the three that lose it. */
  lemma StepInherits(s: System, a: Action, k: nat)
    requires Inv(s) && k in s.mutexes && Inherits(s, k)
    ensures k in Step(s, a).mutexes
    ensures Inherits(Step(s, a), k) <==> !Loses(s, a, k)
  {
    if Enabled(s, a) {
      match a
      case Take(t, m, time) => TakeLoses(s, t, m, time, k);
      case Release(t, m) => ReleaseLoses(s, t, m, k);
      case Expire(t) => ExpireLoses(s, t, k);
    }
  }

  /** Inheritance holds at mutex k at every moment of the run. */
  ghost predicate AlwaysInherits(s: System, acts: seq<Action>, k: nat)
    requires Inv(s)
    decreases |acts|
  {
    && k in s.mutexes && Inherits(s, k)
    && (acts != [] ==> (StepKeeps(s, acts[0]); AlwaysInherits(Step(s, acts[0]), acts[1..], k)))
  }

  ghost predicate NeverLoses(s: System, acts: seq<Action>, k: nat)
    requires Inv(s) && k in s.mutexes
    decreases |acts|
  {
    acts != [] ==>
      && !Loses(s, acts[0], k)
      && (StepKeeps(s, acts[0]); k in Step(s, acts[0]).mutexes && NeverLoses(Step(s, acts[0]), acts[1..], k))
  }

  lemma {:induction false} RunInherits(s: System, acts: seq<Action>, k: nat)
    requires Inv(s) && k in s.mutexes && Inherits(s, k)
    ensures AlwaysInherits(s, acts, k) <==> NeverLoses(s, acts, k)
    decreases |acts|
  {
    if acts != [] {
      StepKeeps(s, acts[0]);
      StepInherits(s, acts[0], k);
      if !Loses(s, acts[0], k) {
        RunInherits(Step(s, acts[0]), acts[1..], k);
      }
    }
  }

  /** In every run from the start, with any flags and any nesting, the owner of a mutex is at every
      moment at least as urgent as its waiters if and only if no step of the run is one of the three. */
  lemma InheritanceIff(s: System, acts: seq<Action>, k: nat)
    requires Initial(s) && k in s.mutexes
    ensures Inv(s) && (AlwaysInherits(s, acts, k) <==> NeverLoses(s, acts, k))
  {
    InitialInv(s);
    RunInherits(s, acts, k);
  }

  // ---- a take that loses it -----------------------------------------------------------------

  function ChainPrio(first: int, second: int): Keys {
    map[1 := first, 2 := second, 3 := 4]
  }

  function ChainStart(): System {
    System(map[0 := InitMutex(Prio), 1 := InitMutex(Prio)], ChainPrio(9, 8), map[], [])
  }

  function ChainFirst(): System {
    System(map[0 := MutexState(Prio, 0, Some(1), 1, 9, []), 1 := InitMutex(Prio)], ChainPrio(9, 8), map[], [Took(1, 0)])
  }

  function ChainOwned(waiters: seq<nat>, prio: Keys, waiting: map<nat, Wait>): System {
    System(map[0 := MutexState(Prio, 0, Some(1), 1, 9, waiters), 1 := MutexState(Prio, 0, Some(2), 1, 8, [])],
           prio, waiting, [Took(1, 0), Took(2, 1)])
  }

  function ChainExample(): System {
    ChainOwned([2], ChainPrio(8, 8), map[2 := Wait(0, false)])
  }

  lemma ChainSteps(s: System)
    requires Inv(s)
    ensures s == ChainStart() ==> Step(s, Take(1, 0, 0)) == ChainFirst()
    ensures s == ChainFirst() ==> Step(s, Take(2, 1, 0)) == ChainOwned([], ChainPrio(9, 8), map[])
  {
    hide Inv;
  }

  lemma ChainThird(s: System)
    requires Inv(s) && s == ChainOwned([], ChainPrio(9, 8), map[])
    ensures Step(s, Take(2, 0, -1)) == ChainExample()
  {
    hide Inv;
    assert s.prio[1 := 8] == ChainPrio(8, 8);
    assert Suspended([], 2, Prio, ChainPrio(8, 8)) == [2];
  }

  lemma ChainReached()
    ensures Initial(ChainStart()) && Inv(ChainStart()) && Inv(ChainExample())
    ensures Run(ChainStart(), [Take(1, 0, 0), Take(2, 1, 0), Take(2, 0, -1)]) == ChainExample()
  {
    var s := ChainStart();
    InitialInv(s);
    RunThree(s, Take(1, 0, 0), Take(2, 1, 0), Take(2, 0, -1));
    hide *;
    ChainSteps(s);
    ChainSteps(Step(s, Take(1, 0, 0)));
    ChainThird(Step(Step(s, Take(1, 0, 0)), Take(2, 1, 0)));
  }

  /** Thread 1 owns mutex 0, thread 2 owns mutex 1 and waits for 0. When thread 3 waits for 1 it raises
      thread 2 over thread 1, without any release and with priority order throughout. */
  lemma ChainLosesInheritance()
    ensures Initial(ChainStart()) && Inv(ChainStart())
    ensures var s := Run(ChainStart(), [Take(1, 0, 0), Take(2, 1, 0), Take(2, 0, -1)]);
      0 in s.mutexes && Inherits(s, 0) && 0 in Step(s, Take(3, 1, -1)).mutexes && !Inherits(Step(s, Take(3, 1, -1)), 0)
  {
    ChainReached();
    ChainLoses(ChainExample());
  }

  lemma ChainLoses(s: System)
    requires s == ChainExample() && Inv(s)
    ensures Inherits(s, 0) && 0 in Step(s, Take(3, 1, -1)).mutexes && !Inherits(Step(s, Take(3, 1, -1)), 0)
  {
    assert s.mutexes[0].waiters[0] == 2 && 2 in s.mutexes[0].waiters;
    StepInherits(s, Take(3, 1, -1), 0);
  }
}
