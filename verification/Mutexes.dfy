/** The mutex of `ipc.c` with priority inheritance, one mutex at a time.

    TakeOf, ReleaseOf and GiveUp say what one interrupt-disabled region does to a mutex and to
    the thread priorities; class Mutex carries out the regions field by field as the source
    does. Runs of many threads over many mutexes are in module MutexRuns.
 */
module Mutexes {
  import opened Wrappers
  import opened Queues
  import opened Ipc

  const HOLD_MAX: nat := 0xff         // RT_MUTEX_HOLD_MAX
  const VALUE_MAX: nat := 0xffff      // RT_MUTEX_VALUE_MAX

  /** struct rt_mutex */
  datatype MutexState = MutexState(
    flag: Flag, value: nat, owner: Option<nat>, hold: nat, original: int, waiters: seq<nat>)

  function InitMutex(flag: Flag): MutexState {
    MutexState(flag, 1, None, 0, 0xff, [])
  }

  /** The relations between the fields that every region relies on and keeps. */
  ghost predicate Coherent(m: MutexState) {
    && m.value <= 1
    && (m.value == 1 <==> m.owner.None?)
    && (m.owner.None? ==> m.hold == 0 && m.waiters == [] && m.original == 0xff)
    && (m.owner.Some? ==> 1 <= m.hold <= HOLD_MAX && m.owner.value !in m.waiters)
    && Distinct(m.waiters)
  }

  /** rt_mutex_take by thread t up to its return or suspension; `time == 0` means do not wait. */
  function TakeOf(m: MutexState, prio: Keys, t: nat, time: int): (r: (MutexState, Keys, Outcome))
    requires Coherent(m)
  {
    if m.owner == Some(t) then
      if m.hold < HOLD_MAX then (m.(hold := m.hold + 1), prio, EOk) else (m, prio, EFull)
    else if m.owner.None? then
      (m.(value := 0, owner := Some(t), original := KeyOf(prio, t), hold := 1), prio, EOk)
    else if time == 0 then
      (m, prio, ETimeout)
    else
      var prio' := if KeyOf(prio, t) < KeyOf(prio, m.owner.value) then prio[m.owner.value := KeyOf(prio, t)] else prio;
      (m.(waiters := Suspended(m.waiters, t, m.flag, prio')), prio', Blocked)
  }

  /** rt_mutex_release by thread t. */
  function ReleaseOf(m: MutexState, prio: Keys, t: nat): (r: (MutexState, Keys, Outcome))
    requires Coherent(m)
  {
    if m.owner != Some(t) then (m, prio, EError)
    else if m.hold > 1 then (m.(hold := m.hold - 1), prio, EOk)
    else
      var prio' := prio[t := m.original];
      if m.waiters == [] then (m.(value := 1, owner := None, hold := 0, original := 0xff), prio', EOk)
      else
        var next := m.waiters[0];
        (m.(owner := Some(next), hold := 1, original := KeyOf(prio', next), waiters := m.waiters[1..]), prio', EOk)
  }

  /** rt_thread_timeout of a waiting thread. */
  function GiveUp(m: MutexState, t: nat): MutexState {
    m.(waiters := Without(m.waiters, t))
  }

  lemma CoherentTake(m: MutexState, prio: Keys, t: nat, time: int)
    requires Coherent(m) && t !in m.waiters
    ensures Coherent(TakeOf(m, prio, t, time).0)
  {
    if m.owner.Some? && m.owner != Some(t) && time != 0 {
      var prio' := TakeOf(m, prio, t, time).1;
      SuspendedElems(m.waiters, t, m.flag, prio');
      SuspendedDistinct(m.waiters, t, m.flag, prio');
    }
  }

  lemma CoherentRelease(m: MutexState, prio: Keys, t: nat)
    requires Coherent(m)
    ensures Coherent(ReleaseOf(m, prio, t).0)
  {
    if m.waiters != [] { assert m.waiters == [m.waiters[0]] + m.waiters[1..]; }
  }

  lemma CoherentGiveUp(m: MutexState, t: nat)
    requires Coherent(m)
    ensures Coherent(GiveUp(m, t))
  {
    WithoutElems(m.waiters, t);
    WithoutDistinct(m.waiters, t);
  }

  /** The priorities of all threads, shared by the mutexes. */
  class ThreadTable {
    var prio: Keys     // current_priority by thread

    constructor (prio: Keys)
      ensures this.prio == prio
    {
      this.prio := prio;
    }

    /** RT_THREAD_CTRL_CHANGE_PRIORITY; a ready thread also changes queue, see KernelMutexes. */
    method ChangePriority(t: nat, p: int)
      modifies this
      ensures prio == old(prio)[t := p]
    {
      prio := prio[t := p];
    }
  }

  class Mutex {
    const flag: Flag
    var value: nat
    var owner: Option<nat>
    var hold: nat
    var original: int
    var waiters: seq<nat>

    ghost function View(): MutexState
      reads this
    {
      MutexState(flag, value, owner, hold, original, waiters)
    }

    constructor (flag: Flag)
      ensures View() == InitMutex(flag)
    {
      this.flag := flag;
      value, owner, hold, original, waiters := 1, None, 0, 0xff, [];
    }

    method Take(threads: ThreadTable, t: nat, time: int) returns (r: Outcome)
      requires Coherent(View()) && t !in waiters
      modifies this, threads
      ensures (View(), threads.prio, r) == TakeOf(old(View()), old(threads.prio), t, time)
      ensures Coherent(View())
    {
      CoherentTake(View(), threads.prio, t, time);
      if owner == Some(t) {
        if hold < HOLD_MAX {
          hold := hold + 1;
        } else {
          return EFull;
        }
      } else {
        if value > 0 {
          value := value - 1;
          owner := Some(t);
          original := KeyOf(threads.prio, t);
          // the source's second overflow return is unreachable: a free mutex is not held
          assert hold < HOLD_MAX;
          hold := hold + 1;
        } else if time == 0 {
          return ETimeout;
        } else {
          if KeyOf(threads.prio, t) < KeyOf(threads.prio, owner.value) {
            threads.ChangePriority(owner.value, KeyOf(threads.prio, t));
          }
          waiters := ListSuspend(waiters, t, flag, threads.prio);
          return Blocked;
        }
      }
      return EOk;
    }

    method Release(threads: ThreadTable, t: nat) returns (r: Outcome)
      requires Coherent(View()) && t in threads.prio
      modifies this, threads
      ensures (View(), threads.prio, r) == ReleaseOf(old(View()), old(threads.prio), t)
      ensures Coherent(View()) && r != EFull
    {
      CoherentRelease(View(), threads.prio, t);
      if owner != Some(t) {
        return EError;
      }
      hold := hold - 1;
      if hold == 0 {
        if original != KeyOf(threads.prio, t) {
          threads.ChangePriority(t, original);
        }
        assert threads.prio == old(threads.prio)[t := original];
        if waiters != [] {
          var next := waiters[0];
          owner := Some(next);
          original := KeyOf(threads.prio, next);
          // both overflow returns of the source are unreachable: hold is 0 and value is 0 here
          assert hold < HOLD_MAX;
          hold := hold + 1;
          waiters := waiters[1..];
        } else {
          assert value < VALUE_MAX;
          value := value + 1;
          owner := None;
          original := 0xff;
        }
      }
      return EOk;
    }

    method Timeout(t: nat)
      requires Coherent(View())
      modifies this
      ensures View() == GiveUp(old(View()), t) && Coherent(View())
    {
      CoherentGiveUp(View(), t);
      waiters := Without(waiters, t);
    }
  }
}
