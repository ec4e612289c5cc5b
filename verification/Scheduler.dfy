/** The scheduler's global variables and the operations that change them in place.

    The ready queues, and the wait lists of all objects, are rings over the threads' `tlist` nodes
    that are linked by address.
 */
module Scheduler {
  import opened Wrappers
  import opened Queues
  import opened Ipc
  import opened Rings
  import opened ThreadLinks
  import opened Scheduling
  import opened ReadyLists
  import Runs = SchedulerRuns

  class Kernel {
    var threads: map<nat, Tcb>
    const heads: seq<nat>               // the addresses of the entries of rt_thread_priority_table
    var next: map<nat, nat>
    var prev: map<nat, nat>
    var group: set<nat>                 // rt_thread_ready_priority_group
    var current: Option<nat>            // rt_current_thread
    var lockNest: int                   // rt_scheduler_lock_nest, a signed 16-bit number
    ghost var lists: Lists

    ghost function View(): State
      reads this`threads, this`lists, this`group, this`current, this`lockNest
    {
      State(threads, ReadyQueues(lists, heads), group, current, lockNest)
    }

    ghost function Nodes(): Links
      reads this`next, this`prev
    {
      Links(next, prev)
    }

    ghost predicate Linked()
      reads this`threads, this`next, this`prev, this`lists
    {
      Wired(Nodes(), lists, heads, threads.Keys) && Resting(threads, lists)
    }

    ghost predicate Valid()
      reads this
    {
      Inv(View()) && Linked()
    }

    /** The state after an operation and the rescheduling it ends with. */
    ghost function Scheduled(a: Action): State
      requires Valid() && Enabled(View(), a)
      reads this
    {
      Runs.ThenSchedule(View(), a)
    }

    /** rt_system_scheduler_init; `table` holds the addresses of the list heads. */
    constructor (table: seq<nat>)
      requires |table| == PRIORITIES && Distinct(table)
      ensures Valid() && View() == Runs.Initial() && heads == table
    {
      heads := table;
      threads, group, current, lockNest := map[], {}, None, 0;
      next, prev, lists := map[], map[], map[];
      new;
      for offset := 0 to PRIORITIES
        invariant Partition(Nodes(), lists) && lists.Keys == Elems(heads[..offset]) && AllEmpty(lists)
        invariant threads == map[] && group == {} && current == None && lockNest == 0
      {
        NewHead(Nodes(), lists, heads, offset);
        next := next[heads[offset] := heads[offset]];
        prev := prev[heads[offset] := heads[offset]];
        lists := lists[heads[offset] := []];
      }
      assert heads[..PRIORITIES] == heads;
      forall h <- heads ensures h in lists { assert h in lists.Keys; }
      forall p | 0 <= p < PRIORITIES ensures Members(lists, heads[p]) == [] { assert heads[p] in heads; }
      assert View().queues == Runs.Initial().queues;
      Runs.InitialInv();
    }

    // ---- list upkeep ------------------------------------------------------------------------

    /** rt_list_insert_before(at, n) of a free node: n becomes the i-th member of list h. */
    method InsertNode(at: nat, n: nat, ghost h: nat, ghost i: nat)
      requires Partition(Nodes(), lists) && h in lists && i <= |lists[h]| && at == Behind(h, lists[h], i)
      requires Free(lists, n) && n != h
      modifies this`next, this`prev, this`lists
      ensures Partition(Nodes(), lists) && lists == Inserting(old(lists), h, i, n)
    {
      hide Partition, Inserting;
      LinkKeeps(Nodes(), lists, h, i, n);
      var last := prev[at];
      next := next[last := n];
      prev := prev[n := last];
      prev := prev[at := n];
      next := next[n := at];
      lists := Inserting(lists, h, i, n);
    }

    /** rt_list_remove(n). */
    method RemoveNode(n: nat)
      requires Partition(Nodes(), lists) && Known(lists, n) && (n in lists ==> lists[n] == [])
      modifies this`next, this`prev, this`lists
      ensures Partition(Nodes(), lists) && lists == Removing(old(lists), n) && Free(lists, n)
    {
      hide Partition, Removing, Known, Free;
      UnlinkKeeps(Nodes(), lists, n);
      prev := prev[next[n] := prev[n]];
      next := next[prev[n] := next[n]];
      next := next[n := n];
      prev := prev[n := n];
      lists := Removing(lists, n);
    }

    /** A free thread is appended to ready queue p. */
    method AppendReady(p: nat, t: nat)
      requires Linked() && p < PRIORITIES && t in threads && Free(lists, t) && !Unlisted(threads[t].stat)
      modifies this`next, this`prev, this`lists
      ensures Linked()
      ensures ReadyQueues(lists, heads) == old(ReadyQueues(lists, heads)[p := ReadyQueues(lists, heads)[p] + [t]])
      ensures SameWaitLists(old(lists), lists, heads, t)
    {
      HeadIs(Nodes(), lists, heads, threads.Keys, p);
      ghost var l, ls, h, i := Nodes(), lists, heads[p], |lists[heads[p]]|;
      hide Partition, Inserting, ReadyQueues, Resting, Known;
      QueuesAppend(l, ls, heads, threads.Keys, p, t);
      InsertRests(threads, ls, h, i, t);
      WaitListsKept(ls, heads, p, i, t);
      InsertNode(heads[p], t, h, i);
      WiredInsert(l, Nodes(), ls, heads, threads.Keys, h, i, t);
    }

    /** A thread's node is unlinked, wherever it is. */
    method Unlink(t: nat)
      requires Linked() && t in threads
      modifies this`next, this`prev, this`lists
      ensures Linked() && Free(lists, t) && lists == Removing(old(lists), t)
    {
      ghost var l, ls := Nodes(), lists;
      hide Partition, Removing, Resting, Known;
      RemoveNode(t);
      WiredRemove(l, Nodes(), ls, heads, threads.Keys, t);
      RemoveRests(threads, ls, t);
    }

    /** A free or unlisted thread changes its fields. */
    method SetTcb(t: nat, tcb: Tcb)
      requires Linked() && t in threads && (Unlisted(tcb.stat) ==> Free(lists, t))
      modifies this`threads
      ensures Linked() && threads == old(threads)[t := tcb] && threads.Keys == old(threads).Keys
    {
      hide Wired, Resting, Free;
      StatRests(threads, lists, t, tcb);
      threads := threads[t := tcb];
    }

    /** rt_schedule_insert_thread: the current thread goes on running; any other becomes the last
        ready one of its priority. */
    method Insert(t: nat)
      requires Shape(View()) && Linked() && t in threads && Free(lists, t)
      modifies this`threads, this`group, this`next, this`prev, this`lists
      ensures Linked() && View() == InsertThread(old(View()), t)
      ensures t in threads && threads.Keys == old(threads).Keys && forall u :: u in threads && u != t ==>
                threads[u] == old(threads)[u]
      ensures threads[t] == old(threads)[t].(stat := threads[t].stat)
      ensures current == Some(t) ==> threads[t].stat == Running && lists == old(lists) && group == old(group)
      ensures SameWaitLists(old(lists), lists, heads, t)
      ensures current != Some(t) ==> threads[t].stat == Ready && threads[t].mask <= group && IsLast(threads[t].prio, t)
    {
      hide Wired, Resting, ReadyQueues, Free;
      if current == Some(t) {
        SetTcb(t, threads[t].(stat := Running));
        return;
      }
      SetTcb(t, threads[t].(stat := Ready));
      var p := threads[t].prio;
      AppendReady(p, t);
      group := group + threads[t].mask;
    }

    /** t is the last thread of ready queue p. */
    ghost predicate IsLast(p: nat, t: nat)
      reads this`lists
    {
      var queues := ReadyQueues(lists, heads);
      p < |queues| && queues[p] != [] && queues[p][|queues[p]| - 1] == t
    }

    /** rt_schedule_remove_thread: the thread is in no list any more, and the bits of its mask go
        with the last thread of its queue. */
    method Remove(t: nat)
      requires Shape(View()) && Linked() && t in threads
      requires forall p :: 0 <= p < PRIORITIES && t in View().queues[p] ==> p == threads[t].prio
      modifies this`group, this`next, this`prev, this`lists
      ensures Linked() && Free(lists, t) && View() == RemoveThread(old(View()), t) && lists == Removing(old(lists), t)
    {
      hide Wired, Resting, Free, Removing, Known, ReadyQueues, Shape, RemoveThread;
      ghost var s, l, ls := View(), Nodes(), lists;
      PrioIs(s, t);
      Unlink(t);
      HeadIs(Nodes(), lists, heads, threads.Keys, threads[t].prio);
      var head := heads[threads[t].prio];
      if next[head] == head {
        group := group - threads[t].mask;
      }
      RemovedView(l, Nodes(), ls, heads, s, t, group);
    }

    /** rt_list_remove of the node of a thread that is in no ready queue. */
    method LeaveWaitList(t: nat)
      requires Shape(View()) && Linked() && t in threads
      requires forall p :: 0 <= p < PRIORITIES ==> t !in View().queues[p]
      modifies this`next, this`prev, this`lists
      ensures Linked() && Free(lists, t) && View() == old(View()) && lists == Removing(old(lists), t)
    {
      hide Wired, Resting, Free, Removing, Known, ReadyQueues, Shape;
      LeftView(Nodes(), lists, heads, View(), t);
      Unlink(t);
    }

    // ---- scheduling -------------------------------------------------------------------------

    /** _get_highest_priority_thread. */
    method HighestPriorityThread() returns (t: nat, prio: nat)
      requires Shape(View()) && Heads(View()) && Linked() && group != {}
      ensures prio in group && (forall p :: p in group ==> prio <= p)
      ensures prio < PRIORITIES && View().queues[prio] != [] && t == View().queues[prio][0] && t in threads
    {
      hide Wired, Resting, ReadyQueues;
      prio := 0;
      assert exists p :: p in group;
      while prio !in group
        invariant forall p :: p in group ==> prio <= p
        decreases PRIORITIES - prio
      {
        assert exists p :: p in group;
        prio := prio + 1;
      }
      HeadIs(Nodes(), lists, heads, threads.Keys, prio);
      t := next[heads[prio]];
    }

    /** rt_schedule. */
    method Reschedule()
      requires Valid() && current.Some?
      modifies this
      ensures View() == Step(old(View()), Action.Reschedule) && Valid()
      ensures threads.Keys == old(threads).Keys && WaitsKept(old(lists), lists, heads, threads.Keys)
    {
      InvHeads(View());
      StepKeeps(View(), Action.Reschedule);
      hide Wired, Resting, ReadyQueues;
      if lockNest != 0 || group == {} {
        return;
      }
      Pass();
    }

    /** What rt_schedule does with the scheduler unlocked and a thread ready. */
    method Pass()
      requires Valid() && current.Some? && Heads(View()) && lockNest == 0 && group != {}
      modifies this
      ensures View() == Schedule(old(View())) && Linked()
      ensures threads.Keys == old(threads).Keys && WaitsKept(old(lists), lists, heads, threads.Keys)
    {
      hide Wired, Resting, ReadyQueues, Free, Shape, RemoveThread, Without, SwitchTo, Inv, Heads, Known, Schedule;
      hide WaitsKept, Removing;
      ghost var s := View();
      InvShape(s);
      var c := current.value;
      var to, prio := HighestPriorityThread();
      PassIs(s, prio, to);
      CurrentFree();
      var insertFrom := false;
      if threads[c].stat == Running {
        if Stays(threads[c], prio) {
          to := c;
        } else {
          insertFrom := true;
        }
        SetTcb(c, threads[c].(yielded := false));
      }
      if to != c {
        SwitchThread(c, to, insertFrom);
      } else {
        RemovingKept(Nodes(), lists, heads, threads.Keys, threads[c].prio, c);
        Remove(c);
        SetTcb(c, threads[c].(stat := Running));
      }
    }

    lemma CurrentFree()
      requires Valid() && current.Some? && current.value in threads
      ensures threads[current.value].stat == Running ==> Free(lists, current.value)
    {}

    /** The switch inside rt_schedule. */
    method SwitchThread(from: nat, to: nat, insertFrom: bool)
      requires Shape(View()) && Linked() && from in threads && to in threads && from != to
      requires insertFrom == (threads[from].stat == Running)
      requires threads[from].stat == Running ==> Free(lists, from)
      requires forall p :: 0 <= p < PRIORITIES && to in View().queues[p] ==> p == threads[to].prio
      requires threads[to].prio < PRIORITIES && to in View().queues[threads[to].prio]
      modifies this`threads, this`group, this`current, this`next, this`prev, this`lists
      ensures View() == SwitchTo(old(View()), from, to) && Linked()
      ensures threads.Keys == old(threads).Keys && WaitsKept(old(lists), lists, heads, threads.Keys)
    {
      hide Wired, Resting, ReadyQueues, Free, WaitsKept, SameWaitLists, Removing;
      current := Some(to);
      if insertFrom {
        Insert(from);
        KeptSame(old(lists), lists, heads, threads.Keys, from);
      } else {
        KeptSelf(lists, heads, threads.Keys);
      }
      assert to in ReadyQueues(lists, heads)[threads[to].prio];
      RemovingKept(Nodes(), lists, heads, threads.Keys, threads[to].prio, to);
      KeptTwice(old(lists), lists, Removing(lists, to), heads, threads.Keys);
      Remove(to);
      SetTcb(to, threads[to].(stat := Running));
    }

    /** rt_system_scheduler_start. */
    method Start()
      requires Valid() && current.None? && group != {}
      modifies this
      ensures View() == Step(old(View()), Begin) && Valid()
    {
      hide Wired, Resting, ReadyQueues, Free, Shape, RemoveThread, Without, Inv, Heads, Known, StartScheduler;
      ghost var s := View();
      InvShape(s);
      StepKeeps(s, Begin);
      var to, prio := HighestPriorityThread();
      BeginIs(s, prio, to);
      current := Some(to);
      Remove(to);
      SetTcb(to, threads[to].(stat := Running));
    }

    // ---- threads ----------------------------------------------------------------------------

    /** rt_thread_init, as far as the scheduler is concerned, of a thread whose node is in no list. */
    method InitThread(t: nat, prio: nat, tick: nat)
      requires Valid() && t !in threads && !Known(lists, t) && prio < PRIORITIES
      modifies this`threads, this`next, this`prev, this`lists
      ensures View() == Step(old(View()), NewThread(t, prio, tick)) && Valid()
    {
      StepKeeps(View(), NewThread(t, prio, tick));
      var tcb := Tcb(prio, prio, {}, Init, false, tick, tick);
      WiredNew(Nodes(), lists, heads, threads, t, tcb);
      hide Wired, Resting, ReadyQueues, Inv;
      next := next[t := t];
      prev := prev[t := t];
      lists := lists[t := []];
      threads := threads[t := tcb];
    }

    /** rt_thread_resume: the thread leaves the wait list it is in, if any. */
    method Resume(t: nat) returns (r: Outcome)
      requires Valid() && t in threads
      modifies this`threads, this`group, this`next, this`prev, this`lists
      ensures (View(), r) == ResumeThread(old(View()), t) && Valid()
      ensures r == EOk ==> SameWaitLists(Removing(old(lists), t), lists, heads, t)
      ensures r != EOk ==> lists == old(lists)
    {
      hide Wired, Resting, ReadyQueues, Inv, Known, Shape, Removing, InsertThread, SameWaitLists;
      StepKeeps(View(), Resumption(t));
      InvShape(View());
      NowhereElse(View(), t);
      if threads[t].stat != Suspend {
        return EError;
      }
      LeaveWaitList(t);
      Insert(t);
      return EOk;
    }

    /** rt_thread_suspend; its assertion that a running thread is the current one holds. */
    method SuspendIt(t: nat) returns (r: Outcome)
      requires Valid() && t in threads
      modifies this`threads, this`group, this`next, this`prev, this`lists
      ensures (View(), r) == SuspendThread(old(View()), t) && Valid()
      ensures r == EOk ==> Free(lists, t) && lists == Removing(old(lists), t)
      ensures r != EOk ==> lists == old(lists)
    {
      hide Wired, Resting, ReadyQueues, Inv, Known, Shape, Removing, RemoveThread, Free, Without;
      SuspendKeeps(View(), t);
      InvShape(View());
      NowhereElse(View(), t);
      var stat := threads[t].stat;
      if stat != Ready && stat != Running {
        return EError;
      }
      if stat == Running {
        RunningIsCurrent(View(), t);
        assert current == Some(t);
      }
      Remove(t);
      SetTcb(t, threads[t].(stat := Suspend));
      return EOk;
    }

    /** rt_thread_startup. */
    method StartupThread(t: nat)
      requires Valid() && t in threads && threads[t].stat == Init
      modifies this
      ensures View() == old(Scheduled(Startup(t))) && Valid()
    {
      hide Wired, Resting, ReadyQueues, Inv, Known, Shape, Schedule, InsertThread;
      StepKeeps(View(), Startup(t));
      InvShape(View());
      StartupOk(View(), t);
      var tcb := threads[t];
      tcb := tcb.(prio := tcb.initPrio);
      tcb := tcb.(mask := {tcb.prio});
      SetTcb(t, tcb.(stat := Suspend, yielded := false));
      var _ := Resume(t);
      if current.Some? {
        Reschedule();
      }
    }

    /** The part of rt_thread_timeout before rt_schedule: the thread leaves its wait list and is ready. */
    method WakeTimedOut(t: nat)
      requires Valid() && t in threads && threads[t].stat == Suspend
      modifies this`threads, this`group, this`next, this`prev, this`lists
      ensures View() == Step(old(View()), Expiry(t)) && Valid()
      ensures threads.Keys == old(threads).Keys && WaitsKept(Removing(old(lists), t), lists, heads, threads.Keys)
    {
      hide Wired, Resting, ReadyQueues, Inv, Known, Shape, InsertThread, WaitsKept, SameWaitLists, Removing;
      StepKeeps(View(), Expiry(t));
      InvShape(View());
      NowhereElse(View(), t);
      LeaveWaitList(t);
      Insert(t);
      KeptSame(Removing(old(lists), t), lists, heads, threads.Keys, t);
    }

    /** rt_thread_timeout of a suspended thread. */
    method Timeout(t: nat)
      requires Valid() && current.Some? && t in threads && threads[t].stat == Suspend
      modifies this
      ensures View() == old(Scheduled(Expiry(t))) && Valid()
      ensures threads.Keys == old(threads).Keys && WaitsKept(Removing(old(lists), t), lists, heads, threads.Keys)
    {
      hide Wired, Resting, ReadyQueues, Inv, Known, Shape, Schedule, InsertThread, WaitsKept, Removing;
      StepKeeps(View(), Expiry(t));
      WakeTimedOut(t);
      ghost var ls := lists;
      Reschedule();
      KeptTwice(Removing(old(lists), t), ls, lists, heads, threads.Keys);
    }

    /** rt_thread_control(RT_THREAD_CTRL_CHANGE_PRIORITY). */
    method SetPriority(t: nat, prio: nat)
      requires Valid() && t in threads && prio < PRIORITIES
      modifies this`threads, this`group, this`next, this`prev, this`lists
      ensures View() == Step(old(View()), NewPriority(t, prio)) && Valid()
      ensures threads == old(threads)[t := old(threads)[t].(prio := prio, mask := {prio})]
      ensures WaitsKept(old(lists), lists, heads, threads.Keys)
    {
      hide Wired, Resting, ReadyQueues, Inv, Known, Shape, InsertThread, RemoveThread, Free;
      hide WaitsKept, SameWaitLists, Removing;
      ghost var s := View();
      StepKeeps(s, NewPriority(t, prio));
      InvShape(s);
      NowhereElse(s, t);
      StoppedIsFree(threads, lists, t);
      if threads[t].stat == Ready {
        RemovedShape(s, t, prio);
        ReadyHere(s, t);
        RemovingKept(Nodes(), lists, heads, threads.Keys, threads[t].prio, t);
        Remove(t);
        ghost var ls := lists;
        SetTcb(t, threads[t].(prio := prio, mask := {prio}));
        ghost var with := threads;
        Insert(t);
        assert threads[t] == with[t];
        assert threads == with;
        KeptSame(ls, lists, heads, threads.Keys, t);
        KeptTwice(old(lists), ls, lists, heads, threads.Keys);
      } else {
        KeptSelf(lists, heads, threads.Keys);
        SetTcb(t, threads[t].(prio := prio, mask := {prio}));
      }
    }

    /** The time slice is refilled and the yield flag set. */
    method MarkCurrent()
      requires Valid() && current.Some?
      modifies this`threads
      ensures View() == Step(old(View()), Action.Yield) && Valid()
    {
      hide Wired, Resting, ReadyQueues, Inv, Known, Shape, Free;
      StepKeeps(View(), Action.Yield);
      InvShape(View());
      StoppedIsFree(threads, lists, current.value);
      var tcb := threads[current.value];
      tcb := tcb.(remaining := tcb.initTick);
      SetTcb(current.value, tcb.(yielded := true));
    }

    /** rt_thread_yield. */
    method Yield()
      requires Valid() && current.Some?
      modifies this
      ensures View() == Runs.YieldNow(old(View())) && Valid()
    {
      hide Wired, Resting, ReadyQueues, Inv;
      MarkCurrent();
      Reschedule();
    }

    /** The counting part of rt_tick_increase; `over` when the time slice has expired. */
    method CountDown() returns (over: bool)
      requires Valid() && current.Some?
      modifies this`threads
      ensures View() == Step(old(View()), Tick) && Valid()
      ensures current.value in old(threads) && (over <==> Decrement(old(threads)[current.value].remaining) == 0)
    {
      hide Wired, Resting, ReadyQueues, Inv, Known, Shape, Free;
      StepKeeps(View(), Tick);
      InvShape(View());
      StoppedIsFree(threads, lists, current.value);
      var tcb := threads[current.value];
      tcb := tcb.(remaining := Decrement(tcb.remaining));
      over := tcb.remaining == 0;
      if over {
        tcb := tcb.(remaining := tcb.initTick);
        tcb := tcb.(yielded := true);
      }
      SetTcb(current.value, tcb);
    }

    /** rt_tick_increase, without the timers. */
    method TickIncrease()
      requires Valid() && current.Some?
      modifies this
      ensures View() == Runs.TickNow(old(View())) && Valid()
    {
      hide Wired, Resting, ReadyQueues, Inv;
      var over := CountDown();
      if over {
        Reschedule();
      }
    }

    /** rt_enter_critical: with the counter in its range no thread is switched until it is back at 0. */
    method EnterCritical()
      requires Valid()
      modifies this`lockNest
      ensures View() == Step(old(View()), Enter) && Valid()
      ensures 0 <= old(lockNest) < 0x7fff ==> 0 < lockNest == old(lockNest) + 1
    {
      hide Wired, Resting, ReadyQueues, Inv;
      StepKeeps(View(), Enter);
      lockNest := Wrap16(lockNest + 1);
    }

    /** rt_exit_critical: leaving the outermost critical section reschedules. */
    method ExitCritical()
      requires Valid()
      modifies this
      ensures View() == Runs.LeaveNow(old(View())) && Valid()
    {
      hide Wired, Resting, ReadyQueues, Inv;
      StepKeeps(View(), Exit);
      lockNest := Wrap16(lockNest - 1);
      if lockNest <= 0 {
        lockNest := 0;
        if current.Some? {
          Reschedule();
        }
      }
    }

    /** rt_thread_exit. */
    method ExitThread()
      requires Valid() && current.Some?
      modifies this
      ensures View() == old(Scheduled(Finish)) && Valid()
    {
      hide Wired, Resting, ReadyQueues, Inv, Known, Shape, RemoveThread, Schedule;
      StepKeeps(View(), Finish);
      InvShape(View());
      NowhereElse(View(), current.value);
      var c := current.value;
      Remove(c);
      SetTcb(c, threads[c].(stat := Close, yielded := false));
      Reschedule();
    }

    // ---- wait lists ---------------------------------------------------------------------------

    /** The list of an IPC object. */
    ghost predicate IsWaitList(o: nat)
      reads this`threads, this`lists
    {
      o in lists && o !in heads && o !in threads
    }

    /** The wait list of a new object, at an address that is in no list. */
    method NewWaitList(o: nat)
      requires Valid() && !Known(lists, o) && o !in threads
      modifies this`next, this`prev, this`lists
      ensures Valid() && IsWaitList(o) && View() == old(View()) && lists == old(lists)[o := []]
    {
      WiredHead(Nodes(), lists, heads, threads, o);
      hide Wired, Resting, ReadyQueues, Inv, Known;
      next := next[o := o];
      prev := prev[o := o];
      lists := lists[o := []];
    }

    /** The loop of rt_ipc_list_suspend: where t belongs in the wait list of o. */
    method FindPlace(o: nat, t: nat, flag: Flag) returns (at: nat, ghost i: nat)
      requires Linked() && IsWaitList(o) && t in threads
      ensures i <= |lists[o]| && at == Behind(o, lists[o], i)
      ensures lists[o][..i] + [t] + lists[o][i..] == Suspended(lists[o], t, flag, Urgency(threads))
    {
      hide Wired, Resting, Place, Partition;
      ghost var list := lists[o];
      WaitWalk(Nodes(), lists, heads, threads.Keys, o, 0);
      if flag == Prio {
        var n := next[o];
        i := 0;
        while n != o
          invariant i <= |list| && n == Behind(o, list, i)
          invariant forall k :: 0 <= k < i ==> KeyOf(Urgency(threads), list[k]) <= KeyOf(Urgency(threads), t)
          decreases |list| - i
        {
          WaitWalk(Nodes(), lists, heads, threads.Keys, o, i);
          if threads[t].prio < threads[n].prio {
            PlaceAtCut(list, Urgency(threads), t, i);
            return n, i;
          }
          n := next[n];
          i := i + 1;
        }
        if i < |list| { WaitWalk(Nodes(), lists, heads, threads.Keys, o, i); }
        PlaceAtCut(list, Urgency(threads), t, i);
      }
      at, i := o, |list|;
    }

    /** rt_ipc_list_suspend of a ready or running thread. */
    method SuspendOn(o: nat, t: nat, flag: Flag)
      requires Valid() && IsWaitList(o) && t in threads && (threads[t].stat == Ready || threads[t].stat == Running)
      modifies this`threads, this`group, this`next, this`prev, this`lists
      ensures Valid() && IsWaitList(o) && View() == SuspendThread(old(View()), t).0
      ensures t !in old(lists)[o] && lists[o] == Suspended(old(lists)[o], t, flag, Urgency(old(threads)))
      ensures threads.Keys == old(threads).Keys && OthersKept(old(lists), lists, heads, threads.Keys, o)
    {
      hide Wired, Resting, ReadyQueues, Inv, Shape, Known, Inserting, Removing, Place, Partition, RemoveThread;
      hide WaitsKept, OthersKept;
      StartsListed(View(), Nodes(), lists, heads, t);
      InvShape(View());
      NotWaiting(View(), Nodes(), lists, heads, o, t);
      SuspendedTcb(View(), t);
      var r := SuspendIt(t);
      SameUrgency(old(threads), t, Suspend);
      var at, i := FindPlace(o, t, flag);
      ghost var l, ls := Nodes(), lists;
      QueuesKept(l, ls, heads, threads.Keys, o, i, t);
      InsertRests(threads, ls, o, i, t);
      InsertedInto(ls, o, i, t);
      Partitioned(l, ls, heads, threads.Keys);
      InsertingKept(ls, heads, threads.Keys, o, i, t);
      KeptOthers(old(lists), ls, Inserting(ls, o, i, t), heads, threads.Keys, o);
      InsertNode(at, t, o, i);
      WiredInsert(l, Nodes(), ls, heads, threads.Keys, o, i, t);
    }

    /** rt_ipc_list_resume: the first waiter leaves the list and becomes ready. */
    method ResumeFirst(o: nat)
      requires Valid() && IsWaitList(o) && lists[o] != []
      modifies this`threads, this`group, this`next, this`prev, this`lists
      ensures Valid() && IsWaitList(o) && lists[o] == old(lists)[o][1..]
      ensures old(lists)[o][0] in old(threads) && (View(), EOk) == ResumeThread(old(View()), old(lists)[o][0])
      ensures threads.Keys == old(threads).Keys && OthersKept(old(lists), lists, heads, threads.Keys, o)
    {
      hide Wired, Resting, ReadyQueues, Inv, Known, Removing, Partition, InsertThread, WaitsKept, OthersKept;
      WaitWalk(Nodes(), lists, heads, threads.Keys, o, 0);
      WaiterSuspended(View(), Nodes(), lists, heads, o, 0);
      FirstLeaves(Nodes(), lists, heads, threads.Keys, o);
      LeavingKept(Nodes(), lists, heads, threads.Keys, o, next[o]);
      InvShape(View());
      ResumedKeys(View(), next[o]);
      ghost var t := next[o];
      var _ := Resume(next[o]);
      KeptSame(Removing(old(lists), t), lists, heads, threads.Keys, t);
      OthersThen(old(lists), Removing(old(lists), t), lists, heads, threads.Keys, o);
    }
  }

  lemma StartupOk(s: State, t: nat)
    requires Inv(s) && t in s.threads && s.threads[t].stat == Init
    ensures var tcb := s.threads[t];
      Inv(s.(threads := s.threads[t := tcb.(prio := tcb.initPrio, mask := {tcb.initPrio}, stat := Suspend,
          yielded := false)]))
  {
    var tcb := s.threads[t];
    NotQueued(s, t, CurrentSet(s));
    SetCore(s, t, tcb.(prio := tcb.initPrio, mask := {tcb.initPrio}, stat := Suspend, yielded := false), CurrentSet(s));
  }

  lemma StoppedIsFree(threads: map<nat, Tcb>, lists: Lists, t: nat)
    requires Resting(threads, lists) && t in threads
    ensures Unlisted(threads[t].stat) ==> Free(lists, t)
  {}

  lemma RemovedShape(s: State, t: nat, prio: nat)
    requires Shape(s) && t in s.threads && prio < PRIORITIES
    ensures Shape(SetPriority(RemoveThread(s, t), t, prio))
  {}

  lemma InvShape(s: State)
    requires Inv(s)
    ensures Shape(s) && Heads(s) && (s.current.Some? ==> s.current.value in s.threads)
  {
    InvHeads(s);
  }

  lemma ReadyHere(s: State, t: nat)
    requires Inv(s) && t in s.threads && s.threads[t].stat == Ready
    ensures s.threads[t].prio < PRIORITIES && t in s.queues[s.threads[t].prio] && s.current != Some(t)
  {
    assert ThreadOk(s, t, s.threads[t]);
  }

  lemma RunningIsCurrent(s: State, t: nat)
    requires Inv(s) && t in s.threads && s.threads[t].stat == Running
    ensures s.current == Some(t)
  {}

  lemma PrioIs(s: State, t: nat)
    requires Shape(s) && t in s.threads
    ensures s.threads[t].prio < PRIORITIES == |s.queues|
  {}

  /** The queues and bits after a thread's node was unlinked. */
  lemma RemovedView(l: Links, l': Links, lists: Lists, heads: seq<nat>, s: State, t: nat, group: set<nat>)
    requires Shape(s) && t in s.threads && Wired(l, lists, heads, s.threads.Keys)
               && s.queues == ReadyQueues(lists, heads)
    requires forall p :: 0 <= p < PRIORITIES && t in s.queues[p] ==> p == s.threads[t].prio
    requires Wired(l', Removing(lists, t), heads, s.threads.Keys)
    requires heads[s.threads[t].prio] in l'.next
    requires group == if l'.next[heads[s.threads[t].prio]] == heads[s.threads[t].prio] then s.group - s.threads[t].mask
               else s.group
    ensures s.(queues := ReadyQueues(Removing(lists, t), heads), group := group) == RemoveThread(s, t)
  {
    var p := s.threads[t].prio;
    QueuesRemove(l, lists, heads, s.threads.Keys, p, t);
    HeadIs(l', Removing(lists, t), heads, s.threads.Keys, p);
  }

  lemma LeftView(l: Links, lists: Lists, heads: seq<nat>, s: State, t: nat)
    requires Shape(s) && t in s.threads && Wired(l, lists, heads, s.threads.Keys)
               && s.queues == ReadyQueues(lists, heads)
    requires forall p :: 0 <= p < PRIORITIES ==> t !in s.queues[p]
    ensures ReadyQueues(Removing(lists, t), heads) == ReadyQueues(lists, heads)
  {
    QueuesRemove(l, lists, heads, s.threads.Keys, 0, t);
    WithoutAbsent(s.queues[0], t);
  }

  /** What a pass comes to once the most urgent ready thread is known. */
  lemma PassIs(s: State, p: nat, to: nat)
    requires Inv(s) && Heads(s) && s.current.Some? && s.lockNest == 0
    requires p in s.group && (forall q :: q in s.group ==> p <= q) && p < PRIORITIES
    requires p < |s.queues| && s.queues[p] != [] && to == s.queues[p][0]
    ensures var c := s.current.value;
      && c in s.threads && to in s.threads && to != c && Shape(ClearYield(s, c))
      && s.threads[c].prio < PRIORITIES && s.threads[to].prio == p && to in s.queues[p]
      && (forall q :: 0 <= q < PRIORITIES && to in s.queues[q] ==> q == s.threads[to].prio)
      && (forall q :: 0 <= q < PRIORITIES && c in s.queues[q] ==> q == s.threads[c].prio)
      && Shape(s)
      && Schedule(s) == (if Stays(s.threads[c], p) then SetStat(RemoveThread(ClearYield(s, c), c), c, Running)
                         else SwitchTo(ClearYield(s, c), c, to))
  {
    LowestIs(s, p);
    CandidateAt(s, p, to);
    NowhereElse(s, s.current.value);
  }

  lemma BeginIs(s: State, p: nat, to: nat)
    requires Inv(s) && Heads(s) && s.current.None?
    requires p in s.group && (forall q :: q in s.group ==> p <= q) && p < PRIORITIES
    requires p < |s.queues| && s.queues[p] != [] && to == s.queues[p][0]
    ensures to in s.threads && Shape(s.(current := Some(to)))
    ensures forall q :: 0 <= q < PRIORITIES && to in s.queues[q] ==> q == s.threads[to].prio
    ensures s.group != {} && Step(s, Begin) == SetStat(RemoveThread(s.(current := Some(to)), to), to, Running)
  {
    LowestIs(s, p);
    CandidateAt(s, p, to);
  }

  /** The first thread of the lowest queue is in that queue only. */
  lemma CandidateAt(s: State, p: nat, to: nat)
    requires Inv(s) && p in s.group && p < PRIORITIES && s.queues[p] != [] && to == s.queues[p][0]
    ensures to in s.threads && s.threads[to].prio == p && s.threads[to].stat == Ready
    ensures forall q :: 0 <= q < PRIORITIES && to in s.queues[q] ==> q == p
  {
    assert QueueOk(s, p) && to in s.queues[p];
    forall q: nat | q < PRIORITIES && to in s.queues[q] ensures q == p { assert QueueOk(s, q); }
  }

  /** A thread that is not ready is in no queue. */
  lemma NowhereElse(s: State, t: nat)
    requires Inv(s) && t in s.threads
    ensures s.threads[t].stat != Ready ==> forall p :: 0 <= p < PRIORITIES ==> t !in s.queues[p]
    ensures forall p :: 0 <= p < PRIORITIES && t in s.queues[p] ==> p == s.threads[t].prio
  {
    forall p: nat | p < PRIORITIES && t in s.queues[p] ensures s.threads[t].stat == Ready && p == s.threads[t].prio {
      assert QueueOk(s, p);
    }
  }

  lemma LowestIs(s: State, p: nat)
    requires Inv(s) && p in s.group && forall q :: q in s.group ==> p <= q
    ensures (exists q :: q in s.group) && p == Lowest(s.group, 0)
  {}

  // ---- where threads are ----------------------------------------------------------------------

  lemma SuspendedTcb(s: State, t: nat)
    requires Shape(s) && t in s.threads && (s.threads[t].stat == Ready || s.threads[t].stat == Running)
    ensures SuspendThread(s, t).0.threads == s.threads[t := s.threads[t].(stat := Suspend)]
  {}

  lemma ResumedKeys(s: State, t: nat)
    requires Shape(s) && t in s.threads
    ensures InsertThread(s, t).threads.Keys == s.threads.Keys
  {}

  lemma ReadyListed(s: State, l: Links, lists: Lists, heads: seq<nat>, t: nat)
    requires Inv(s) && Wired(l, lists, heads, s.threads.Keys) && s.queues == ReadyQueues(lists, heads) && t in s.threads
    ensures s.threads[t].stat == Ready ==>
      var p := s.threads[t].prio; p < |heads| && heads[p] in heads && heads[p] in lists && t in lists[heads[p]]
  {
    if s.threads[t].stat == Ready {
      assert ThreadOk(s, t, s.threads[t]);
      assert heads[s.threads[t].prio] in heads;
    }
  }

  /** Whoever waits in the list of an object is suspended. */
  lemma WaiterSuspended(s: State, l: Links, lists: Lists, heads: seq<nat>, o: nat, i: nat)
    requires Inv(s) && Wired(l, lists, heads, s.threads.Keys) && Resting(s.threads, lists)
               && s.queues == ReadyQueues(lists, heads)
    requires o in lists && o !in heads && i < |lists[o]|
    ensures lists[o][i] in s.threads && s.threads[lists[o][i]].stat == Suspend
  {
    assert lists[o][i] in lists[o];
    ReadyListed(s, l, lists, heads, lists[o][i]);
  }

  lemma NotWaiting(s: State, l: Links, lists: Lists, heads: seq<nat>, o: nat, t: nat)
    requires Inv(s) && Wired(l, lists, heads, s.threads.Keys) && Resting(s.threads, lists)
               && s.queues == ReadyQueues(lists, heads)
    requires o in lists && o !in heads && o !in s.threads && t in s.threads && s.threads[t].stat != Suspend
    ensures t !in lists[o] && o in Removing(lists, t) && Removing(lists, t)[o] == lists[o]
  {
    forall i | 0 <= i < |lists[o]| ensures lists[o][i] != t {
      WaiterSuspended(s, l, lists, heads, o, i);
    }
    WithoutAbsent(lists[o], t);
  }

  /** A ready or running thread is in no wait list. */
  lemma StartsListed(s: State, l: Links, lists: Lists, heads: seq<nat>, t: nat)
    requires Inv(s) && Wired(l, lists, heads, s.threads.Keys) && Resting(s.threads, lists)
    requires s.queues == ReadyQueues(lists, heads)
    requires t in s.threads && (s.threads[t].stat == Ready || s.threads[t].stat == Running)
    ensures WaitsKept(lists, Removing(lists, t), heads, s.threads.Keys)
  {
    if s.threads[t].stat == Ready {
      ReadyHere(s, t);
      RemovingKept(l, lists, heads, s.threads.Keys, s.threads[t].prio, t);
    } else {
      RemovingKept(l, lists, heads, s.threads.Keys, 0, t);
    }
  }

  /** A thread stands exactly where its state says: a ready one in the queue of its priority and in
      no other list, a suspended one in at most one list, which belongs to an object, any other in
      none. */
  lemma WhereThreadsAre(k: Kernel, t: nat, h: nat)
    requires k.Valid() && t in k.threads && h in k.lists
    ensures k.threads[t].stat == Ready ==>
              k.threads[t].prio < |k.heads| && (t in k.lists[h] <==> h == k.heads[k.threads[t].prio])
    ensures k.threads[t].stat == Suspend && t in k.lists[h] ==>
              h !in k.heads && forall g <- k.lists :: t in k.lists[g] ==> g == h
    ensures Unlisted(k.threads[t].stat) ==> t !in k.lists[h]
  {
    var tcb, queues := k.threads[t], k.View().queues;
    if tcb.stat == Ready {
      assert ThreadOk(k.View(), t, tcb);
      assert t in queues[tcb.prio] && k.heads[tcb.prio] in k.heads;
    }
    if h in k.heads && t in k.lists[h] {
      var p :| 0 <= p < |k.heads| && k.heads[p] == h;
      assert QueueOk(k.View(), p) && t in queues[p];
    }
  }
}
