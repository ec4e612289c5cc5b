/** The ring buffer behind a mailbox, field by field as in `ipc.c`.

    The methods are the interrupt-disabled regions of the source; each is proved to do to the
    ring what the step functions of Mailboxes do to the queue.
 */
module MailboxRing {
  import opened Queues
  import opened Ipc
  import opened Mailboxes

  const ENTRY_MAX: nat := 0xffff      // RT_MB_ENTRY_MAX, and the largest 16-bit size

  /** Where the i-th message from the output offset on is stored. */
  function Slot(size: nat, out: nat, i: nat): nat
    requires out < size && i <= size
  {
    if out + i < size then out + i else out + i - size
  }

  /** The messages in the ring, oldest first. */
  ghost function Contents(pool: seq<int>, out: nat, entry: nat): (q: seq<int>)
    requires entry <= |pool| && (entry > 0 ==> out < |pool|)
    ensures |q| == entry
  {
    seq(entry, i requires 0 <= i < entry => pool[Slot(|pool|, out, i)])
  }

  lemma Multiples(size: nat, d: int)
    requires size > 0
    ensures d >= 2 ==> size * d >= 2 * size
    ensures d <= 0 ==> size * d <= 0
  {}

  /** The input offset is the output offset plus the number of entries, modulo the size. */
  lemma OffsetIsModular(size: nat, out: nat, entry: nat)
    requires out < size && entry <= size
    ensures Slot(size, out, entry) == (out + entry) % size
  {
    var x := out + entry;
    Multiples(size, x / size);
    assert x == size * (x / size) + x % size;
  }

  /** Storing at the input offset appends. */
  lemma Append(pool: seq<int>, out: nat, entry: nat, value: int)
    requires out < |pool| && entry < |pool|
    ensures Contents(pool[Slot(|pool|, out, entry) := value], out, entry + 1) == Contents(pool, out, entry) + [value]
  {}

  /** Advancing the output offset drops the oldest message. */
  lemma DropFirst(pool: seq<int>, out: nat, entry: nat)
    requires out < |pool| && 0 < entry <= |pool|
    ensures Contents(pool, out, entry)[0] == pool[out]
    ensures Contents(pool, Slot(|pool|, out, 1), entry - 1) == Contents(pool, out, entry)[1..]
  {}

  /** Stepping an offset: `++ offset; if (offset >= size) offset = 0`. */
  lemma NextSlot(size: nat, out: nat, i: nat)
    requires out < size && i < size
    ensures Slot(size, out, i + 1) == if Slot(size, out, i) + 1 >= size then 0 else Slot(size, out, i) + 1
    ensures i > 0 ==> Slot(size, Slot(size, out, 1), i - 1) == Slot(size, out, i)
  {}

  ghost predicate Woken(pc: map<nat, Pc>, list: seq<nat>, pc': map<nat, Pc>) {
    && pc'.Keys == pc.Keys
    && forall t <- pc :: pc'[t] == if t in list && pc[t].Waiting? then Awake(pc[t].call, EError) else pc[t]
  }

  /** Waking both lists wakes every waiting thread. */
  lemma WokenBoth(b: Box, mid: map<nat, Pc>, pc: map<nat, Pc>)
    requires ListsOk(b) && Woken(b.pc, b.receivers, mid) && Woken(mid, b.senders, pc)
    ensures pc == WakeAll(b.pc)
  {
    forall t | t in b.pc ensures pc[t] == WakeAll(b.pc)[t] {
      assert PcOf(b, t).Waiting? ==> t in b.receivers || t in b.senders;
    }
  }

  class Mailbox {
    const flag: Flag
    const pool: array<int>              // msg_pool
    const size: nat
    var entry: nat
    var inOffset: nat
    var outOffset: nat
    var receivers: seq<nat>             // parent.suspend_thread
    var senders: seq<nat>               // suspend_sender_thread
    var prio: Keys
    var pc: map<nat, Pc>
    ghost var sent: seq<int>
    ghost var received: seq<int>

    ghost predicate Valid()
      reads this, pool
    {
      && pool.Length == size <= ENTRY_MAX
      && entry <= size
      && (size > 0 ==> outOffset < size && inOffset == Slot(size, outOffset, entry))
    }

    ghost function View(): Box
      requires Valid()
      reads this, pool
    {
      Box(size, flag, prio, Contents(pool[..], outOffset, entry), receivers, senders, pc, sent, received)
    }

    /** rt_mb_init; the size field has 16 bits. */
    constructor (flag: Flag, size: nat, prio: Keys)
      requires size <= ENTRY_MAX
      ensures Valid() && fresh(pool)
      ensures View() == Box(size, flag, prio, [], [], [], map[], [], []) && Inv(View())
    {
      this.flag, this.size, this.prio := flag, size, prio;
      pool := new int[size];
      entry, inOffset, outOffset := 0, 0, 0;
      receivers, senders, pc, sent, received := [], [], map[], [], [];
    }

    /** rt_ipc_list_resume of the first waiting thread: it becomes ready with no error. */
    method WakeThread(t: nat)
      modifies this`pc
      ensures pc == WakeUp(old(pc), t, EOk)
    {
      if t in pc && pc[t].Waiting? {
        pc := pc[t := Awake(pc[t].call, EOk)];
      }
    }

    /** rt_mb_send_wait from one point where interrupts are disabled to the next where the thread
        returns or is suspended. */
    method Send(t: nat, value: int, timeout: int) returns (r: Outcome)
      requires Valid()
      modifies this, pool
      ensures Valid() && (View(), r) == SendRegion(old(View()), t, value, timeout)
    {
      if entry == size {
        if timeout == 0 {
          pc := pc[t := Idle];
          return EFull;
        }
        senders := ListSuspend(senders, t, flag, prio);
        pc := pc[t := Waiting(Mailboxes.Send(value, timeout))];
        return Blocked;
      }
      r := Deposit(t, value);
    }

    method Deposit(t: nat, value: int) returns (r: Outcome)
      requires Valid() && entry < size
      modifies this, pool
      ensures Valid() && (View(), r) == SendRegion(old(View()), t, value, 0)
    {
      Append(pool[..], outOffset, entry, value);
      NextSlot(size, outOffset, entry);
      pool[inOffset] := value;
      inOffset := inOffset + 1;
      if inOffset >= size {
        inOffset := 0;
      }
      // the overflow return of the source is unreachable: a 16-bit size bounds the entries
      assert entry < ENTRY_MAX;
      entry := entry + 1;
      assert pool[..] == old(pool[..])[Slot(size, outOffset, old(entry)) := value];
      sent := sent + [value];
      pc := pc[t := Idle];
      if receivers != [] {
        WakeThread(receivers[0]);
        receivers := receivers[1..];
      }
      return EOk;
    }

    /** rt_mb_recv, likewise; `value` is the message received when the result is EOk. */
    method Recv(t: nat, timeout: int) returns (r: Outcome, value: int)
      requires Valid()
      modifies this
      ensures Valid() && (View(), r) == RecvRegion(old(View()), t, timeout)
      ensures r == EOk ==> old(View()).queue != [] && value == old(View()).queue[0]
    {
      value := 0;
      if entry == 0 {
        if timeout == 0 {
          pc := pc[t := Idle];
          return ETimeout, value;
        }
        receivers := ListSuspend(receivers, t, flag, prio);
        pc := pc[t := Waiting(Mailboxes.Recv(timeout))];
        return Blocked, value;
      }
      r, value := Withdraw(t);
    }

    method Withdraw(t: nat) returns (r: Outcome, value: int)
      requires Valid() && entry > 0
      modifies this
      ensures Valid() && (View(), r) == RecvRegion(old(View()), t, 0)
      ensures old(View()).queue != [] && value == old(View()).queue[0]
    {
      DropFirst(pool[..], outOffset, entry);
      NextSlot(size, outOffset, 0);
      if entry < size { NextSlot(size, outOffset, entry); }
      value := pool[outOffset];
      outOffset := outOffset + 1;
      if outOffset >= size {
        outOffset := 0;
      }
      entry := entry - 1;
      received := received + [value];
      pc := pc[t := Idle];
      if senders != [] {
        WakeThread(senders[0]);
        senders := senders[1..];
      }
      return EOk, value;
    }

    /** A resumed thread runs again: it returns its error, or repeats its region with what is left
        of its waiting time. */
    method ResumeThread(t: nat, ticks: nat) returns (r: Outcome, value: int)
      requires Valid() && PcOf(View(), t).Awake?
      modifies this, pool
      ensures Valid() && View() == Step(old(View()), Resume(t, ticks))
      ensures r == if old(pc)[t].error != EOk then old(pc)[t].error
                   else Region(old(View()), t, After(old(pc)[t].call, ticks)).1
      ensures r == EOk && old(pc)[t].call.Recv? ==> old(View()).queue != [] && value == old(View()).queue[0]
    {
      value := 0;
      var call, error := pc[t].call, pc[t].error;
      if error != EOk {
        pc := pc[t := Idle];
        return error, value;
      }
      match After(call, ticks)
      case Send(v, timeout) =>
        r := Send(t, v, timeout);
      case Recv(timeout) =>
        r, value := Recv(t, timeout);
    }

    /** rt_thread_timeout of a thread waiting here. */
    method Timeout(t: nat)
      requires Valid()
      modifies this
      ensures Valid() && View() == Step(old(View()), Expire(t))
    {
      if t in pc && pc[t].Waiting? && pc[t].call.timeout > 0 {
        receivers := Without(receivers, t);
        senders := Without(senders, t);
        pc := pc[t := Awake(pc[t].call, ETimeout)];
      }
    }

    /** rt_mb_control(RT_IPC_CMD_RESET): both wait lists are emptied one thread at a time. */
    method ResetBox()
      requires Valid() && ListsOk(View())
      modifies this
      ensures Valid() && View() == Step(old(View()), Reset)
    {
      WakeEverybody(receivers);
      ghost var mid := pc;
      WakeEverybody(senders);
      WokenBoth(old(View()), mid, pc);
      receivers, senders := [], [];
      entry, inOffset, outOffset := 0, 0, 0;
      sent, received := [], [];
    }

    /** rt_ipc_list_resume_all on one list: every thread on it becomes ready with an error. */
    method WakeEverybody(list: seq<nat>)
      modifies this`pc
      ensures Woken(old(pc), list, pc)
    {
      var i := 0;
      while i < |list|
        invariant i <= |list| && Woken(old(pc), list[..i], pc)
      {
        if list[i] in pc && pc[list[i]].Waiting? {
          pc := pc[list[i] := Awake(pc[list[i]].call, EError)];
        }
        i := i + 1;
      }
    }
  }
}
