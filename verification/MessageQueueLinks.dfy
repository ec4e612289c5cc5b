/** The message queue of `ipc.c` in memory: slots chained through their headers.

    Memory is the part of the object that holds messages; Represents says that it stores an
    abstract state of MessageQueues. The class has the regions of the source as methods, each
    proved to do to the state what the step functions of MessageQueues do.
 */
module MessageQueueLinks {
  import opened Queues
  import opened Ipc
  import opened MessageQueues

  const ENTRY_MAX: nat := 0xffff      // RT_MQ_ENTRY_MAX, and the largest 16-bit pool
  const NULL: int := -1

  /** `next` and `data` are the header link and the message of each slot. */
  datatype Memory = Memory(next: seq<int>, data: seq<int>, head: int, tail: int, freeHead: int)

  /** Following the links from h visits exactly the slots of s and ends at NULL. */
  ghost predicate Chain(next: seq<int>, h: int, s: seq<nat>)
    decreases |s|
  {
    if s == [] then h == NULL
    else h == s[0] && s[0] < |next| && Chain(next, next[s[0]], s[1..])
  }

  ghost predicate Stored(data: seq<int>, queue: seq<Item>) {
    forall i :: 0 <= i < |queue| ==> queue[i].slot < |data| && data[queue[i].slot] == queue[i].msg
  }

  /** What a thread between its two regions may rely on. */
  ghost predicate HolderOk(next: seq<int>, data: seq<int>, p: Pc) {
    && (p.Filling? && p.copied ==>
          p.slot < |next| && p.slot < |data| && data[p.slot] == p.msg && (!p.urgent ==> next[p.slot] == NULL))
    && (p.Draining? ==> p.slot < |data| && data[p.slot] == p.msg)
  }

  ghost predicate Holders(next: seq<int>, data: seq<int>, pc: map<nat, Pc>) {
    forall t :: t in pc ==> HolderOk(next, data, pc[t])
  }

  ghost predicate Represents(m: Memory, s: State) {
    && |m.next| == s.max && |m.data| == s.max
    && Chain(m.next, m.head, Slots(s.queue))
    && Chain(m.next, m.freeHead, s.free)
    && m.tail == (if s.queue == [] then NULL else s.queue[|s.queue| - 1].slot)
    && Stored(m.data, s.queue)
    && Holders(m.next, m.data, s.pc)
  }

  // ---- chains -------------------------------------------------------------------------------

  lemma {:induction false} ChainUnaffected(next: seq<int>, h: int, s: seq<nat>, x: nat, v: int)
    requires Chain(next, h, s) && x !in s && x < |next|
    ensures Chain(next[x := v], h, s)
    decreases |s|
  {
    if s != [] { ChainUnaffected(next, next[s[0]], s[1..], x, v); }
  }

  /** Linking x behind the last slot appends it. */
  lemma {:induction false} ChainAppend(next: seq<int>, h: int, s: seq<nat>, x: nat)
    requires Chain(next, h, s) && s != [] && Distinct(s) && x !in s && x < |next| && next[x] == NULL
    requires s[|s| - 1] < |next|
    ensures Chain(next[s[|s| - 1] := x], h, s + [x])
    decreases |s|
  {
    var last := s[|s| - 1];
    assert (s + [x])[1..] == s[1..] + [x];
    if |s| == 1 {
      assert Chain(next[last := x], x, [x]);
    } else {
      ChainAppend(next, next[s[0]], s[1..], x);
      assert s[0] != last;
    }
  }

  /** Linking x in front. */
  lemma ChainPrepend(next: seq<int>, h: int, s: seq<nat>, x: nat)
    requires Chain(next, h, s) && x !in s && x < |next|
    ensures Chain(next[x := h], x, [x] + s)
  {
    ChainUnaffected(next, h, s, x, h);
    assert ([x] + s)[1..] == s;
  }

  lemma {:induction false} ChainBounds(next: seq<int>, h: int, s: seq<nat>)
    requires Chain(next, h, s)
    ensures forall x :: x in s ==> x < |next|
    decreases |s|
  {
    if s != [] {
      ChainBounds(next, next[s[0]], s[1..]);
      assert s == [s[0]] + s[1..];
    }
  }

  lemma SlotsTail(queue: seq<Item>)
    requires queue != []
    ensures Slots(queue[1..]) == Slots(queue)[1..]
  {}

  // ---- regions ------------------------------------------------------------------------------

  /** A slot is written that no other thread owns. */
  lemma HoldersUnaffected(next: seq<int>, data: seq<int>, pc: map<nat, Pc>, x: nat, v: int)
    requires Holders(next, data, pc) && x < |next|
    requires forall t: nat :: !Owns(pc, t, x)
    ensures Holders(next[x := v], data, pc)
  {
    forall t | t in pc ensures HolderOk(next[x := v], data, pc[t]) {
      assert !Owns(pc, t, x);
    }
  }

  /** Threads change state without getting hold of a slot. */
  lemma RepresentsPc(m: Memory, s: State, s': State)
    requires Represents(m, s) && s'.max == s.max && s'.queue == s.queue && s'.free == s.free
    requires forall t :: t in s'.pc ==> (t in s.pc && s.pc[t] == s'.pc[t]) || !(s'.pc[t].Filling? || s'.pc[t].Draining?)
    ensures Represents(m, s')
  {
    forall t | t in s'.pc ensures HolderOk(m.next, m.data, s'.pc[t]) {}
  }

  lemma UnlinkFree(m: Memory, s: State, t: nat, msg: int, urgent: bool)
    requires Represents(m, s) && s.free != []
    ensures 0 <= m.freeHead < |m.next| && m.freeHead == s.free[0]
    ensures Represents(m.(freeHead := m.next[m.freeHead]),
                       s.(free := s.free[1..], pc := s.pc[t := Filling(s.free[0], msg, urgent, false)]))
  {
    var pc := s.pc[t := Filling(s.free[0], msg, urgent, false)];
    forall u | u in pc ensures HolderOk(m.next, m.data, pc[u]) {}
  }

  /** The message is copied into a slot no list contains and no other thread owns. */
  lemma CopiedIn(m: Memory, s: State, t: nat, m': Memory)
    requires Represents(m, s) && Partition(s) && PcOf(s, t).Filling?
    requires PcOf(s, t).slot < s.max
    requires var x := PcOf(s, t).slot;
      m' == m.(next := if PcOf(s, t).urgent then m.next else m.next[x := NULL], data := m.data[x := PcOf(s, t).msg])
    ensures Represents(m', s.(pc := s.pc[t := PcOf(s, t).(copied := true)]))
  {
    var x := PcOf(s, t).slot;
    assert Owns(s.pc, t, x);
    ChainUnaffected(m.next, m.head, Slots(s.queue), x, NULL);
    ChainUnaffected(m.next, m.freeHead, s.free, x, NULL);
    forall i | 0 <= i < |s.queue| ensures m'.data[s.queue[i].slot] == s.queue[i].msg {
      assert Slots(s.queue)[i] in Slots(s.queue);
    }
    var pc := s.pc[t := PcOf(s, t).(copied := true)];
    forall u | u in pc ensures HolderOk(m'.next, m'.data, pc[u]) {
      assert u != t ==> !Owns(s.pc, u, x);
    }
  }

  /** The pcs after a second region. */
  lemma HoldersDone(next: seq<int>, data: seq<int>, pc: map<nat, Pc>, t: nat, list: seq<nat>)
    requires Holders(next, data, pc)
    ensures Holders(next, data, WakeUp(pc[t := Idle], list))
  {
    var done := WakeUp(pc[t := Idle], list);
    forall u | u in done ensures HolderOk(next, data, done[u]) {}
  }

  /** Writing the link of slot x, when the only thread that may own x is finishing. */
  lemma HoldersLinked(next: seq<int>, data: seq<int>, pc: map<nat, Pc>, t: nat, list: seq<nat>, x: nat, v: int)
    requires Holders(next, data, pc) && x < |next|
    requires forall u: nat :: u != t ==> !Owns(pc, u, x)
    ensures Holders(next[x := v], data, WakeUp(pc[t := Idle], list))
  {
    var idle := pc[t := Idle];
    forall u | u in idle ensures HolderOk(next, data, idle[u]) {}
    forall u: nat ensures !Owns(idle, u, x) {
      assert u != t ==> !Owns(pc, u, x);
    }
    HoldersUnaffected(next, data, idle, x, v);
    HoldersDone(next[x := v], data, idle, t, list);
    assert idle[t := Idle] == idle;
  }

  lemma StoredPrepend(data: seq<int>, queue: seq<Item>, item: Item)
    requires Stored(data, queue) && item.slot < |data| && data[item.slot] == item.msg
    ensures Stored(data, [item] + queue)
  {
    forall i | 0 <= i < |queue| + 1
      ensures ([item] + queue)[i].slot < |data| && data[([item] + queue)[i].slot] == ([item] + queue)[i].msg {
      if i > 0 { assert ([item] + queue)[i] == queue[i - 1]; }
    }
  }

  lemma ChainsPrepended(m: Memory, s: State, item: Item)
    requires Represents(m, s) && item.slot < |m.next| && item.slot !in Slots(s.queue) && item.slot !in s.free
    ensures Chain(m.next[item.slot := m.head], item.slot, Slots([item] + s.queue))
    ensures Chain(m.next[item.slot := m.head], m.freeHead, s.free)
  {
    assert Slots([item] + s.queue) == [item.slot] + Slots(s.queue);
    ChainPrepend(m.next, m.head, Slots(s.queue), item.slot);
    ChainUnaffected(m.next, m.freeHead, s.free, item.slot, m.head);
  }

  lemma LinkedUrgent(m: Memory, s: State, t: nat)
    requires Represents(m, s) && Partition(s) && PcOf(s, t).Filling? && PcOf(s, t).copied && PcOf(s, t).urgent
    requires PcOf(s, t).slot < |m.next|
    ensures var x := PcOf(s, t).slot;
      Represents(m.(next := m.next[x := m.head], head := x, tail := if m.tail == NULL then x else m.tail),
          LinkSlot(s, t))
  {
    var Filling(x, msg, _, _) := PcOf(s, t);
    assert Owns(s.pc, t, x) && HolderOk(m.next, m.data, s.pc[t]);
    ChainsPrepended(m, s, Item(x, msg));
    HoldersLinked(m.next, m.data, s.pc, t, s.receivers, x, m.head);
    StoredPrepend(m.data, s.queue, Item(x, msg));
    var queue := [Item(x, msg)] + s.queue;
    assert LinkSlot(s, t).queue == queue && LinkSlot(s, t).free == s.free;
    assert s.queue != [] ==> queue[|queue| - 1] == s.queue[|s.queue| - 1];
  }

  lemma LinkedFirst(m: Memory, s: State, t: nat)
    requires Represents(m, s) && Partition(s) && PcOf(s, t).Filling? && PcOf(s, t).copied && !PcOf(s, t).urgent
    requires s.queue == []
    ensures var x := PcOf(s, t).slot; Represents(m.(head := x, tail := x), LinkSlot(s, t))
  {
    var Filling(x, msg, _, _) := PcOf(s, t);
    assert HolderOk(m.next, m.data, s.pc[t]);
    assert [] + [Item(x, msg)] == [Item(x, msg)] && Slots([Item(x, msg)]) == [x];
    assert Chain(m.next, x, [x]);
    HoldersDone(m.next, m.data, s.pc, t, s.receivers);
  }

  lemma LinkedLast(m: Memory, s: State, t: nat)
    requires Represents(m, s) && Partition(s) && PcOf(s, t).Filling? && PcOf(s, t).copied && !PcOf(s, t).urgent
    requires s.queue != []
    ensures m.head != NULL && 0 <= m.tail < |m.next|
    ensures var x := PcOf(s, t).slot; Represents(m.(next := m.next[m.tail := x], tail := x), LinkSlot(s, t))
  {
    var Filling(x, msg, _, _) := PcOf(s, t);
    assert Owns(s.pc, t, x) && HolderOk(m.next, m.data, s.pc[t]);
    var slots := Slots(s.queue);
    var queue := s.queue + [Item(x, msg)];
    assert Slots(queue) == slots + [x];
    assert m.tail == slots[|slots| - 1] && m.tail in slots;
    ChainBounds(m.next, m.head, slots);
    ChainAppend(m.next, m.head, slots, x);
    ChainUnaffected(m.next, m.freeHead, s.free, m.tail, x);
    HoldersLinked(m.next, m.data, s.pc, t, s.receivers, m.tail, x);
    assert Stored(m.data, queue);
  }

  lemma LinkedNormal(m: Memory, s: State, t: nat)
    requires Represents(m, s) && Partition(s) && PcOf(s, t).Filling? && PcOf(s, t).copied && !PcOf(s, t).urgent
    ensures (m.head == NULL <==> m.tail == NULL) && (m.tail != NULL ==> 0 <= m.tail < |m.next|)
    ensures var x := PcOf(s, t).slot;
      Represents(if m.tail == NULL then m.(head := x, tail := x)
          else m.(next := m.next[m.tail := x], tail := x), LinkSlot(s, t))
  {
    if s.queue == [] { LinkedFirst(m, s, t); } else { LinkedLast(m, s, t); }
  }

  lemma UnlinkHead(m: Memory, s: State, t: nat)
    requires Represents(m, s) && Partition(s) && s.queue != []
    ensures 0 <= m.head < |m.next| && m.head == s.queue[0].slot && m.data[m.head] == s.queue[0].msg
    ensures Represents(m.(head := m.next[m.head], tail := if m.tail == m.head then NULL else m.tail),
                       s.(queue := s.queue[1..], pc := s.pc[t := Draining(s.queue[0].slot, s.queue[0].msg)]))
  {
    SlotsTail(s.queue);
    var slots := Slots(s.queue);
    assert m.tail == slots[|slots| - 1] && m.head == slots[0];
    var pc := s.pc[t := Draining(s.queue[0].slot, s.queue[0].msg)];
    forall u | u in pc ensures HolderOk(m.next, m.data, pc[u]) {}
  }

  lemma Returned(m: Memory, s: State, t: nat)
    requires Represents(m, s) && Partition(s) && PcOf(s, t).Draining? && PcOf(s, t).slot < |m.next|
    ensures var x := PcOf(s, t).slot; Represents(m.(next := m.next[x := m.freeHead], freeHead := x), ReturnSlot(s, t))
  {
    var x := PcOf(s, t).slot;
    assert Owns(s.pc, t, x);
    ChainUnaffected(m.next, m.head, Slots(s.queue), x, m.freeHead);
    ChainPrepend(m.next, m.freeHead, s.free, x);
    HoldersLinked(m.next, m.data, s.pc, t, s.senders, x, m.freeHead);
  }

  /** The head of the queue moves to the front of the free list: one round of the reset loop. */
  function Flushed(s: State): State
    requires s.queue != []
  {
    s.(queue := s.queue[1..], free := [s.queue[0].slot] + s.free)
  }

  lemma FlushedPartition(s: State)
    requires Partition(s) && s.queue != []
    ensures Partition(Flushed(s))
  {
    var s', slots := Flushed(s), Slots(s.queue);
    SlotsTail(s.queue);
    assert slots == [slots[0]] + slots[1..];
    TailWithout(slots);
    WithoutElems(slots, slots[0]);
    WithoutDistinct(slots, slots[0]);
    assert s.queue[0].slot == slots[0] && slots[0] in slots;
    assert slots[0] !in s.free;
    forall x: nat ensures Somewhere(s', x) <==> Somewhere(s, x) {}
  }

  lemma FlushedMemory(m: Memory, s: State)
    requires Represents(m, s) && Partition(s) && s.queue != []
    ensures 0 <= m.head < |m.next| && m.head == s.queue[0].slot
    ensures Represents(
      m.(head := m.next[m.head], tail := if m.tail == m.head then NULL else m.tail,
         next := m.next[m.head := m.freeHead], freeHead := m.head), Flushed(s))
  {
    var slots, x := Slots(s.queue), s.queue[0].slot;
    SlotsTail(s.queue);
    assert slots[0] == x && slots[0] in slots;
    assert x !in slots[1..];
    assert m.tail == slots[|slots| - 1];
    ChainUnaffected(m.next, m.next[x], slots[1..], x, m.freeHead);
    ChainPrepend(m.next, m.freeHead, s.free, x);
    HoldersUnaffected(m.next, m.data, s.pc, x, m.freeHead);
  }

  lemma FlushedOrder(queue: seq<Item>, free: seq<nat>)
    ensures queue != [] ==> Reverse(Slots(queue[1..])) + ([queue[0].slot] + free) == Reverse(Slots(queue)) + free
  {
    if queue != [] {
      SlotsTail(queue);
      var before, x := Reverse(Slots(queue[1..])), queue[0].slot;
      assert (before + [x]) + free == before + ([x] + free);
    }
  }

  lemma {:induction false} DistinctBounded(s: seq<nat>, n: nat)
    requires Distinct(s) && forall x :: x in s ==> x < n
    ensures |s| <= n
    decreases n
  {
    assert s != [] ==> s[0] in s;
    if n > 0 {
      WithoutElems(s, n - 1);
      WithoutDistinct(s, n - 1);
      if n - 1 in s { WithoutLength(s, n - 1); } else { WithoutAbsent(s, n - 1); }
      DistinctBounded(Without(s, n - 1), n - 1);
    }
  }

  /** While a thread owns a slot the queue is not full. */
  lemma RoomForOne(s: State, t: nat)
    requires Partition(s) && (PcOf(s, t).Filling? || PcOf(s, t).Draining?)
    ensures |s.queue| < s.max && PcOf(s, t).slot < s.max
  {
    var x := PcOf(s, t).slot;
    assert Owns(s.pc, t, x) && Somewhere(s, x);
    var all := Slots(s.queue) + [x];
    forall y | y in all ensures y < s.max { assert Somewhere(s, y); }
    DistinctBounded(all, s.max);
  }

  ghost predicate Woken(pc: map<nat, Pc>, list: seq<nat>, pc': map<nat, Pc>) {
    && pc'.Keys == pc.Keys
    && forall t <- pc :: pc'[t] == if t in list && pc[t].Waiting? then Awake(pc[t].call, EError) else pc[t]
  }

  /** Waking both lists wakes every waiting thread. */
  lemma WokenBoth(s: State, mid: map<nat, Pc>, pc: map<nat, Pc>)
    requires ListsOk(s) && Woken(s.pc, s.receivers, mid) && Woken(mid, s.senders, pc)
    ensures pc == WakeAll(s.pc)
  {
    forall t | t in s.pc ensures pc[t] == WakeAll(s.pc)[t] {
      assert PcOf(s, t).Waiting? ==> t in s.receivers || t in s.senders;
    }
  }

  lemma EmptyQueue(m: Memory, s: State)
    requires |m.next| == s.max && |m.data| == s.max && m.head == NULL && m.tail == NULL
    requires s.queue == [] && s.pc == map[] && Chain(m.next, m.freeHead, s.free)
    ensures Represents(m, s)
  {}

  // ---- the object ---------------------------------------------------------------------------

  class MessageQueue {
    const flag: Flag
    const max: nat                      // max_msgs
    const next: array<int>
    const data: array<int>
    var head: int                       // msg_queue_head
    var tail: int
    var freeHead: int
    var entry: nat
    var receivers: seq<nat>             // parent.suspend_thread
    var senders: seq<nat>               // suspend_sender_thread
    var prio: Keys
    var pc: map<nat, Pc>
    ghost var queue: seq<Item>
    ghost var free: seq<nat>

    ghost function Mem(): Memory
      reads this`head, this`tail, this`freeHead, next, data
    {
      Memory(next[..], data[..], head, tail, freeHead)
    }

    ghost function View(): State
      reads this`queue, this`free, this`receivers, this`senders, this`prio, this`pc
    {
      State(max, flag, prio, queue, free, receivers, senders, pc)
    }

    ghost predicate Valid()
      reads this, next, data
    {
      && next != data && next.Length == max && data.Length == max <= ENTRY_MAX
      && Represents(Mem(), View())
      && entry == |queue|
    }

    /** rt_mq_init; max_msgs has 16 bits. */
    constructor (flag: Flag, max: nat, prio: Keys)
      requires max <= ENTRY_MAX
      ensures Valid() && fresh(next) && fresh(data)
      ensures View() == Initial(max, flag, prio)
    {
      this.flag, this.max, this.prio := flag, max, prio;
      next := new int[max];
      data := new int[max];
      head, tail, freeHead, entry := NULL, NULL, NULL, 0;
      receivers, senders, pc := [], [], map[];
      queue, free := [], [];
      new;
      FillFreeList();
      EmptyQueue(Mem(), View());
    }

    /** The loop of rt_mq_init: every slot is pushed onto the free list. */
    method FillFreeList()
      requires next.Length == max && freeHead == NULL && free == []
      modifies this`freeHead, this`free, next
      ensures Chain(next[..], freeHead, free)
      ensures free == seq(max, i requires 0 <= i < max => max - 1 - i)
    {
      for temp := 0 to max
        invariant free == seq(temp, i requires 0 <= i < temp => temp - 1 - i)
        invariant Chain(next[..], freeHead, free)
      {
        ChainPrepend(next[..], freeHead, free, temp);
        next[temp] := freeHead;
        freeHead := temp;
        free := [temp] + free;
      }
    }

    /** rt_ipc_list_resume of the first waiting thread: it becomes ready with no error. */
    method WakeThread(list: seq<nat>)
      modifies this`pc
      ensures pc == WakeUp(old(pc), list)
    {
      if list != [] && list[0] in pc && pc[list[0]].Waiting? {
        pc := pc[list[0] := Awake(pc[list[0]].call, EOk)];
      }
    }

    /** Take a slot off the free list, for a normal or an urgent message. */
    method Unlink(t: nat, msg: int, urgent: bool)
      requires Valid() && freeHead != NULL
      modifies this`freeHead, this`free, this`pc
      ensures Valid() && old(free) != []
      ensures View() == old(View()).(free := old(free)[1..],
                pc := old(pc)[t := Filling(old(free)[0], msg, urgent, false)])
    {
      UnlinkFree(Mem(), View(), t, msg, urgent);
      var slot := freeHead;
      freeHead := next[slot];
      pc := pc[t := Filling(slot, msg, urgent, false)];
      free := free[1..];
    }

    /** rt_mq_send_wait, first region. */
    method BeginSend(t: nat, msg: int, timeout: int) returns (r: Outcome)
      requires Valid() && !(PcOf(View(), t).Filling? || PcOf(View(), t).Draining?)
      modifies this
      ensures Valid() && (View(), r) == TakeSlot(old(View()), t, msg, timeout)
    {
      if freeHead != NULL {
        Unlink(t, msg, false);
        return EOk;
      }
      if timeout == 0 {
        pc := pc[t := Idle];
        r := EFull;
      } else {
        senders := ListSuspend(senders, t, flag, prio);
        pc := pc[t := Waiting(Send(msg, timeout))];
        r := Blocked;
      }
      RepresentsPc(old(Mem()), old(View()), View());
    }

    /** rt_mq_urgent, first region. */
    method BeginUrgent(t: nat, msg: int) returns (r: Outcome)
      requires Valid() && !(PcOf(View(), t).Filling? || PcOf(View(), t).Draining?)
      modifies this
      ensures Valid() && (View(), r) == TakeUrgent(old(View()), t, msg)
    {
      if freeHead != NULL {
        Unlink(t, msg, true);
        return EOk;
      }
      pc := pc[t := Idle];
      r := EFull;
      RepresentsPc(old(Mem()), old(View()), View());
    }

    /** Between the regions of a send: the slot is prepared with interrupts enabled. */
    method CopyMessageIn(t: nat)
      requires Valid() && Partition(View()) && PcOf(View(), t).Filling?
      modifies this`pc, next, data
      ensures Valid() && View() == Step(old(View()), CopyIn(t))
    {
      var Filling(slot, msg, urgent, _) := pc[t];
      assert Owns(View().pc, t, slot) && Somewhere(View(), slot);
      if !urgent {
        next[slot] := NULL;
      }
      data[slot] := msg;
      pc := pc[t := pc[t].(copied := true)];
      CopiedIn(old(Mem()), old(View()), t, Mem());
    }

    /** The chain and the ends of the queue after a slot was linked behind the last one. */
    method LinkTail(slot: nat)
      requires next.Length == max && next != data && (head == NULL <==> tail == NULL)
      requires tail != NULL ==> 0 <= tail < max
      modifies this`head, this`tail, next
      ensures Mem() == if old(tail) == NULL then old(Mem()).(head := slot, tail := slot)
                       else old(Mem()).(next := old(next[..])[old(tail) := slot], tail := slot)
    {
      if tail != NULL {
        next[tail] := slot;
      }
      tail := slot;
      if head == NULL {
        head := slot;
      }
    }

    /** A linked message is counted and the first waiting receiver resumed. */
    method FinishSend(t: nat)
      requires PcOf(View(), t).Filling? && entry < max <= ENTRY_MAX
      modifies this`entry, this`queue, this`pc, this`receivers
      ensures entry == old(entry) + 1
      ensures View() == LinkSlot(old(View()), t)
    {
      // the overflow return of the source is unreachable: a 16-bit pool bounds the entries
      assert entry < ENTRY_MAX;
      entry := entry + 1;
      ghost var Filling(slot, msg, urgent, _) := pc[t];
      queue := if urgent then [Item(slot, msg)] + queue else queue + [Item(slot, msg)];
      pc := pc[t := Idle];
      WakeThread(receivers);
      receivers := Rest(receivers);
    }

    /** rt_mq_send_wait, second region. */
    method LinkMessage(t: nat) returns (r: Outcome)
      requires Valid() && Partition(View()) && PcOf(View(), t).Filling? && pc[t].copied && !pc[t].urgent
      modifies this, next
      ensures Valid() && r == EOk && View() == LinkSlot(old(View()), t)
    {
      var slot := pc[t].slot;
      RoomForOne(View(), t);
      LinkedNormal(Mem(), View(), t);
      LinkTail(slot);
      FinishSend(t);
      return EOk;
    }

    /** rt_mq_urgent, second region. */
    method LinkUrgent(t: nat) returns (r: Outcome)
      requires Valid() && Partition(View()) && PcOf(View(), t).Filling? && pc[t].copied && pc[t].urgent
      modifies this, next
      ensures Valid() && r == EOk && View() == LinkSlot(old(View()), t)
    {
      var slot := pc[t].slot;
      RoomForOne(View(), t);
      LinkedUrgent(Mem(), View(), t);
      LinkHead(slot);
      FinishSend(t);
      return EOk;
    }

    method LinkHead(slot: nat)
      requires next.Length == max && next != data && slot < max
      modifies this`head, this`tail, next
      ensures Mem() == old(Mem()).(next := old(next[..])[slot := old(head)], head := slot,
                                   tail := if old(tail) == NULL then slot else old(tail))
    {
      next[slot] := head;
      head := slot;
      if tail == NULL {
        tail := slot;
      }
    }

    /** Take the first message off the queue. */
    method UnlinkFirst(t: nat)
      requires Valid() && Partition(View()) && entry > 0
      modifies this`head, this`tail, this`entry, this`queue, this`pc
      ensures Valid() && old(queue) != []
      ensures View() == old(View()).(queue := old(queue)[1..],
                pc := old(pc)[t := Draining(old(queue)[0].slot, old(queue)[0].msg)])
    {
      hide Represents, Partition;
      UnlinkHead(Mem(), View(), t);
      var slot := head;
      head := next[slot];
      if tail == slot {
        tail := NULL;
      }
      entry := entry - 1;
      pc := pc[t := Draining(slot, data[slot])];
      queue := queue[1..];
    }

    /** rt_mq_recv, first region. */
    method BeginRecv(t: nat, timeout: int) returns (r: Outcome)
      requires Valid() && Partition(View()) && !(PcOf(View(), t).Filling? || PcOf(View(), t).Draining?)
      modifies this
      ensures Valid() && (View(), r) == TakeMessage(old(View()), t, timeout)
    {
      if entry != 0 {
        UnlinkFirst(t);
        return EOk;
      }
      if timeout == 0 {
        pc := pc[t := Idle];
        r := ETimeout;
      } else {
        receivers := ListSuspend(receivers, t, flag, prio);
        pc := pc[t := Waiting(Recv(timeout))];
        r := Blocked;
      }
      RepresentsPc(old(Mem()), old(View()), View());
    }

    /** Between the regions of a receive: whatever happened meanwhile, the slot still holds the
        message that was at the head of the queue. */
    method CopyMessageOut(t: nat) returns (msg: int)
      requires Valid() && PcOf(View(), t).Draining?
      ensures msg == pc[t].msg
    {
      assert HolderOk(Mem().next, Mem().data, pc[t]);
      msg := data[pc[t].slot];
    }

    /** rt_mq_recv, second region. */
    method ReturnMessage(t: nat)
      requires Valid() && Partition(View()) && PcOf(View(), t).Draining?
      modifies this, next
      ensures Valid() && View() == ReturnSlot(old(View()), t)
    {
      var slot := pc[t].slot;
      assert Owns(View().pc, t, slot) && Somewhere(View(), slot);
      Returned(Mem(), View(), t);
      PushFree(slot);
      FinishRecv(t);
    }

    /** The receiver is done and the first waiting sender resumed. */
    method FinishRecv(t: nat)
      modifies this`pc, this`senders
      ensures View() == old(View()).(pc := WakeUp(old(pc)[t := Idle], old(senders)), senders := Rest(old(senders)))
    {
      pc := pc[t := Idle];
      WakeThread(senders);
      senders := Rest(senders);
    }

    /** A slot becomes the first of the free list. */
    method PushFree(slot: nat)
      requires next.Length == max && next != data && slot < max
      modifies this`freeHead, this`free, next
      ensures Mem() == old(Mem()).(next := old(next[..])[slot := old(freeHead)], freeHead := slot)
      ensures free == [slot] + old(free)
    {
      next[slot] := freeHead;
      freeHead := slot;
      free := [slot] + free;
    }

    /** rt_thread_timeout of a thread waiting here. */
    method Timeout(t: nat)
      requires Valid()
      modifies this
      ensures Valid() && View() == Step(old(View()), Expire(t))
    {
      if t in pc && pc[t].Waiting? && pc[t].call.timeout > 0 {
        receivers := Without(receivers, t);
        senders := Without(senders, t);
        pc := pc[t := Awake(pc[t].call, ETimeout)];
        RepresentsPc(old(Mem()), old(View()), View());
      }
    }

    /** rt_ipc_list_resume_all on one list: every thread on it becomes ready with an error. */
    method WakeEverybody(list: seq<nat>)
      modifies this`pc
      ensures Woken(old(pc), list, pc)
    {
      var i := 0;
      while i < |list|
        invariant i <= |list| && Woken(old(pc), list[..i], pc)
      {
        if list[i] in pc && pc[list[i]].Waiting? {
          pc := pc[list[i] := Awake(pc[list[i]].call, EError)];
        }
        i := i + 1;
      }
    }

    method WakeBothLists()
      requires Valid() && Inv(View())
      modifies this`pc, this`receivers, this`senders
      ensures Valid() && Partition(View())
      ensures View() == old(View()).(receivers := [], senders := [], pc := WakeAll(old(pc)))
    {
      WakeEverybody(receivers);
      ghost var mid := pc;
      WakeEverybody(senders);
      WokenBoth(old(View()), mid, pc);
      receivers := [];
      senders := [];
      RepresentsPc(Mem(), old(View()), View());
      PartitionSame(old(View()), View());
    }

    /** One round of the reset loop: the head of the queue goes to the free list. */
    method FlushOne()
      requires Represents(Mem(), View()) && Partition(View()) && head != NULL
      requires next.Length == max && next != data
      modifies this`head, this`tail, this`freeHead, this`queue, this`free, next
      ensures Represents(Mem(), View()) && Partition(View())
      ensures old(queue) != [] && View() == Flushed(old(View()))
    {
      assert queue != [];
      hide Represents, Partition;
      FlushedMemory(Mem(), View());
      FlushedPartition(View());
      var slot := head;
      head := next[slot];
      if tail == slot {
        tail := NULL;
      }
      PushFree(slot);
      queue := queue[1..];
    }

    /** The loop of rt_mq_control that moves every queued slot to the free list. */
    method FlushQueue()
      requires Valid() && Partition(View())
      modifies this`head, this`tail, this`freeHead, this`entry, this`queue, this`free, next
      ensures Valid()
      ensures View() == old(View()).(queue := [], free := Reverse(Slots(old(queue))) + old(free))
    {
      while head != NULL
        invariant Represents(Mem(), View()) && Partition(View())
        invariant Reverse(Slots(queue)) + free == Reverse(Slots(old(queue))) + old(free)
        decreases |queue|
      {
        FlushedOrder(queue, free);
        FlushOne();
      }
      assert Reverse(Slots([])) + free == free;
      entry := 0;
    }

    /** rt_mq_control(RT_IPC_CMD_RESET). */
    method ResetQueue()
      requires Valid() && Inv(View())
      modifies this, next
      ensures Valid() && View() == Step(old(View()), Reset)
    {
      WakeBothLists();
      FlushQueue();
    }
  }
}
