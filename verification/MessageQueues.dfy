/** The message queue of `ipc.c`, slot by slot.

    Sending takes two interrupt-disabled regions, one that takes a slot from the free list and
    one that links it, with the copying of the message in between; receiving likewise. Other
    threads may run at any point in between.
 */
module MessageQueues {
  import opened Queues
  import opened Ipc

  /** A queued message and the slot it lies in. */
  datatype Item = Item(slot: nat, msg: int)

  datatype Call = Send(msg: int, timeout: int) | Recv(timeout: int)

  /** Filling: owns a slot taken from the free list; `copied` once the message is in it.
      Draining: owns the slot of the message it took from the queue. */
  datatype Pc =
    | Idle
    | Waiting(call: Call)
    | Awake(call: Call, error: Outcome)
    | Filling(slot: nat, msg: int, urgent: bool, copied: bool)
    | Draining(slot: nat, msg: int)

  datatype State = State(
    max: nat, flag: Flag, prio: Keys,
    queue: seq<Item>, free: seq<nat>, receivers: seq<nat>, senders: seq<nat>, pc: map<nat, Pc>)

  function PcOf(s: State, t: nat): Pc {
    if t in s.pc then s.pc[t] else Idle
  }

  function Slots(queue: seq<Item>): (r: seq<nat>)
    ensures |r| == |queue| && forall i :: 0 <= i < |queue| ==> r[i] == queue[i].slot
  {
    seq(|queue|, i requires 0 <= i < |queue| => queue[i].slot)
  }

  function Reverse(s: seq<nat>): seq<nat> {
    if s == [] then [] else Reverse(s[1..]) + [s[0]]
  }

  function WakeUp(pc: map<nat, Pc>, list: seq<nat>): map<nat, Pc> {
    if list != [] && list[0] in pc && pc[list[0]].Waiting?
    then pc[list[0] := Awake(pc[list[0]].call, EOk)]
    else pc
  }

  // ---- regions ------------------------------------------------------------------------------

  /** rt_mq_send_wait up to leaving its first region. */
  function TakeSlot(s: State, t: nat, msg: int, timeout: int): (r: (State, Outcome)) {
    if s.free == [] then
      if timeout == 0 then (s.(pc := s.pc[t := Idle]), EFull)
      else (s.(senders := Suspended(s.senders, t, s.flag, s.prio), pc := s.pc[t := Waiting(Send(msg, timeout))]),
            Blocked)
    else
      (s.(free := s.free[1..], pc := s.pc[t := Filling(s.free[0], msg, false, false)]), EOk)
  }

  /** rt_mq_urgent up to leaving its first region; it never waits. */
  function TakeUrgent(s: State, t: nat, msg: int): (r: (State, Outcome)) {
    if s.free == [] then (s.(pc := s.pc[t := Idle]), EFull)
    else (s.(free := s.free[1..], pc := s.pc[t := Filling(s.free[0], msg, true, false)]), EOk)
  }

  /** The second region of a send: append, or prepend if urgent. */
  function LinkSlot(s: State, t: nat): State
    requires PcOf(s, t).Filling?
  {
    var Filling(slot, msg, urgent, _) := PcOf(s, t);
    s.(queue := if urgent then [Item(slot, msg)] + s.queue else s.queue + [Item(slot, msg)],
       pc := WakeUp(s.pc[t := Idle], s.receivers), receivers := Rest(s.receivers))
  }

  /** rt_mq_recv up to leaving its first region. */
  function TakeMessage(s: State, t: nat, timeout: int): (r: (State, Outcome)) {
    if s.queue == [] then
      if timeout == 0 then (s.(pc := s.pc[t := Idle]), ETimeout)
      else (s.(receivers := Suspended(s.receivers, t, s.flag, s.prio), pc := s.pc[t := Waiting(Recv(timeout))]),
            Blocked)
    else
      (s.(queue := s.queue[1..], pc := s.pc[t := Draining(s.queue[0].slot, s.queue[0].msg)]), EOk)
  }

  /** The second region of a receive: the slot returns to the front of the free list. */
  function ReturnSlot(s: State, t: nat): State
    requires PcOf(s, t).Draining?
  {
    s.(free := [PcOf(s, t).slot] + s.free,
       pc := WakeUp(s.pc[t := Idle], s.senders), senders := Rest(s.senders))
  }

  function WakeAll(pc: map<nat, Pc>): map<nat, Pc> {
    map t | t in pc :: if pc[t].Waiting? then Awake(pc[t].call, EError) else pc[t]
  }

  datatype Action =
    | BeginSend(thread: nat, msg: int, timeout: int)
    | BeginUrgent(thread: nat, msg: int)
    | BeginRecv(thread: nat, timeout: int)
    | Resume(thread: nat, ticks: nat)     // a resumed thread repeats its first region
    | CopyIn(thread: nat)                 // between the regions of a send
    | Link(thread: nat)
    | Return(thread: nat)
    | Expire(thread: nat)
    | Reset

  /** A step that is not possible in a state leaves it as it is. */
  function Step(s: State, a: Action): State {
    match a
    case BeginSend(t, msg, timeout) => if PcOf(s, t).Idle? then TakeSlot(s, t, msg, timeout).0 else s
    case BeginUrgent(t, msg) => if PcOf(s, t).Idle? then TakeUrgent(s, t, msg).0 else s
    case BeginRecv(t, timeout) => if PcOf(s, t).Idle? then TakeMessage(s, t, timeout).0 else s
    case Resume(t, ticks) =>
      if !PcOf(s, t).Awake? then s
      else if PcOf(s, t).error != EOk then s.(pc := s.pc[t := Idle])
      else (match PcOf(s, t).call
            case Send(msg, timeout) => TakeSlot(s, t, msg, Elapsed(timeout, ticks)).0
            case Recv(timeout) => TakeMessage(s, t, Elapsed(timeout, ticks)).0)
    case CopyIn(t) =>
      if PcOf(s, t).Filling? then s.(pc := s.pc[t := PcOf(s, t).(copied := true)]) else s
    case Link(t) =>
      if PcOf(s, t).Filling? && PcOf(s, t).copied then LinkSlot(s, t) else s
    case Return(t) =>
      if PcOf(s, t).Draining? then ReturnSlot(s, t) else s
    case Expire(t) =>
      if PcOf(s, t).Waiting? && PcOf(s, t).call.timeout > 0
      then s.(receivers := Without(s.receivers, t), senders := Without(s.senders, t),
              pc := s.pc[t := Awake(PcOf(s, t).call, ETimeout)])
      else s
    case Reset =>
      s.(queue := [], free := Reverse(Slots(s.queue)) + s.free, receivers := [], senders := [], pc := WakeAll(s.pc))
  }

  function Run(s: State, acts: seq<Action>): State
    decreases |acts|
  {
    if acts == [] then s else Run(Step(s, acts[0]), acts[1..])
  }

  function Initial(max: nat, flag: Flag, prio: Keys): State {
    State(max, flag, prio, [], seq(max, i requires 0 <= i < max => max - 1 - i), [], [], map[])
  }

  // ---- conservation of slots ----------------------------------------------------------------

  /** Thread t owns slot x between its two regions. */
  ghost predicate Owns(pc: map<nat, Pc>, t: nat, x: nat) {
    t in pc && (pc[t].Filling? || pc[t].Draining?) && pc[t].slot == x
  }

  /** Slot x is somewhere: free, queued, or owned by a thread. */
  ghost predicate Somewhere(s: State, x: nat) {
    x in s.free || x in Slots(s.queue) || exists t: nat :: Owns(s.pc, t, x)
  }

  /** Free list, queue and owned slots are three disjoint parts, without repetition, and together
      all of the pool. */
  ghost predicate Partition(s: State) {
    && Distinct(s.free) && Distinct(Slots(s.queue))
    && (forall x: nat :: x in s.free ==> x !in Slots(s.queue))
    && (forall t: nat, x: nat :: Owns(s.pc, t, x) ==> x !in s.free && x !in Slots(s.queue))
    && (forall t: nat, u: nat, x: nat :: Owns(s.pc, t, x) && Owns(s.pc, u, x) ==> t == u)
    && (forall x: nat :: Somewhere(s, x) <==> x < s.max)
  }

  ghost predicate ListsOk(s: State) {
    && Distinct(s.receivers) && Distinct(s.senders)
    && (forall t: nat :: t in s.receivers <==> PcOf(s, t).Waiting? && PcOf(s, t).call.Recv?)
    && (forall t: nat :: t in s.senders <==> PcOf(s, t).Waiting? && PcOf(s, t).call.Send?)
  }

  ghost function AwakeReceivers(s: State): set<nat> {
    set t | t in s.pc && s.pc[t].Awake? && s.pc[t].error == EOk && s.pc[t].call.Recv?
  }

  ghost function AwakeSenders(s: State): set<nat> {
    set t | t in s.pc && s.pc[t].Awake? && s.pc[t].error == EOk && s.pc[t].call.Send?
  }

  /** No lost wakeups: receivers are left waiting only if every queued message has a resumed
      receiver on its way, senders only if every free slot has a resumed sender. */
  ghost predicate WakeupsOk(s: State) {
    && ListsOk(s)
    && (s.receivers != [] ==> |s.queue| <= |AwakeReceivers(s)|)
    && (s.senders != [] ==> |s.free| <= |AwakeSenders(s)|)
  }

  ghost predicate Inv(s: State) {
    Partition(s) && WakeupsOk(s)
  }

  // ---- slots under the regions --------------------------------------------------------------

  /** The slots stay where they are when only non-owning states of threads change. */
  lemma PartitionSame(s: State, s': State)
    requires Partition(s) && s'.max == s.max && s'.free == s.free && s'.queue == s.queue
    requires forall t: nat, x: nat :: Owns(s'.pc, t, x) <==> Owns(s.pc, t, x)
    ensures Partition(s')
  {
    forall x: nat ensures Somewhere(s', x) <==> Somewhere(s, x) {}
  }

  /** A slot moves from the front of the free list to thread t. */
  lemma FreeToThread(s: State, t: nat, s': State)
    requires Partition(s) && s.free != [] && (forall x: nat :: !Owns(s.pc, t, x))
    requires s'.max == s.max && s'.queue == s.queue && s'.free == s.free[1..]
    requires forall u: nat, x: nat :: Owns(s'.pc, u, x) <==> Owns(s.pc, u, x) || (u == t && x == s.free[0])
    ensures Partition(s')
  {
    var h := s.free[0];
    assert s.free == [h] + s'.free;
    TailWithout(s.free);
    WithoutElems(s.free, h);
    WithoutDistinct(s.free, h);
    assert Owns(s'.pc, t, h);
    forall x: nat ensures Somewhere(s', x) <==> Somewhere(s, x) {
      if u: nat :| Owns(s.pc, u, x) { assert Owns(s'.pc, u, x); }
    }
  }

  /** A slot moves from thread t to the queue, at either end. */
  lemma ThreadToQueue(s: State, t: nat, slot: nat, item: Item, urgent: bool, s': State)
    requires Partition(s) && Owns(s.pc, t, slot) && item.slot == slot
    requires s'.max == s.max && s'.free == s.free
    requires s'.queue == if urgent then [item] + s.queue else s.queue + [item]
    requires forall u: nat, x: nat :: Owns(s'.pc, u, x) <==> Owns(s.pc, u, x) && u != t
    ensures Partition(s')
  {
    assert Slots(s'.queue) == if urgent then [slot] + Slots(s.queue) else Slots(s.queue) + [slot];
    forall x: nat ensures Somewhere(s', x) <==> Somewhere(s, x) {
      if u: nat :| Owns(s.pc, u, x) { assert u != t ==> Owns(s'.pc, u, x); }
    }
  }

  /** A slot moves from the head of the queue to thread t. */
  lemma QueueToThread(s: State, t: nat, s': State)
    requires Partition(s) && s.queue != [] && (forall x: nat :: !Owns(s.pc, t, x))
    requires s'.max == s.max && s'.free == s.free && s'.queue == s.queue[1..]
    requires forall u: nat, x: nat :: Owns(s'.pc, u, x) <==> Owns(s.pc, u, x) || (u == t && x == s.queue[0].slot)
    ensures Partition(s')
  {
    var slots := Slots(s.queue);
    assert Slots(s'.queue) == slots[1..] && slots == [slots[0]] + slots[1..];
    TailWithout(slots);
    WithoutElems(slots, slots[0]);
    WithoutDistinct(slots, slots[0]);
    assert Owns(s'.pc, t, slots[0]);
    forall x: nat ensures Somewhere(s', x) <==> Somewhere(s, x) {
      if u: nat :| Owns(s.pc, u, x) { assert Owns(s'.pc, u, x); }
    }
  }

  /** A slot moves from thread t to the front of the free list. */
  lemma ThreadToFree(s: State, t: nat, slot: nat, s': State)
    requires Partition(s) && Owns(s.pc, t, slot)
    requires s'.max == s.max && s'.queue == s.queue && s'.free == [slot] + s.free
    requires forall u: nat, x: nat :: Owns(s'.pc, u, x) <==> Owns(s.pc, u, x) && u != t
    ensures Partition(s')
  {
    forall x: nat ensures Somewhere(s', x) <==> Somewhere(s, x) {
      if u: nat :| Owns(s.pc, u, x) { assert u != t ==> Owns(s'.pc, u, x); }
    }
  }

  lemma {:induction false} ReverseElems(s: seq<nat>)
    ensures forall x :: x in Reverse(s) <==> x in s
    ensures Distinct(s) ==> Distinct(Reverse(s))
    decreases |s|
  {
    if s != [] {
      ReverseElems(s[1..]);
      assert s == [s[0]] + s[1..];
      if Distinct(s) {
        TailWithout(s);
        WithoutDistinct(s, s[0]);
        WithoutElems(s, s[0]);
      }
    }
  }

  /** All queued slots move to the free list. */
  lemma QueueToFree(s: State, s': State)
    requires Partition(s) && s'.max == s.max && s'.queue == []
    requires s'.free == Reverse(Slots(s.queue)) + s.free
    requires forall u: nat, x: nat :: Owns(s'.pc, u, x) <==> Owns(s.pc, u, x)
    ensures Partition(s')
  {
    ReverseElems(Slots(s.queue));
    var back := Reverse(Slots(s.queue));
    forall i, j | 0 <= i < j < |s'.free| ensures s'.free[i] != s'.free[j] {
      if i < |back| <= j { assert s'.free[i] in back && s'.free[j] in s.free; }
    }
    forall x: nat ensures Somewhere(s', x) <==> Somewhere(s, x) {}
  }

  // ---- wakeups under the regions ------------------------------------------------------------

  /** Thread t is about to run a first region, as a receiver or as a sender; if it was resumed for
      that, the promise about wakeups may count on it. */
  ghost predicate Ready(s: State, t: nat, recv: bool) {
    && Inv(s)
    && (PcOf(s, t).Idle? || PcOf(s, t).Awake?)
    && (t in AwakeReceivers(s) ==> recv)
    && (t in AwakeSenders(s) ==> !recv)
  }

  /** A first region that does not suspend: the caller is refused or goes on to copy its message. */
  lemma TurnKeeps(s: State, t: nat, recv: bool, pc: Pc, s': State)
    requires Ready(s, t, recv) && !pc.Awake? && !pc.Waiting?
    requires s'.pc == s.pc[t := pc] && s'.receivers == s.receivers && s'.senders == s.senders
    requires if recv then s'.free == s.free && (s'.queue == [] || |s'.queue| == |s.queue| - 1)
             else s'.queue == s.queue && (s'.free == [] || |s'.free| == |s.free| - 1)
    ensures WakeupsOk(s')
  {
    TurnLists(s, t, pc, s');
    TurnSets(s, t, pc, s');
  }

  lemma TurnLists(s: State, t: nat, pc: Pc, s': State)
    requires ListsOk(s) && !PcOf(s, t).Waiting? && !pc.Waiting?
    requires s'.pc == s.pc[t := pc] && s'.receivers == s.receivers && s'.senders == s.senders
    ensures ListsOk(s')
  {
    assert forall u: nat :: PcOf(s', u) == if u == t then pc else PcOf(s, u);
  }

  lemma TurnSets(s: State, t: nat, pc: Pc, s': State)
    requires !pc.Awake? && s'.pc == s.pc[t := pc]
    ensures AwakeReceivers(s') == AwakeReceivers(s) - {t} && AwakeSenders(s') == AwakeSenders(s) - {t}
  {}

  lemma SuspendLists(s: State, t: nat, call: Call, s': State)
    requires ListsOk(s) && !PcOf(s, t).Waiting? && s'.pc == s.pc[t := Waiting(call)]
    requires s'.receivers == if call.Recv? then Suspended(s.receivers, t, s.flag, s.prio) else s.receivers
    requires s'.senders == if call.Send? then Suspended(s.senders, t, s.flag, s.prio) else s.senders
    ensures ListsOk(s')
  {
    var list := if call.Recv? then s.receivers else s.senders;
    SuspendedElems(list, t, s.flag, s.prio);
    SuspendedDistinct(list, t, s.flag, s.prio);
    assert forall u: nat :: PcOf(s', u) == if u == t then Waiting(call) else PcOf(s, u);
  }

  lemma SuspendWakeups(s: State, t: nat, call: Call, s': State)
    requires WakeupsOk(s) && !PcOf(s, t).Waiting? && ListsOk(s')
    requires t in AwakeReceivers(s) ==> call.Recv?
    requires t in AwakeSenders(s) ==> call.Send?
    requires s'.pc == s.pc[t := Waiting(call)] && s'.queue == s.queue && s'.free == s.free
    requires if call.Recv? then s.queue == [] && s'.senders == s.senders
             else s.free == [] && s'.receivers == s.receivers
    ensures WakeupsOk(s')
  {
    TurnSets(s, t, Waiting(call), s');
  }

  /** A first region that suspends: a receiver at an empty queue, a sender without a free slot. */
  lemma SuspendKeeps(s: State, t: nat, call: Call, s': State)
    requires Ready(s, t, call.Recv?) && (if call.Recv? then s.queue == [] else s.free == [])
    requires s' == if call.Recv?
                   then s.(receivers := Suspended(s.receivers, t, s.flag, s.prio), pc := s.pc[t := Waiting(call)])
                   else s.(senders := Suspended(s.senders, t, s.flag, s.prio), pc := s.pc[t := Waiting(call)])
    ensures Inv(s')
  {
    assert Partition(s') by {
      assert forall u: nat, x: nat :: Owns(s'.pc, u, x) <==> Owns(s.pc, u, x);
      PartitionSame(s, s');
    }
    SuspendLists(s, t, call, s');
    SuspendWakeups(s, t, call, s');
  }

  /** What a second region does to the wait lists: thread t is done and the first waiting receiver
      (or sender) is resumed. */
  ghost predicate Wakes(s: State, t: nat, receiver: bool, s': State) {
    && s'.pc == WakeUp(s.pc[t := Idle], if receiver then s.receivers else s.senders)
    && s'.receivers == (if receiver then Rest(s.receivers) else s.receivers)
    && s'.senders == (if receiver then s.senders else Rest(s.senders))
  }

  lemma WakePcs(s: State, t: nat, receiver: bool, s': State)
    requires ListsOk(s) && !PcOf(s, t).Waiting? && Wakes(s, t, receiver, s')
    ensures var list := if receiver then s.receivers else s.senders;
      && (list != [] ==> list[0] != t && PcOf(s, list[0]).Waiting? && PcOf(s, list[0]).call.Recv? == receiver)
      && (forall u: nat :: PcOf(s', u) == if u == t then Idle
                           else if list != [] && u == list[0] then Awake(PcOf(s, u).call, EOk) else PcOf(s, u))
  {
    var list := if receiver then s.receivers else s.senders;
    if list != [] { assert list[0] in list; }
  }

  lemma WakeLists(s: State, t: nat, receiver: bool, s': State)
    requires ListsOk(s) && !PcOf(s, t).Waiting? && Wakes(s, t, receiver, s')
    ensures ListsOk(s')
  {
    var list := if receiver then s.receivers else s.senders;
    WakePcs(s, t, receiver, s');
    if list != [] {
      TailWithout(list);
      WithoutElems(list, list[0]);
      WithoutDistinct(list, list[0]);
    }
  }

  lemma WakeAwake(s: State, t: nat, receiver: bool, s': State)
    requires ListsOk(s) && (PcOf(s, t).Filling? || PcOf(s, t).Draining?) && Wakes(s, t, receiver, s')
    ensures var list := if receiver then s.receivers else s.senders;
      && (list == [] ==> AwakeReceivers(s') == AwakeReceivers(s) && AwakeSenders(s') == AwakeSenders(s))
      && (list != [] ==> list[0] !in AwakeReceivers(s) && list[0] !in AwakeSenders(s))
      && (list != [] && receiver ==>
           AwakeReceivers(s') == AwakeReceivers(s) + {list[0]} && AwakeSenders(s') == AwakeSenders(s))
      && (list != [] && !receiver ==>
           AwakeReceivers(s') == AwakeReceivers(s) && AwakeSenders(s') == AwakeSenders(s) + {list[0]})
  {
    WakePcs(s, t, receiver, s');
    assert forall u: nat :: u in s.pc ==> PcOf(s, u) == s.pc[u];
    assert forall u: nat :: u in s'.pc ==> PcOf(s', u) == s'.pc[u];
  }

  lemma WakeSets(s: State, t: nat, receiver: bool, s': State)
    requires ListsOk(s) && (PcOf(s, t).Filling? || PcOf(s, t).Draining?) && Wakes(s, t, receiver, s')
    ensures |AwakeReceivers(s')| == |AwakeReceivers(s)| + (if receiver && s.receivers != [] then 1 else 0)
    ensures |AwakeSenders(s')| == |AwakeSenders(s)| + (if !receiver && s.senders != [] then 1 else 0)
  {
    WakeAwake(s, t, receiver, s');
  }

  // ---- every step ---------------------------------------------------------------------------

  lemma TakeSlotKeeps(s: State, t: nat, msg: int, timeout: int)
    requires Ready(s, t, false)
    ensures Inv(TakeSlot(s, t, msg, timeout).0)
  {
    var s' := TakeSlot(s, t, msg, timeout).0;
    if s.free != [] {
      FreeToThread(s, t, s');
      TurnKeeps(s, t, false, s'.pc[t], s');
    } else if timeout == 0 {
      PartitionSame(s, s');
      TurnKeeps(s, t, false, Idle, s');
    } else {
      SuspendKeeps(s, t, Send(msg, timeout), s');
    }
  }

  lemma TakeUrgentKeeps(s: State, t: nat, msg: int)
    requires Ready(s, t, false)
    ensures Inv(TakeUrgent(s, t, msg).0)
  {
    var s' := TakeUrgent(s, t, msg).0;
    if s.free != [] {
      FreeToThread(s, t, s');
    } else {
      PartitionSame(s, s');
    }
    TurnKeeps(s, t, false, s'.pc[t], s');
  }

  lemma TakeMessageKeeps(s: State, t: nat, timeout: int)
    requires Ready(s, t, true)
    ensures Inv(TakeMessage(s, t, timeout).0)
  {
    var s' := TakeMessage(s, t, timeout).0;
    if s.queue != [] {
      QueueToThread(s, t, s');
      TurnKeeps(s, t, true, s'.pc[t], s');
    } else if timeout == 0 {
      PartitionSame(s, s');
      TurnKeeps(s, t, true, Idle, s');
    } else {
      SuspendKeeps(s, t, Recv(timeout), s');
    }
  }

  lemma LinkSlotKeeps(s: State, t: nat)
    requires Inv(s) && PcOf(s, t).Filling?
    ensures Inv(LinkSlot(s, t))
  {
    var s' := LinkSlot(s, t);
    var Filling(slot, msg, urgent, _) := PcOf(s, t);
    WakePcs(s, t, true, s');
    forall u: nat, x: nat ensures Owns(s'.pc, u, x) <==> Owns(s.pc, u, x) && u != t {
      assert PcOf(s', u) == PcOf(s', u);
    }
    ThreadToQueue(s, t, slot, Item(slot, msg), urgent, s');
    WakeLists(s, t, true, s');
    WakeSets(s, t, true, s');
  }

  lemma ReturnSlotKeeps(s: State, t: nat)
    requires Inv(s) && PcOf(s, t).Draining?
    ensures Inv(ReturnSlot(s, t))
  {
    var s' := ReturnSlot(s, t);
    WakePcs(s, t, false, s');
    forall u: nat, x: nat ensures Owns(s'.pc, u, x) <==> Owns(s.pc, u, x) && u != t {
      assert PcOf(s', u) == PcOf(s', u);
    }
    ThreadToFree(s, t, PcOf(s, t).slot, s');
    WakeLists(s, t, false, s');
    WakeSets(s, t, false, s');
  }

  /** A step that changes neither slots nor lists, only the state of one thread that is not
      waiting: a message is copied, or a call returns its error. */
  lemma QuietKeeps(s: State, t: nat, pc: Pc)
    requires Inv(s) && !PcOf(s, t).Waiting? && !pc.Waiting? && !pc.Awake?
    requires t !in AwakeReceivers(s) && t !in AwakeSenders(s)
    requires forall x: nat :: Owns(s.pc[t := pc], t, x) <==> Owns(s.pc, t, x)
    ensures Inv(s.(pc := s.pc[t := pc]))
  {
    var s' := s.(pc := s.pc[t := pc]);
    assert Partition(s') by {
      forall u: nat, x: nat ensures Owns(s'.pc, u, x) <==> Owns(s.pc, u, x) {}
      PartitionSame(s, s');
    }
    TurnLists(s, t, pc, s');
    TurnSets(s, t, pc, s');
  }

  lemma ExpireKeeps(s: State, t: nat)
    requires Inv(s)
    ensures Inv(Step(s, Expire(t)))
  {
    var s' := Step(s, Expire(t));
    if s' != s {
      WithoutElems(s.receivers, t);
      WithoutElems(s.senders, t);
      WithoutDistinct(s.receivers, t);
      WithoutDistinct(s.senders, t);
      assert AwakeReceivers(s') == AwakeReceivers(s) && AwakeSenders(s') == AwakeSenders(s);
      assert forall u: nat :: PcOf(s', u) == if u == t then Awake(PcOf(s, t).call, ETimeout) else PcOf(s, u);
      PartitionSame(s, s');
    }
  }

  lemma ResetKeeps(s: State)
    requires Inv(s)
    ensures Inv(Step(s, Reset))
  {
    var s' := Step(s, Reset);
    assert forall u: nat :: !PcOf(s', u).Waiting?;
    QueueToFree(s, s');
  }

  lemma ResumeKeeps(s: State, t: nat, ticks: nat)
    requires Inv(s)
    ensures Inv(Step(s, Resume(t, ticks)))
  {
    if PcOf(s, t).Awake? {
      if PcOf(s, t).error != EOk {
        QuietKeeps(s, t, Idle);
      } else {
        match PcOf(s, t).call
        case Send(msg, timeout) => TakeSlotKeeps(s, t, msg, Elapsed(timeout, ticks));
        case Recv(timeout) => TakeMessageKeeps(s, t, Elapsed(timeout, ticks));
      }
    }
  }

  lemma StepKeeps(s: State, a: Action)
    requires Inv(s)
    ensures Inv(Step(s, a))
  {
    match a
    case BeginSend(t, msg, timeout) => if PcOf(s, t).Idle? { TakeSlotKeeps(s, t, msg, timeout); }
    case BeginUrgent(t, msg) => if PcOf(s, t).Idle? { TakeUrgentKeeps(s, t, msg); }
    case BeginRecv(t, timeout) => if PcOf(s, t).Idle? { TakeMessageKeeps(s, t, timeout); }
    case Resume(t, ticks) => ResumeKeeps(s, t, ticks);
    case CopyIn(t) => if PcOf(s, t).Filling? { QuietKeeps(s, t, PcOf(s, t).(copied := true)); }
    case Link(t) => if PcOf(s, t).Filling? && PcOf(s, t).copied { LinkSlotKeeps(s, t); }
    case Return(t) => if PcOf(s, t).Draining? { ReturnSlotKeeps(s, t); }
    case Expire(t) => ExpireKeeps(s, t);
    case Reset => ResetKeeps(s);
  }

  lemma InitialInv(max: nat, flag: Flag, prio: Keys)
    ensures Inv(Initial(max, flag, prio))
  {
    var s := Initial(max, flag, prio);
    forall x: nat ensures Somewhere(s, x) <==> x < s.max {
      if x < max { assert s.free[max - 1 - x] == x; }
    }
  }

  /** Under any interleaving of the regions of senders, urgent senders, receivers, timeouts and
      resets, the pool stays divided into free slots, queued slots and slots owned by threads
      between their two regions, and no wakeup is lost. */
  lemma {:induction false} EveryRun(s: State, acts: seq<Action>)
    requires Inv(s)
    ensures Inv(Run(s, acts))
    decreases |acts|
  {
    if acts != [] {
      StepKeeps(s, acts[0]);
      EveryRun(Step(s, acts[0]), acts[1..]);
    }
  }

  // ---- order --------------------------------------------------------------------------------

  function Messages(queue: seq<Item>): (r: seq<int>)
    ensures |r| == |queue| && forall i :: 0 <= i < |queue| ==> r[i] == queue[i].msg
  {
    seq(|queue|, i requires 0 <= i < |queue| => queue[i].msg)
  }

  /** The messages that a step links into the queue, and those it takes out of it. */
  function LinkedBy(s: State, a: Action): seq<int> {
    if a.Link? && PcOf(s, a.thread).Filling? && PcOf(s, a.thread).copied then [PcOf(s, a.thread).msg] else []
  }

  function TakenBy(s: State, a: Action): seq<int> {
    if s.queue != [] && |Step(s, a).queue| < |s.queue| then [s.queue[0].msg] else []
  }

  function AllLinked(s: State, acts: seq<Action>): seq<int>
    decreases |acts|
  {
    if acts == [] then [] else LinkedBy(s, acts[0]) + AllLinked(Step(s, acts[0]), acts[1..])
  }

  function AllTaken(s: State, acts: seq<Action>): seq<int>
    decreases |acts|
  {
    if acts == [] then [] else TakenBy(s, acts[0]) + AllTaken(Step(s, acts[0]), acts[1..])
  }

  /** No thread is sending an urgent message. */
  ghost predicate Plain(s: State) {
    forall t: nat :: t in s.pc ==> !(s.pc[t].Filling? && s.pc[t].urgent)
  }

  /** Without urgent messages and resets a step leaves the queue alone, appends what it links, or
      takes the head. */
  lemma QueueSteps(s: State, a: Action)
    requires Plain(s) && !a.BeginUrgent? && !a.Reset?
    ensures var q, q' := s.queue, Step(s, a).queue;
      || (q' == q && LinkedBy(s, a) == [])
      || (q != [] && q' == q[1..] && LinkedBy(s, a) == [])
      || (|q'| == |q| + 1 && q' == q + [q'[|q|]] && LinkedBy(s, a) == [q'[|q|].msg])
  {}

  lemma PlainStep(s: State, a: Action)
    requires Plain(s) && !a.BeginUrgent? && !a.Reset?
    ensures Plain(Step(s, a))
  {}

  lemma FirstInFirstOutStep(s: State, a: Action)
    requires Plain(s) && !a.BeginUrgent? && !a.Reset?
    ensures TakenBy(s, a) + Messages(Step(s, a).queue) == Messages(s.queue) + LinkedBy(s, a)
  {
    QueueSteps(s, a);
  }

  /** Without urgent messages and resets, what receivers take is what senders linked, in the same
      order, and what is still queued is the rest. */
  lemma {:induction false} FirstInFirstOut(s: State, acts: seq<Action>)
    requires Plain(s) && forall i :: 0 <= i < |acts| ==> !acts[i].BeginUrgent? && !acts[i].Reset?
    ensures AllTaken(s, acts) + Messages(Run(s, acts).queue) == Messages(s.queue) + AllLinked(s, acts)
    decreases |acts|
  {
    if acts != [] {
      var s1, rest := Step(s, acts[0]), acts[1..];
      PlainStep(s, acts[0]);
      FirstInFirstOutStep(s, acts[0]);
      FirstInFirstOut(s1, rest);
      Regroup(TakenBy(s, acts[0]), Messages(s1.queue), Messages(s.queue), LinkedBy(s, acts[0]),
              AllTaken(s1, rest), Messages(Run(s1, rest).queue), AllLinked(s1, rest));
    }
  }

  lemma Regroup(taken: seq<int>, mid: seq<int>, first: seq<int>, linked: seq<int>, taken': seq<int>, last: seq<int>,
        linked': seq<int>)
    requires taken + mid == first + linked && taken' + last == mid + linked'
    ensures (taken + taken') + last == first + (linked + linked')
  {
    calc {
      (taken + taken') + last;
      taken + (taken' + last);
      (taken + mid) + linked';
      first + (linked + linked');
    }
  }
}
