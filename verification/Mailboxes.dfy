/** The mailbox of `ipc.c`.

    The first part describes a mailbox abstractly: a queue of messages and two wait lists. Each
    interrupt-disabled region is one step; the wait loop of a blocking call is a region that
    suspends, followed, after the thread was resumed and scheduled, by the same region again.
    The second part is the ring buffer of the source, proved to behave like the queue.
 */
module Mailboxes {
  import opened Queues
  import opened Ipc

  /** What a thread asked for; timeout 0 is "do not wait", negative is "wait for ever". */
  datatype Call = Send(value: int, timeout: int) | Recv(timeout: int)

  /** Waiting: suspended in the wait list of the call. Awake: made ready again with `error` set,
      but not yet run. */
  datatype Pc = Idle | Waiting(call: Call) | Awake(call: Call, error: Outcome)

  /** `sent` and `received` record what entered and left since the last reset. */
  datatype Box = Box(
    size: nat, flag: Flag, prio: Keys,
    queue: seq<int>, receivers: seq<nat>, senders: seq<nat>, pc: map<nat, Pc>,
    sent: seq<int>, received: seq<int>)

  function PcOf(b: Box, t: nat): Pc {
    if t in b.pc then b.pc[t] else Idle
  }

  /** Make the first thread of a wait list ready: rt_ipc_list_resume. */
  function WakeFirst(pc: map<nat, Pc>, list: seq<nat>): map<nat, Pc> {
    if list == [] then pc else WakeUp(pc, list[0], EOk)
  }

  function WakeUp(pc: map<nat, Pc>, t: nat, error: Outcome): map<nat, Pc> {
    if t in pc && pc[t].Waiting? then pc[t := Awake(pc[t].call, error)] else pc
  }

  /** One region of rt_mb_send_wait. */
  function SendRegion(b: Box, t: nat, value: int, timeout: int): (r: (Box, Outcome)) {
    if |b.queue| == b.size then
      if timeout == 0 then (b.(pc := b.pc[t := Idle]), EFull)
      else (b.(senders := Suspended(b.senders, t, b.flag, b.prio), pc := b.pc[t := Waiting(Send(value, timeout))]),
            Blocked)
    else
      (b.(queue := b.queue + [value], sent := b.sent + [value],
          pc := WakeFirst(b.pc[t := Idle], b.receivers), receivers := Rest(b.receivers)), EOk)
  }

  /** One region of rt_mb_recv; the message taken is the head of the queue before. */
  function RecvRegion(b: Box, t: nat, timeout: int): (r: (Box, Outcome)) {
    if b.queue == [] then
      if timeout == 0 then (b.(pc := b.pc[t := Idle]), ETimeout)
      else (b.(receivers := Suspended(b.receivers, t, b.flag, b.prio), pc := b.pc[t := Waiting(Recv(timeout))]),
            Blocked)
    else
      (b.(queue := b.queue[1..], received := b.received + [b.queue[0]],
          pc := WakeFirst(b.pc[t := Idle], b.senders), senders := Rest(b.senders)), EOk)
  }

  function Region(b: Box, t: nat, call: Call): (Box, Outcome) {
    match call
    case Send(value, timeout) => SendRegion(b, t, value, timeout)
    case Recv(timeout) => RecvRegion(b, t, timeout)
  }

  /** The call with its waiting time reduced by the ticks spent waiting. */
  function After(call: Call, ticks: nat): Call {
    match call
    case Send(value, timeout) => Send(value, Elapsed(timeout, ticks))
    case Recv(timeout) => Recv(Elapsed(timeout, ticks))
  }

  datatype Action =
    | Begin(thread: nat, call: Call)        // the call up to its return or suspension
    | Resume(thread: nat, ticks: nat)       // a resumed thread runs again
    | Expire(thread: nat)                   // the timer of a waiting thread fires
    | Reset                                 // rt_mb_control(RT_IPC_CMD_RESET)

  function WakeAll(pc: map<nat, Pc>): map<nat, Pc> {
    map t | t in pc :: if pc[t].Waiting? then Awake(pc[t].call, EError) else pc[t]
  }

  /** A step that is not possible in a state leaves it as it is. */
  function Step(b: Box, a: Action): Box {
    match a
    case Begin(t, call) =>
      if PcOf(b, t).Idle? then Region(b, t, call).0 else b
    case Resume(t, ticks) =>
      if !PcOf(b, t).Awake? then b
      else if PcOf(b, t).error != EOk then b.(pc := b.pc[t := Idle])
      else Region(b, t, After(PcOf(b, t).call, ticks)).0
    case Expire(t) =>
      if PcOf(b, t).Waiting? && PcOf(b, t).call.timeout > 0
      then b.(receivers := Without(b.receivers, t), senders := Without(b.senders, t), pc := WakeUp(b.pc, t, ETimeout))
      else b
    case Reset =>
      b.(queue := [], receivers := [], senders := [], pc := WakeAll(b.pc), sent := [], received := [])
  }

  function Run(b: Box, acts: seq<Action>): Box
    decreases |acts|
  {
    if acts == [] then b else Run(Step(b, acts[0]), acts[1..])
  }

  // ---- the invariant ------------------------------------------------------------------------

  /** Receivers that were resumed for a message and have not run yet. */
  ghost function AwakeReceivers(b: Box): set<nat> {
    set t | t in b.pc && b.pc[t].Awake? && b.pc[t].error == EOk && b.pc[t].call.Recv?
  }

  ghost function AwakeSenders(b: Box): set<nat> {
    set t | t in b.pc && b.pc[t].Awake? && b.pc[t].error == EOk && b.pc[t].call.Send?
  }

  /** The wait lists hold exactly the waiting threads. */
  ghost predicate ListsOk(b: Box) {
    && Distinct(b.receivers) && Distinct(b.senders)
    && (forall t: nat :: t in b.receivers <==> PcOf(b, t).Waiting? && PcOf(b, t).call.Recv?)
    && (forall t: nat :: t in b.senders <==> PcOf(b, t).Waiting? && PcOf(b, t).call.Send?)
  }

  /** A bounded FIFO that loses no wakeup: receivers are left waiting only if every message in the
      box has a resumed receiver on its way, senders only if every free slot has a resumed sender. */
  ghost predicate Inv(b: Box) {
    && |b.queue| <= b.size
    && b.received + b.queue == b.sent
    && ListsOk(b)
    && (b.receivers != [] ==> |b.queue| <= |AwakeReceivers(b)|)
    && (b.senders != [] ==> b.size - |b.queue| <= |AwakeSenders(b)|)
  }

  lemma WakeFirstSets(b: Box, pc: map<nat, Pc>, list: seq<nat>, b': Box)
    requires b'.pc == WakeFirst(pc, list)
    requires list != [] ==> list[0] in pc && pc[list[0]].Waiting?
    ensures var before := b.(pc := pc);
      && AwakeReceivers(b') == AwakeReceivers(before) + (if list != [] && pc[list[0]].call.Recv? then {list[0]} else {})
      && AwakeSenders(b') == AwakeSenders(before) + (if list != [] && pc[list[0]].call.Send? then {list[0]} else {})
      && (list != [] ==> list[0] !in AwakeReceivers(before) && list[0] !in AwakeSenders(before))
  {}

  /** The thread that runs a region is neither waiting nor, afterwards, awake. */
  lemma RunsSets(b: Box, t: nat, pc: Pc)
    requires !pc.Awake?
    ensures var b' := b.(pc := b.pc[t := pc]);
      AwakeReceivers(b') == AwakeReceivers(b) - {t} && AwakeSenders(b') == AwakeSenders(b) - {t}
  {}

  /** The two promises about wakeups, for a thread t that is about to run a region on behalf of
      `call`: if it was resumed for that call, the promise may count on it. */
  ghost predicate Ready(b: Box, t: nat, call: Call) {
    && |b.queue| <= b.size
    && b.received + b.queue == b.sent
    && ListsOk(b)
    && !PcOf(b, t).Waiting?
    && (b.receivers != [] ==> |b.queue| <= |AwakeReceivers(b)|)
    && (b.senders != [] ==> b.size - |b.queue| <= |AwakeSenders(b)|)
    && (t in AwakeReceivers(b) ==> call.Recv?)
    && (t in AwakeSenders(b) ==> call.Send?)
  }

  lemma SuspendLists(b: Box, t: nat, call: Call, b': Box)
    requires ListsOk(b) && !PcOf(b, t).Waiting? && b'.pc == b.pc[t := Waiting(call)]
    requires b'.receivers == if call.Recv? then Suspended(b.receivers, t, b.flag, b.prio) else b.receivers
    requires b'.senders == if call.Send? then Suspended(b.senders, t, b.flag, b.prio) else b.senders
    ensures ListsOk(b')
  {
    var list := if call.Recv? then b.receivers else b.senders;
    SuspendedElems(list, t, b.flag, b.prio);
    SuspendedDistinct(list, t, b.flag, b.prio);
    forall u: nat ensures PcOf(b', u) == if u == t then Waiting(call) else PcOf(b, u) {}
  }

  lemma WakeLists(b: Box, t: nat, wakeReceiver: bool, b': Box)
    requires ListsOk(b) && !PcOf(b, t).Waiting?
    requires b'.pc == WakeFirst(b.pc[t := Idle], if wakeReceiver then b.receivers else b.senders)
    requires b'.receivers == if wakeReceiver then Rest(b.receivers) else b.receivers
    requires b'.senders == if wakeReceiver then b.senders else Rest(b.senders)
    ensures ListsOk(b')
    ensures var list := if wakeReceiver then b.receivers else b.senders;
      list != [] ==>
        list[0] in b.pc && b.pc[list[0]].Waiting? && b.pc[list[0]].call.Recv? == wakeReceiver && list[0] != t
  {
    var list := if wakeReceiver then b.receivers else b.senders;
    if list != [] {
      var h := list[0];
      assert h in list;
      assert PcOf(b, h).Waiting?;
      TailWithout(list);
      WithoutElems(list, h);
      WithoutDistinct(list, h);
    }
    forall u: nat
      ensures PcOf(b', u) == if u == t then Idle
                             else if list != [] && u == list[0] then Awake(PcOf(b, u).call, EOk) else PcOf(b, u)
    {}
  }

  /** The call returns without effect: a receiver at an empty box, a sender at a full one. */
  lemma RefusedKeeps(b: Box, t: nat, call: Call)
    requires Ready(b, t, call) && (if call.Recv? then b.queue == [] else |b.queue| == b.size)
    ensures Inv(b.(pc := b.pc[t := Idle]))
  {
    var b' := b.(pc := b.pc[t := Idle]);
    RunsSets(b, t, Idle);
    assert forall u: nat :: PcOf(b', u) == if u == t then Idle else PcOf(b, u);
  }

  lemma SuspendedKeeps(b: Box, t: nat, call: Call, b': Box)
    requires Ready(b, t, call) && (if call.Recv? then b.queue == [] else |b.queue| == b.size)
    requires b' == if call.Recv?
                   then b.(receivers := Suspended(b.receivers, t, b.flag, b.prio), pc := b.pc[t := Waiting(call)])
                   else b.(senders := Suspended(b.senders, t, b.flag, b.prio), pc := b.pc[t := Waiting(call)])
    ensures Inv(b')
  {
    RunsSets(b, t, Waiting(call));
    SuspendLists(b, t, call, b');
  }

  lemma DepositCounts(b: Box, t: nat, value: int, timeout: int)
    requires Ready(b, t, Send(value, timeout)) && |b.queue| < b.size
    ensures var b' := SendRegion(b, t, value, timeout).0;
      && ListsOk(b')
      && |AwakeReceivers(b')| == |AwakeReceivers(b)| + (if b.receivers != [] then 1 else 0)
      && |AwakeSenders(b')| >= |AwakeSenders(b)| - 1
  {
    var b' := SendRegion(b, t, value, timeout).0;
    WakeLists(b, t, true, b');
    RunsSets(b, t, Idle);
    WakeFirstSets(b, b.pc[t := Idle], b.receivers, b');
  }

  lemma DepositKeeps(b: Box, t: nat, value: int, timeout: int)
    requires Ready(b, t, Send(value, timeout)) && |b.queue| < b.size
    ensures Inv(SendRegion(b, t, value, timeout).0)
  {
    var b' := SendRegion(b, t, value, timeout).0;
    DepositCounts(b, t, value, timeout);
    assert b'.received + b'.queue == (b.received + b.queue) + [value];
  }

  lemma WithdrawCounts(b: Box, t: nat, timeout: int)
    requires Ready(b, t, Recv(timeout)) && b.queue != []
    ensures var b' := RecvRegion(b, t, timeout).0;
      && ListsOk(b')
      && |AwakeSenders(b')| == |AwakeSenders(b)| + (if b.senders != [] then 1 else 0)
      && |AwakeReceivers(b')| >= |AwakeReceivers(b)| - 1
  {
    var b' := RecvRegion(b, t, timeout).0;
    WakeLists(b, t, false, b');
    RunsSets(b, t, Idle);
    WakeFirstSets(b, b.pc[t := Idle], b.senders, b');
  }

  lemma WithdrawKeeps(b: Box, t: nat, timeout: int)
    requires Ready(b, t, Recv(timeout)) && b.queue != []
    ensures Inv(RecvRegion(b, t, timeout).0)
  {
    var b' := RecvRegion(b, t, timeout).0;
    WithdrawCounts(b, t, timeout);
    assert b'.received + b'.queue == b.received + b.queue;
  }

  lemma SendKeeps(b: Box, t: nat, value: int, timeout: int)
    requires Ready(b, t, Send(value, timeout))
    ensures Inv(SendRegion(b, t, value, timeout).0)
  {
    if |b.queue| < b.size {
      DepositKeeps(b, t, value, timeout);
    } else if timeout == 0 {
      RefusedKeeps(b, t, Send(value, timeout));
    } else {
      SuspendedKeeps(b, t, Send(value, timeout), SendRegion(b, t, value, timeout).0);
    }
  }

  lemma RecvKeeps(b: Box, t: nat, timeout: int)
    requires Ready(b, t, Recv(timeout))
    ensures Inv(RecvRegion(b, t, timeout).0)
  {
    if b.queue != [] {
      WithdrawKeeps(b, t, timeout);
    } else if timeout == 0 {
      RefusedKeeps(b, t, Recv(timeout));
    } else {
      SuspendedKeeps(b, t, Recv(timeout), RecvRegion(b, t, timeout).0);
    }
  }

  lemma ExpireKeeps(b: Box, t: nat)
    requires Inv(b)
    ensures Inv(Step(b, Expire(t)))
  {
    var b' := Step(b, Expire(t));
    if b' != b {
      WithoutElems(b.receivers, t);
      WithoutElems(b.senders, t);
      WithoutDistinct(b.receivers, t);
      WithoutDistinct(b.senders, t);
      assert AwakeReceivers(b') == AwakeReceivers(b) && AwakeSenders(b') == AwakeSenders(b);
      assert forall u: nat :: PcOf(b', u) == if u == t then Awake(PcOf(b, t).call, ETimeout) else PcOf(b, u);
    }
  }

  lemma ResumeKeeps(b: Box, t: nat, ticks: nat)
    requires Inv(b)
    ensures Inv(Step(b, Resume(t, ticks)))
  {
    if PcOf(b, t).Awake? {
      if PcOf(b, t).error != EOk {
        RunsSets(b, t, Idle);
        var b' := Step(b, Resume(t, ticks));
        assert forall u: nat :: PcOf(b', u) == if u == t then Idle else PcOf(b, u);
      } else {
        match After(PcOf(b, t).call, ticks)
        case Send(value, timeout) => SendKeeps(b, t, value, timeout);
        case Recv(timeout) => RecvKeeps(b, t, timeout);
      }
    }
  }

  lemma StepKeeps(b: Box, a: Action)
    requires Inv(b)
    ensures Inv(Step(b, a))
  {
    match a
    case Begin(t, call) =>
      if PcOf(b, t).Idle? {
        match call
        case Send(value, timeout) => SendKeeps(b, t, value, timeout);
        case Recv(timeout) => RecvKeeps(b, t, timeout);
      }
    case Resume(t, ticks) => ResumeKeeps(b, t, ticks);
    case Expire(t) => ExpireKeeps(b, t);
    case Reset =>
      var b' := Step(b, a);
      assert forall u: nat :: !PcOf(b', u).Waiting?;
  }

  /** Under any interleaving of blocking, barging, timed-out and resumed senders and receivers the
      mailbox is a bounded FIFO without lost wakeups. */
  lemma {:induction false} EveryRun(b: Box, acts: seq<Action>)
    requires Inv(b)
    ensures Inv(Run(b, acts))
    decreases |acts|
  {
    if acts != [] {
      StepKeeps(b, acts[0]);
      EveryRun(Step(b, acts[0]), acts[1..]);
    }
  }

  /** When nobody is on the way, a receiver waits only at an empty box and a sender only at a full one. */
  lemma NobodyStuck(b: Box, acts: seq<Action>)
    requires Inv(b)
    requires AwakeReceivers(Run(b, acts)) == {} && AwakeSenders(Run(b, acts)) == {}
    ensures Run(b, acts).receivers != [] ==> Run(b, acts).queue == []
    ensures Run(b, acts).senders != [] ==> |Run(b, acts).queue| == Run(b, acts).size
  {
    EveryRun(b, acts);
  }
}
