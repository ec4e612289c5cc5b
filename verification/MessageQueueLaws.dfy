/** What a message queue does, told from the actions alone: who began which message, urgent or not. */
module MessageQueueLaws {
  import opened Queues
  import opened Ipc
  import opened MessageQueues
  import Box = MailboxLaws

  /** What the actions say of a thread: what it has begun last, and the ticks it has waited in it. */
  datatype Begun = Sending(msg: int, urgent: bool, timeout: int, waited: nat) | Receiving(timeout: int, waited: nat)

  type Log = map<nat, Begun>

  /** Thread t runs the first stretch of its call in this step. */
  predicate Runs(s: State, a: Action) {
    match a
    case BeginSend(t, _, _) => PcOf(s, t).Idle?
    case BeginUrgent(t, _) => PcOf(s, t).Idle?
    case BeginRecv(t, _) => PcOf(s, t).Idle?
    case Resume(t, _) => PcOf(s, t).Awake? && PcOf(s, t).error == EOk
    case _ => false
  }

  function LogAfter(log: Log, s: State, a: Action): Log {
    if !Runs(s, a) then log
    else
      match a
      case BeginSend(t, msg, timeout) => log[t := Sending(msg, false, timeout, 0)]
      case BeginUrgent(t, msg) => log[t := Sending(msg, true, 0, 0)]
      case BeginRecv(t, timeout) => log[t := Receiving(timeout, 0)]
      case Resume(t, ticks) => if t in log then log[t := log[t].(waited := log[t].waited + ticks)] else log
      case _ => log
  }

  /** What a thread is in is what it has begun. */
  predicate Matches(pc: Pc, begun: Begun) {
    match pc
    case Idle => true
    case Filling(_, msg, urgent, _) => begun.Sending? && msg == begun.msg && urgent == begun.urgent
    case Draining(_, _) => begun.Receiving?
    case _ =>
      var left := Box.TimeLeft(begun.timeout, begun.waited);
      if begun.Sending? then !begun.urgent && pc.call == Send(begun.msg, left) else pc.call == Recv(left)
  }

  ghost predicate Knows(log: Log, s: State) {
    forall t: nat :: !PcOf(s, t).Idle? ==> t in log && Matches(PcOf(s, t), log[t])
  }

  // ---- one stretch --------------------------------------------------------------------------

  /** A send takes a slot exactly when one is free; otherwise it fails at once or waits, as it has time. */
  lemma SendOutcome(s: State, t: nat, msg: int, timeout: int)
    requires Inv(s)
    ensures var (s', r) := TakeSlot(s, t, msg, timeout);
      && (r == EOk <==> s.free != []) && (r == EFull <==> s.free == [] && timeout == 0)
      && (r == Blocked <==> s.free == [] && timeout != 0)
      && s'.queue == s.queue && (PcOf(s', t).Filling? <==> r == EOk) && (PcOf(s', t).Waiting? <==> r == Blocked)
      && (forall u: nat :: u != t ==> PcOf(s', u) == PcOf(s, u))
  {}

  /** An urgent send likewise, but it never waits. */
  lemma UrgentOutcome(s: State, t: nat, msg: int)
    requires Inv(s)
    ensures var (s', r) := TakeUrgent(s, t, msg);
      && (r == EOk <==> s.free != []) && (r == EFull <==> s.free == [])
      && s'.queue == s.queue && (PcOf(s', t).Filling? <==> r == EOk) && !PcOf(s', t).Waiting?
      && (forall u: nat :: u != t ==> PcOf(s', u) == PcOf(s, u))
  {}

  /** A receive takes the head of the queue exactly when there is one; otherwise it fails at once or waits. */
  lemma RecvOutcome(s: State, t: nat, timeout: int)
    requires Inv(s)
    ensures var (s', r) := TakeMessage(s, t, timeout);
      && (r == EOk <==> s.queue != []) && (r == ETimeout <==> s.queue == [] && timeout == 0)
      && (r == Blocked <==> s.queue == [] && timeout != 0)
      && s.queue == (if r == EOk then [s.queue[0]] else []) + s'.queue
      && (PcOf(s', t).Draining? <==> r == EOk) && (r == EOk ==> PcOf(s', t).msg == s.queue[0].msg)
      && (PcOf(s', t).Waiting? <==> r == Blocked)
      && (forall u: nat :: u != t ==> PcOf(s', u) == PcOf(s, u))
  {}

  // ---- what threads are in ------------------------------------------------------------------

  /** The thread that runs its first stretch. */
  lemma RunnerKnows(log: Log, s: State, a: Action)
    requires Inv(s) && Knows(log, s) && Runs(s, a)
    ensures var t := a.thread; t in LogAfter(log, s, a) && Matches(PcOf(Step(s, a), t), LogAfter(log, s, a)[t])
  {
    var t := a.thread;
    match a
    case BeginSend(_, msg, timeout) =>
      Box.TimeLeftTwice(timeout, 0, 0);
      SendOutcome(s, t, msg, timeout);
    case BeginUrgent(_, msg) =>
    case BeginRecv(_, timeout) =>
      Box.TimeLeftTwice(timeout, 0, 0);
    case Resume(_, ticks) =>
      assert Matches(PcOf(s, t), log[t]);
      Box.TimeLeftTwice(log[t].timeout, log[t].waited, ticks);
      Box.TimeLeftTwice(PcOf(s, t).call.timeout, ticks, 0);
  }

  /** Any other thread returns, is woken, has copied its message, or is left alone. */
  lemma OtherPc(s: State, a: Action, u: nat)
    requires !(Runs(s, a) && u == a.thread)
    ensures var pc, pc' := PcOf(s, u), PcOf(Step(s, a), u);
      || pc' == pc || pc'.Idle?
      || (pc.Waiting? && pc'.Awake? && pc'.call == pc.call)
      || (pc.Filling? && pc' == pc.(copied := true))
  {}

  lemma StepKnows(log: Log, s: State, a: Action)
    requires Inv(s) && Knows(log, s)
    ensures Knows(LogAfter(log, s, a), Step(s, a))
  {
    if Runs(s, a) { RunnerKnows(log, s, a); }
    forall u: nat | !PcOf(Step(s, a), u).Idle?
      ensures u in LogAfter(log, s, a) && Matches(PcOf(Step(s, a), u), LogAfter(log, s, a)[u])
    {
      hide Inv, Step;
      if !(Runs(s, a) && u == a.thread) { OtherPc(s, a, u); }
    }
  }

  // ---- order --------------------------------------------------------------------------------

  /** The message that a step puts into the queue, as the thread that ends its send has begun it. */
  function Linked(log: Log, s: State, a: Action): seq<Begun> {
    if a.Link? && PcOf(s, a.thread).Filling? && PcOf(s, a.thread).copied && a.thread in log && log[a.thread].Sending?
    then [log[a.thread]] else []
  }

  /** A receiver finds a message. */
  predicate Takes(log: Log, s: State, a: Action) {
    Runs(s, a) && a.thread in LogAfter(log, s, a) && LogAfter(log, s, a)[a.thread].Receiving? && s.queue != []
  }

  /** The messages queued after a step, given those queued before: an urgent one in front of all others, any
      other behind them, and the foremost is taken. */
  function QueueAfter(queue: seq<int>, log: Log, s: State, a: Action): seq<int> {
    if a.Reset? then []
    else if Linked(log, s, a) != [] then
      var begun := Linked(log, s, a)[0];
      if begun.urgent then [begun.msg] + queue else queue + [begun.msg]
    else if Takes(log, s, a) && queue != [] then queue[1..]
    else queue
  }

  lemma StepOrder(log: Log, s: State, a: Action)
    requires Inv(s) && Knows(log, s)
    ensures Messages(Step(s, a).queue) == QueueAfter(Messages(s.queue), log, s, a)
    ensures Takes(log, s, a) ==>
              PcOf(Step(s, a), a.thread).Draining? && PcOf(Step(s, a), a.thread).msg == Messages(s.queue)[0]
  {
    hide Inv, Reverse, WakeUp, WakeAll, Without, Suspended;
    if Runs(s, a) { RunnerKnows(log, s, a); }
    if a.Link? && PcOf(s, a.thread).Filling? {
      assert Matches(PcOf(s, a.thread), log[a.thread]);
    }
  }

  function QueueIn(queue: seq<int>, log: Log, s: State, acts: seq<Action>): seq<int>
    decreases |acts|
  {
    if acts == [] then queue
    else QueueIn(QueueAfter(queue, log, s, acts[0]), LogAfter(log, s, acts[0]), Step(s, acts[0]), acts[1..])
  }

  ghost function LogIn(log: Log, s: State, acts: seq<Action>): Log
    decreases |acts|
  {
    if acts == [] then log else LogIn(LogAfter(log, s, acts[0]), Step(s, acts[0]), acts[1..])
  }

  /** In every run, with urgent messages and resets, the queue holds exactly the messages begun and linked, the
      urgent ones in front, in the order in which they were linked. */
  lemma {:induction false} OrderInRuns(log: Log, s: State, acts: seq<Action>)
    requires Inv(s) && Knows(log, s)
    ensures Messages(Run(s, acts).queue) == QueueIn(Messages(s.queue), log, s, acts)
    ensures Inv(Run(s, acts)) && Knows(LogIn(log, s, acts), Run(s, acts))
    decreases |acts|
  {
    if acts != [] {
      StepKeeps(s, acts[0]);
      StepKnows(log, s, acts[0]);
      StepOrder(log, s, acts[0]);
      hide Inv, Knows, Step, LogAfter, QueueAfter;
      OrderInRuns(LogAfter(log, s, acts[0]), Step(s, acts[0]), acts[1..]);
    }
  }

  // ---- overtaking ---------------------------------------------------------------------------

  /** A thread that owns a slot for its message keeps it, and what it has begun, until it links it; the message is
      in the slot as soon as it has been copied. */
  lemma {:induction false} StaysFilling(log: Log, s: State, acts: seq<Action>, t: nat)
    requires Inv(s) && Knows(log, s) && PcOf(s, t).Filling? && Link(t) !in acts
    ensures var s', log' := Run(s, acts), LogIn(log, s, acts);
      && Inv(s') && Knows(log', s') && PcOf(s', t).Filling? && t in log' && t in log && log'[t] == log[t]
      && (PcOf(s', t).copied <==> PcOf(s, t).copied || CopyIn(t) in acts)
    decreases |acts|
  {
    if acts != [] {
      assert acts == [acts[0]] + acts[1..];
      assert acts[0] != Link(t) && Link(t) !in acts[1..];
      FillingStep(log, s, acts[0], t);
      StepKeeps(s, acts[0]);
      StepKnows(log, s, acts[0]);
      hide Inv, Knows, Step, LogAfter;
      StaysFilling(LogAfter(log, s, acts[0]), Step(s, acts[0]), acts[1..], t);
    }
  }

  lemma FillingStep(log: Log, s: State, a: Action, t: nat)
    requires Knows(log, s) && PcOf(s, t).Filling? && a != Link(t)
    ensures PcOf(Step(s, a), t).Filling? && t in log && t in LogAfter(log, s, a) && LogAfter(log, s, a)[t] == log[t]
    ensures PcOf(Step(s, a), t).copied <==> PcOf(s, t).copied || a == CopyIn(t)
  {}

  /** Whatever happens between the two stretches of a send, as long as the message is copied: one begun as urgent
      stands in front of all others when it is linked, any other behind all others, and it is the message begun. */
  lemma SendEnds(log: Log, s: State, begin: Action, acts: seq<Action>)
    requires Inv(s) && Knows(log, s) && (begin.BeginSend? || begin.BeginUrgent?)
    requires var t := begin.thread; PcOf(s, t).Idle? && s.free != [] && Link(t) !in acts && CopyIn(t) in acts
    ensures var t, s' := begin.thread, Run(Step(s, begin), acts); var s'' := Step(s', Link(t));
      && PcOf(s'', t).Idle?
      && Messages(s''.queue) ==
           if begin.BeginUrgent? then [begin.msg] + Messages(s'.queue) else Messages(s'.queue) + [begin.msg]
  {
    var t, log1, s1 := begin.thread, LogAfter(log, s, begin), Step(s, begin);
    StepKeeps(s, begin);
    StepKnows(log, s, begin);
    assert PcOf(s1, t).Filling? && log1[t].urgent == begin.BeginUrgent? && log1[t].msg == begin.msg;
    StaysFilling(log1, s1, acts, t);
    LinkEnds(Run(s1, acts), t);
    StepOrder(LogIn(log1, s1, acts), Run(s1, acts), Link(t));
    hide Inv, Knows, Step, LogAfter, Run, LogIn;
  }

  lemma LinkEnds(s: State, t: nat)
    requires Inv(s) && PcOf(s, t).Filling? && PcOf(s, t).copied
    ensures PcOf(Step(s, Link(t)), t).Idle?
  {}

  /** A receiver that has its message gives the slot back and is done. */
  lemma ReturnEnds(s: State, t: nat)
    requires Inv(s) && PcOf(s, t).Draining?
    ensures var s' := Step(s, Return(t));
      PcOf(s', t).Idle? && s'.queue == s.queue && |s'.free| == |s.free| + 1 && PcOf(s, t).slot in s'.free
  {}

  /** A resumed thread that finds an error returns, and nothing else happens; one that finds none repeats its first
      stretch with the time that is left. */
  lemma ResumeOutcome(s: State, t: nat, ticks: nat)
    requires Inv(s) && PcOf(s, t).Awake?
    ensures var s' := Step(s, Resume(t, ticks)); var error, call := PcOf(s, t).error, PcOf(s, t).call;
      && (error != EOk ==>
            && PcOf(s', t).Idle? && s' == s.(pc := s'.pc)
            && (forall u: nat :: u != t ==> PcOf(s', u) == PcOf(s, u)))
      && (error == EOk && call.Send? ==>
            && (PcOf(s', t).Filling? <==> s.free != [])
            && (PcOf(s', t).Waiting? <==> s.free == [] && Box.TimeLeft(call.timeout, ticks) != 0))
      && (error == EOk && call.Recv? ==>
            && (PcOf(s', t).Draining? <==> s.queue != [])
            && (PcOf(s', t).Waiting? <==> s.queue == [] && Box.TimeLeft(call.timeout, ticks) != 0))
  {
    Box.TimeLeftTwice(PcOf(s, t).call.timeout, ticks, 0);
    match PcOf(s, t).call
    case Send(msg, timeout) => SendOutcome(s, t, msg, Elapsed(timeout, ticks));
    case Recv(timeout) => RecvOutcome(s, t, Elapsed(timeout, ticks));
  }

  // ---- why a wait ends ----------------------------------------------------------------------

  /** A thread is woken without error only by a message linked or a slot returned, with RT_ETIMEOUT exactly by
      its timer, which it has if it does not wait for ever, and with RT_ERROR exactly by a reset. */
  lemma WhyAwake(log: Log, s: State, a: Action, t: nat)
    requires Inv(s) && Knows(log, s) && PcOf(s, t).Waiting?
    ensures var pc := PcOf(Step(s, a), t);
      && (pc == PcOf(s, t) || (pc.Awake? && pc.call == PcOf(s, t).call))
      && (pc.Awake? && pc.error == EOk ==>
            if pc.call.Send? then a.Return? && PcOf(s, a.thread).Draining? else Linked(log, s, a) != [])
      && (pc == Awake(PcOf(s, t).call, ETimeout) <==> a == Expire(t) && PcOf(s, t).call.timeout > 0)
      && (pc == Awake(PcOf(s, t).call, EError) <==> a.Reset?)
  {
    assert PcOf(s, t).call.Send? <==> t in s.senders;
    assert PcOf(s, t).call.Recv? <==> t in s.receivers;
    if a.Link? && PcOf(s, a.thread).Filling? { assert Matches(PcOf(s, a.thread), log[a.thread]); }
  }
}
