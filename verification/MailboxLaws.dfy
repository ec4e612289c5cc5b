/** What a mailbox does, told from the actions alone: who sent what, and when there was room. */
module MailboxLaws {
  import opened Queues
  import opened Ipc
  import opened Mailboxes

  /** What the actions say of a thread: the call it has begun last, and the ticks it has waited in it. */
  datatype Begun = Begun(call: Call, waited: nat)

  type Log = map<nat, Begun>

  /** Thread t runs a stretch of its call in this step. */
  predicate Runs(b: Box, a: Action) {
    (a.Begin? && PcOf(b, a.thread).Idle?) || (a.Resume? && PcOf(b, a.thread).Awake? && PcOf(b, a.thread).error == EOk)
  }

  function LogAfter(log: Log, b: Box, a: Action): Log {
    if !Runs(b, a) then log
    else
      match a
      case Begin(t, call) => log[t := Begun(call, 0)]
      case Resume(t, ticks) => if t in log then log[t := Begun(log[t].call, log[t].waited + ticks)] else log
      case _ => log
  }

  /** A waiting time of n after the given ticks; 0 and less are not times. */
  function TimeLeft(n: int, ticks: nat): int {
    if n <= 0 then n else if ticks < n then n - ticks else 0
  }

  /** The call a thread is in is the one it has begun, with the time that is left of it. */
  predicate Matches(call: Call, begun: Begun) {
    match begun.call
    case Send(value, timeout) => call == Send(value, TimeLeft(timeout, begun.waited))
    case Recv(timeout) => call == Recv(TimeLeft(timeout, begun.waited))
  }

  ghost predicate Knows(log: Log, b: Box) {
    forall t: nat :: !PcOf(b, t).Idle? ==> t in log && Matches(PcOf(b, t).call, log[t])
  }

  // ---- one stretch --------------------------------------------------------------------------

  /** A send succeeds exactly when there is room; otherwise it fails at once or waits, as it has time. */
  lemma SendOutcome(b: Box, t: nat, value: int, timeout: int)
    requires Inv(b)
    ensures var (b', r) := SendRegion(b, t, value, timeout);
      && (r == EOk <==> |b.queue| < b.size)
      && (r == EFull <==> |b.queue| == b.size && timeout == 0)
      && (r == Blocked <==> |b.queue| == b.size && timeout != 0)
      && (r == EOk ==> |b'.queue| == |b.queue| + 1 && b'.queue[|b.queue|] == value)
      && b.queue <= b'.queue && (r != EOk ==> b'.queue == b.queue)
      && PcOf(b', t) == if r == Blocked then Waiting(Send(value, timeout)) else Idle
  {
    if b.receivers != [] { assert b.receivers[0] in b.receivers; }
  }

  /** A receive succeeds exactly when there is a message, the oldest of which goes; otherwise it fails at
      once or waits, as it has time. */
  lemma RecvOutcome(b: Box, t: nat, timeout: int)
    requires Inv(b)
    ensures var (b', r) := RecvRegion(b, t, timeout);
      && (r == EOk <==> b.queue != [])
      && (r == ETimeout <==> b.queue == [] && timeout == 0)
      && (r == Blocked <==> b.queue == [] && timeout != 0)
      && b.queue == (if r == EOk then [b.queue[0]] else []) + b'.queue
      && PcOf(b', t) == if r == Blocked then Waiting(Recv(timeout)) else Idle
  {
    if b.senders != [] { assert b.senders[0] in b.senders; }
  }

  /** What is left of a waiting time, after several waits as after one. */
  lemma TimeLeftTwice(n: int, ticks: nat, more: nat)
    ensures TimeLeft(TimeLeft(n, ticks), more) == TimeLeft(n, ticks + more)
    ensures Elapsed(n, ticks) == TimeLeft(n, ticks)
  {}

  // ---- what threads are in ------------------------------------------------------------------

  /** A stretch leaves thread t in its call, or out of it; others stay in theirs. */
  lemma RegionKnows(b: Box, t: nat, call: Call, log: Log)
    requires Inv(b) && !PcOf(b, t).Waiting? && t in log && Matches(call, log[t])
    requires forall u: nat :: u != t && !PcOf(b, u).Idle? ==> u in log && Matches(PcOf(b, u).call, log[u])
    ensures Knows(log, Region(b, t, call).0)
  {
    var b' := Region(b, t, call).0;
    forall u: nat | !PcOf(b', u).Idle? ensures u in log && Matches(PcOf(b', u).call, log[u]) {
      if u != t { assert PcOf(b', u) == PcOf(b, u) || PcOf(b', u) == Awake(PcOf(b, u).call, EOk); }
    }
  }

  lemma StepKnows(log: Log, b: Box, a: Action)
    requires Inv(b) && Knows(log, b)
    ensures Knows(LogAfter(log, b, a), Step(b, a))
  {
    if Runs(b, a) {
      var t := a.thread;
      match a
      case Begin(_, call) =>
        TimeLeftTwice(call.timeout, 0, 0);
        RegionKnows(b, t, call, LogAfter(log, b, a));
      case Resume(_, ticks) =>
        TimeLeftTwice(log[t].call.timeout, log[t].waited, ticks);
        TimeLeftTwice(PcOf(b, t).call.timeout, ticks, 0);
        RegionKnows(b, t, After(PcOf(b, t).call, ticks), LogAfter(log, b, a));
    } else {
      forall u: nat | !PcOf(Step(b, a), u).Idle?
        ensures !PcOf(b, u).Idle? && PcOf(Step(b, a), u).call == PcOf(b, u).call {}
    }
  }

  // ---- first in, first out ------------------------------------------------------------------

  /** The message that a step brings in: that of a sender for which there is room. */
  function EnteredBy(log: Log, b: Box, a: Action): seq<int> {
    if Runs(b, a) && a.thread in LogAfter(log, b, a) && LogAfter(log, b, a)[a.thread].call.Send? && |b.queue| < b.size
    then [LogAfter(log, b, a)[a.thread].call.value] else []
  }

  /** The message that a step hands to a receiver. */
  function TakenBy(log: Log, b: Box, a: Action): seq<int> {
    if Runs(b, a) && a.thread in LogAfter(log, b, a) && LogAfter(log, b, a)[a.thread].call.Recv? && b.queue != []
    then [b.queue[0]] else []
  }

  lemma StepFifo(log: Log, b: Box, a: Action)
    requires Inv(b) && Knows(log, b)
    ensures if a.Reset? then Step(b, a).queue == []
            else TakenBy(log, b, a) + Step(b, a).queue == b.queue + EnteredBy(log, b, a)
  {
    if Runs(b, a) {
      var t := a.thread;
      StepKnows(log, b, a);
      var call := if a.Begin? then a.call else After(PcOf(b, t).call, a.ticks);
      match call
      case Send(value, timeout) => SendOutcome(b, t, value, timeout);
      case Recv(timeout) => RecvOutcome(b, t, timeout);
    }
  }

  /** All messages that entered in the run, and all that were taken, since its last reset. */
  function Entered(entered: seq<int>, log: Log, b: Box, acts: seq<Action>): seq<int>
    decreases |acts|
  {
    if acts == [] then entered
    else Entered(if acts[0].Reset? then [] else entered + EnteredBy(log, b, acts[0]),
                 LogAfter(log, b, acts[0]), Step(b, acts[0]), acts[1..])
  }

  function Taken(taken: seq<int>, log: Log, b: Box, acts: seq<Action>): seq<int>
    decreases |acts|
  {
    if acts == [] then taken
    else Taken(if acts[0].Reset? then [] else taken + TakenBy(log, b, acts[0]),
               LogAfter(log, b, acts[0]), Step(b, acts[0]), acts[1..])
  }

  /** In every run, what receivers were handed and then what is queued is what the senders asked to send, in
      the order in which they found room; a reset forgets both. */
  lemma {:induction false} FirstInFirstOut(taken: seq<int>, entered: seq<int>, log: Log, b: Box, acts: seq<Action>)
    requires Inv(b) && Knows(log, b) && taken + b.queue == entered
    ensures Taken(taken, log, b, acts) + Run(b, acts).queue == Entered(entered, log, b, acts)
    decreases |acts|
  {
    if acts != [] {
      var a := acts[0];
      StepKeeps(b, a);
      StepKnows(log, b, a);
      StepFifo(log, b, a);
      hide Inv, Knows, Step, LogAfter, TakenBy, EnteredBy;
      if !a.Reset? {
        Regroup(taken, TakenBy(log, b, a), Step(b, a).queue, b.queue, EnteredBy(log, b, a));
        FirstInFirstOut(taken + TakenBy(log, b, a), entered + EnteredBy(log, b, a), LogAfter(log, b, a), Step(b, a),
                        acts[1..]);
      } else {
        FirstInFirstOut([], [], LogAfter(log, b, a), Step(b, a), acts[1..]);
      }
    }
  }

  lemma Regroup(taken: seq<int>, now: seq<int>, after: seq<int>, before: seq<int>, entered: seq<int>)
    requires now + after == before + entered
    ensures (taken + now) + after == (taken + before) + entered
  {
    assert (taken + now) + after == taken + (now + after);
    assert (taken + before) + entered == taken + (before + entered);
  }

  /** From an empty mailbox nobody uses, in particular. */
  lemma FifoFromStart(b: Box, acts: seq<Action>)
    requires Inv(b) && b.queue == [] && (forall t: nat :: PcOf(b, t).Idle?)
    ensures Taken([], map[], b, acts) + Run(b, acts).queue == Entered([], map[], b, acts)
  {
    FirstInFirstOut([], [], map[], b, acts);
  }

  // ---- resuming -----------------------------------------------------------------------------

  /** A resumed thread that finds an error returns, and nothing else happens; one that finds none repeats its
      stretch with the time that is left, and succeeds, fails or waits like a new caller. */
  lemma ResumeOutcome(log: Log, b: Box, t: nat, ticks: nat)
    requires Inv(b) && Knows(log, b) && PcOf(b, t).Awake?
    ensures var b' := Step(b, Resume(t, ticks)); var error, call := PcOf(b, t).error, PcOf(b, t).call;
      && (error != EOk ==>
            && PcOf(b', t) == Idle && b' == b.(pc := b'.pc)
            && (forall u: nat :: u != t ==> PcOf(b', u) == PcOf(b, u)))
      && (error == EOk && call.Send? ==>
            && (PcOf(b', t).Idle? <==> |b.queue| < b.size || TimeLeft(call.timeout, ticks) == 0)
            && (PcOf(b', t).Idle? || PcOf(b', t) == Waiting(Send(call.value, TimeLeft(call.timeout, ticks)))))
      && (error == EOk && call.Recv? ==>
            && (PcOf(b', t).Idle? <==> b.queue != [] || TimeLeft(call.timeout, ticks) == 0)
            && (PcOf(b', t).Idle? || PcOf(b', t) == Waiting(Recv(TimeLeft(call.timeout, ticks)))))
  {
    TimeLeftTwice(PcOf(b, t).call.timeout, ticks, 0);
    match After(PcOf(b, t).call, ticks)
    case Send(value, timeout) => SendOutcome(b, t, value, timeout);
    case Recv(timeout) => RecvOutcome(b, t, timeout);
  }

  // ---- why a wait ends ----------------------------------------------------------------------

  /** A thread is woken without error only by somebody who makes room or brings a message, with RT_ETIMEOUT
      exactly by its timer, which it has if it does not wait for ever, and with RT_ERROR exactly by a reset. */
  lemma WhyAwake(log: Log, b: Box, a: Action, t: nat)
    requires Inv(b) && Knows(log, b) && PcOf(b, t).Waiting?
    ensures var pc := PcOf(Step(b, a), t);
      && (pc == PcOf(b, t) || (pc.Awake? && pc.call == PcOf(b, t).call))
      && (pc.Awake? && pc.error == EOk ==> (if pc.call.Send? then TakenBy(log, b, a) else EnteredBy(log, b, a)) != [])
      && (pc == Awake(PcOf(b, t).call, ETimeout) <==> a == Expire(t) && PcOf(b, t).call.timeout > 0)
      && (pc == Awake(PcOf(b, t).call, EError) <==> a.Reset?)
  {
    if Runs(b, a) {
      StepKnows(log, b, a);
      assert PcOf(b, t).call.Send? <==> t in b.senders;
      assert PcOf(b, t).call.Recv? <==> t in b.receivers;
    }
  }
}
