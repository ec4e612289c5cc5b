/** Who is served first: wait lists against the moments at which their threads came. */
module WaitOrder {
  import opened Queues
  import opened Ipc
  import Boxes = Mailboxes
  import Messages = MessageQueues
  import Flags = Events

  /** When each thread came to wait last. */
  type Stamps = map<nat, nat>

  /** Thread x is served before thread y: it came earlier or, with priorities, is more urgent or as urgent and
      came earlier. */
  ghost predicate Ahead(flag: Flag, prio: Keys, stamps: Stamps, x: nat, y: nat) {
    && x in stamps && y in stamps
    && (if flag.Prio? && KeyOf(prio, x) != KeyOf(prio, y) then KeyOf(prio, x) < KeyOf(prio, y)
        else stamps[x] < stamps[y])
  }

  ghost predicate InTurn(list: seq<nat>, flag: Flag, prio: Keys, stamps: Stamps, i: nat, j: nat)
    requires i < |list| && j < |list|
  {
    Ahead(flag, prio, stamps, list[i], list[j])
  }

  /** The list is in the order in which its threads are to be served; they came before `now`. */
  ghost predicate Served(list: seq<nat>, flag: Flag, prio: Keys, stamps: Stamps, now: nat) {
    && (forall i, j :: 0 <= i < j < |list| ==> InTurn(list, flag, prio, stamps, i, j))
    && (forall x <- list :: x in stamps && stamps[x] < now)
  }

  /** Whoever is in the list now and was not before has come now. */
  function Stamped(stamps: Stamps, list: seq<nat>, list': seq<nat>, now: nat): Stamps {
    map x | x in stamps.Keys + (set y <- list') :: if x in list' && x !in list then now
                                                   else if x in stamps then stamps[x] else 0
  }

  /** Position c is behind everybody who is to be served before t, and before everybody else. */
  ghost predicate ComesAt(list: seq<nat>, t: nat, flag: Flag, prio: Keys, c: nat) {
    && c <= |list|
    && (flag.Fifo? ==> c == |list|)
    && (flag.Prio? ==> IsCut(list, prio, t, c))
  }

  lemma ComesBefore(list: seq<nat>, t: nat, flag: Flag, prio: Keys, stamps: Stamps, now: nat, c: nat, k: nat)
    requires Served(list, flag, prio, stamps, now) && ComesAt(list, t, flag, prio, c) && k < |list|
    ensures flag.Prio? && k >= c ==> KeyOf(prio, t) < KeyOf(prio, list[k])
    ensures flag.Prio? && k < c ==> KeyOf(prio, list[k]) <= KeyOf(prio, t)
  {
    if c < k { assert InTurn(list, flag, prio, stamps, c, k); }
  }

  lemma SuspendedServed(list: seq<nat>, t: nat, flag: Flag, prio: Keys, stamps: Stamps, now: nat)
    requires Served(list, flag, prio, stamps, now) && t !in list
    ensures var list' := Suspended(list, t, flag, prio);
      Served(list', flag, prio, Stamped(stamps, list, list', now), now + 1)
  {
    var list' := Suspended(list, t, flag, prio);
    var stamps' := Stamped(stamps, list, list', now);
    var c := |list|;
    if flag.Prio? {
      c := CutExists(list, prio, t);
      PlaceAtCut(list, prio, t, c);
    }
    SuspendedElems(list, t, flag, prio);
    assert list' == list[..c] + [t] + list[c..];
    NewStamps(list, t, stamps, list', now);
    hide Suspended, Stamped, IsCut, Served;
    forall i, j | 0 <= i < j < |list'| ensures InTurn(list', flag, prio, stamps', i, j) {
      PairServed(list, t, flag, prio, stamps, stamps', now, c, i, j);
    }
    ServedIs(list', flag, prio, stamps', now + 1);
  }

  lemma ServedIs(list: seq<nat>, flag: Flag, prio: Keys, stamps: Stamps, now: nat)
    requires forall i, j :: 0 <= i < j < |list| ==> InTurn(list, flag, prio, stamps, i, j)
    requires forall x <- list :: x in stamps && stamps[x] < now
    ensures Served(list, flag, prio, stamps, now)
  {}

  lemma PairServed(list: seq<nat>, t: nat, flag: Flag, prio: Keys, stamps: Stamps, stamps': Stamps, now: nat, c: nat,
        i: nat, j: nat)
    requires Served(list, flag, prio, stamps, now) && ComesAt(list, t, flag, prio, c) && i < j <= |list|
    requires t in stamps' && stamps'[t] == now && forall x <- list :: x in stamps' && stamps'[x] == stamps[x]
    ensures var list' := list[..c] + [t] + list[c..];
      |list'| == |list| + 1 && InTurn(list', flag, prio, stamps', i, j)
  {
    var i', j' := if i < c then i else i - 1, if j < c then j else j - 1;
    if i != c && j != c {
      assert InTurn(list, flag, prio, stamps, i', j') && list[i'] in list && list[j'] in list;
    } else if i == c {
      ComesBefore(list, t, flag, prio, stamps, now, c, j');
      assert list[j'] in list;
    } else {
      ComesBefore(list, t, flag, prio, stamps, now, c, i');
      assert list[i'] in list;
    }
  }

  lemma NewStamps(list: seq<nat>, t: nat, stamps: Stamps, list': seq<nat>, now: nat)
    requires t !in list && (forall x :: x in list' <==> x in list || x == t) && (forall x <- list :: x in stamps)
    ensures var stamps' := Stamped(stamps, list, list', now);
      && t in stamps' && stamps'[t] == now && (forall x <- list :: x in stamps' && stamps'[x] == stamps[x])
      && (forall x <- list' :: x in stamps')
  {}

  lemma {:induction false} WithoutServed(list: seq<nat>, t: nat, flag: Flag, prio: Keys, stamps: Stamps, now: nat)
    requires Served(list, flag, prio, stamps, now)
    ensures Served(Without(list, t), flag, prio, stamps, now)
    decreases |list|
  {
    if list != [] {
      var rest := list[1..];
      forall i, j | 0 <= i < j < |rest| ensures InTurn(rest, flag, prio, stamps, i, j) {
        assert InTurn(list, flag, prio, stamps, i + 1, j + 1);
      }
      WithoutServed(rest, t, flag, prio, stamps, now);
      WithoutElems(rest, t);
      if list[0] != t {
        var list' := Without(list, t);
        forall i, j | 0 <= i < j < |list'| ensures InTurn(list', flag, prio, stamps, i, j) {
          if i == 0 {
            assert list'[j] in rest;
            var k :| 0 <= k < |rest| && rest[k] == list'[j];
            assert InTurn(list, flag, prio, stamps, 0, k + 1);
          } else {
            assert InTurn(Without(rest, t), flag, prio, stamps, i - 1, j - 1);
          }
        }
      }
    }
  }

  /** Time passes, and others come elsewhere. */
  lemma StampedServed(list: seq<nat>, before: seq<nat>, flag: Flag, prio: Keys, stamps: Stamps, now: nat)
    requires Served(list, flag, prio, stamps, now) && forall x <- list :: x in before
    ensures Served(list, flag, prio, Stamped(stamps, before, list, now), now + 1)
  {
    var stamps' := Stamped(stamps, before, list, now);
    forall i, j | 0 <= i < j < |list| ensures InTurn(list, flag, prio, stamps', i, j) {
      assert InTurn(list, flag, prio, stamps, i, j);
      assert list[i] in list && list[j] in list;
    }
  }

  /** What an object does with a wait list: one thread comes, the first or another one goes, or all do. */
  ghost predicate Moves(list: seq<nat>, list': seq<nat>, flag: Flag, prio: Keys) {
    || list' == list || list' == Rest(list) || list' == []
    || (exists t: nat :: t !in list && list' == Suspended(list, t, flag, prio))
    || (exists t: nat :: list' == Without(list, t))
  }

  lemma AnyMoves(list: seq<nat>, t: nat, flag: Flag, prio: Keys)
    ensures Moves(list, list, flag, prio) && Moves(list, Rest(list), flag, prio) && Moves(list, [], flag, prio)
    ensures Moves(list, Without(list, t), flag, prio)
    ensures t !in list ==> Moves(list, Suspended(list, t, flag, prio), flag, prio)
  {}

  lemma MovesServed(list: seq<nat>, list': seq<nat>, flag: Flag, prio: Keys, stamps: Stamps, now: nat)
    requires Served(list, flag, prio, stamps, now) && Distinct(list) && Moves(list, list', flag, prio)
    ensures Served(list', flag, prio, Stamped(stamps, list, list', now), now + 1)
  {
    if t: nat :| t !in list && list' == Suspended(list, t, flag, prio) {
      SuspendedServed(list, t, flag, prio, stamps, now);
    } else {
      if t: nat :| list' == Without(list, t) {
        WithoutElems(list, t);
        WithoutServed(list, t, flag, prio, stamps, now);
      } else if list' == Rest(list) && list != [] {
        TailWithout(list);
        WithoutElems(list, list[0]);
        WithoutServed(list, list[0], flag, prio, stamps, now);
      }
      StampedServed(list', list, flag, prio, stamps, now);
    }
  }

  /** The first thread of a list is ahead of all others that wait in it. */
  lemma FirstAhead(list: seq<nat>, flag: Flag, prio: Keys, stamps: Stamps, now: nat, u: nat)
    requires Served(list, flag, prio, stamps, now) && u in list && u != list[0]
    ensures Ahead(flag, prio, stamps, list[0], u)
  {
    var k :| 0 <= k < |list| && list[k] == u;
    assert InTurn(list, flag, prio, stamps, 0, k);
  }

  // ---- mailboxes ----------------------------------------------------------------------------

  lemma BoxRegionMoves(b: Boxes.Box, t: nat, call: Boxes.Call)
    requires t !in b.receivers && t !in b.senders
    ensures var b' := Boxes.Region(b, t, call).0;
      && Moves(b.receivers, b'.receivers, b.flag, b.prio) && Moves(b.senders, b'.senders, b.flag, b.prio)
      && b'.flag == b.flag && b'.prio == b.prio
  {
    hide Moves, Suspended, Rest, Without, Boxes.WakeFirst;
    AnyMoves(b.receivers, t, b.flag, b.prio);
    AnyMoves(b.senders, t, b.flag, b.prio);
  }

  lemma BoxMoves(b: Boxes.Box, a: Boxes.Action)
    requires Boxes.Inv(b)
    ensures var b' := Boxes.Step(b, a);
      && Moves(b.receivers, b'.receivers, b.flag, b.prio) && Moves(b.senders, b'.senders, b.flag, b.prio)
      && b'.flag == b.flag && b'.prio == b.prio
  {
    var t := if a.Reset? then 0 else a.thread;
    assert !Boxes.PcOf(b, t).Waiting? ==> t !in b.receivers && t !in b.senders;
    AnyMoves(b.receivers, t, b.flag, b.prio);
    AnyMoves(b.senders, t, b.flag, b.prio);
    hide Moves, Boxes.Inv, Boxes.Region;
    match a
    case Begin(_, call) => if Boxes.PcOf(b, t).Idle? { BoxRegionMoves(b, t, call); }
    case Resume(_, ticks) =>
      if Boxes.PcOf(b, t).Awake? { BoxRegionMoves(b, t, Boxes.After(Boxes.PcOf(b, t).call, ticks)); }
    case _ =>
  }

  /** The moments at which the threads came to wait, in a run. */
  ghost function BoxStamps(b: Boxes.Box, acts: seq<Boxes.Action>, recv: Stamps, send: Stamps, now: nat):
      (Stamps, Stamps)
    decreases |acts|
  {
    if acts == [] then (recv, send)
    else
      var b' := Boxes.Step(b, acts[0]);
      BoxStamps(b', acts[1..], Stamped(recv, b.receivers, b'.receivers, now), Stamped(send, b.senders, b'.senders, now),
                now + 1)
  }

  /** In every run both wait lists of a mailbox are in the order in which their threads are to be served. */
  lemma {:induction false} BoxInOrder(b: Boxes.Box, acts: seq<Boxes.Action>, recv: Stamps, send: Stamps, now: nat)
    requires Boxes.Inv(b)
    requires Served(b.receivers, b.flag, b.prio, recv, now) && Served(b.senders, b.flag, b.prio, send, now)
    ensures var b' := Boxes.Run(b, acts); var (recv', send') := BoxStamps(b, acts, recv, send, now);
      && Served(b'.receivers, b.flag, b.prio, recv', now + |acts|)
      && Served(b'.senders, b.flag, b.prio, send', now + |acts|)
    decreases |acts|
  {
    if acts != [] {
      var b' := Boxes.Step(b, acts[0]);
      BoxMoves(b, acts[0]);
      Boxes.StepKeeps(b, acts[0]);
      MovesServed(b.receivers, b'.receivers, b.flag, b.prio, recv, now);
      MovesServed(b.senders, b'.senders, b.flag, b.prio, send, now);
      hide Served, Stamped, Boxes.Step, Boxes.Inv;
      BoxInOrder(b', acts[1..], Stamped(recv, b.receivers, b'.receivers, now),
                 Stamped(send, b.senders, b'.senders, now), now + 1);
    }
  }

  /** Nobody is overtaken: of the threads that wait, one that is woken without error is ahead of all that go on
      waiting for the same. */
  lemma BoxNobodyOvertaken(b: Boxes.Box, a: Boxes.Action, stamps: Stamps, now: nat, t: nat, u: nat)
    requires Boxes.Inv(b) && Boxes.PcOf(b, t).Waiting? && Boxes.PcOf(b, u).Waiting?
    requires Boxes.PcOf(b, t).call.Recv? == Boxes.PcOf(b, u).call.Recv?
    requires Served(if Boxes.PcOf(b, t).call.Recv? then b.receivers else b.senders, b.flag, b.prio, stamps, now)
    requires var pc := Boxes.PcOf(Boxes.Step(b, a), t); pc.Awake? && pc.error == EOk
    requires Boxes.PcOf(Boxes.Step(b, a), u).Waiting?
    ensures Ahead(b.flag, b.prio, stamps, t, u)
  {
    var list := if Boxes.PcOf(b, t).call.Recv? then b.receivers else b.senders;
    assert t in list && u in list;
    assert t == list[0];
    FirstAhead(list, b.flag, b.prio, stamps, now, u);
  }

  // ---- message queues -----------------------------------------------------------------------

  /** The list that a step makes of another one. */
  ghost predicate QueueMove(s: Messages.State, s': Messages.State) {
    && Moves(s.receivers, s'.receivers, s.flag, s.prio) && Moves(s.senders, s'.senders, s.flag, s.prio)
    && s'.flag == s.flag && s'.prio == s.prio
  }

  lemma QueueRegions(s: Messages.State, t: nat, msg: int, timeout: int)
    requires t !in s.receivers && t !in s.senders
    ensures QueueMove(s, Messages.TakeSlot(s, t, msg, timeout).0)
    ensures QueueMove(s, Messages.TakeUrgent(s, t, msg).0)
    ensures QueueMove(s, Messages.TakeMessage(s, t, timeout).0)
  {
    hide Moves, Suspended, Rest, Without;
    AnyMoves(s.receivers, t, s.flag, s.prio);
    AnyMoves(s.senders, t, s.flag, s.prio);
  }

  lemma QueueEnds(s: Messages.State, t: nat)
    ensures QueueMove(s, s)
    ensures Messages.PcOf(s, t).Filling? ==> QueueMove(s, Messages.LinkSlot(s, t))
    ensures Messages.PcOf(s, t).Draining? ==> QueueMove(s, Messages.ReturnSlot(s, t))
  {
    hide Moves, Suspended, Rest, Without, Messages.WakeUp;
    AnyMoves(s.receivers, t, s.flag, s.prio);
    AnyMoves(s.senders, t, s.flag, s.prio);
  }

  lemma NotListed(s: Messages.State, t: nat)
    requires Messages.Inv(s) && !Messages.PcOf(s, t).Waiting?
    ensures t !in s.receivers && t !in s.senders
  {
    hide Messages.Partition;
  }

  lemma QueueMoves(s: Messages.State, a: Messages.Action)
    requires Messages.Inv(s)
    ensures QueueMove(s, Messages.Step(s, a))
  {
    hide Moves, Suspended, Rest, Without, Messages.Inv, Messages.TakeSlot, Messages.TakeUrgent, Messages.TakeMessage,
      Messages.LinkSlot, Messages.ReturnSlot, Messages.WakeAll, Messages.Reverse, Elapsed;
    if a.Reset? {
      AnyMoves(s.receivers, 0, s.flag, s.prio);
      AnyMoves(s.senders, 0, s.flag, s.prio);
    } else {
      var t := a.thread;
      AnyMoves(s.receivers, t, s.flag, s.prio);
      AnyMoves(s.senders, t, s.flag, s.prio);
      QueueEnds(s, t);
      if !Messages.PcOf(s, t).Waiting? {
        NotListed(s, t);
        if a.BeginSend? || a.BeginUrgent? || a.BeginRecv? || a.Resume? { QueueStretch(s, a); }
      }
    }
  }

  /** A first stretch. */
  lemma QueueStretch(s: Messages.State, a: Messages.Action)
    requires !a.Reset? && a.thread !in s.receivers && a.thread !in s.senders
    requires a.BeginSend? || a.BeginUrgent? || a.BeginRecv? || a.Resume?
    ensures QueueMove(s, Messages.Step(s, a))
  {
    var t := a.thread;
    QueueEnds(s, t);
    hide QueueMove, Messages.TakeSlot, Messages.TakeUrgent, Messages.TakeMessage, Elapsed;
    match a
    case BeginSend(_, msg, timeout) => QueueRegions(s, t, msg, timeout);
    case BeginUrgent(_, msg) => QueueRegions(s, t, msg, 0);
    case BeginRecv(_, timeout) => QueueRegions(s, t, 0, timeout);
    case Resume(_, ticks) =>
      QueueIdle(s, t);
      if Messages.PcOf(s, t).Awake? {
        match Messages.PcOf(s, t).call
        case Send(msg, timeout) => QueueRegions(s, t, msg, Elapsed(timeout, ticks));
        case Recv(timeout) => QueueRegions(s, t, 0, Elapsed(timeout, ticks));
      }
    case _ =>
  }

  lemma QueueIdle(s: Messages.State, t: nat)
    ensures QueueMove(s, s.(pc := s.pc[t := Messages.Idle]))
  {
    AnyMoves(s.receivers, t, s.flag, s.prio);
    AnyMoves(s.senders, t, s.flag, s.prio);
  }

  ghost function QueueStamps(s: Messages.State, acts: seq<Messages.Action>, recv: Stamps, send: Stamps, now: nat):
      (Stamps, Stamps)
    decreases |acts|
  {
    if acts == [] then (recv, send)
    else
      var s' := Messages.Step(s, acts[0]);
      QueueStamps(s', acts[1..], Stamped(recv, s.receivers, s'.receivers, now),
                  Stamped(send, s.senders, s'.senders, now), now + 1)
  }

  /** So are those of a message queue. */
  lemma {:induction false} QueueInOrder(s: Messages.State, acts: seq<Messages.Action>, recv: Stamps, send: Stamps,
        now: nat)
    requires Messages.Inv(s)
    requires Served(s.receivers, s.flag, s.prio, recv, now) && Served(s.senders, s.flag, s.prio, send, now)
    ensures var s' := Messages.Run(s, acts); var (recv', send') := QueueStamps(s, acts, recv, send, now);
      && Served(s'.receivers, s.flag, s.prio, recv', now + |acts|)
      && Served(s'.senders, s.flag, s.prio, send', now + |acts|)
    decreases |acts|
  {
    if acts != [] {
      var s' := Messages.Step(s, acts[0]);
      QueueMoves(s, acts[0]);
      Messages.StepKeeps(s, acts[0]);
      MovesServed(s.receivers, s'.receivers, s.flag, s.prio, recv, now);
      MovesServed(s.senders, s'.senders, s.flag, s.prio, send, now);
      hide Served, Stamped, Messages.Step, Messages.Inv;
      QueueInOrder(s', acts[1..], Stamped(recv, s.receivers, s'.receivers, now),
                   Stamped(send, s.senders, s'.senders, now), now + 1);
    }
  }

  lemma QueueNobodyOvertaken(s: Messages.State, a: Messages.Action, stamps: Stamps, now: nat, t: nat, u: nat)
    requires Messages.Inv(s) && Messages.PcOf(s, t).Waiting? && Messages.PcOf(s, u).Waiting?
    requires Messages.PcOf(s, t).call.Recv? == Messages.PcOf(s, u).call.Recv?
    requires Served(if Messages.PcOf(s, t).call.Recv? then s.receivers else s.senders, s.flag, s.prio, stamps, now)
    requires var pc := Messages.PcOf(Messages.Step(s, a), t); pc.Awake? && pc.error == EOk
    requires Messages.PcOf(Messages.Step(s, a), u).Waiting?
    ensures Ahead(s.flag, s.prio, stamps, t, u)
  {
    hide Messages.Partition;
    var list := if Messages.PcOf(s, t).call.Recv? then s.receivers else s.senders;
    assert t in list && u in list;
    assert t == list[0];
    FirstAhead(list, s.flag, s.prio, stamps, now, u);
  }

  // ---- events -------------------------------------------------------------------------------

  /** The pass of a send takes threads out of the list and leaves the others in their order. */
  lemma {:induction false} PassServed(s: Flags.State, i: nat, stamps: Stamps, now: nat)
    requires Flags.ListOk(s) && Served(s.waiters, s.flag, s.prio, stamps, now)
    ensures var s' := Flags.SendFrom(s, i).state;
      && Served(s'.waiters, s.flag, s.prio, stamps, now) && s'.flag == s.flag && s'.prio == s.prio
      && (forall t <- s'.waiters :: t in s.waiters)
    decreases |s.waiters| - i
  {
    if i < |s.waiters| {
      var t := s.waiters[i];
      assert t in s.waiters;
      if Flags.Satisfied(s.flags, Flags.InfoOf(s.info, t)) {
        Flags.ResumedList(s, i);
        Flags.RemovedWaiter(s.waiters, i);
        WithoutServed(s.waiters, t, s.flag, s.prio, stamps, now);
        hide Served;
        PassServed(Flags.Resumed(s, i), i, stamps, now);
      } else {
        PassServed(s, i + 1, stamps, now);
      }
    }
  }

  lemma SendServed(s: Flags.State, flags: Flags.Flags, stamps: Stamps, now: nat)
    requires Flags.Inv(s) && Served(s.waiters, s.flag, s.prio, stamps, now)
    ensures var s' := Flags.SendEvent(s, flags).0;
      && Served(s'.waiters, s.flag, s.prio, stamps, now) && s'.flag == s.flag && s'.prio == s.prio
      && (forall t <- s'.waiters :: t in s.waiters)
  {
    if flags != {} {
      var u := s.(flags := s.flags + flags);
      assert forall t: nat :: Flags.PcOf(u, t) == Flags.PcOf(s, t);
      hide Served;
      PassServed(u, 0, stamps, now);
    }
  }

  /** All other steps. */
  lemma EventMoves(s: Flags.State, a: Flags.Action)
    requires Flags.Inv(s) && !a.Send?
    ensures var s' := Flags.Step(s, a);
      Moves(s.waiters, s'.waiters, s.flag, s.prio) && s'.flag == s.flag && s'.prio == s.prio
  {
    hide Moves, Suspended, Without, Flags.Inv, Flags.WakeAll, Flags.Satisfied;
    var t := if a.Reset? then 0 else a.thread;
    EventWaiter(s, t);
    AnyMoves(s.waiters, t, s.flag, s.prio);
  }

  lemma EventWaiter(s: Flags.State, t: nat)
    requires Flags.Inv(s)
    ensures t in s.waiters <==> Flags.PcOf(s, t).Waiting?
  {}

  lemma EventServed(s: Flags.State, a: Flags.Action, stamps: Stamps, now: nat)
    requires Flags.Inv(s) && Served(s.waiters, s.flag, s.prio, stamps, now)
    ensures var s' := Flags.Step(s, a);
      && Served(s'.waiters, s.flag, s.prio, Stamped(stamps, s.waiters, s'.waiters, now), now + 1)
      && s'.flag == s.flag && s'.prio == s.prio
  {
    var s' := Flags.Step(s, a);
    hide Served, Moves, Stamped, Flags.NoneSatisfied, Flags.SendEvent, Flags.RecvEvent;
    if a.Send? {
      SendServed(s, a.flags, stamps, now);
      StampedServed(s'.waiters, s.waiters, s.flag, s.prio, stamps, now);
    } else {
      EventMoves(s, a);
      MovesServed(s.waiters, s'.waiters, s.flag, s.prio, stamps, now);
    }
  }

  ghost function EventStamps(s: Flags.State, acts: seq<Flags.Action>, stamps: Stamps, now: nat): Stamps
    decreases |acts|
  {
    if acts == [] then stamps
    else
      var s' := Flags.Step(s, acts[0]);
      EventStamps(s', acts[1..], Stamped(stamps, s.waiters, s'.waiters, now), now + 1)
  }

  /** And that of an event, along which a send hands out its flags. */
  lemma {:induction false} EventInOrder(s: Flags.State, acts: seq<Flags.Action>, stamps: Stamps, now: nat)
    requires Flags.Inv(s) && Served(s.waiters, s.flag, s.prio, stamps, now)
    ensures Served(Flags.Run(s, acts).waiters, s.flag, s.prio, EventStamps(s, acts, stamps, now), now + |acts|)
    decreases |acts|
  {
    if acts != [] {
      EventServed(s, acts[0], stamps, now);
      Flags.StepKeeps(s, acts[0]);
      hide Served, Stamped, Flags.Step, Flags.Inv;
      EventInOrder(Flags.Step(s, acts[0]), acts[1..],
                   Stamped(stamps, s.waiters, Flags.Step(s, acts[0]).waiters, now), now + 1);
    }
  }
}
