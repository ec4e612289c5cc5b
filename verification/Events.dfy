/** The event object of `ipc.c`: a set of flags that threads wait for.

    The source keeps the flags in a 32-bit word that it only combines bit by bit. Here a word is
    the set of the numbers of its bits, so that `&`, `|` and `& ~` are `*`, `+` and `-`.

    A send may resume several waiting threads in one pass over the wait list; each thread that
    asked for it takes its flags away from the threads behind it.
 */
module Events {
  import opened Queues
  import opened Ipc

  type Flags = set<nat>

  /** RT_EVENT_FLAG_AND, RT_EVENT_FLAG_OR and RT_EVENT_FLAG_CLEAR; AND is looked at first. */
  datatype Option = Option(all: bool, any: bool, clear: bool)

  /** event_set and event_info of a thread. */
  datatype Info = Info(flags: Flags, option: Option)

  datatype Pc = Idle | Waiting(timeout: int) | Awake(error: Outcome)

  datatype State = State(
    flags: Flags, flag: Flag, prio: Keys, waiters: seq<nat>, info: map<nat, Info>, pc: map<nat, Pc>)

  /** A thread resumed by a send: what it wanted and what it received. */
  datatype Grant = Grant(thread: nat, wanted: Info, received: Flags)

  function PcOf(s: State, t: nat): Pc {
    if t in s.pc then s.pc[t] else Idle
  }

  function InfoOf(info: map<nat, Info>, t: nat): Info {
    if t in info then info[t] else Info({}, Option(false, false, false))
  }

  predicate Satisfied(flags: Flags, i: Info) {
    if i.option.all then i.flags * flags == i.flags
    else i.option.any && i.flags * flags != {}
  }

  /** What a satisfied thread finds in its event_set: an OR waiter only what was there. */
  function Received(flags: Flags, i: Info): Flags {
    if i.option.all then i.flags else i.flags * flags
  }

  // ---- operations ---------------------------------------------------------------------------

  /** The i-th waiter is satisfied: it gets its flags, takes them away if it asked for that, and
      becomes ready. */
  function Resumed(s: State, i: nat): State
    requires i < |s.waiters|
  {
    var t := s.waiters[i];
    var wanted := InfoOf(s.info, t);
    var received := Received(s.flags, wanted);
    s.(flags := if wanted.option.clear then s.flags - received else s.flags,
       waiters := RemoveAt(s.waiters, i), info := s.info[t := wanted.(flags := received)], pc := s.pc[t := Awake(EOk)])
  }

  datatype Pass = Pass(state: State, grants: seq<Grant>, valid: bool)

  /** The pass of rt_event_send over the wait list, from position i on. */
  function SendFrom(s: State, i: nat): Pass
    decreases |s.waiters| - i
  {
    if i >= |s.waiters| then Pass(s, [], true)
    else
      var t := s.waiters[i];
      var wanted := InfoOf(s.info, t);
      if !wanted.option.all && !wanted.option.any then Pass(s, [], false)
      else if Satisfied(s.flags, wanted) then
        var rest := SendFrom(Resumed(s, i), i);
        rest.(grants := [Grant(t, wanted, Received(s.flags, wanted))] + rest.grants)
      else SendFrom(s, i + 1)
  }

  function SendEvent(s: State, flags: Flags): (State, Outcome) {
    if flags == {} then (s, EError)
    else
      var pass := SendFrom(s.(flags := s.flags + flags), 0);
      (pass.state, if pass.valid then EOk else EInval)
  }

  /** rt_event_recv up to its return or suspension; the third part is `*recved`. */
  function RecvEvent(s: State, t: nat, flags: Flags, option: Option, timeout: int): (State, Outcome, Flags)
    requires option.all || option.any
  {
    if flags == {} then (s, EError, {})
    else if Satisfied(s.flags, Info(flags, option)) then
      (s.(flags := if option.clear then s.flags - flags else s.flags,
          info := s.info[t := Info(s.flags * flags, option)],
          pc := s.pc[t := Idle]), EOk, s.flags * flags)
    else if timeout == 0 then (s.(pc := s.pc[t := Idle]), ETimeout, {})
    else
      (s.(waiters := Suspended(s.waiters, t, s.flag, s.prio), info := s.info[t := Info(flags, option)],
          pc := s.pc[t := Waiting(timeout)]), Blocked, {})
  }

  function WakeAll(pc: map<nat, Pc>): map<nat, Pc> {
    map t | t in pc :: if pc[t].Waiting? then Awake(EError) else pc[t]
  }

  datatype Action =
    | Send(flags: Flags)
    | Recv(thread: nat, flags: Flags, option: Option, timeout: int)
    | Return(thread: nat)                // a resumed thread runs and returns
    | Expire(thread: nat)
    | Reset

  /** A step that is not possible in a state, or that violates the source's assertion that AND or
      OR is set, leaves the state as it is. */
  function Step(s: State, a: Action): State {
    match a
    case Send(flags) => SendEvent(s, flags).0
    case Recv(t, flags, option, timeout) =>
      if PcOf(s, t).Idle? && (option.all || option.any) then RecvEvent(s, t, flags, option, timeout).0 else s
    case Return(t) =>
      if PcOf(s, t).Awake? then s.(pc := s.pc[t := Idle]) else s
    case Expire(t) =>
      if PcOf(s, t).Waiting? && PcOf(s, t).timeout > 0
      then s.(waiters := Without(s.waiters, t), pc := s.pc[t := Awake(ETimeout)]) else s
    case Reset =>
      s.(waiters := [], flags := {}, pc := WakeAll(s.pc))
  }

  function Run(s: State, acts: seq<Action>): State
    decreases |acts|
  {
    if acts == [] then s else Run(Step(s, acts[0]), acts[1..])
  }

  // ---- the invariant ------------------------------------------------------------------------

  /** The wait list holds the waiting threads, and each waits for something with AND or OR. */
  ghost predicate ListOk(s: State) {
    && Distinct(s.waiters)
    && (forall t: nat :: t in s.waiters <==> PcOf(s, t).Waiting?)
    && (forall t: nat :: t in s.waiters ==>
          InfoOf(s.info, t).flags != {} && (InfoOf(s.info, t).option.all || InfoOf(s.info, t).option.any))
  }

  ghost predicate NoneSatisfied(s: State, n: nat) {
    forall k :: 0 <= k < n && k < |s.waiters| ==> !Satisfied(s.flags, InfoOf(s.info, s.waiters[k]))
  }

  /** Nobody waits for flags that are there. */
  ghost predicate Inv(s: State) {
    ListOk(s) && NoneSatisfied(s, |s.waiters|)
  }

  // ---- flags --------------------------------------------------------------------------------

  /** Taking flags away satisfies nobody. */
  lemma FewerFlags(flags: Flags, gone: Flags, i: Info)
    requires !Satisfied(flags, i)
    ensures !Satisfied(flags - gone, i)
  {
    var fewer := i.flags * (flags - gone);
    assert fewer <= i.flags * flags;
    assert fewer == i.flags ==> i.flags * flags == i.flags;
  }

  /** A receive that need not wait gets and takes what a waiter would have got and taken. */
  lemma RecvAsWaiter(flags: Flags, i: Info)
    requires Satisfied(flags, i)
    ensures flags * i.flags == Received(flags, i)
    ensures flags - i.flags == flags - Received(flags, i)
  {
    assert flags * i.flags == i.flags * flags;
    assert flags - i.flags == flags - i.flags * flags;
  }

  // ---- one pass -----------------------------------------------------------------------------

  lemma RemovedWaiter(list: seq<nat>, i: nat)
    requires Distinct(list) && i < |list|
    ensures RemoveAt(list, i) == Without(list, list[i])
    ensures Distinct(RemoveAt(list, i))
    ensures forall x :: x in RemoveAt(list, i) <==> x in list && x != list[i]
  {
    WithoutElems(list, list[i]);
    WithoutDistinct(list, list[i]);
    RemoveAtIsWithout(list, i);
  }

  lemma ResumedList(s: State, i: nat)
    requires ListOk(s) && i < |s.waiters|
    ensures ListOk(Resumed(s, i))
  {
    var s', t := Resumed(s, i), s.waiters[i];
    RemovedWaiter(s.waiters, i);
    assert forall u: nat :: PcOf(s', u) == if u == t then Awake(EOk) else PcOf(s, u);
    assert forall u: nat :: u != t ==> InfoOf(s'.info, u) == InfoOf(s.info, u);
  }

  lemma ResumedNone(s: State, i: nat)
    requires ListOk(s) && i < |s.waiters| && NoneSatisfied(s, i)
    ensures NoneSatisfied(Resumed(s, i), i)
  {
    var s', t := Resumed(s, i), s.waiters[i];
    forall k | 0 <= k < i && k < |s'.waiters| ensures !Satisfied(s'.flags, InfoOf(s'.info, s'.waiters[k])) {
      assert s'.waiters[k] == s.waiters[k] && s.waiters[k] != t;
      assert !Satisfied(s.flags, InfoOf(s.info, s.waiters[k]));
      FewerFlags(s.flags, Received(s.flags, InfoOf(s.info, t)), InfoOf(s.info, s.waiters[k]));
    }
  }

  /** After the pass no waiter is satisfied, whatever the threads resumed in it took away. */
  lemma {:induction false} PassSettles(s: State, i: nat)
    requires ListOk(s) && i <= |s.waiters| && NoneSatisfied(s, i)
    ensures SendFrom(s, i).valid && Inv(SendFrom(s, i).state)
    decreases |s.waiters| - i
  {
    if i < |s.waiters| {
      assert s.waiters[i] in s.waiters;
      if Satisfied(s.flags, InfoOf(s.info, s.waiters[i])) {
        ResumedList(s, i);
        ResumedNone(s, i);
        PassSettles(Resumed(s, i), i);
      } else {
        PassSettles(s, i + 1);
      }
    }
  }

  /** The flags that resumed threads took away. */
  function Consumed(grants: seq<Grant>): Flags
    decreases |grants|
  {
    if grants == [] then {}
    else (if grants[0].wanted.option.clear then grants[0].received else {}) + Consumed(grants[1..])
  }

  function WithoutAll(list: seq<nat>, grants: seq<Grant>): seq<nat>
    decreases |grants|
  {
    if grants == [] then list else WithoutAll(Without(list, grants[0].thread), grants[1..])
  }

  /** Flags are conserved: what is left is what was there except what resumed threads took away;
      the others keep waiting in their order. */
  lemma {:induction false} PassConserves(s: State, i: nat)
    requires ListOk(s)
    ensures SendFrom(s, i).state.flags == s.flags - Consumed(SendFrom(s, i).grants)
    ensures SendFrom(s, i).state.waiters == WithoutAll(s.waiters, SendFrom(s, i).grants)
    decreases |s.waiters| - i
  {
    if i < |s.waiters| {
      assert s.waiters[i] in s.waiters;
      if Satisfied(s.flags, InfoOf(s.info, s.waiters[i])) {
        var grants := SendFrom(s, i).grants;
        ResumedList(s, i);
        RemovedWaiter(s.waiters, i);
        PassConserves(Resumed(s, i), i);
        assert grants[1..] == SendFrom(Resumed(s, i), i).grants;
        TakenInTurn(s.flags, if grants[0].wanted.option.clear then grants[0].received else {}, Consumed(grants[1..]));
      } else {
        PassConserves(s, i + 1);
      }
    }
  }

  lemma TakenInTurn(flags: Flags, a: Flags, b: Flags)
    ensures (flags - a) - b == flags - (a + b)
    ensures a == {} ==> flags - a == flags
  {}

  /** Every resumed thread was satisfied by what the threads resumed before it had left, and
      received exactly what it wanted out of that. */
  ghost predicate Fair(flags: Flags, grants: seq<Grant>, k: nat)
    requires k < |grants|
  {
    var left := flags - Consumed(grants[..k]);
    Satisfied(left, grants[k].wanted) && grants[k].received == grants[k].wanted.flags * left
  }

  lemma {:induction false} PassFair(s: State, i: nat, k: nat)
    requires ListOk(s) && k < |SendFrom(s, i).grants|
    ensures Fair(s.flags, SendFrom(s, i).grants, k)
    decreases |s.waiters| - i
  {
    assert i < |s.waiters| ==> s.waiters[i] in s.waiters;
    if !Satisfied(s.flags, InfoOf(s.info, s.waiters[i])) {
      PassFair(s, i + 1, k);
    } else {
      var grants := SendFrom(s, i).grants;
      ResumedList(s, i);
      if k == 0 {
        RecvAsWaiter(s.flags, grants[0].wanted);
        assert Consumed(grants[..0]) == {};
        TakenInTurn(s.flags, {}, {});
      } else {
        PassFair(Resumed(s, i), i, k - 1);
        var rest := SendFrom(Resumed(s, i), i).grants;
        assert grants[..k][1..] == rest[..k - 1] && grants[k] == rest[k - 1];
        TakenInTurn(s.flags, if grants[0].wanted.option.clear then grants[0].received else {}, Consumed(rest[..k - 1]));
      }
    }
  }

  // ---- every step ---------------------------------------------------------------------------

  lemma SendKeeps(s: State, flags: Flags)
    requires Inv(s)
    ensures Inv(SendEvent(s, flags).0)
    ensures SendEvent(s, flags).1 == if flags == {} then EError else EOk
  {
    if flags != {} {
      var s' := s.(flags := s.flags + flags);
      assert forall u: nat :: PcOf(s', u) == PcOf(s, u);
      PassSettles(s', 0);
    }
  }

  lemma RecvKeeps(s: State, t: nat, flags: Flags, option: Option, timeout: int)
    requires Inv(s) && PcOf(s, t).Idle? && (option.all || option.any)
    ensures Inv(RecvEvent(s, t, flags, option, timeout).0)
  {
    var (s', r, _) := RecvEvent(s, t, flags, option, timeout);
    if r != EError {
      assert forall u: nat :: PcOf(s', u) == if u == t then s'.pc[t] else PcOf(s, u);
      assert forall u: nat :: u != t ==> InfoOf(s'.info, u) == InfoOf(s.info, u);
      if r == Blocked {
        SuspendKeeps(s, t, Info(flags, option), s');
      } else {
        forall k | 0 <= k < |s.waiters| ensures !Satisfied(s'.flags, InfoOf(s'.info, s.waiters[k])) {
          assert s.waiters[k] in s.waiters;
          FewerFlags(s.flags, flags, InfoOf(s.info, s.waiters[k]));
        }
      }
    }
  }

  lemma SuspendKeeps(s: State, t: nat, i: Info, s': State)
    requires Inv(s) && PcOf(s, t).Idle? && (i.option.all || i.option.any) && i.flags != {} && !Satisfied(s.flags, i)
    requires s'.flags == s.flags && s'.waiters == Suspended(s.waiters, t, s.flag, s.prio)
    requires InfoOf(s'.info, t) == i && PcOf(s', t).Waiting?
    requires forall u: nat :: u != t ==> InfoOf(s'.info, u) == InfoOf(s.info, u) && PcOf(s', u) == PcOf(s, u)
    ensures Inv(s')
  {
    SuspendedElems(s.waiters, t, s.flag, s.prio);
    SuspendedDistinct(s.waiters, t, s.flag, s.prio);
    forall k | 0 <= k < |s'.waiters| ensures !Satisfied(s'.flags, InfoOf(s'.info, s'.waiters[k])) {
      var u := s'.waiters[k];
      assert u in s'.waiters;
      if u != t { UnsatisfiedWaiter(s, u); }
    }
  }

  lemma UnsatisfiedWaiter(s: State, t: nat)
    requires NoneSatisfied(s, |s.waiters|) && t in s.waiters
    ensures !Satisfied(s.flags, InfoOf(s.info, t))
  {
    var k :| 0 <= k < |s.waiters| && s.waiters[k] == t;
  }

  lemma ExpireKeeps(s: State, t: nat)
    requires Inv(s)
    ensures Inv(Step(s, Expire(t)))
  {
    var s' := Step(s, Expire(t));
    if s' != s {
      WithoutElems(s.waiters, t);
      WithoutDistinct(s.waiters, t);
      assert forall u: nat :: PcOf(s', u) == if u == t then Awake(ETimeout) else PcOf(s, u);
      forall k | 0 <= k < |s'.waiters| ensures !Satisfied(s'.flags, InfoOf(s'.info, s'.waiters[k])) {
        assert s'.waiters[k] in s'.waiters;
        UnsatisfiedWaiter(s, s'.waiters[k]);
      }
    }
  }

  lemma StepKeeps(s: State, a: Action)
    requires Inv(s)
    ensures Inv(Step(s, a))
  {
    match a
    case Send(flags) => SendKeeps(s, flags);
    case Recv(t, flags, option, timeout) =>
      if PcOf(s, t).Idle? && (option.all || option.any) { RecvKeeps(s, t, flags, option, timeout); }
    case Return(t) =>
      var s' := Step(s, a);
      assert forall u: nat :: PcOf(s', u).Waiting? <==> PcOf(s, u).Waiting?;
    case Expire(t) => ExpireKeeps(s, t);
    case Reset =>
      var s' := Step(s, a);
      assert forall u: nat :: !PcOf(s', u).Waiting?;
  }

  /** In every run, whatever is sent, received, timed out or reset in between, no thread is left
      waiting for flags that are there, and a send never fails with RT_EINVAL. */
  lemma {:induction false} EveryRun(s: State, acts: seq<Action>, t: nat, flags: Flags)
    requires Inv(s)
    ensures Inv(Run(s, acts))
    ensures t in Run(s, acts).waiters ==> !Satisfied(Run(s, acts).flags, InfoOf(Run(s, acts).info, t))
    ensures SendEvent(Run(s, acts), flags).1 != EInval
    decreases |acts|
  {
    if acts == [] {
      if t in s.waiters { UnsatisfiedWaiter(s, t); }
      SendKeeps(s, flags);
    } else {
      StepKeeps(s, acts[0]);
      EveryRun(Step(s, acts[0]), acts[1..], t, flags);
    }
  }

  // ---- what a wait returns ------------------------------------------------------------------

  /** The flags r answer the request i: all of its flags for AND, some of them for OR. */
  predicate Answers(r: Flags, i: Info) {
    r <= i.flags && Satisfied(r, i)
  }

  /** Thread t waits for i, or has been woken and, if by a send, has its answer. */
  ghost predicate Awaits(s: State, t: nat, i: Info) {
    match PcOf(s, t)
    case Idle => false
    case Waiting(_) => InfoOf(s.info, t) == i
    case Awake(error) => error == EOk ==> Answers(InfoOf(s.info, t).flags, i)
  }

  lemma ReceivedAnswers(flags: Flags, i: Info)
    requires Satisfied(flags, i)
    ensures Answers(Received(flags, i), i)
  {
    assert i.flags * (i.flags * flags) == i.flags * flags;
    assert i.flags * i.flags == i.flags;
  }

  lemma {:induction false} PassAwaits(s: State, k: nat, t: nat, i: Info)
    requires ListOk(s) && Awaits(s, t, i)
    ensures Awaits(SendFrom(s, k).state, t, i)
    decreases |s.waiters| - k
  {
    if k < |s.waiters| {
      assert s.waiters[k] in s.waiters;
      if Satisfied(s.flags, InfoOf(s.info, s.waiters[k])) {
        ResumedList(s, k);
        if s.waiters[k] == t { ReceivedAnswers(s.flags, i); }
        PassAwaits(Resumed(s, k), k, t, i);
      } else {
        PassAwaits(s, k + 1, t, i);
      }
    }
  }

  /** The answer of a woken thread, and the request of a waiting one, survive every step but its
      own return. */
  lemma StepAwaits(s: State, a: Action, t: nat, i: Info)
    requires Inv(s) && Awaits(s, t, i) && a != Return(t)
    ensures Awaits(Step(s, a), t, i)
  {
    match a
    case Send(flags) =>
      if flags != {} {
        var s' := s.(flags := s.flags + flags);
        assert forall u: nat :: PcOf(s', u) == PcOf(s, u);
        PassAwaits(s', 0, t, i);
      }
    case _ =>
  }

  lemma {:induction false} RunAwaits(s: State, acts: seq<Action>, t: nat, i: Info)
    requires Inv(s) && Awaits(s, t, i) && Return(t) !in acts
    ensures Awaits(Run(s, acts), t, i)
    decreases |acts|
  {
    if acts != [] {
      StepAwaits(s, acts[0], t, i);
      StepKeeps(s, acts[0]);
      RunAwaits(Step(s, acts[0]), acts[1..], t, i);
    }
  }

  /** A receive that had to wait and is to return RT_EOK finds flags that answer its request,
      whatever happened between its suspension and its return. */
  lemma WaitReturnsAnswer(s: State, t: nat, flags: Flags, option: Option, timeout: int, acts: seq<Action>)
    requires Inv(s) && PcOf(s, t).Idle? && (option.all || option.any)
    requires RecvEvent(s, t, flags, option, timeout).1 == Blocked && Return(t) !in acts
    ensures var s' := Run(Step(s, Recv(t, flags, option, timeout)), acts);
      PcOf(s', t) == Awake(EOk) ==> Answers(InfoOf(s'.info, t).flags, Info(flags, option))
  {
    var waiting := Step(s, Recv(t, flags, option, timeout));
    StepKeeps(s, Recv(t, flags, option, timeout));
    RunAwaits(waiting, acts, t, Info(flags, option));
  }

  // ---- the object ---------------------------------------------------------------------------

  class Event {
    const flag: Flag
    var flags: Flags
    var waiters: seq<nat>               // parent.suspend_thread
    var info: map<nat, Info>            // event_set and event_info of the threads
    var prio: Keys
    var pc: map<nat, Pc>

    function View(): State
      reads this
    {
      State(flags, flag, prio, waiters, info, pc)
    }

    /** rt_event_init. */
    constructor (flag: Flag, prio: Keys)
      ensures View() == State({}, flag, prio, [], map[], map[]) && Inv(View())
    {
      this.flag, this.prio := flag, prio;
      flags, waiters, info, pc := {}, [], map[], map[];
    }

    /** rt_event_send. */
    method SendSet(newSet: Flags) returns (r: Outcome)
      modifies this
      ensures (View(), r) == SendEvent(old(View()), newSet)
    {
      if newSet == {} {
        return EError;
      }
      flags := flags + newSet;
      ghost var pass := SendFrom(View(), 0);
      var n := 0;
      while n < |waiters|
        invariant SendFrom(View(), n).state == pass.state && SendFrom(View(), n).valid == pass.valid
        decreases |waiters| - n
      {
        var t := waiters[n];
        var wanted := InfoOf(info, t);
        var satisfied := false;
        ghost var before := View();
        if wanted.option.all {
          satisfied := wanted.flags * flags == wanted.flags;
        } else if wanted.option.any {
          if wanted.flags * flags != {} {
            info := info[t := wanted.(flags := wanted.flags * flags)];
            satisfied := true;
          }
        } else {
          return EInval;
        }
        if satisfied {
          wanted := if wanted.option.all then wanted else InfoOf(info, t);
          if wanted.option.clear {
            flags := flags - wanted.flags;
          }
          info := info[t := wanted];
          ResumeThread(n);
          assert View() == Resumed(before, n);
        } else {
          n := n + 1;
        }
      }
      return EOk;
    }

    /** rt_thread_resume of the n-th waiter. */
    method ResumeThread(n: nat)
      requires n < |waiters|
      modifies this`waiters, this`pc
      ensures waiters == RemoveAt(old(waiters), n) && pc == old(pc)[old(waiters)[n] := Awake(EOk)]
    {
      pc := pc[waiters[n] := Awake(EOk)];
      waiters := waiters[..n] + waiters[n + 1..];
    }

    /** rt_event_recv up to its return or suspension. */
    method ReceiveSet(t: nat, wanted: Flags, option: Option, timeout: int) returns (r: Outcome, recved: Flags)
      requires option.all || option.any
      modifies this
      ensures (View(), r, recved) == RecvEvent(old(View()), t, wanted, option, timeout)
    {
      recved := {};
      if wanted == {} {
        return EError, {};
      }
      var satisfied := false;
      if option.all {
        assert flags * wanted == wanted * flags;
        satisfied := flags * wanted == wanted;
      } else if option.any {
        assert flags * wanted == wanted * flags;
        satisfied := flags * wanted != {};
      }
      if satisfied {
        recved := flags * wanted;
        info := info[t := Info(flags * wanted, option)];
        if option.clear {
          flags := flags - wanted;
        }
        pc := pc[t := Idle];
        return EOk, recved;
      } else if timeout == 0 {
        pc := pc[t := Idle];
        return ETimeout, {};
      }
      info := info[t := Info(wanted, option)];
      waiters := ListSuspend(waiters, t, flag, prio);
      pc := pc[t := Waiting(timeout)];
      return Blocked, {};
    }

    /** The end of rt_event_recv when a suspended thread runs again. */
    method ReturnFromWait(t: nat) returns (r: Outcome, recved: Flags)
      requires PcOf(View(), t).Awake?
      modifies this`pc
      ensures View() == Step(old(View()), Return(t)) && r == old(pc)[t].error
      ensures r == EOk ==> recved == InfoOf(info, t).flags
    {
      r, recved := pc[t].error, {};
      pc := pc[t := Idle];
      if r == EOk {
        recved := InfoOf(info, t).flags;
      }
    }

    /** rt_thread_timeout of a thread waiting here. */
    method Timeout(t: nat)
      modifies this
      ensures View() == Step(old(View()), Expire(t))
    {
      if t in pc && pc[t].Waiting? && pc[t].timeout > 0 {
        waiters := Without(waiters, t);
        pc := pc[t := Awake(ETimeout)];
      }
    }

    /** rt_event_control(RT_IPC_CMD_RESET): the wait list is emptied one thread at a time. */
    method ResetEvent()
      requires ListOk(View())
      modifies this
      ensures View() == Step(old(View()), Reset)
    {
      while waiters != []
        invariant ListOk(View()) && info == old(info) && flags == old(flags) && prio == old(prio)
        invariant WakeAll(pc) == WakeAll(old(pc))
        decreases |waiters|
      {
        WakeOneKeeps(View());
        pc := pc[waiters[0] := Awake(EError)];
        waiters := waiters[1..];
      }
      NobodyWaits(View());
      flags := {};
    }
  }

  lemma WakeOneKeeps(s: State)
    requires ListOk(s) && s.waiters != []
    ensures var s' := s.(pc := s.pc[s.waiters[0] := Awake(EError)], waiters := s.waiters[1..]);
      ListOk(s') && WakeAll(s'.pc) == WakeAll(s.pc)
  {
    var t := s.waiters[0];
    var s' := s.(pc := s.pc[t := Awake(EError)], waiters := s.waiters[1..]);
    assert t in s.waiters;
    TailWithout(s.waiters);
    WithoutElems(s.waiters, t);
    WithoutDistinct(s.waiters, t);
    assert forall u: nat :: PcOf(s', u) == if u == t then Awake(EError) else PcOf(s, u);
  }

  lemma NobodyWaits(s: State)
    requires ListOk(s) && s.waiters == []
    ensures WakeAll(s.pc) == s.pc
  {
    forall t | t in s.pc ensures WakeAll(s.pc)[t] == s.pc[t] {
      assert !PcOf(s, t).Waiting?;
    }
  }
}
