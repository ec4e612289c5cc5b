/** What a send and a receive of an event do to flags and threads, told from the states before and after. */
module EventLaws {
  import opened Queues
  import opened Ipc
  import opened Events

  /** The flags that the threads of the list which wait no longer took away: all that those received
      which asked for it. */
  function TakenBy(list: seq<nat>, info: map<nat, Info>, s': State): Flags
    decreases |list|
  {
    if list == [] then {}
    else
      (if list[0] !in s'.waiters && InfoOf(info, list[0]).option.clear then InfoOf(s'.info, list[0]).flags else {})
      + TakenBy(list[1..], info, s')
  }

  /** What a pass makes of waiter t if `left` is what the threads before it have left. */
  ghost predicate Fate(s: State, s': State, t: nat, left: Flags) {
    && (t !in s'.waiters <==> Satisfied(left, InfoOf(s.info, t)))
    && (if t in s'.waiters then InfoOf(s'.info, t) == InfoOf(s.info, t) && PcOf(s', t) == PcOf(s, t)
        else InfoOf(s'.info, t).flags == InfoOf(s.info, t).flags * left && PcOf(s', t) == Awake(EOk))
  }

  // ---- a pass -------------------------------------------------------------------------------

  /** Threads that do not wait behind position i are left alone. */
  lemma {:induction false} PassSpares(s: State, i: nat, t: nat)
    requires ListOk(s) && i <= |s.waiters| && t !in s.waiters[i..]
    ensures var s' := SendFrom(s, i).state;
      && (t in s'.waiters <==> t in s.waiters)
      && InfoOf(s'.info, t) == InfoOf(s.info, t) && PcOf(s', t) == PcOf(s, t)
    decreases |s.waiters| - i
  {
    if i < |s.waiters| {
      assert s.waiters[i] in s.waiters && s.waiters[i] in s.waiters[i..];
      if Satisfied(s.flags, InfoOf(s.info, s.waiters[i])) {
        ResumedList(s, i);
        RemovedWaiter(s.waiters, i);
        assert RemoveAt(s.waiters, i)[i..] == s.waiters[i + 1..];
        assert s.waiters[i..] == [s.waiters[i]] + s.waiters[i + 1..];
        PassSpares(Resumed(s, i), i, t);
      } else {
        assert s.waiters[i..] == [s.waiters[i]] + s.waiters[i + 1..];
        PassSpares(s, i + 1, t);
      }
    }
  }

  /** The rest of a list, once its first thread got its own, is as it was. */
  lemma {:induction false} TakenSame(list: seq<nat>, info: map<nat, Info>, info': map<nat, Info>, s': State)
    requires forall t <- list :: InfoOf(info', t) == InfoOf(info, t)
    ensures TakenBy(list, info', s') == TakenBy(list, info, s')
    decreases |list|
  {
    if list != [] {
      assert list[0] in list;
      TakenSame(list[1..], info, info', s');
    }
  }

  /** The state in which the pass comes to what waits behind position i, and where that is then. */
  function Onward(s: State, i: nat): State
    requires i < |s.waiters|
  {
    if Satisfied(s.flags, InfoOf(s.info, s.waiters[i])) then Resumed(s, i) else s
  }

  function OnwardAt(s: State, i: nat): nat
    requires i < |s.waiters|
  {
    if Satisfied(s.flags, InfoOf(s.info, s.waiters[i])) then i else i + 1
  }

  /** What the thread at position i takes away. */
  function Gone(s: State, i: nat, s': State): Flags
    requires i < |s.waiters|
  {
    var t := s.waiters[i];
    if t !in s'.waiters && InfoOf(s.info, t).option.clear then InfoOf(s'.info, t).flags else {}
  }

  /** Position i of the wait list is passed over, or its thread is resumed. */
  lemma PassStep(s: State, i: nat)
    requires ListOk(s) && i < |s.waiters|
    ensures var t, s', u, j := s.waiters[i], SendFrom(s, i).state, Onward(s, i), OnwardAt(s, i);
      && s.waiters[i..] == [t] + s.waiters[i + 1..] && t !in s.waiters[i + 1..]
      && j <= |u.waiters| && |u.waiters| - j == |s.waiters| - i - 1 && u.waiters[j..] == s.waiters[i + 1..]
      && ListOk(u) && s' == SendFrom(u, j).state && u.flags == s.flags - Gone(s, i, s')
      && Gone(s, i, s') <= s.flags && Fate(s, s', t, s.flags)
      && (forall x: nat :: x != t ==> InfoOf(u.info, x) == InfoOf(s.info, x) && PcOf(u, x) == PcOf(s, x))
  {
    var t := s.waiters[i];
    assert t in s.waiters;
    assert s.waiters[i..] == [t] + s.waiters[i + 1..];
    if Satisfied(s.flags, InfoOf(s.info, t)) {
      ResumedList(s, i);
      RemovedWaiter(s.waiters, i);
      assert Resumed(s, i).waiters[i..] == s.waiters[i + 1..];
      PassSpares(Resumed(s, i), i, t);
      RecvAsWaiter(s.flags, InfoOf(s.info, t));
    } else {
      PassSpares(s, i + 1, t);
    }
  }

  /** The thread that waits at position k gets what the threads resumed before it have left. */
  lemma {:induction false} PassExact(s: State, i: nat, k: nat)
    requires ListOk(s) && i <= k < |s.waiters|
    ensures var s' := SendFrom(s, i).state;
      Fate(s, s', s.waiters[k], s.flags - TakenBy(s.waiters[i..k], s.info, s'))
    decreases |s.waiters| - i
  {
    hide *;
    var s', t := SendFrom(s, i).state, s.waiters[k];
    PassStep(s, i);
    if k == i {
      NothingBefore(s, i, s');
    } else {
      var u, j, rest := Onward(s, i), OnwardAt(s, i), s.waiters[i + 1..k];
      BehindPosition(s.waiters, i, k, u.waiters, j);
      TakenSame(rest, s.info, u.info, s');
      PassExact(u, j, j + |rest|);
      TakenFirst(s, i, rest, s');
      TakenInTurn(s.flags, Gone(s, i, s'), TakenBy(rest, s.info, s'));
      SameFate(s, u, s', t, s.flags - TakenBy(s.waiters[i..k], s.info, s'));
    }
  }

  lemma NothingBefore(s: State, i: nat, s': State)
    requires i < |s.waiters|
    ensures s.flags - TakenBy(s.waiters[i..i], s.info, s') == s.flags
  {
    assert s.waiters[i..i] == [];
  }

  lemma SameFate(s: State, u: State, s': State, t: nat, left: Flags)
    requires Fate(u, s', t, left) && InfoOf(u.info, t) == InfoOf(s.info, t) && PcOf(u, t) == PcOf(s, t)
    ensures Fate(s, s', t, left)
  {}

  lemma BehindPosition(list: seq<nat>, i: nat, k: nat, list': seq<nat>, j: nat)
    requires i < k < |list| && j <= |list'| && list'[j..] == list[i + 1..] && list[i] !in list[i + 1..]
    ensures var rest := list[i + 1..k];
      && j + |rest| < |list'| && list'[j..j + |rest|] == rest && list'[j + |rest|] == list[k] && list[k] != list[i]
      && list[i..k] == [list[i]] + rest && list[i] !in rest
  {
    var rest := list[i + 1..k];
    assert list[i + 1..][|rest|] == list[k] && list'[j..][|rest|] == list'[j + |rest|];
    assert list'[j..j + |rest|] == list'[j..][..|rest|] && rest == list[i + 1..][..|rest|];
    forall x <- rest ensures x in list[i + 1..] {}
  }

  lemma TakenFirst(s: State, i: nat, rest: seq<nat>, s': State)
    requires i < |s.waiters|
    ensures TakenBy([s.waiters[i]] + rest, s.info, s') == Gone(s, i, s') + TakenBy(rest, s.info, s')
  {
    assert ([s.waiters[i]] + rest)[1..] == rest;
  }

  /** What is left after the pass, with what was taken away, is what there was. */
  lemma {:induction false} PassFlags(s: State, i: nat)
    requires ListOk(s) && i <= |s.waiters|
    ensures var s' := SendFrom(s, i).state; var taken := TakenBy(s.waiters[i..], s.info, s');
      s'.flags == s.flags - taken && taken <= s.flags
    decreases |s.waiters| - i
  {
    if i < |s.waiters| {
      var s', u, rest := SendFrom(s, i).state, Onward(s, i), s.waiters[i + 1..];
      PassStep(s, i);
      hide ListOk, SendFrom, Onward, OnwardAt, Gone, PcOf, InfoOf, Satisfied;
      TakenSame(rest, s.info, u.info, s');
      PassFlags(u, OnwardAt(s, i));
      TakenFirst(s, i, rest, s');
      TakenInTurn(s.flags, Gone(s, i, s'), TakenBy(rest, s.info, s'));
    }
  }

  // ---- a send -------------------------------------------------------------------------------

  /** A send adds its flags: what is in the set afterwards, together with what the threads it resumed took
      away, is what was there and what was sent. The thread at position k is resumed exactly when what the
      resumed threads before it have left of this satisfies it, and it receives what it asked for out of
      that; a thread that goes on waiting is left alone. */
  lemma SendExact(s: State, flags: Flags, k: nat)
    requires Inv(s) && flags != {}
    ensures var (s', r) := SendEvent(s, flags); var taken := TakenBy(s.waiters, s.info, s');
      && r == EOk && s'.flags + taken == s.flags + flags && s'.flags !! taken
      && (k < |s.waiters| ==> Fate(s, s', s.waiters[k], (s.flags + flags) - TakenBy(s.waiters[..k], s.info, s')))
  {
    var u := s.(flags := s.flags + flags);
    assert forall t: nat :: PcOf(u, t) == PcOf(s, t);
    PassSettles(u, 0);
    PassFlags(u, 0);
    assert s.waiters[0..] == s.waiters;
    if k < |s.waiters| {
      PassExact(u, 0, k);
      assert s.waiters[0..k] == s.waiters[..k];
    }
  }

  lemma {:induction false} NoneTaken(s: State, s': State, list: seq<nat>)
    requires forall t <- list :: t in s'.waiters
    ensures TakenBy(list, s.info, s') == {}
    decreases |list|
  {
    if list != [] {
      assert list[0] in list;
      NoneTaken(s, s', list[1..]);
    }
  }

  /** So the first waiter that the flags satisfy is resumed, with all that it asked for of them. */
  lemma FirstServed(s: State, flags: Flags, k: nat)
    requires Inv(s) && flags != {} && k < |s.waiters|
    requires Satisfied(s.flags + flags, InfoOf(s.info, s.waiters[k]))
    requires forall j :: 0 <= j < k ==> !Satisfied(s.flags + flags, InfoOf(s.info, s.waiters[j]))
    ensures var s', t := SendEvent(s, flags).0, s.waiters[k];
      && t !in s'.waiters && PcOf(s', t) == Awake(EOk)
      && InfoOf(s'.info, t).flags == InfoOf(s.info, t).flags * (s.flags + flags)
  {
    var s', all := SendEvent(s, flags).0, s.flags + flags;
    forall j | 0 <= j < k ensures s.waiters[j] in s'.waiters {
      SendExact(s, flags, j);
      FewerFlags(all, TakenBy(s.waiters[..j], s.info, s'), InfoOf(s.info, s.waiters[j]));
    }
    NoneTaken(s, s', s.waiters[..k]);
    SendExact(s, flags, k);
    assert all - {} == all;
  }

  /** And any other is, unless a thread before it has taken away flags that it asked for. */
  lemma ServedUnlessTaken(s: State, flags: Flags, k: nat)
    requires Inv(s) && flags != {} && k < |s.waiters|
    ensures var s', t := SendEvent(s, flags).0, s.waiters[k]; var wanted := InfoOf(s.info, t);
      Satisfied(s.flags + flags, wanted) && wanted.flags !! TakenBy(s.waiters[..k], s.info, s') ==> t !in s'.waiters
  {
    var s', t := SendEvent(s, flags).0, s.waiters[k];
    var wanted, taken := InfoOf(s.info, t), TakenBy(s.waiters[..k], s.info, s');
    SendExact(s, flags, k);
    if wanted.flags !! taken { assert wanted.flags * ((s.flags + flags) - taken) == wanted.flags * (s.flags + flags); }
  }

  /** A thread that does not wait is not touched. */
  lemma SendSpares(s: State, flags: Flags, t: nat)
    requires Inv(s) && t !in s.waiters
    ensures var s' := SendEvent(s, flags).0;
      t !in s'.waiters && InfoOf(s'.info, t) == InfoOf(s.info, t) && PcOf(s', t) == PcOf(s, t)
  {
    var u := s.(flags := s.flags + flags);
    assert forall x: nat :: PcOf(u, x) == PcOf(s, x);
    if flags != {} { PassSpares(u, 0, t); }
  }

  // ---- requests -----------------------------------------------------------------------------

  /** A request with AND is satisfied when all of its flags are there, also if it has OR as well; one with OR alone
      when one of them is. A satisfied thread receives exactly those that are there. */
  lemma SatisfiedMeans(flags: Flags, i: Info)
    ensures i.option.all ==> (Satisfied(flags, i) <==> forall f <- i.flags :: f in flags)
    ensures !i.option.all && i.option.any ==> (Satisfied(flags, i) <==> exists f <- i.flags :: f in flags)
    ensures Satisfied(flags, i) ==> forall f: nat :: f in Received(flags, i) <==> f in i.flags && f in flags
  {
    if i.option.all {
      if Satisfied(flags, i) { assert forall f <- i.flags :: f in i.flags * flags; }
    } else if f :| f in i.flags && f in flags {
      assert f in i.flags * flags;
    }
  }

  // ---- a receive ----------------------------------------------------------------------------

  /** A receive succeeds at once exactly when the set answers its request. It then returns what there is of
      the flags asked for; these go out of the set with CLEAR, and nothing goes without. A receive that fails
      or waits leaves the flags alone, and waits exactly when it has time. */
  lemma RecvExact(s: State, t: nat, flags: Flags, option: Option, timeout: int)
    requires Inv(s) && PcOf(s, t).Idle? && (option.all || option.any)
    ensures var (s', r, recved) := RecvEvent(s, t, flags, option, timeout); var wanted := Info(flags, option);
      && (r == EOk <==> flags != {} && Satisfied(s.flags, wanted))
      && (r == EError <==> flags == {})
      && (r == EOk || r == EError || r == if timeout == 0 then ETimeout else Blocked)
      && (if r == EOk then
            Answers(recved, wanted) && recved == s.flags * flags
            && s'.flags + (if option.clear then recved else {}) == s.flags
            && (option.clear ==> s'.flags !! recved)
          else recved == {} && s'.flags == s.flags)
      && (t in s'.waiters <==> r == Blocked)
      && (r == Blocked ==> Awaits(s', t, wanted) && PcOf(s', t).timeout == timeout)
      && (forall u: nat :: u != t ==>
            (u in s'.waiters <==> u in s.waiters)
            && InfoOf(s'.info, u) == InfoOf(s.info, u) && PcOf(s', u) == PcOf(s, u))
  {
    SuspendedElems(s.waiters, t, s.flag, s.prio);
    if Satisfied(s.flags, Info(flags, option)) {
      RecvAsWaiter(s.flags, Info(flags, option));
      ReceivedAnswers(s.flags, Info(flags, option));
    }
  }

  // ---- why a wait ends ----------------------------------------------------------------------

  /** A thread is woken without error only by a send, with RT_ETIMEOUT exactly by its timer, which it has if it
      does not wait for ever, and with RT_ERROR exactly by a reset, which also clears the flags. */
  lemma WhyAwake(s: State, a: Action, t: nat)
    requires Inv(s) && PcOf(s, t).Waiting?
    ensures var s' := Step(s, a); var pc := PcOf(s', t);
      && (pc == PcOf(s, t) || pc.Awake?)
      && (pc == Awake(EOk) <==> a.Send? && t !in s'.waiters)
      && (pc == Awake(ETimeout) <==> a == Expire(t) && PcOf(s, t).timeout > 0)
      && (pc == Awake(EError) <==> a.Reset?)
      && (pc.Awake? ==> pc.error in {EOk, ETimeout, EError})
      && (a.Reset? ==> s'.flags == {} && s'.waiters == [])
  {
    if a.Send? && a.flags != {} {
      var k :| 0 <= k < |s.waiters| && s.waiters[k] == t;
      SendExact(s, a.flags, k);
    }
  }

  /** A thread that was woken returns, and leaves everything else as it is. */
  lemma ReturnExact(s: State, t: nat)
    requires PcOf(s, t).Awake?
    ensures var s' := Step(s, Return(t));
      PcOf(s', t).Idle? && s' == s.(pc := s'.pc) && forall u: nat :: u != t ==> PcOf(s', u) == PcOf(s, u)
  {}
}
