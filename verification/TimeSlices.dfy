/** Time slices over whole rounds: who runs after any sequence of ticks and yields, and for how long. */
module TimeSlices {
  import opened Wrappers
  import opened Queues
  import opened Scheduling
  import opened SchedulerRuns

  // ---- one tick, one yield ------------------------------------------------------------------

  /** A tick takes one off the slice of the current thread, or, with the last one, fills it up again and marks
      the thread as yielding. Nothing else about it changes, nor about anybody else. */
  lemma TickExact(s: State, t: nat)
    requires Inv(s) && s.current.Some? && t in s.threads
    ensures var s' := Step(s, Tick); var before, left := s.threads[t], SliceLeft(s.threads[t].remaining);
      && s'.threads.Keys == s.threads.Keys && t in s'.threads
      && s' == s.(threads := s'.threads)
      && (s.current != Some(t) ==> s'.threads[t] == before)
      && (s.current == Some(t) ==>
            && s'.threads[t] == before.(remaining := s'.threads[t].remaining, yielded := s'.threads[t].yielded)
            && (if left == 1 then s'.threads[t].remaining == before.initTick && s'.threads[t].yielded
                else s'.threads[t].remaining == left - 1 && s'.threads[t].yielded == before.yielded))
  {}

  /** A yield fills the slice of the current thread and marks it, and changes nothing else. */
  lemma YieldExact(s: State, t: nat)
    requires Inv(s) && s.current.Some? && t in s.threads
    ensures var s' := Step(s, Yield); var before := s.threads[t];
      && s'.threads.Keys == s.threads.Keys && t in s'.threads
      && s' == s.(threads := s'.threads)
      && (s.current != Some(t) ==> s'.threads[t] == before)
      && (s.current == Some(t) ==>
            s'.threads[t].remaining == before.initTick && s'.threads[t].yielded
            && s'.threads[t] == before.(remaining := before.initTick, yielded := true))
  {}

  /** A scheduling pass takes no ticks from anybody. */
  lemma PassKeepsTicks(s: State, t: nat)
    requires Inv(s) && s.current.Some? && t in s.threads
    ensures var s' := Step(s, Reschedule);
      s'.threads.Keys == s.threads.Keys && t in s'.threads
      && s'.threads[t].remaining == s.threads[t].remaining && s'.threads[t].initTick == s.threads[t].initTick
      && s'.threads[t].prio == s.threads[t].prio
  {
    InvHeads(s);
    if s.lockNest == 0 && s.group != {} { var p, to := Candidate(s); }
  }

  // ---- turns by the clock -------------------------------------------------------------------

  datatype Event = Ticks | Yields

  ghost function Happen(s: State, e: Event): (r: State)
    requires Inv(s) && s.current.Some?
    ensures Inv(r)
  {
    match e
    case Ticks => TickNow(s)
    case Yields => YieldNow(s)
  }

  /** What round robin should do: a ring of threads, and the ticks that the one in front still has. */
  datatype Round = Round(ring: seq<nat>, left: nat)

  /** The ticks of a full slice. */
  function Slice(slices: map<nat, nat>, t: nat): nat {
    if t in slices then slices[t] else 1
  }

  /** The next thread begins its slice. */
  function Turned(r: Round, slices: map<nat, nat>): (r': Round)
    requires r.ring != []
    ensures |r'.ring| == |r.ring|
  {
    Round(TurnLeft(r.ring), Slice(slices, TurnLeft(r.ring)[0]))
  }

  function RoundAfter(r: Round, slices: map<nat, nat>, e: Event): (r': Round)
    requires r.ring != []
    ensures |r'.ring| == |r.ring|
  {
    if e.Yields? || r.left <= 1 then Turned(r, slices) else r.(left := r.left - 1)
  }

  /** Thread t has all of its slice. */
  ghost predicate Fresh(s: State, slices: map<nat, nat>, t: nat) {
    && t in s.threads && Slice(slices, t) == SliceLeft(s.threads[t].initTick) && t in slices
    && SliceLeft(s.threads[t].remaining) == Slice(slices, t)
  }

  /** The state is at this point of the round, and whoever waits for the processor has all of its slice. */
  ghost predicate At(s: State, slices: map<nat, nat>, r: Round) {
    && Top(s) && Ring(s) == r.ring
    && r.left == SliceLeft(s.threads[s.current.value].remaining)
    && s.current.value in slices && slices[s.current.value] == SliceLeft(s.threads[s.current.value].initTick)
    && (forall i :: 0 < i < |r.ring| ==> Fresh(s, slices, r.ring[i]))
  }

  lemma TurnAt(s: State, mid: State, slices: map<nat, nat>, r: Round)
    requires At(s, slices, r) && Top(mid) && mid.threads[mid.current.value].yielded
    requires mid.current == s.current && mid.queues == s.queues && Ring(mid) == Ring(s)
    requires mid.threads[s.current.value].remaining == s.threads[s.current.value].initTick
    requires forall t :: t in s.threads ==> t in mid.threads && mid.threads[t].initTick == s.threads[t].initTick
                                            && (s.current != Some(t) ==> mid.threads[t] == s.threads[t])
    ensures At(Step(mid, Reschedule), slices, Turned(r, slices))
  {
    var s', ring, c := Step(mid, Reschedule), r.ring, s.current.value;
    YieldingPass(mid);
    assert ring[0] == c;
    forall i | 0 <= i < |ring| ensures Fresh(s', slices, TurnLeft(ring)[i]) {
      var t := TurnLeft(ring)[i];
      assert t == if i + 1 < |ring| then ring[i + 1] else c;
      assert t != c ==> Fresh(s, slices, t);
      PassKeepsTicks(mid, t);
    }
    assert Fresh(s', slices, TurnLeft(ring)[0]);
  }

  lemma HappenAt(s: State, slices: map<nat, nat>, r: Round, e: Event)
    requires At(s, slices, r)
    ensures At(Happen(s, e), slices, RoundAfter(r, slices, e))
  {
    var c := s.current.value;
    var a := if e.Ticks? then Tick else Yield;
    var mid := Step(s, a);
    StepKeeps(s, a);
    forall t | t in s.threads ensures t in mid.threads && mid.threads[t].initTick == s.threads[t].initTick
                                      && (t != c ==> mid.threads[t] == s.threads[t]) {
      if e.Ticks? { TickExact(s, t); } else { YieldExact(s, t); }
    }
    if e.Ticks? { TickExact(s, c); } else { YieldExact(s, c); }
    if e.Yields? || r.left <= 1 {
      TurnAt(s, mid, slices, r);
    } else {
      QuietTick(s);
      forall i | 0 < i < |r.ring| ensures Fresh(mid, slices, r.ring[i]) {
        assert Fresh(s, slices, r.ring[i]);
        NotInFront(s, i);
      }
    }
  }

  /** Only the thread in front of the ring is the current one. */
  lemma NotInFront(s: State, i: nat)
    requires Top(s) && 0 < i < |Ring(s)|
    ensures Ring(s)[i] != s.current.value
  {
    var c := s.current.value;
    NotQueued(s, c, {c});
    assert Ring(s)[i] in s.queues[s.threads[c].prio];
  }

  ghost function HappenAll(s: State, es: seq<Event>): (r: State)
    requires Inv(s) && s.current.Some?
    ensures Inv(r)
    decreases |es|
  {
    if es == [] then s
    else
      var s1 := Happen(s, es[0]);
      if s1.current.Some? then HappenAll(s1, es[1..]) else s1
  }

  function RoundIn(r: Round, slices: map<nat, nat>, es: seq<Event>): (r': Round)
    requires r.ring != []
    ensures |r'.ring| == |r.ring|
    decreases |es|
  {
    if es == [] then r else RoundIn(RoundAfter(r, slices, es[0]), slices, es[1..])
  }

  /** After any sequence of ticks and yields the scheduler is where round robin should be: the same thread has the
      processor, the same ones wait in the same order, and as many ticks are left of the slice. */
  lemma {:induction false} FollowsRounds(s: State, slices: map<nat, nat>, r: Round, es: seq<Event>)
    requires At(s, slices, r)
    ensures At(HappenAll(s, es), slices, RoundIn(r, slices, es))
    decreases |es|
  {
    if es != [] {
      HappenAt(s, slices, r, es[0]);
      FollowsRounds(Happen(s, es[0]), slices, RoundAfter(r, slices, es[0]), es[1..]);
    }
  }

  // ---- whole slices -------------------------------------------------------------------------

  function Repeat(n: nat): (es: seq<Event>)
    ensures |es| == n
  {
    seq(n, _ => Ticks)
  }

  /** Whose turn the i-th is. */
  function Nth(ring: seq<nat>, i: nat): nat
    requires ring != []
  {
    ring[i % |ring|]
  }

  /** The ticks that the first i turns take together. */
  function Elapsed(ring: seq<nat>, slices: map<nat, nat>, i: nat): nat
    requires ring != []
    decreases i
  {
    if i == 0 then 0 else Slice(slices, ring[0]) + Elapsed(TurnLeft(ring), slices, i - 1)
  }

  /** The clock alone: within a slice its thread stays in front. */
  lemma {:induction false} WithinSlice(r: Round, slices: map<nat, nat>, j: nat)
    requires r.ring != [] && j < r.left
    ensures RoundIn(r, slices, Repeat(j)) == r.(left := r.left - j)
    decreases j
  {
    if j > 0 {
      assert Repeat(j)[1..] == Repeat(j - 1);
      WithinSlice(r.(left := r.left - 1), slices, j - 1);
    }
  }

  lemma {:induction false} OneSlice(r: Round, slices: map<nat, nat>)
    requires r.ring != [] && r.left > 0
    ensures RoundIn(r, slices, Repeat(r.left)) == Turned(r, slices)
    decreases r.left
  {
    assert Repeat(r.left)[1..] == Repeat(r.left - 1);
    if r.left > 1 {
      OneSlice(r.(left := r.left - 1), slices);
    } else {
      assert Repeat(0) == [];
    }
  }

  lemma {:induction false} RoundInConcat(r: Round, slices: map<nat, nat>, es: seq<Event>, fs: seq<Event>)
    requires r.ring != []
    ensures RoundIn(r, slices, es + fs) == RoundIn(RoundIn(r, slices, es), slices, fs)
    decreases |es|
  {
    if es == [] {
      assert es + fs == fs;
    } else {
      assert (es + fs)[1..] == es[1..] + fs;
      RoundInConcat(RoundAfter(r, slices, es[0]), slices, es[1..], fs);
    }
  }

  /** The first turn of several. */
  lemma FirstTurn(ring: seq<nat>, slices: map<nat, nat>, rest: nat)
    requires ring != [] && Slice(slices, ring[0]) > 0
    ensures var r := Round(ring, Slice(slices, ring[0]));
      RoundIn(r, slices, Repeat(r.left + rest)) == RoundIn(Turned(r, slices), slices, Repeat(rest))
  {
    var r := Round(ring, Slice(slices, ring[0]));
    OneSlice(r, slices);
    assert Repeat(r.left + rest) == Repeat(r.left) + Repeat(rest);
    RoundInConcat(r, slices, Repeat(r.left), Repeat(rest));
  }

  lemma Members(ring: seq<nat>)
    requires ring != []
    ensures TurnLeft(ring) != [] && ring[0] in ring && forall t <- TurnLeft(ring) :: t in ring
  {}

  /** After the slices of i turns and j ticks of the next one. */
  lemma {:induction false} InTurn(ring: seq<nat>, slices: map<nat, nat>, i: nat, j: nat)
    requires ring != [] && (forall t <- ring :: Slice(slices, t) > 0) && j < Slice(slices, Nth(ring, i))
    ensures RoundIn(Round(ring, Slice(slices, ring[0])), slices, Repeat(Elapsed(ring, slices, i) + j)).ring[0]
              == Nth(ring, i)
    decreases i
  {
    if i == 0 {
      NthFirst(ring);
      WithinSlice(Round(ring, Slice(slices, ring[0])), slices, j);
    } else {
      ElapsedOne(ring, slices, i);
      hide *;
      NextInTurn(ring, i);
      Members(ring);
      FirstTurn(ring, slices, Elapsed(TurnLeft(ring), slices, i - 1) + j);
      InTurn(TurnLeft(ring), slices, i - 1, j);
    }
  }

  lemma NthFirst(ring: seq<nat>)
    requires ring != []
    ensures Nth(ring, 0) == ring[0]
  {}

  lemma ElapsedOne(ring: seq<nat>, slices: map<nat, nat>, i: nat)
    requires ring != [] && i > 0
    ensures TurnLeft(ring) != [] && Elapsed(ring, slices, 0) == 0
    ensures Elapsed(ring, slices, i) == Slice(slices, ring[0]) + Elapsed(TurnLeft(ring), slices, i - 1)
    ensures Turned(Round(ring, Slice(slices, ring[0])), slices)
         == Round(TurnLeft(ring), Slice(slices, TurnLeft(ring)[0]))
  {}

  lemma NextInTurn(ring: seq<nat>, i: nat)
    requires ring != [] && i > 0
    ensures Nth(TurnLeft(ring), i - 1) == Nth(ring, i)
  {
    var n, k := |ring|, (i - 1) % |ring|;
    assert (i - 1) == n * ((i - 1) / n) + k;
    if k + 1 < n {
      Remainder(i, n, (i - 1) / n, k + 1);
    } else {
      assert i == n * ((i - 1) / n) + n == n * ((i - 1) / n + 1);
      Remainder(i, n, (i - 1) / n + 1, 0);
    }
  }

  lemma Remainder(x: nat, n: nat, q: int, r: nat)
    requires r < n && x == n * q + r
    ensures x % n == r
  {
    assert n * (x / n - q) == r - x % n;
    Multiples(n, x / n - q);
  }

  lemma Multiples(n: int, d: int)
    requires n >= 0
    ensures d >= 1 ==> n * d >= n
    ensures d <= -1 ==> n * d <= -n
  {}

  /** With slices started full and nothing but the clock, each thread of the ring in its turn, round after round,
      has the processor for exactly the ticks of its slice: for i turns and fewer ticks than the slice of the next
      thread after them, it is that one that runs. */
  lemma EachItsSlice(s: State, slices: map<nat, nat>, i: nat, j: nat)
    requires Top(s) && At(s, slices, Round(Ring(s), Slice(slices, s.current.value)))
    requires j < Slice(slices, Nth(Ring(s), i))
    ensures HappenAll(s, Repeat(Elapsed(Ring(s), slices, i) + j)).current == Some(Nth(Ring(s), i))
  {
    var ring := Ring(s);
    var r := Round(ring, Slice(slices, ring[0]));
    forall t <- ring ensures Slice(slices, t) > 0 {
      var k :| 0 <= k < |ring| && ring[k] == t;
      assert k > 0 ==> Fresh(s, slices, ring[k]);
    }
    FollowsRounds(s, slices, r, Repeat(Elapsed(ring, slices, i) + j));
    InTurn(ring, slices, i, j);
  }

  /** The slice of a thread is the time it was made with, unless that is 0. */
  lemma FreshSlice(s: State, slices: map<nat, nat>, t: nat)
    requires Fresh(s, slices, t) && s.threads[t].initTick > 0
    ensures slices[t] == s.threads[t].initTick
  {}
}
