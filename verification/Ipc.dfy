/** What the IPC objects of `ipc.c` share: wait lists and result codes.

    A thread is known by a number. Threads blocked on an object stand in a wait list, which is
    ordered by arrival or, for RT_IPC_FLAG_PRIO objects, by priority (smaller is more urgent).
 */
module Ipc {
  import opened Queues

  datatype Flag = Fifo | Prio

  /** Return codes; Blocked stands for "suspended, the call has not returned yet". */
  datatype Outcome = EOk | EError | ETimeout | EFull | EInval | Blocked

  /** The wait list after rt_ipc_list_suspend. */
  function Suspended(list: seq<nat>, t: nat, flag: Flag, prio: Keys): seq<nat> {
    match flag
    case Fifo => list + [t]
    case Prio => Place(list, prio, t)
  }

  /** rt_ipc_list_suspend, without the change of the thread's state. */
  method ListSuspend(list: seq<nat>, t: nat, flag: Flag, prio: Keys) returns (r: seq<nat>)
    ensures r == Suspended(list, t, flag, prio)
  {
    match flag
    case Fifo =>
      r := list + [t];
    case Prio =>
      var n := 0;
      while n < |list|
        invariant n <= |list|
        invariant forall i :: 0 <= i < n ==> KeyOf(prio, list[i]) <= KeyOf(prio, t)
      {
        if KeyOf(prio, t) < KeyOf(prio, list[n]) {
          PlaceAtCut(list, prio, t, n);
          return list[..n] + [t] + list[n..];
        }
        n := n + 1;
      }
      PlaceAtCut(list, prio, t, n);
      r := list + [t];
  }

  lemma SuspendedElems(list: seq<nat>, t: nat, flag: Flag, prio: Keys)
    ensures forall x :: x in Suspended(list, t, flag, prio) <==> x in list || x == t
    ensures |Suspended(list, t, flag, prio)| == |list| + 1
  {
    if flag.Prio? {
      PlaceElems(list, prio, t);
      var c := CutExists(list, prio, t);
      PlaceAtCut(list, prio, t, c);
    }
  }

  lemma SuspendedDistinct(list: seq<nat>, t: nat, flag: Flag, prio: Keys)
    requires Distinct(list) && t !in list
    ensures Distinct(Suspended(list, t, flag, prio))
  {
    if flag.Prio? { PlaceDistinct(list, prio, t); }
  }

  /** A wait list after its first thread, if any, was resumed. */
  function Rest(list: seq<nat>): seq<nat> {
    if list == [] then [] else list[1..]
  }

  /** A waiting time reduced by the ticks spent waiting; negative is "for ever". */
  function Elapsed(timeout: int, ticks: nat): int {
    if timeout > 0 then (if timeout > ticks then timeout - ticks else 0) else timeout
  }
}
