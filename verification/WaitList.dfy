/** The lists of suspended threads of IPC objects: rt_ipc_list_suspend and rt_ipc_list_resume of
    `src/ipc.c`, and rt_thread_timeout of `src/thread.c`. */
module WaitList {
  import opened Seqs
  import opened Threads

  /** RT_IPC_FLAG_FIFO and RT_IPC_FLAG_PRIO */
  datatype Flag = Fifo | Prio

  /** A smaller number is a more urgent priority. */
  type Priorities = map<Tid, nat>

  function PrioOf(prio: Priorities, t: Tid): nat { if t in prio then prio[t] else 0 }

  /** The place of a thread in a priority list: before the first less urgent thread. */
  function Place(list: seq<Tid>, prio: Priorities, t: Tid): (k: nat)
    ensures k <= |list|
    ensures forall i :: 0 <= i < k ==> PrioOf(prio, list[i]) <= PrioOf(prio, t)
    ensures k < |list| ==> PrioOf(prio, t) < PrioOf(prio, list[k])
  {
    if list == [] || PrioOf(prio, t) < PrioOf(prio, list[0]) then 0 else 1 + Place(list[1..], prio, t)
  }

  /** The list after `t` has been suspended on it. */
  function Inserted(list: seq<Tid>, prio: Priorities, t: Tid, flag: Flag): seq<Tid> {
    match flag
    case Fifo => list + [t]
    case Prio => InsertedAt(list, Place(list, prio, t), t)
  }

  /** rt_ipc_list_suspend */
  method Suspend(list: seq<Tid>, prio: Priorities, t: Tid, flag: Flag) returns (r: seq<Tid>)
    ensures r == Inserted(list, prio, t, flag)
  {
    match flag
    case Fifo => r := list + [t];
    case Prio =>
      var n := 0;
      assert list[0..] == list;
      while n < |list|
        invariant 0 <= n <= |list|
        invariant n + Place(list[n..], prio, t) == Place(list, prio, t)
      {
        if PrioOf(prio, t) < PrioOf(prio, list[n]) {
          return InsertedAt(list, n, t);
        }
        assert list[n..][1..] == list[n + 1..];
        n := n + 1;
      }
      r := list + [t];
      assert InsertedAt(list, |list|, t) == list + [t];
  }

  /** A FIFO list ends with the thread that has come last, behind all the others in their order. */
  lemma InsertedLast(list: seq<Tid>, prio: Priorities, t: Tid)
    ensures var r := Inserted(list, prio, t, Fifo);
      |r| == |list| + 1 && r[|list|] == t && forall i :: 0 <= i < |list| ==> r[i] == list[i]
  {
  }

  predicate Sorted(list: seq<Tid>, prio: Priorities) {
    forall i, j :: 0 <= i < j < |list| ==> PrioOf(prio, list[i]) <= PrioOf(prio, list[j])
  }

  /** Suspending keeps a priority list sorted. */
  lemma {:induction false} InsertedSorted(list: seq<Tid>, prio: Priorities, t: Tid)
    requires Sorted(list, prio)
    ensures Sorted(Inserted(list, prio, t, Prio), prio)
  {
    var k := Place(list, prio, t);
    assert forall i :: k <= i < |list| ==> PrioOf(prio, t) < PrioOf(prio, list[i]);
  }

  /** A priority list is first in, first out among threads of equal priority. */
  lemma InsertedStable(list: seq<Tid>, prio: Priorities, t: Tid)
    ensures var r, k := Inserted(list, prio, t, Prio), Place(list, prio, t);
      && |r| == |list| + 1 && r[k] == t
      && (forall i :: 0 <= i < k ==> r[i] == list[i] && PrioOf(prio, r[i]) <= PrioOf(prio, t))
      && (forall i :: k < i < |r| ==> r[i] == list[i - 1])
      && (k < |list| ==> PrioOf(prio, t) < PrioOf(prio, list[k]))
  {
  }

  lemma SuspendedMembers(list: seq<Tid>, prio: Priorities, t: Tid, flag: Flag)
    requires NoDup(list) && t !in list
    ensures NoDup(Inserted(list, prio, t, flag))
      && forall x :: x in Inserted(list, prio, t, flag) <==> x in list || x == t
  {
    match flag
    case Fifo => SnocMembers(t, list);
    case Prio => InsertedMembers(list, Place(list, prio, t), t);
  }

  /** A thread that is suspended and then times out leaves the list as it was. */
  lemma SuspendThenTimeout(list: seq<Tid>, prio: Priorities, t: Tid, flag: Flag)
    requires t !in list
    ensures Removed(Inserted(list, prio, t, flag), t) == list
  {
    match flag
    case Fifo =>
      assert InsertedAt(list, |list|, t) == list + [t];
      InsertThenRemove(list, |list|, t);
    case Prio => InsertThenRemove(list, Place(list, prio, t), t);
  }

  lemma RemovedSorted(list: seq<Tid>, prio: Priorities, t: Tid)
    requires Sorted(list, prio)
    ensures Sorted(Removed(list, t), prio)
  {
    hide PrioOf, Removed;
    var r := Removed(list, t);
    forall i, j | 0 <= i < j < |r| ensures PrioOf(prio, r[i]) <= PrioOf(prio, r[j]) {
      var p, q := RemovedOrder(list, t, i, j);
    }
  }

  /** No lost wake-up: while threads wait, every available unit has a thread that was resumed for it
      and has not run yet. */
  ghost predicate Served(list: seq<Tid>, woken: set<Tid>, units: nat) { list != [] ==> units <= |woken| }

  /** A new unit resumes the first waiting thread. */
  lemma ServedResume(list: seq<Tid>, woken: set<Tid>, units: nat)
    requires Served(list, woken, units) && list != [] && list[0] !in woken
    ensures Served(list[1..], woken + {list[0]}, units + 1)
  {
  }

  /** A unit is taken by a resumed thread, or by another thread that comes first. */
  lemma ServedTake(list: seq<Tid>, woken: set<Tid>, units: nat, t: Tid)
    requires Served(list, woken, units) && units > 0
    ensures Served(list, woken - {t}, units - 1)
  {
    if t in woken {
      assert |woken - {t}| == |woken| - 1;
    } else {
      assert woken - {t} == woken;
    }
  }

  /* One list of waiting threads for a resource with a number of available units. `woken` holds the threads
     that were resumed without error and have not run yet. */

  ghost predicate QueueOk(list: seq<Tid>, woken: set<Tid>, units: nat) {
    NoDup(list) && (forall t :: t in list ==> t !in woken) && Served(list, woken, units)
  }

  /** A thread that finds nothing waits. */
  lemma QueueWaits(list: seq<Tid>, woken: set<Tid>, t: Tid, list': seq<Tid>)
    requires QueueOk(list, woken, 0) && NoDup(list') && forall x :: x in list' <==> x in list || x == t
    ensures QueueOk(list', woken - {t}, 0)
  {
  }

  /** A thread that finds nothing gives up. */
  lemma QueueLeaves(list: seq<Tid>, woken: set<Tid>, t: Tid)
    requires QueueOk(list, woken, 0)
    ensures QueueOk(list, woken - {t}, 0)
  {
  }

  /** A thread, resumed or not, takes a unit. */
  lemma QueueTakes(list: seq<Tid>, woken: set<Tid>, units: nat, t: Tid)
    requires QueueOk(list, woken, units) && units > 0
    ensures QueueOk(list, woken - {t}, units - 1)
  {
    ServedTake(list, woken, units, t);
    hide Served;
  }

  /** The list after a unit was given back: its first thread has been resumed. */
  function AfterGive(list: seq<Tid>): seq<Tid> { if list == [] then [] else list[1..] }

  function WokenByGive(list: seq<Tid>, woken: set<Tid>): set<Tid> { if list == [] then woken else woken + {list[0]} }

  lemma QueueGives(list: seq<Tid>, woken: set<Tid>, units: nat)
    requires QueueOk(list, woken, units)
    ensures QueueOk(AfterGive(list), WokenByGive(list, woken), units + 1)
  {
    if list != [] {
      assert list[0] in list;
      ServedResume(list, woken, units);
      RestMembers(list);
      hide Served;
    }
  }

  lemma QueueFails(list: seq<Tid>, woken: set<Tid>, units: nat, t: Tid)
    requires QueueOk(list, woken, units)
    ensures QueueOk(Removed(list, t), woken, units)
  {
    RemovedMembers(list, t);
  }

  lemma QueueEmpty(woken: set<Tid>, units: nat)
    ensures QueueOk([], woken, units)
  {
  }

  lemma QueueNoDup(list: seq<Tid>, woken: set<Tid>, units: nat)
    requires QueueOk(list, woken, units)
    ensures NoDup(list)
  {
  }
}
