/** The mutex of `src/ipc.c` with its priority inheritance, for one mutex, no signals and no other
    priority changes. Each method is one critical section, so a run of a system of threads is any
    sequence of calls. */
module Mutex {
  import opened Arithmetic
  import opened Options
  import opened Seqs
  import opened Threads
  import opened WaitList

  datatype Outcome = Taken | TimedOut | Suspended

  /** The fields of the mutex and the waiting threads, with two ghosts: `depth` counts the takes of the
      owner that have not been released, `asked` the threads that waited since the owner got the mutex. */
  datatype State = State(
    value: nat,
    owner: Option<Tid>,
    original: nat,
    hold: nat,
    waiters: seq<Tid>,
    prio: Priorities)

  ghost predicate OwnerOk(s: State, base: Priorities, depth: nat) {
    match s.owner
    case None => s.value == 1 && s.hold == 0 && depth == 0 && s.original == 0xFF && s.waiters == []
    case Some(t) =>
      s.value == 0 && depth > 0 && s.hold == depth % 256 && s.original == PrioOf(base, t) && t !in s.waiters
  }

  /** A thread has its base priority unless it is the owner. */
  ghost predicate BaseOk(s: State, base: Priorities) {
    forall t :: s.owner != Some(t) ==> PrioOf(s.prio, t) == PrioOf(base, t)
  }

  /** The owner has the most urgent priority among its own and those of the threads that have waited
      for it. */
  ghost predicate Inherits(s: State, base: Priorities, asked: set<Tid>) {
    s.owner.Some? ==>
      var p := PrioOf(s.prio, s.owner.value);
      && p <= PrioOf(base, s.owner.value)
      && (forall t :: t in asked ==> p <= PrioOf(base, t))
      && (p != PrioOf(base, s.owner.value) ==> exists t :: t in asked && p == PrioOf(base, t))
  }

  ghost predicate Good(s: State, base: Priorities, depth: nat, asked: set<Tid>) {
    && OwnerOk(s, base, depth) && BaseOk(s, base) && Inherits(s, base, asked)
    && NoDup(s.waiters) && Sorted(s.waiters, s.prio)
    && forall t :: t in s.waiters ==> t in asked
  }

  /** Priority inheritance: the owner is at least as urgent as every waiting thread. */
  lemma OwnerMostUrgent(s: State, base: Priorities, depth: nat, asked: set<Tid>)
    requires Good(s, base, depth, asked)
    ensures s.waiters != [] ==> s.owner.Some?
    ensures forall t :: t in s.waiters ==> PrioOf(s.prio, s.owner.value) <= PrioOf(s.prio, t)
  {
  }

  /** The hold count tells whether there is an owner exactly while the nesting depth is not a positive
      multiple of 256: the counter has eight bits. */
  lemma HoldTells(s: State, base: Priorities, depth: nat, asked: set<Tid>)
    requires Good(s, base, depth, asked)
    ensures s.value == 1 <==> s.owner.None?
    ensures (s.hold == 0 <==> s.owner.None?) <==> (depth == 0 || depth % 256 != 0)
  {
  }

  lemma SortedFrame(list: seq<Tid>, prio: Priorities, t: Tid, p: nat)
    requires Sorted(list, prio) && t !in list
    ensures Sorted(list, prio[t := p])
  {
    forall i | 0 <= i < |list| ensures PrioOf(prio[t := p], list[i]) == PrioOf(prio, list[i]) {
      assert list[i] in list;
    }
  }

  /** The owner, when its priority is less urgent than that of `t`, gets that priority. */
  function Boosted(s: State, t: Tid): State
    requires s.owner.Some?
  {
    if PrioOf(s.prio, t) < PrioOf(s.prio, s.owner.value)
    then s.(prio := s.prio[s.owner.value := PrioOf(s.prio, t)]) else s
  }

  lemma InheritsMore(s: State, base: Priorities, asked: set<Tid>, t: Tid)
    requires Inherits(s, base, asked) && s.owner.Some? && s.owner != Some(t) && PrioOf(s.prio, t) == PrioOf(base, t)
    ensures Inherits(Boosted(s, t), base, asked + {t})
  {
    var s', more := Boosted(s, t), asked + {t};
    var p, o := PrioOf(s'.prio, s.owner.value), PrioOf(base, s.owner.value);
    if p != o {
      if p == PrioOf(base, t) {
        assert t in more;
      } else {
        var u :| u in asked && p == PrioOf(base, u);
        assert u in more;
      }
    }
  }

  lemma BoostedGood(s: State, base: Priorities, depth: nat, asked: set<Tid>, t: Tid)
    requires Good(s, base, depth, asked) && s.owner.Some? && s.owner != Some(t)
    ensures Good(Boosted(s, t), base, depth, asked + {t})
  {
    SortedFrame(s.waiters, s.prio, s.owner.value, PrioOf(s.prio, t));
    var s' := Boosted(s, t);
    assert PrioOf(s.prio, t) == PrioOf(base, t);
    InheritsMore(s, base, asked, t);
    hide Sorted, NoDup;
  }

  lemma SuspendedGood(s: State, base: Priorities, depth: nat, asked: set<Tid>, t: Tid)
    requires Good(s, base, depth, asked) && t in asked && s.owner.Some? && s.owner != Some(t) && t !in s.waiters
    ensures Good(s.(waiters := Inserted(s.waiters, s.prio, t, Prio)), base, depth, asked)
  {
    InsertedSorted(s.waiters, s.prio, t);
    SuspendedMembers(s.waiters, s.prio, t, Prio);
    hide Sorted, NoDup, Inserted;
  }

  lemma TimeoutGood(s: State, base: Priorities, depth: nat, asked: set<Tid>, t: Tid)
    requires Good(s, base, depth, asked) && t in s.waiters
    ensures Good(s.(waiters := Removed(s.waiters, t)), base, depth, asked)
  {
    RemovedSorted(s.waiters, s.prio, t);
    RemovedMembers(s.waiters, t);
    hide Sorted, NoDup, Removed;
  }

  /** The priorities once the owner has its original priority again. */
  function Restored(s: State): Priorities
    requires s.owner.Some?
  {
    if s.original != PrioOf(s.prio, s.owner.value) then s.prio[s.owner.value := s.original] else s.prio
  }

  /** What rt_mutex_release does when the hold count reaches zero. */
  function HandedOff(s: State): State
    requires s.owner.Some?
  {
    var prio := Restored(s);
    if s.waiters == [] then State(1, None, 0xFF, 0, [], prio)
    else State(s.value, Some(s.waiters[0]), PrioOf(prio, s.waiters[0]), 1, s.waiters[1..], prio)
  }

  lemma FirstMostUrgent(list: seq<Tid>, prio: Priorities)
    requires Sorted(list, prio) && list != []
    ensures forall t :: t in list ==> PrioOf(prio, list[0]) <= PrioOf(prio, t)
    ensures Sorted(list[1..], prio)
  {
  }

  lemma HandedOffGood(s: State, base: Priorities, depth: nat, asked: set<Tid>)
    requires Good(s, base, depth, asked) && s.owner.Some?
    ensures Good(HandedOff(s), base, if s.waiters == [] then 0 else 1, Elements(HandedOff(s).waiters))
  {
    SortedFrame(s.waiters, s.prio, s.owner.value, s.original);
    var prio := Restored(s);
    assert forall t :: PrioOf(prio, t) == PrioOf(base, t);
    if s.waiters != [] {
      RestMembers(s.waiters);
      FirstMostUrgent(s.waiters, prio);
    }
    hide NoDup;
  }

  /** Handing off does not depend on the hold count. */
  lemma SameHandOver(s: State)
    requires s.owner.Some?
    ensures forall h :: HandedOff(s.(hold := h)) == HandedOff(s)
  {
  }

  /** A release that does not bring the count to zero. */
  lemma StillHeld(s: State, base: Priorities, depth: nat, asked: set<Tid>)
    requires Good(s, base, depth, asked) && s.owner.Some?
    ensures s.value == 0 && depth > 0 && (s.hold - 1) % 256 == (depth - 1) % 256
    ensures (depth - 1) % 256 != 0 ==> Good(s.(hold := (s.hold - 1) % 256), base, depth - 1, asked)
  {
  }

  lemma HandedToMostUrgent(s: State, base: Priorities, depth: nat, asked: set<Tid>)
    requires Good(s, base, depth, asked) && s.owner.Some?
    ensures PrioOf(Restored(s), s.owner.value) == PrioOf(base, s.owner.value)
    ensures forall x :: x != s.owner.value ==> PrioOf(Restored(s), x) == PrioOf(s.prio, x)
    ensures forall x :: x in s.waiters ==> PrioOf(Restored(s), s.waiters[0]) <= PrioOf(Restored(s), x)
  {
    if s.waiters != [] { FirstMostUrgent(s.waiters, s.prio); }
  }

  /** The owner takes the mutex once more. */
  lemma TakenAgain(s: State, base: Priorities, depth: nat, asked: set<Tid>)
    requires Good(s, base, depth, asked) && s.owner.Some?
    ensures Good(s.(hold := (s.hold + 1) % 256), base, depth + 1, asked)
  {
  }

  lemma FreeIff(s: State, base: Priorities, depth: nat, asked: set<Tid>)
    requires Good(s, base, depth, asked)
    ensures s.value > 0 <==> s.owner == None
  {
  }

  /** A thread takes the free mutex. */
  lemma TakenFree(s: State, base: Priorities, depth: nat, asked: set<Tid>, t: Tid)
    requires Good(s, base, depth, asked) && s.value > 0
    ensures Good(s.(value := s.value - 1, owner := Some(t), original := PrioOf(s.prio, t), hold := (s.hold + 1) % 256),
                 base, depth + 1, {})
  {
  }

  lemma EmptyWaiters(s: State, base: Priorities, depth: nat, asked: set<Tid>)
    requires Good(s, base, depth, asked)
    ensures s.owner == None ==> s.waiters == [] && depth == 0
  {
  }

  lemma OwnerKnown(s: State, base: Priorities, depth: nat, asked: set<Tid>)
    requires Good(s, base, depth, asked) && s.value == 0
    ensures s.owner.Some?
  {
  }

  /** A mutex with RT_IPC_FLAG_PRIO. */
  class Mutex {
    ghost const base: Priorities          // the priorities that threads start with
    var value: nat
    var owner: Option<Tid>
    var original: nat                     // original_priority
    var hold: nat                         // an eight-bit counter
    var waiters: seq<Tid>                 // parent.suspend_thread
    var prio: Priorities                  // current_priority of the threads
    ghost var depth: nat
    ghost var asked: set<Tid>

    ghost function S(): State reads this { State(value, owner, original, hold, waiters, prio) }

    ghost predicate Valid() reads this { Good(S(), base, depth, asked) }

    constructor (prio: Priorities)
      ensures Valid() && base == prio && this.prio == prio && owner == None && waiters == [] && depth == 0
    {
      base := prio;
      this.prio := prio;
      value, owner, original, hold, waiters := 1, None, 0xFF, 0, [];
      depth, asked := 0, {};
    }

    /** rt_mutex_take by a running thread. */
    method Take(t: Tid, time: int) returns (o: Outcome)
      requires Valid() && t !in waiters
      modifies this
      ensures Valid()
      ensures o == if old(owner) == None || old(owner) == Some(t) then Taken else if time == 0 then TimedOut
        else Suspended
      ensures o.Taken? ==> owner == Some(t) && depth == old(depth) + 1 && prio == old(prio) && waiters == old(waiters)
      ensures o.TimedOut? ==> S() == old(S()) && depth == old(depth)
      ensures o.Suspended? ==> owner == old(owner) && depth == old(depth) && hold == old(hold)
      ensures o.Suspended? ==> waiters == Inserted(old(waiters), prio, t, Prio)
      ensures o.Suspended? ==> forall x :: owner != Some(x) ==> PrioOf(prio, x) == PrioOf(old(prio), x)
      ensures o.Suspended? ==>
        PrioOf(prio, owner.value) == Min(PrioOf(old(prio), owner.value), PrioOf(old(prio), t))
    {
      hide Good, Inserted;
      ghost var s := S();
      if owner == Some(t) {
        TakenAgain(s, base, depth, asked);
        hold := (hold + 1) % 256;
        depth := depth + 1;
        return Taken;
      }
      FreeIff(s, base, depth, asked);
      if value > 0 {
        TakenFree(s, base, depth, asked, t);
        value := value - 1;
        owner := Some(t);
        original := PrioOf(prio, t);
        hold := (hold + 1) % 256;
        depth, asked := depth + 1, {};
        return Taken;
      }
      if time == 0 {
        return TimedOut;
      }
      OwnerKnown(s, base, depth, asked);
      BoostedGood(s, base, depth, asked, t);
      asked := asked + {t};
      if PrioOf(prio, t) < PrioOf(prio, owner.value) {
        prio := prio[owner.value := PrioOf(prio, t)];
      }
      SuspendedGood(S(), base, depth, asked, t);
      waiters := Suspend(waiters, prio, t, Prio);
      return Suspended;
    }

    /** rt_mutex_release by thread `t`. The mutex is given up exactly when the depth before the call was
        one more than a multiple of 256, and then goes to the most urgent waiting thread. */
    method Release(t: Tid) returns (ok: bool)
      requires Valid()
      modifies this
      ensures Valid()
      ensures ok <==> old(owner) == Some(t)
      ensures !ok ==> S() == old(S()) && depth == old(depth)
      ensures ok && (old(depth) - 1) % 256 != 0 ==>
        owner == old(owner) && depth == old(depth) - 1 && waiters == old(waiters) && prio == old(prio)
      ensures var given := ok && (old(depth) - 1) % 256 == 0;
        && (given ==> owner == (if old(waiters) == [] then None else Some(old(waiters)[0])))
        && (given ==> waiters == (if old(waiters) == [] then [] else old(waiters)[1..]))
        && (given ==> PrioOf(prio, t) == PrioOf(base, t))
        && (given ==> forall x :: x != t ==> PrioOf(prio, x) == PrioOf(old(prio), x))
        && (given ==> forall x :: x in old(waiters) ==> PrioOf(prio, owner.value) <= PrioOf(prio, x))
    {
      hide Good, Restored;
      if owner != Some(t) {
        return false;
      }
      ghost var s := S();
      HandedOffGood(s, base, depth, asked);
      HandedToMostUrgent(s, base, depth, asked);
      StillHeld(s, base, depth, asked);
      hold := (hold - 1) % 256;
      if hold == 0 {
        HandOver();
        SameHandOver(s);
        depth, asked := if s.waiters == [] then 0 else 1, Elements(waiters);
      } else {
        depth := depth - 1;
      }
      return true;
    }

    /** The branch of rt_mutex_release for a hold count of zero. */
    method HandOver()
      requires owner.Some? && value == 0 && hold == 0
      modifies `prio, `waiters, `value, `owner, `original, `hold
      ensures S() == HandedOff(old(S()))
    {
      if original != PrioOf(prio, owner.value) {
        prio := prio[owner.value := original];
      }
      if waiters != [] {
        owner := Some(waiters[0]);
        original := PrioOf(prio, waiters[0]);
        hold := hold + 1;
        waiters := waiters[1..];
      } else {
        value := value + 1;
        owner := None;
        original := 0xFF;
      }
    }

    /** rt_thread_timeout for a waiting thread: the owner keeps the priority it has inherited. */
    method Timeout(t: Tid)
      requires Valid() && t in waiters
      modifies `waiters
      ensures Valid() && waiters == Removed(old(waiters), t)
    {
      hide Good;
      TimeoutGood(S(), base, depth, asked, t);
      waiters := Removed(waiters, t);
    }

    /** A thread that takes a free mutex `n` times and then releases it: it has lost the mutex before its
        last release exactly when it nests more than 256 deep. */
    method Nest(t: Tid, n: nat) returns (early: bool)
      requires Valid() && owner == None && n > 0
      modifies this
      ensures Valid() && owner == None
      ensures early <==> n > 256
    {
      hide Good;
      EmptyWaiters(S(), base, depth, asked);
      var i := 0;
      while i < n
        invariant 0 <= i <= n && Valid() && depth == i && waiters == [] && owner == if i == 0 then None else Some(t)
      {
        var _ := Take(t, 0);
        i := i + 1;
      }
      ghost var kept := (n - 1) / 256 * 256;
      while i > 1
        invariant 1 <= i <= n && Valid() && waiters == []
        invariant if i > kept then owner == Some(t) && depth == i else owner == None
      {
        var _ := Release(t);
        i := i - 1;
      }
      early := owner == None;
      var _ := Release(t);
    }
  }
}
