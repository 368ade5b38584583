/** The message queue of `src/ipc.c`. Each region between disabling and enabling interrupts is one
    method call, so a run of a system of threads is any sequence of these calls; the copies outside
    the critical sections are calls of their own. */
module MessageQueue {
  import opened Options
  import opened Seqs
  import opened Threads
  import opened WaitList

  datatype Slot = Slot(index: nat)

  type Byte = bv8

  type Bytes = seq<Byte>

  type Links = map<Slot, Option<Slot>>

  /** Where a thread is in the code, with the local variables it needs there. */
  datatype Phase =
    | Idle
    | SendWait(buf: Bytes)                               // on suspend_sender_thread
    | SendWoken(buf: Bytes)                              // resumed with no error, not yet run
    | Claimed(slot: Slot, buf: Bytes, urgent: bool)      // owns a free slot, before the copy
    | Filled(slot: Slot, buf: Bytes, urgent: bool)       // after the copy, before the link
    | RecvWait                                           // on parent.suspend_thread
    | RecvWoken                                          // resumed with no error, not yet run
    | Holding(slot: Slot)                                // has unlinked the slot, before it is freed
    | Failed                                             // resumed with an error, not yet run

  /** What rt_thread_resume makes of a waiting thread's phase. */
  function Resumed(p: Phase): Phase {
    match p
    case SendWait(buf) => SendWoken(buf)
    case RecvWait => RecvWoken
    case _ => p
  }

  predicate HasSlot(p: Phase) { p.Claimed? || p.Filled? || p.Holding? }

  datatype Outcome = Error | Full | TimedOut | Suspended | Proceed

  datatype Owner = InFree | InQueue | InFlight(t: Tid)

  function At(phase: map<Tid, Phase>, t: Tid): Phase { if t in phase then phase[t] else Idle }

  /* Singly linked lists of slots. */

  ghost predicate Chain(next: Links, p: Option<Slot>, s: seq<Slot>)
    decreases s
  {
    if s == [] then p == None else p == Some(s[0]) && s[0] in next && Chain(next, next[s[0]], s[1..])
  }

  lemma {:induction false} ChainFrame(next: Links, x: Slot, v: Option<Slot>, p: Option<Slot>, s: seq<Slot>)
    requires Chain(next, p, s) && x !in s
    ensures Chain(next[x := v], p, s)
    decreases s
  {
    if s != [] {
      ChainFrame(next, x, v, next[s[0]], s[1..]);
    }
  }

  lemma {:induction false} ChainSnoc(next: Links, p: Option<Slot>, s: seq<Slot>, x: Slot)
    requires Chain(next, p, s) && s != [] && NoDup(s) && x !in s && x in next && next[x] == None
    ensures Chain(next[s[|s| - 1] := Some(x)], p, s + [x])
    decreases s
  {
    var last := s[|s| - 1];
    var after := next[last := Some(x)];
    if |s| == 1 {
      assert (s + [x])[1..] == [x];
      assert Chain(after, Some(x), [x]);
    } else {
      assert s[0] != last;
      ChainSnoc(next, next[s[0]], s[1..], x);
      assert (s + [x])[1..] == s[1..] + [x];
    }
  }

  lemma ChainCons(next: Links, x: Slot, p: Option<Slot>, s: seq<Slot>)
    requires Chain(next, p, s) && x !in s
    ensures Chain(next[x := p], Some(x), [x] + s)
  {
    ChainFrame(next, x, p, p, s);
    assert ([x] + s)[1..] == s;
  }

  /* Who has which slot. */

  ghost predicate Partition(owner: map<Slot, Owner>, free: seq<Slot>, queue: seq<Slot>) {
    && NoDup(free) && NoDup(queue)
    && (forall s :: s in free <==> s in owner && owner[s] == InFree)
    && (forall s :: s in queue <==> s in owner && owner[s] == InQueue)
  }

  lemma PartitionClaim(owner: map<Slot, Owner>, free: seq<Slot>, queue: seq<Slot>, t: Tid)
    requires Partition(owner, free, queue) && free != []
    ensures Partition(owner[free[0] := InFlight(t)], free[1..], queue)
  {
    RestMembers(free);
  }

  lemma PartitionUnlink(owner: map<Slot, Owner>, free: seq<Slot>, queue: seq<Slot>, t: Tid)
    requires Partition(owner, free, queue) && queue != []
    ensures Partition(owner[queue[0] := InFlight(t)], free, queue[1..])
  {
    RestMembers(queue);
  }

  lemma PartitionFree(owner: map<Slot, Owner>, free: seq<Slot>, queue: seq<Slot>, s: Slot)
    requires Partition(owner, free, queue) && s in owner && owner[s].InFlight?
    ensures Partition(owner[s := InFree], [s] + free, queue)
  {
    ConsMembers(s, free);
  }

  lemma PartitionLink(owner: map<Slot, Owner>, free: seq<Slot>, queue: seq<Slot>, s: Slot)
    requires Partition(owner, free, queue) && s in owner && owner[s].InFlight?
    ensures Partition(owner[s := InQueue], free, queue + [s]) && Partition(owner[s := InQueue], free, [s] + queue)
  {
    ConsMembers(s, queue);
    SnocMembers(s, queue);
  }

  /** The links and pointers of a queue object, and what they stand for. */
  datatype Lists = Lists(next: Links, head: Option<Slot>, tail: Option<Slot>, free: Option<Slot>, entry: nat)
  datatype View = View(owner: map<Slot, Owner>, free: seq<Slot>, queue: seq<Slot>)

  ghost predicate LinksOk(m: Lists, v: View) {
    && m.next.Keys == v.owner.Keys && Partition(v.owner, v.free, v.queue)
    && Chain(m.next, m.free, v.free) && Chain(m.next, m.head, v.queue)
    && m.tail == (if v.queue == [] then None else Some(v.queue[|v.queue| - 1]))
    && m.entry == |v.queue|
  }

  lemma Owned(v: View)
    requires Partition(v.owner, v.free, v.queue)
    ensures forall s :: s in v.free ==> s in v.owner && v.owner[s] == InFree
    ensures forall s :: s in v.queue ==> s in v.owner && v.owner[s] == InQueue
  {
  }

  /** Taking the first free slot. */
  lemma Claim(m: Lists, v: View, t: Tid)
    requires LinksOk(m, v) && m.free.Some?
    ensures v.free != [] && m.free == Some(v.free[0]) && m.free.value in m.next
    ensures m.free.value in v.owner && v.owner[m.free.value] == InFree
    ensures LinksOk(m.(free := m.next[m.free.value]), View(v.owner[m.free.value := InFlight(t)], v.free[1..], v.queue))
  {
    assert v.free[0] in v.free;
    Owned(v);
    PartitionClaim(v.owner, v.free, v.queue, t);
    hide Partition;
  }

  /** A write to the link of a slot that is on neither list. */
  lemma Scribble(m: Lists, v: View, s: Slot, link: Option<Slot>)
    requires LinksOk(m, v) && s in v.owner && v.owner[s].InFlight?
    ensures LinksOk(m.(next := m.next[s := link]), v)
  {
    Owned(v);
    ChainFrame(m.next, s, link, m.free, v.free);
    ChainFrame(m.next, s, link, m.head, v.queue);
    hide Partition, Chain;
  }

  /** Linking a filled slot at the tail. */
  lemma LinkTail(m: Lists, v: View, s: Slot)
    requires LinksOk(m, v) && s in v.owner && v.owner[s].InFlight? && s in m.next && m.next[s] == None
    ensures m.tail.Some? ==> m.tail.value in v.owner && v.owner[m.tail.value] == InQueue
    ensures var next := if m.tail.Some? then m.next[m.tail.value := Some(s)] else m.next;
      var head := if m.head.None? then Some(s) else m.head;
      LinksOk(Lists(next, head, Some(s), m.free, m.entry + 1), View(v.owner[s := InQueue], v.free, v.queue + [s]))
  {
    Owned(v);
    PartitionLink(v.owner, v.free, v.queue, s);
    if v.queue == [] {
      assert Chain(m.next, Some(s), [s]);
      assert v.queue + [s] == [s];
    } else {
      assert m.tail.value in v.queue;
      ChainSnoc(m.next, m.head, v.queue, s);
      ChainFrame(m.next, m.tail.value, Some(s), m.free, v.free);
    }
    hide Partition;
  }

  /** Linking a filled slot at the head. */
  lemma LinkHead(m: Lists, v: View, s: Slot)
    requires LinksOk(m, v) && s in v.owner && v.owner[s].InFlight?
    ensures LinksOk(Lists(m.next[s := m.head], Some(s), if m.tail.None? then Some(s) else m.tail, m.free, m.entry + 1),
                    View(v.owner[s := InQueue], v.free, [s] + v.queue))
  {
    Owned(v);
    PartitionLink(v.owner, v.free, v.queue, s);
    ChainCons(m.next, s, m.head, v.queue);
    ChainFrame(m.next, s, m.head, m.free, v.free);
    hide Partition, Chain;
  }

  /** Unlinking the head of a queue that is not empty. */
  lemma Unlink(m: Lists, v: View, t: Tid)
    requires LinksOk(m, v) && m.head.Some?
    ensures m.entry > 0 && m.head == Some(v.queue[0]) && m.head.value in m.next
    ensures m.head.value in v.owner && v.owner[m.head.value] == InQueue
    ensures LinksOk(m.(head := m.next[m.head.value], tail := if m.tail == m.head then None else m.tail,
                       entry := m.entry - 1),
                    View(v.owner[m.head.value := InFlight(t)], v.free, v.queue[1..]))
  {
    Owned(v);
    assert v.queue[0] in v.queue;
    PartitionUnlink(v.owner, v.free, v.queue, t);
    assert m.tail == m.head <==> |v.queue| == 1;
    hide Partition;
  }

  lemma HeadIffTail(m: Lists, v: View)
    requires LinksOk(m, v)
    ensures m.head.None? <==> m.tail.None?
    ensures m.head.None? <==> m.entry == 0
    ensures m.head.None? ==> v.queue == []
  {
  }

  /** Putting a slot on the free list. */
  lemma PutBack(m: Lists, v: View, s: Slot)
    requires LinksOk(m, v) && s in v.owner && v.owner[s].InFlight?
    ensures LinksOk(m.(next := m.next[s := m.free], free := Some(s)), View(v.owner[s := InFree], [s] + v.free, v.queue))
  {
    Owned(v);
    PartitionFree(v.owner, v.free, v.queue, s);
    ChainCons(m.next, s, m.free, v.free);
    ChainFrame(m.next, s, m.free, m.head, v.queue);
    hide Partition, Chain;
  }

  /** One turn of the reset loop: the head of the queue goes to the free list. */
  lemma Drain(m: Lists, v: View)
    requires LinksOk(m, v) && m.head.Some?
    ensures m.entry > 0 && m.head == Some(v.queue[0]) && m.head.value in m.next
    ensures m.head.value in v.owner && v.owner[m.head.value] == InQueue
    ensures LinksOk(Lists(m.next[m.head.value := m.free], m.next[m.head.value],
                          if m.tail == m.head then None else m.tail, m.head, m.entry - 1),
                    View(v.owner[m.head.value := InFree], [v.queue[0]] + v.free, v.queue[1..]))
  {
    var s, t := m.head.value, Tid(0);
    Unlink(m, v, t);
    PutBack(m.(head := m.next[s], tail := if m.tail == m.head then None else m.tail, entry := m.entry - 1),
            View(v.owner[s := InFlight(t)], v.free, v.queue[1..]), s);
    assert v.owner[s := InFlight(t)][s := InFree] == v.owner[s := InFree];
  }

  /* Where the threads are. */

  /** The two lists of suspended threads, and the threads resumed from each that have not run yet. */
  datatype Waits = Waits(receivers: seq<Tid>, senders: seq<Tid>, wokenR: set<Tid>, wokenS: set<Tid>)

  ghost predicate HeldBy(phase: map<Tid, Phase>, t: Tid, s: Slot) { HasSlot(At(phase, t)) && At(phase, t).slot == s }

  ghost predicate ThreadOk(phase: map<Tid, Phase>, owner: map<Slot, Owner>, w: Waits, t: Tid) {
    var p := At(phase, t);
    && (t in w.receivers <==> p.RecvWait?) && (t in w.senders <==> p.SendWait?)
    && (t in w.wokenR <==> p.RecvWoken?) && (t in w.wokenS <==> p.SendWoken?)
    && (HasSlot(p) ==> p.slot in owner && owner[p.slot] == InFlight(t))
  }

  ghost predicate ThreadsOk(phase: map<Tid, Phase>, owner: map<Slot, Owner>, w: Waits) {
    && NoDup(w.receivers) && NoDup(w.senders)
    && (forall t :: ThreadOk(phase, owner, w, t))
    && (forall s :: s in owner && owner[s].InFlight? ==> HeldBy(phase, owner[s].t, s))
  }

  /** A thread that is not waiting takes slot `s`. */
  lemma GetsSlot(phase: map<Tid, Phase>, owner: map<Slot, Owner>, w: Waits, t: Tid, s: Slot, q: Phase)
    requires ThreadsOk(phase, owner, w)
    requires s in owner && !owner[s].InFlight? && HasSlot(q) && q.slot == s
    requires At(phase, t).Idle? || At(phase, t).SendWoken? || At(phase, t).RecvWoken?
    ensures ThreadsOk(phase[t := q], owner[s := InFlight(t)], w.(wokenR := w.wokenR - {t}, wokenS := w.wokenS - {t}))
  {
    var phase', owner', w' := phase[t := q], owner[s := InFlight(t)],
      w.(wokenR := w.wokenR - {t}, wokenS := w.wokenS - {t});
    forall x ensures ThreadOk(phase', owner', w', x) {
      assert ThreadOk(phase, owner, w, x);
    }
    forall y | y in owner' && owner'[y].InFlight? ensures HeldBy(phase', owner'[y].t, y) {
      if y != s {
        assert HeldBy(phase, owner[y].t, y);
        assert ThreadOk(phase, owner, w, owner[y].t);
      }
    }
  }

  /** A thread that is not a resumed receiver is not among them. */
  lemma NoneWoken(w: Waits, t: Tid, phase: map<Tid, Phase>, owner: map<Slot, Owner>)
    requires ThreadsOk(phase, owner, w)
    ensures !At(phase, t).RecvWoken? ==> w.wokenR - {t} == w.wokenR
    ensures !At(phase, t).SendWoken? ==> w.wokenS - {t} == w.wokenS
  {
    assert ThreadOk(phase, owner, w, t);
  }

  lemma SenderGetsSlot(phase: map<Tid, Phase>, owner: map<Slot, Owner>, w: Waits, t: Tid, s: Slot, q: Phase)
    requires ThreadsOk(phase, owner, w)
    requires s in owner && !owner[s].InFlight? && HasSlot(q) && q.slot == s
      && (At(phase, t).Idle? || At(phase, t).SendWoken?)
    ensures ThreadsOk(phase[t := q], owner[s := InFlight(t)], w.(wokenS := w.wokenS - {t}))
  {
    GetsSlot(phase, owner, w, t, s, q);
    NoneWoken(w, t, phase, owner);
    hide ThreadsOk;
  }

  lemma ReceiverGetsSlot(phase: map<Tid, Phase>, owner: map<Slot, Owner>, w: Waits, t: Tid, s: Slot, q: Phase)
    requires ThreadsOk(phase, owner, w)
    requires s in owner && !owner[s].InFlight? && HasSlot(q) && q.slot == s
      && (At(phase, t).Idle? || At(phase, t).RecvWoken?)
    ensures ThreadsOk(phase[t := q], owner[s := InFlight(t)], w.(wokenR := w.wokenR - {t}))
  {
    GetsSlot(phase, owner, w, t, s, q);
    NoneWoken(w, t, phase, owner);
    hide ThreadsOk;
  }

  /** A thread goes on with the slot it has. */
  lemma KeepsSlot(phase: map<Tid, Phase>, owner: map<Slot, Owner>, w: Waits, t: Tid, q: Phase)
    requires ThreadsOk(phase, owner, w)
    requires HasSlot(At(phase, t)) && HasSlot(q) && q.slot == At(phase, t).slot
    ensures ThreadsOk(phase[t := q], owner, w)
    ensures q.slot in owner && owner[q.slot] == InFlight(t)
  {
    var phase' := phase[t := q];
    assert ThreadOk(phase, owner, w, t);
    forall x ensures ThreadOk(phase', owner, w, x) {
      assert ThreadOk(phase, owner, w, x);
    }
    forall y | y in owner && owner[y].InFlight? ensures HeldBy(phase', owner[y].t, y) {
      assert HeldBy(phase, owner[y].t, y);
    }
  }

  /** A thread gives its slot to a list and goes on without it. */
  lemma GivesSlot(phase: map<Tid, Phase>, owner: map<Slot, Owner>, w: Waits, t: Tid, o: Owner)
    requires ThreadsOk(phase, owner, w) && HasSlot(At(phase, t)) && !o.InFlight?
    ensures At(phase, t).slot in owner && owner[At(phase, t).slot] == InFlight(t)
    ensures ThreadsOk(phase[t := Idle], owner[At(phase, t).slot := o], w)
  {
    var s := At(phase, t).slot;
    var phase', owner' := phase[t := Idle], owner[s := o];
    assert ThreadOk(phase, owner, w, t);
    forall x ensures ThreadOk(phase', owner', w, x) {
      assert ThreadOk(phase, owner, w, x);
    }
    forall y | y in owner' && owner'[y].InFlight? ensures HeldBy(phase', owner'[y].t, y) {
      assert HeldBy(phase, owner[y].t, y);
    }
  }

  /** A thread without a slot moves to a phase without a slot. */
  lemma Moves(phase: map<Tid, Phase>, owner: map<Slot, Owner>, w: Waits, t: Tid, q: Phase, w': Waits)
    requires ThreadsOk(phase, owner, w) && !HasSlot(At(phase, t)) && !HasSlot(q)
    requires NoDup(w'.receivers) && NoDup(w'.senders)
    requires forall x :: x in w'.receivers <==> if x == t then q.RecvWait? else x in w.receivers
    requires forall x :: x in w'.senders <==> if x == t then q.SendWait? else x in w.senders
    requires w'.wokenR == if q.RecvWoken? then w.wokenR + {t} else w.wokenR - {t}
    requires w'.wokenS == if q.SendWoken? then w.wokenS + {t} else w.wokenS - {t}
    ensures ThreadsOk(phase[t := q], owner, w')
  {
    var phase' := phase[t := q];
    forall x ensures ThreadOk(phase', owner, w', x) {
      assert ThreadOk(phase, owner, w, x);
    }
    forall y | y in owner && owner[y].InFlight? ensures HeldBy(phase', owner[y].t, y) {
      assert HeldBy(phase, owner[y].t, y);
    }
  }

  /** A thread that is running suspends itself on the list of receivers. */
  lemma WaitsToReceive(phase: map<Tid, Phase>, owner: map<Slot, Owner>, w: Waits, t: Tid, prio: Priorities, flag: Flag)
    requires ThreadsOk(phase, owner, w) && (At(phase, t).Idle? || At(phase, t).RecvWoken?)
    ensures ThreadsOk(phase[t := RecvWait], owner, w.(receivers := Inserted(w.receivers, prio, t, flag),
                                                      wokenR := w.wokenR - {t}))
  {
    assert ThreadOk(phase, owner, w, t);
    assert w.wokenS == w.wokenS - {t};
    SuspendedMembers(w.receivers, prio, t, flag);
    hide Inserted, ThreadsOk;
    Moves(phase, owner, w, t, RecvWait, w.(receivers := Inserted(w.receivers, prio, t, flag),
                                           wokenR := w.wokenR - {t}));
  }

  lemma WaitsToSend(phase: map<Tid, Phase>, owner: map<Slot, Owner>, w: Waits, t: Tid, buf: Bytes, prio: Priorities,
                    flag: Flag)
    requires ThreadsOk(phase, owner, w) && (At(phase, t).Idle? || At(phase, t).SendWoken?)
    ensures ThreadsOk(phase[t := SendWait(buf)], owner,
                      w.(senders := Inserted(w.senders, prio, t, flag), wokenS := w.wokenS - {t}))
  {
    assert ThreadOk(phase, owner, w, t);
    assert w.wokenR == w.wokenR - {t};
    SuspendedMembers(w.senders, prio, t, flag);
    hide Inserted, ThreadsOk;
    Moves(phase, owner, w, t, SendWait(buf), w.(senders := Inserted(w.senders, prio, t, flag),
                                                wokenS := w.wokenS - {t}));
  }

  /** rt_ipc_list_resume on the list of receivers. */
  lemma ReceiverWakes(phase: map<Tid, Phase>, owner: map<Slot, Owner>, w: Waits)
    requires ThreadsOk(phase, owner, w) && w.receivers != []
    ensures At(phase, w.receivers[0]).RecvWait? && w.receivers[0] !in w.wokenR
    ensures ThreadsOk(phase[w.receivers[0] := RecvWoken], owner,
                      w.(receivers := w.receivers[1..], wokenR := w.wokenR + {w.receivers[0]}))
  {
    var t := w.receivers[0];
    assert ThreadOk(phase, owner, w, t);
    assert w.wokenS == w.wokenS - {t};
    RestMembers(w.receivers);
    hide ThreadsOk;
    Moves(phase, owner, w, t, RecvWoken, w.(receivers := w.receivers[1..], wokenR := w.wokenR + {t}));
  }

  lemma SenderWakes(phase: map<Tid, Phase>, owner: map<Slot, Owner>, w: Waits)
    requires ThreadsOk(phase, owner, w) && w.senders != []
    ensures At(phase, w.senders[0]).SendWait? && w.senders[0] !in w.wokenS
    ensures ThreadsOk(phase[w.senders[0] := SendWoken(At(phase, w.senders[0]).buf)], owner,
                      w.(senders := w.senders[1..], wokenS := w.wokenS + {w.senders[0]}))
  {
    var t := w.senders[0];
    assert ThreadOk(phase, owner, w, t);
    assert w.wokenR == w.wokenR - {t};
    RestMembers(w.senders);
    hide ThreadsOk;
    Moves(phase, owner, w, t, SendWoken(At(phase, t).buf), w.(senders := w.senders[1..], wokenS := w.wokenS + {t}));
  }

  /** A waiting thread is resumed with an error. */
  lemma WaitFails(phase: map<Tid, Phase>, owner: map<Slot, Owner>, w: Waits, t: Tid)
    requires ThreadsOk(phase, owner, w) && (At(phase, t).RecvWait? || At(phase, t).SendWait?)
    ensures ThreadsOk(phase[t := Failed], owner, w.(receivers := Removed(w.receivers, t),
                                                    senders := Removed(w.senders, t)))
  {
    assert ThreadOk(phase, owner, w, t);
    assert w.wokenR == w.wokenR - {t} && w.wokenS == w.wokenS - {t};
    RemovedMembers(w.receivers, t);
    RemovedMembers(w.senders, t);
    hide ThreadsOk, Removed;
    Moves(phase, owner, w, t, Failed, w.(receivers := Removed(w.receivers, t), senders := Removed(w.senders, t)));
  }

  /** A running thread leaves the operation. */
  lemma Leaves(phase: map<Tid, Phase>, owner: map<Slot, Owner>, w: Waits, t: Tid)
    requires ThreadsOk(phase, owner, w)
    requires At(phase, t).Idle? || At(phase, t).Failed? || At(phase, t).RecvWoken? || At(phase, t).SendWoken?
    ensures ThreadsOk(phase[t := Idle], owner, w.(wokenR := w.wokenR - {t}, wokenS := w.wokenS - {t}))
  {
    assert ThreadOk(phase, owner, w, t);
    Moves(phase, owner, w, t, Idle, w.(wokenR := w.wokenR - {t}, wokenS := w.wokenS - {t}));
  }

  /* What the slots hold. */

  ghost predicate Stored(data: map<Slot, Bytes>, msgSize: nat, s: Slot, b: Bytes) {
    s in data && |data[s]| == msgSize && b <= data[s]
  }

  ghost predicate QueuedOk(data: map<Slot, Bytes>, msgSize: nat, queue: seq<Slot>, sent: seq<Bytes>) {
    |sent| == |queue| && forall i :: 0 <= i < |queue| ==> Stored(data, msgSize, queue[i], sent[i])
  }

  ghost predicate PhaseOk(p: Phase, t: Tid, next: Links, data: map<Slot, Bytes>, msgSize: nat, taken: map<Tid, Bytes>) {
    match p
    case SendWait(buf) => |buf| <= msgSize
    case SendWoken(buf) => |buf| <= msgSize
    case Claimed(_, buf, _) => |buf| <= msgSize
    case Filled(s, buf, urgent) => Stored(data, msgSize, s, buf) && s in next && (!urgent ==> next[s] == None)
    case Holding(s) => t in taken && Stored(data, msgSize, s, taken[t])
    case _ => true
  }

  /** Where the threads are, what the slots hold, and the queue. `sent` is the queue as a deque of the buffers
      that were sent; `taken` is what each receiver has taken from it and not yet returned. */
  datatype Store = Store(
    phase: map<Tid, Phase>,
    next: Links,
    data: map<Slot, Bytes>,
    msgSize: nat,
    queue: seq<Slot>,
    sent: seq<Bytes>,
    taken: map<Tid, Bytes>)

  ghost predicate ThreadHas(b: Store, t: Tid) { PhaseOk(At(b.phase, t), t, b.next, b.data, b.msgSize, b.taken) }

  ghost predicate BytesOk(b: Store) {
    && b.data.Keys == b.next.Keys && (forall s :: s in b.data ==> |b.data[s]| == b.msgSize)
    && QueuedOk(b.data, b.msgSize, b.queue, b.sent)
    && forall t :: ThreadHas(b, t)
  }

  /** A write to a link that no finished normal message depends on. */
  lemma LinkWritten(b: Store, s: Slot, link: Option<Slot>)
    requires BytesOk(b) && s in b.next
    requires forall x :: At(b.phase, x).Filled? && !At(b.phase, x).urgent ==> At(b.phase, x).slot != s
    ensures BytesOk(b.(next := b.next[s := link]))
  {
    hide Stored, QueuedOk;
    var b' := b.(next := b.next[s := link]);
    forall x ensures ThreadHas(b', x) {
      assert ThreadHas(b, x);
    }
  }

  /** A thread moves on; its new phase is fine with what the slots hold. */
  lemma PhaseMoves(b: Store, t: Tid, q: Phase)
    requires BytesOk(b) && PhaseOk(q, t, b.next, b.data, b.msgSize, b.taken)
    ensures BytesOk(b.(phase := b.phase[t := q]))
  {
    hide Stored, QueuedOk, PhaseOk;
    var b' := b.(phase := b.phase[t := q]);
    forall x ensures ThreadHas(b', x) {
      assert ThreadHas(b, x);
    }
  }

  lemma PhaseAt(b: Store, t: Tid)
    requires BytesOk(b)
    ensures PhaseOk(At(b.phase, t), t, b.next, b.data, b.msgSize, b.taken)
    ensures QueuedOk(b.data, b.msgSize, b.queue, b.sent) && b.data.Keys == b.next.Keys
    ensures forall s :: s in b.data ==> |b.data[s]| == b.msgSize
  {
    assert ThreadHas(b, t);
  }

  lemma SentIs(b: Store)
    requires BytesOk(b)
    ensures |b.sent| == |b.queue|
  {
  }

  /** No thread but `t` is using a slot that `t` has, and none a slot that is on a list. */
  lemma OnlyOwner(phase: map<Tid, Phase>, owner: map<Slot, Owner>, w: Waits, s: Slot)
    requires ThreadsOk(phase, owner, w) && s in owner
    ensures forall x :: HasSlot(At(phase, x)) && At(phase, x).slot == s ==> owner[s] == InFlight(x)
  {
    forall x | HasSlot(At(phase, x)) && At(phase, x).slot == s ensures owner[s] == InFlight(x) {
      assert ThreadOk(phase, owner, w, x);
    }
  }

  /** rt_memcpy of `bytes` into a slot that only `t` uses. */
  lemma CopiedIn(b: Store, m: Lists, v: View, w: Waits, t: Tid, bytes: Bytes)
    requires BytesOk(b) && LinksOk(m, v) && ThreadsOk(b.phase, v.owner, w) && b.queue == v.queue
    requires At(b.phase, t).Claimed? && At(b.phase, t).slot in b.data && |bytes| == b.msgSize
    ensures BytesOk(b.(data := b.data[At(b.phase, t).slot := bytes]))
  {
    var s := At(b.phase, t).slot;
    var b' := b.(data := b.data[s := bytes]);
    assert ThreadOk(b.phase, v.owner, w, t);
    Owned(v);
    OnlyOwner(b.phase, v.owner, w, s);
    hide ThreadsOk, Partition, Chain;
    forall x ensures ThreadHas(b', x) {
      assert ThreadHas(b, x);
    }
    forall i | 0 <= i < |v.queue| ensures Stored(b'.data, b.msgSize, v.queue[i], b.sent[i]) {
      assert v.queue[i] in v.queue;
      assert Stored(b.data, b.msgSize, v.queue[i], b.sent[i]);
    }
  }

  lemma QueuedRest(data: map<Slot, Bytes>, msgSize: nat, queue: seq<Slot>, sent: seq<Bytes>)
    requires QueuedOk(data, msgSize, queue, sent) && queue != []
    ensures QueuedOk(data, msgSize, queue[1..], sent[1..]) && Stored(data, msgSize, queue[0], sent[0])
  {
    forall i | 0 <= i < |queue[1..]| ensures Stored(data, msgSize, queue[1..][i], sent[1..][i]) {
      assert Stored(data, msgSize, queue[i + 1], sent[i + 1]);
    }
  }

  lemma QueuedMore(data: map<Slot, Bytes>, msgSize: nat, queue: seq<Slot>, sent: seq<Bytes>, s: Slot, b: Bytes)
    requires QueuedOk(data, msgSize, queue, sent) && Stored(data, msgSize, s, b)
    ensures QueuedOk(data, msgSize, queue + [s], sent + [b]) && QueuedOk(data, msgSize, [s] + queue, [b] + sent)
  {
    hide Stored;
  }

  /** Only the part of the store that concerns the queue has changed. */
  lemma Requeued(b: Store, queue: seq<Slot>, sent: seq<Bytes>)
    requires BytesOk(b) && QueuedOk(b.data, b.msgSize, queue, sent)
    ensures BytesOk(b.(queue := queue, sent := sent))
  {
    hide QueuedOk, PhaseOk;
    var b' := b.(queue := queue, sent := sent);
    forall x ensures ThreadHas(b', x) {
      assert ThreadHas(b, x);
    }
  }

  /** A filled slot joins the queue at either end. */
  lemma QueueGrows(b: Store, s: Slot, bytes: Bytes)
    requires BytesOk(b) && Stored(b.data, b.msgSize, s, bytes)
    ensures BytesOk(b.(queue := b.queue + [s], sent := b.sent + [bytes]))
    ensures BytesOk(b.(queue := [s] + b.queue, sent := [bytes] + b.sent))
  {
    QueuedMore(b.data, b.msgSize, b.queue, b.sent, s, bytes);
    hide QueuedOk, ThreadHas;
    Requeued(b, b.queue + [s], b.sent + [bytes]);
    Requeued(b, [s] + b.queue, [bytes] + b.sent);
  }

  /** The head of the queue goes away. */
  lemma QueueDrops(b: Store)
    requires BytesOk(b) && b.queue != []
    ensures |b.sent| == |b.queue| && BytesOk(b.(queue := b.queue[1..], sent := b.sent[1..]))
  {
    QueuedRest(b.data, b.msgSize, b.queue, b.sent);
    hide QueuedOk, ThreadHas;
    Requeued(b, b.queue[1..], b.sent[1..]);
  }

  /** The head of the queue goes to thread `t`. */
  lemma QueueShrinks(b: Store, t: Tid)
    requires BytesOk(b) && b.queue != []
    ensures |b.sent| == |b.queue|
    ensures BytesOk(b.(phase := b.phase[t := Holding(b.queue[0])], queue := b.queue[1..], sent := b.sent[1..],
                       taken := b.taken[t := b.sent[0]]))
  {
    QueuedRest(b.data, b.msgSize, b.queue, b.sent);
    hide QueuedOk;
    var b' := b.(phase := b.phase[t := Holding(b.queue[0])], queue := b.queue[1..], sent := b.sent[1..],
                 taken := b.taken[t := b.sent[0]]);
    forall x ensures ThreadHas(b', x) {
      assert ThreadHas(b, x);
    }
  }

  /** The loop of rt_mq_init has put `n` slots on the free list. */
  ghost predicate Initialised(m: Lists, v: View, data: map<Slot, Bytes>, msgSize: nat, n: nat) {
    && LinksOk(m, v) && v.queue == [] && data.Keys == m.next.Keys
    && (forall s :: s in data ==> |data[s]| == msgSize)
    && (forall s :: s in v.owner <==> s.index < n)
    && (forall s :: s in v.owner ==> v.owner[s] == InFree)
  }

  lemma InitialisedNone(msgSize: nat)
    ensures Initialised(Lists(map[], None, None, None, 0), View(map[], [], []), map[], msgSize, 0)
  {
  }

  lemma PartitionNew(owner: map<Slot, Owner>, free: seq<Slot>, s: Slot)
    requires Partition(owner, free, []) && s !in owner
    ensures Partition(owner[s := InFree], [s] + free, [])
  {
    ConsMembers(s, free);
  }

  lemma SlotsBelow(slots: set<Slot>, n: nat)
    requires forall s :: s in slots <==> s.index < n
    ensures forall s :: s in slots + {Slot(n)} <==> s.index < n + 1
  {
    forall s: Slot | s.index == n ensures s == Slot(n) {
    }
  }

  lemma InitialisedNext(m: Lists, v: View, data: map<Slot, Bytes>, msgSize: nat, n: nat, b: Bytes)
    requires Initialised(m, v, data, msgSize, n) && |b| == msgSize
    ensures Initialised(m.(next := m.next[Slot(n) := m.free], free := Some(Slot(n))),
                        View(v.owner[Slot(n) := InFree], [Slot(n)] + v.free, v.queue), data[Slot(n) := b], msgSize,
                          n + 1)
  {
    hide Chain, Partition;
    var s := Slot(n);
    Owned(v);
    ChainCons(m.next, s, m.free, v.free);
    ChainFrame(m.next, s, m.free, m.head, v.queue);
    PartitionNew(v.owner, v.free, s);
    SlotsBelow(v.owner.Keys, n);
  }

  /** The whole state of a queue and the threads that use it. */
  datatype State = State(
    m: Lists,
    v: View,
    w: Waits,
    phase: map<Tid, Phase>,
    data: map<Slot, Bytes>,
    msgSize: nat,
    sent: seq<Bytes>,
    taken: map<Tid, Bytes>)

  function StoreOf(s: State): Store { Store(s.phase, s.m.next, s.data, s.msgSize, s.v.queue, s.sent, s.taken) }

  /** What every step keeps. */
  ghost predicate Good(s: State) {
    && LinksOk(s.m, s.v) && ThreadsOk(s.phase, s.v.owner, s.w) && BytesOk(StoreOf(s))
    && Served(s.w.receivers, s.w.wokenR, s.m.entry) && Served(s.w.senders, s.w.wokenS, |s.v.free|)
  }

  /** The slots of a queue never change. */
  ghost predicate PoolIs(next: Links, max: nat) { forall s :: s in next <==> s.index < max }

  lemma InitialisedGood(m: Lists, v: View, data: map<Slot, Bytes>, msgSize: nat, n: nat)
    requires Initialised(m, v, data, msgSize, n)
    ensures Good(State(m, v, Waits([], [], {}, {}), map[], data, msgSize, [], map[])) && PoolIs(m.next, n)
  {
    var w := Waits([], [], {}, {});
    forall t: Tid ensures ThreadOk(map[], v.owner, w, t) {
    }
    hide LinksOk;
    var b := Store(map[], m.next, data, msgSize, v.queue, [], map[]);
    forall t ensures ThreadHas(b, t) {
    }
  }

  /** Linking a slot behind the tail writes to the link of the tail. */
  lemma TailWritten(b: Store, owner: map<Slot, Owner>, w: Waits, tail: Option<Slot>, s: Slot)
    requires BytesOk(b) && ThreadsOk(b.phase, owner, w)
    requires tail.Some? ==> tail.value in b.next && tail.value in owner && owner[tail.value] == InQueue
    ensures BytesOk(b.(next := if tail.Some? then b.next[tail.value := Some(s)] else b.next))
  {
    hide BytesOk, ThreadsOk;
    if tail.Some? {
      OnlyOwner(b.phase, owner, w, tail.value);
      LinkWritten(b, tail.value, Some(s));
    }
  }

  /** What holds between linking a message and resuming a receiver. */
  ghost predicate Linked(s: State) {
    && LinksOk(s.m, s.v) && ThreadsOk(s.phase, s.v.owner, s.w) && BytesOk(StoreOf(s))
    && s.m.entry > 0 && Served(s.w.receivers, s.w.wokenR, s.m.entry - 1) && Served(s.w.senders, s.w.wokenS, |s.v.free|)
  }

  /** What holds between freeing a slot and resuming a sender. */
  ghost predicate Freed(s: State) {
    && LinksOk(s.m, s.v) && ThreadsOk(s.phase, s.v.owner, s.w) && BytesOk(StoreOf(s))
    && s.v.free != [] && Served(s.w.receivers, s.w.wokenR, s.m.entry) && Served(s.w.senders, s.w.wokenS, |s.v.free| - 1)
  }

  lemma PoolKept(next: Links, max: nat, s: Slot, link: Option<Slot>)
    requires PoolIs(next, max) && s in next
    ensures PoolIs(next[s := link], max)
  {
  }

  /** The state after thread `t` has linked its filled slot at the tail. */
  function TailLinked(s: State, t: Tid): State
    requires At(s.phase, t).Filled?
  {
    var msg, m := At(s.phase, t).slot, s.m;
    s.(m := Lists(if m.tail.Some? then m.next[m.tail.value := Some(msg)] else m.next,
                  if m.head.None? then Some(msg) else m.head, Some(msg), m.free, m.entry + 1),
       v := View(s.v.owner[msg := InQueue], s.v.free, s.v.queue + [msg]),
       phase := s.phase[t := Idle], sent := s.sent + [At(s.phase, t).buf])
  }

  /** The state after thread `t` has linked its filled slot at the head. */
  function HeadLinked(s: State, t: Tid): State
    requires At(s.phase, t).Filled?
  {
    var msg, m := At(s.phase, t).slot, s.m;
    s.(m := Lists(m.next[msg := m.head], Some(msg), if m.tail.None? then Some(msg) else m.tail, m.free, m.entry + 1),
       v := View(s.v.owner[msg := InQueue], s.v.free, [msg] + s.v.queue),
       phase := s.phase[t := Idle], sent := [At(s.phase, t).buf] + s.sent)
  }

  lemma FreeIff(m: Lists, v: View)
    requires LinksOk(m, v)
    ensures m.free.None? <==> v.free == []
    ensures m.head.None? <==> v.queue == []
    ensures m.entry == |v.queue| && m.next.Keys == v.owner.Keys
  {
  }

  lemma LinksAtTail(s: State, t: Tid)
    requires Good(s) && At(s.phase, t).Filled? && !At(s.phase, t).urgent
    ensures Linked(TailLinked(s, t))
    ensures forall max: nat :: PoolIs(s.m.next, max) ==> PoolIs(TailLinked(s, t).m.next, max)
  {
    hide LinksOk, ThreadsOk, BytesOk, Served;
    var msg, buf, r := At(s.phase, t).slot, At(s.phase, t).buf, TailLinked(s, t);
    var b := StoreOf(s);
    FreeIff(s.m, s.v);
    GivesSlot(s.phase, s.v.owner, s.w, t, InQueue);
    PhaseAt(b, t);
    LinkTail(s.m, s.v, msg);
    PhaseMoves(b, t, Idle);
    TailWritten(b.(phase := r.phase), r.v.owner, s.w, s.m.tail, msg);
    QueueGrows(b.(phase := r.phase, next := r.m.next), msg, buf);
  }

  lemma LinksAtHead(s: State, t: Tid)
    requires Good(s) && At(s.phase, t).Filled?
    ensures Linked(HeadLinked(s, t)) && At(s.phase, t).slot in s.m.next
    ensures forall max: nat :: PoolIs(s.m.next, max) ==> PoolIs(HeadLinked(s, t).m.next, max)
  {
    hide LinksOk, ThreadsOk, BytesOk, Served;
    var msg, buf, r := At(s.phase, t).slot, At(s.phase, t).buf, HeadLinked(s, t);
    var b := StoreOf(s);
    FreeIff(s.m, s.v);
    GivesSlot(s.phase, s.v.owner, s.w, t, InQueue);
    PhaseAt(b, t);
    LinkHead(s.m, s.v, msg);
    PhaseMoves(b, t, Idle);
    OnlyOwner(r.phase, r.v.owner, s.w, msg);
    LinkWritten(b.(phase := r.phase), msg, s.m.head);
    QueueGrows(b.(phase := r.phase, next := r.m.next), msg, buf);
  }

  /** The phases once the first receiver has been resumed, if there is one. */
  function Woken(phase: map<Tid, Phase>, receivers: seq<Tid>): map<Tid, Phase> {
    if receivers == [] then phase else phase[receivers[0] := RecvWoken]
  }

  /** The tail pointer after `msg` has been unlinked. */
  function TailWithout(tail: Option<Slot>, msg: Slot): Option<Slot> { if tail == Some(msg) then None else tail }

  /** The state after thread `t` has unlinked the message at the head, if there is one. */
  ghost function HeadTaken(s: State, t: Tid): State {
    if s.m.head.None? || s.m.head.value !in s.m.next || s.m.entry == 0 || s.v.queue == [] || s.sent == [] then s
    else
      var msg, m := s.m.head.value, s.m;
      s.(m := Lists(m.next, m.next[msg], TailWithout(m.tail, msg), m.free, m.entry - 1),
         v := View(s.v.owner[msg := InFlight(t)], s.v.free, s.v.queue[1..]),
         w := s.w.(wokenR := s.w.wokenR - {t}),
         phase := s.phase[t := Holding(msg)], sent := s.sent[1..], taken := s.taken[t := s.sent[0]])
  }

  lemma TakesMessage(s: State, t: Tid)
    requires Good(s) && s.m.entry > 0 && (At(s.phase, t).Idle? || At(s.phase, t).RecvWoken?)
    ensures s.m.head.Some? && s.m.head.value in s.m.next && s.v.queue != [] && s.sent != []
    ensures Good(HeadTaken(s, t))
  {
    hide LinksOk, ThreadsOk, BytesOk, Served;
    FreeIff(s.m, s.v);
    Unlink(s.m, s.v, t);
    ReceiverGetsSlot(s.phase, s.v.owner, s.w, t, s.m.head.value, Holding(s.m.head.value));
    ServedTake(s.w.receivers, s.w.wokenR, s.m.entry, t);
    QueueShrinks(StoreOf(s), t);
  }

  /** The state after thread `t` has given its slot back. */
  function SlotFreed(s: State, t: Tid): State
    requires At(s.phase, t).Holding?
  {
    var msg, m := At(s.phase, t).slot, s.m;
    s.(m := m.(next := m.next[msg := m.free], free := Some(msg)),
       v := View(s.v.owner[msg := InFree], [msg] + s.v.free, s.v.queue), phase := s.phase[t := Idle])
  }

  lemma FreesSlot(s: State, t: Tid)
    requires Good(s) && At(s.phase, t).Holding?
    ensures Freed(SlotFreed(s, t))
    ensures forall max: nat :: PoolIs(s.m.next, max) ==> PoolIs(SlotFreed(s, t).m.next, max)
  {
    hide LinksOk, ThreadsOk, BytesOk, Served;
    var msg, r, b := At(s.phase, t).slot, SlotFreed(s, t), StoreOf(s);
    FreeIff(s.m, s.v);
    GivesSlot(s.phase, s.v.owner, s.w, t, InFree);
    PutBack(s.m, s.v, msg);
    PhaseMoves(b, t, Idle);
    OnlyOwner(r.phase, r.v.owner, s.w, msg);
    LinkWritten(b.(phase := r.phase), msg, s.m.free);
  }

  /** What the threads do once the first sender has been resumed, if there is one. */
  function SenderWoken(phase: map<Tid, Phase>, senders: seq<Tid>): map<Tid, Phase> {
    if senders == [] then phase else phase[senders[0] := Resumed(At(phase, senders[0]))]
  }

  lemma ServedWithout(list: seq<Tid>, woken: set<Tid>, units: nat, t: Tid)
    requires Served(list, woken, units)
    ensures Served(Removed(list, t), woken, units)
  {
  }

  lemma ListsArePhases(s: State)
    requires Good(s)
    ensures forall x :: x in s.w.receivers <==> At(s.phase, x).RecvWait?
    ensures forall x :: x in s.w.senders <==> At(s.phase, x).SendWait?
  {
    forall x ensures x in s.w.receivers <==> At(s.phase, x).RecvWait?
      ensures x in s.w.senders <==> At(s.phase, x).SendWait?
    {
      assert ThreadOk(s.phase, s.v.owner, s.w, x);
    }
  }

  lemma FirstReceiver(s: State)
    requires Good(s) && s.w.receivers != []
    ensures var r := s.w.receivers;
      && At(s.phase, r[0]).RecvWait? && Removed(r, r[0]) == r[1..] && Removed(s.w.senders, r[0]) == s.w.senders
      && forall x :: x in r[1..] <==> x in r && x != r[0]
  {
    ListsArePhases(s);
    assert s.w.receivers[0] in s.w.receivers;
    RemovedAbsent(s.w.senders, s.w.receivers[0]);
    RestMembers(s.w.receivers);
  }

  lemma FirstSender(s: State)
    requires Good(s) && s.w.senders != []
    ensures var r := s.w.senders;
      && At(s.phase, r[0]).SendWait? && Removed(r, r[0]) == r[1..] && Removed(s.w.receivers, r[0]) == s.w.receivers
      && forall x :: x in r[1..] <==> x in r && x != r[0]
  {
    ListsArePhases(s);
    assert s.w.senders[0] in s.w.senders;
    RemovedAbsent(s.w.receivers, s.w.senders[0]);
    RestMembers(s.w.senders);
  }

  /** A waiting thread is resumed with an error. */
  lemma FailFirst(s: State, t: Tid)
    requires Good(s) && (At(s.phase, t).RecvWait? || At(s.phase, t).SendWait?)
    ensures Good(s.(w := Waits(Removed(s.w.receivers, t), Removed(s.w.senders, t), s.w.wokenR, s.w.wokenS),
                    phase := s.phase[t := Failed]))
  {
    hide LinksOk, ThreadsOk, BytesOk, Served, Removed;
    WaitFails(s.phase, s.v.owner, s.w, t);
    PhaseMoves(StoreOf(s), t, Failed);
    ServedWithout(s.w.receivers, s.w.wokenR, s.m.entry, t);
    ServedWithout(s.w.senders, s.w.wokenS, |s.v.free|, t);
  }

  /** The state after one turn of the reset loop. */
  ghost function HeadDrained(s: State): State
    requires s.m.head.Some? && s.m.head.value in s.m.next && s.m.entry > 0 && s.v.queue != [] && s.sent != []
  {
    var msg, m := s.m.head.value, s.m;
    s.(m := Lists(m.next[msg := m.free], m.next[msg], TailWithout(m.tail, msg), Some(msg), m.entry - 1),
       v := View(s.v.owner[msg := InFree], [msg] + s.v.free, s.v.queue[1..]), sent := s.sent[1..])
  }

  lemma QueuedToFree(phase: map<Tid, Phase>, owner: map<Slot, Owner>, w: Waits, s: Slot)
    requires ThreadsOk(phase, owner, w) && s in owner && owner[s] == InQueue
    ensures ThreadsOk(phase, owner[s := InFree], w)
  {
    var owner' := owner[s := InFree];
    forall t ensures ThreadOk(phase, owner', w, t) {
      assert ThreadOk(phase, owner, w, t);
    }
    forall y | y in owner' && owner'[y].InFlight? ensures HeldBy(phase, owner'[y].t, y) {
      assert HeldBy(phase, owner[y].t, y);
    }
  }

  lemma ServedNobody(woken: set<Tid>, units: nat)
    ensures Served([], woken, units)
  {
  }

  lemma DrainOne(s: State)
    requires Good(s) && s.m.head.Some? && s.w.receivers == [] && s.w.senders == []
    ensures s.m.head.value in s.m.next && s.m.entry > 0 && s.v.queue != [] && s.sent != []
    ensures Good(HeadDrained(s))
  {
    hide ThreadsOk, BytesOk, Served, LinksOk;
    var msg, b := s.m.head.value, StoreOf(s);
    FreeIff(s.m, s.v);
    Drain(s.m, s.v);
    OnlyOwner(s.phase, s.v.owner, s.w, msg);
    LinkWritten(b, msg, s.m.free);
    QueueDrops(b.(next := s.m.next[msg := s.m.free]));
    QueuedToFree(s.phase, s.v.owner, s.w, msg);
    ServedNobody(s.w.wokenR, s.m.entry - 1);
    ServedNobody(s.w.wokenS, |s.v.free| + 1);
  }

  lemma EntryIs(s: State)
    requires Good(s)
    ensures s.m.entry == |s.v.queue|
  {
  }

  lemma Drained(s: State)
    requires Good(s) && s.m.head.None?
    ensures s.m.entry == 0 && s.sent == [] && s.m.tail.None?
  {
    SentIs(StoreOf(s));
    FreeIff(s.m, s.v);
    HeadIffTail(s.m, s.v);
  }

  lemma ServedNone(list: seq<Tid>, woken: set<Tid>)
    ensures Served(list, woken, 0)
  {
  }

  class MessageQueue {
    const max: nat
    const msgSize: nat
    const flag: Flag
    const prio: Priorities
    var next: Links                  // the next fields of the slots
    var data: map<Slot, Bytes>       // the bytes after each slot header
    var head: Option<Slot>
    var tail: Option<Slot>
    var free: Option<Slot>
    var entry: nat
    var receivers: seq<Tid>          // parent.suspend_thread
    var senders: seq<Tid>            // suspend_sender_thread
    var phase: map<Tid, Phase>       // where each thread is
    ghost var view: View
    ghost var wokenR: set<Tid>
    ghost var wokenS: set<Tid>
    ghost var sent: seq<Bytes>
    ghost var taken: map<Tid, Bytes>

    ghost function L(): Lists reads `next, `head, `tail, `free, `entry { Lists(next, head, tail, free, entry) }

    ghost function W(): Waits reads `receivers, `senders, `wokenR, `wokenS { Waits(receivers, senders, wokenR, wokenS) }

    ghost function S(): State reads this {
      State(Lists(next, head, tail, free, entry), view, Waits(receivers, senders, wokenR, wokenS),
            phase, data, msgSize, sent, taken)
    }

    ghost function B(): Store reads `phase, `next, `data, `view, `sent, `taken {
      Store(phase, next, data, msgSize, view.queue, sent, taken)
    }

    ghost predicate Valid() reads this { Good(S()) && PoolIs(next, max) }

    constructor (max: nat, msgSize: nat, flag: Flag, prio: Priorities)
      ensures Valid() && sent == [] && phase == map[] && entry == 0 && head.None?
      ensures this.max == max && this.msgSize == msgSize && this.flag == flag && this.prio == prio
      ensures forall s :: s in view.owner <==> s.index < max
      ensures forall s :: s in view.owner ==> view.owner[s] == InFree
    {
      this.max, this.msgSize, this.flag, this.prio := max, msgSize, flag, prio;
      receivers, senders, phase := [], [], map[];
      wokenR, wokenS, sent, taken := {}, {}, [], map[];
      next, data := map[], map[];
      head, tail, free, entry := None, None, None, 0;
      view := View(map[], [], []);
      new;
      hide Good, LinksOk;
      InitialisedNone(msgSize);
      InitSlots();
      InitialisedGood(L(), view, data, msgSize, max);
    }

    /** The loop of rt_mq_init. */
    method InitSlots()
      requires Initialised(L(), view, data, msgSize, 0)
      modifies `next, `data, `free, `view
      ensures Initialised(L(), view, data, msgSize, max)
    {
      hide Initialised;
      var temp := 0;
      while temp < max
        invariant 0 <= temp <= max && Initialised(L(), view, data, msgSize, temp)
      {
        var h := Slot(temp);
        var bytes := seq(msgSize, _ => 0);
        InitialisedNext(L(), view, data, msgSize, temp, bytes);
        next, data := next[h := free], data[h := bytes];
        free := Some(h);
        view := View(view.owner[h := InFree], [h] + view.free, view.queue);
        temp := temp + 1;
      }
    }

    /** A thread that finds no free slot, or no message, and does not wait. */
    method GiveUp(t: Tid)
      requires Valid()
      requires At(phase, t).Idle? || At(phase, t).Failed? || (At(phase, t).SendWoken? && free.None?)
        || (At(phase, t).RecvWoken? && entry == 0)
      modifies `phase, `wokenR, `wokenS
      ensures Valid() && phase == old(phase)[t := Idle]
    {
      hide PoolIs, LinksOk, ThreadsOk, BytesOk, Served;
      FreeIff(L(), view);
      ghost var v, w := view, W();
      Leaves(phase, v.owner, w, t);
      PhaseMoves(B(), t, Idle);
      NoneWoken(w, t, phase, v.owner);
      ServedNone(senders, wokenS - {t});
      ServedNone(receivers, wokenR - {t});
      phase, wokenR, wokenS := phase[t := Idle], wokenR - {t}, wokenS - {t};
    }

    /** A thread that finds no free slot and waits. */
    method WaitForSlot(t: Tid, buf: Bytes)
      requires Valid() && |buf| <= msgSize && free.None? && (At(phase, t).Idle? || At(phase, t).SendWoken?)
      modifies `phase, `senders, `wokenS
      ensures Valid() && phase == old(phase)[t := SendWait(buf)] && senders == Inserted(old(senders), prio, t, flag)
    {
      hide PoolIs, LinksOk, ThreadsOk, BytesOk, Served, Inserted;
      FreeIff(L(), view);
      WaitsToSend(phase, view.owner, W(), t, buf, prio, flag);
      PhaseMoves(B(), t, SendWait(buf));
      senders := Suspend(senders, prio, t, flag);
      phase, wokenS := phase[t := SendWait(buf)], wokenS - {t};
      ServedNone(senders, wokenS);
    }

    /** mq->msg_queue_free = msg->next: the thread now owns the slot. */
    method TakeSlot(t: Tid, buf: Bytes, urgent: bool)
      requires Valid() && |buf| <= msgSize && free.Some? && (At(phase, t).Idle? || At(phase, t).SendWoken?)
      modifies `phase, `free, `view, `wokenS
      ensures Valid() && phase == old(phase)[t := Claimed(old(free).value, buf, urgent)]
    {
      hide PoolIs, LinksOk, ThreadsOk, BytesOk, Served;
      FreeIff(L(), view);
      ghost var v, w := view, W();
      var msg := free.value;
      var q := Claimed(msg, buf, urgent);
      Claim(L(), v, t);
      SenderGetsSlot(phase, v.owner, w, t, msg, q);
      PhaseMoves(B(), t, q);
      ServedTake(senders, wokenS, |v.free|, t);
      free := next[msg];
      view := View(v.owner[msg := InFlight(t)], v.free[1..], v.queue);
      phase, wokenS := phase[t := q], wokenS - {t};
    }

    /** The critical section of rt_mq_send_wait that waits for a free slot and claims it, entered for
        the first time or after having been resumed. */
    method SendTry(t: Tid, buf: Bytes, timeout: int) returns (o: Outcome)
      requires Valid() && |buf| <= msgSize && (At(phase, t).Idle? || At(phase, t) == SendWoken(buf))
      modifies `phase, `free, `view, `wokenR, `wokenS, `senders
      ensures Valid()
      ensures o == if old(free).Some? then Proceed else if timeout == 0 then Full else Suspended
      ensures !o.Proceed? ==> free == old(free)
      ensures o.Full? ==> phase == old(phase)[t := Idle] && senders == old(senders)
      ensures o.Suspended? ==>
        phase == old(phase)[t := SendWait(buf)] && senders == Inserted(old(senders), prio, t, flag)
      ensures o.Proceed? ==> phase == old(phase)[t := Claimed(old(free).value, buf, false)] && senders == old(senders)
    {
      hide Valid, Inserted;
      if free.None? {
        if timeout == 0 {
          GiveUp(t);
          return Full;
        }
        WaitForSlot(t, buf);
        return Suspended;
      }
      TakeSlot(t, buf, false);
      return Proceed;
    }

    /** The entry of rt_mq_send_wait. */
    method Send(t: Tid, buf: Bytes, timeout: int) returns (o: Outcome)
      requires Valid() && At(phase, t).Idle?
      modifies `phase, `free, `view, `wokenR, `wokenS, `senders
      ensures Valid()
      ensures o == if |buf| > msgSize then Error else if old(free).Some? then Proceed else if timeout == 0 then Full
        else Suspended
      ensures o.Error? ==> phase == old(phase) && senders == old(senders)
      ensures !o.Proceed? ==> free == old(free)
      ensures o.Full? ==> phase == old(phase)[t := Idle] && senders == old(senders)
      ensures o.Suspended? ==>
        phase == old(phase)[t := SendWait(buf)] && senders == Inserted(old(senders), prio, t, flag)
      ensures o.Proceed? ==> phase == old(phase)[t := Claimed(old(free).value, buf, false)] && senders == old(senders)
    {
      hide Valid, Inserted;
      if |buf| > msgSize {
        return Error;
      }
      o := SendTry(t, buf, timeout);
    }

    /** The first part of rt_mq_urgent. */
    method Urgent(t: Tid, buf: Bytes) returns (o: Outcome)
      requires Valid() && At(phase, t).Idle?
      modifies `phase, `free, `view, `wokenS
      ensures Valid()
      ensures o == if |buf| > msgSize then Error else if old(free).None? then Full else Proceed
      ensures o.Proceed? ==> phase == old(phase)[t := Claimed(old(free).value, buf, true)]
      ensures !o.Proceed? ==> phase == old(phase) && free == old(free)
    {
      hide Valid;
      if |buf| > msgSize {
        return Error;
      }
      if free.None? {
        return Full;
      }
      TakeSlot(t, buf, true);
      return Proceed;
    }

    /** The copy into the claimed slot, outside the critical sections; only rt_mq_send_wait clears the
        link here. */
    method Fill(t: Tid)
      requires Valid() && At(phase, t).Claimed?
      modifies `phase, `next, `data
      ensures Valid()
      ensures var q := old(At(phase, t)); phase == old(phase)[t := Filled(q.slot, q.buf, q.urgent)]
    {
      hide PoolIs, LinksOk, ThreadsOk, BytesOk, Served;
      FreeIff(L(), view);
      ghost var v, w := view, W();
      var q := At(phase, t);
      var r := Filled(q.slot, q.buf, q.urgent);
      KeepsSlot(phase, v.owner, w, t, r);
      PhaseAt(B(), t);
      OnlyOwner(phase, v.owner, w, q.slot);
      if !q.urgent {
        Scribble(L(), v, q.slot, None);
        LinkWritten(B(), q.slot, None);
        PoolKept(next, max, q.slot, None);
        next := next[q.slot := None];
      }
      var b := q.buf + data[q.slot][|q.buf|..];
      CopiedIn(B(), L(), v, w, t, b);
      data := data[q.slot := b];
      PhaseMoves(B(), t, r);
      phase := phase[t := r];
    }

    /** rt_ipc_list_resume of the first waiting receiver, if there is one, for a message just linked. */
    method WakeReceiver()
      requires Linked(S()) && PoolIs(next, max)
      modifies `phase, `receivers, `wokenR
      ensures Valid()
      ensures receivers == AfterGive(old(receivers)) && phase == Woken(old(phase), old(receivers))
    {
      hide PoolIs, LinksOk, ThreadsOk, BytesOk;
      if receivers != [] {
        var r := receivers[0];
        ReceiverWakes(phase, view.owner, W());
        PhaseMoves(B(), r, RecvWoken);
        ServedResume(receivers, wokenR, entry - 1);
        phase, receivers, wokenR := phase[r := RecvWoken], receivers[1..], wokenR + {r};
      }
    }

    /** The second critical section of rt_mq_send_wait. */
    method LinkAtTail(t: Tid)
      requires Valid() && At(phase, t).Filled? && !At(phase, t).urgent
      modifies `phase, `next, `head, `tail, `entry, `view, `receivers, `wokenR, `sent
      ensures Valid() && sent == old(sent) + [old(At(phase, t).buf)]
      ensures entry == old(entry) + 1 && tail == Some(old(At(phase, t).slot))
      ensures receivers == if old(receivers) == [] then [] else old(receivers)[1..]
      ensures phase == if old(receivers) == [] then old(phase)[t := Idle]
                       else old(phase)[t := Idle][old(receivers)[0] := RecvWoken]
    {
      hide PoolIs, Good, Linked;
      Append(t);
      WakeReceiver();
    }

    /** The slot is linked behind the tail. */
    method Append(t: Tid)
      requires Valid() && At(phase, t).Filled? && !At(phase, t).urgent
      modifies `phase, `next, `head, `tail, `entry, `view, `sent
      ensures Linked(S()) && PoolIs(next, max) && S() == old(TailLinked(S(), t))
    {
      hide PoolIs, Good, Linked;
      LinksAtTail(S(), t);
      ghost var s := TailLinked(S(), t);
      var msg := At(phase, t).slot;
      next := if tail.Some? then next[tail.value := Some(msg)] else next;
      tail, head, entry := Some(msg), if head.None? then Some(msg) else head, entry + 1;
      phase := phase[t := Idle];
      RecordQueue(s.v, s.sent);
    }

    /** The second critical section of rt_mq_urgent. */
    method LinkAtHead(t: Tid)
      requires Valid() && At(phase, t).Filled? && At(phase, t).urgent
      modifies `phase, `next, `head, `tail, `entry, `view, `receivers, `wokenR, `sent
      ensures Valid() && sent == [old(At(phase, t).buf)] + old(sent)
      ensures entry == old(entry) + 1 && head == Some(old(At(phase, t).slot))
      ensures receivers == if old(receivers) == [] then [] else old(receivers)[1..]
      ensures phase == if old(receivers) == [] then old(phase)[t := Idle]
                       else old(phase)[t := Idle][old(receivers)[0] := RecvWoken]
    {
      hide PoolIs, Good, Linked;
      Prepend(t);
      WakeReceiver();
    }

    /** The slot is linked in front of the head. */
    method Prepend(t: Tid)
      requires Valid() && At(phase, t).Filled? && At(phase, t).urgent
      modifies `phase, `next, `head, `tail, `entry, `view, `sent
      ensures Linked(S()) && PoolIs(next, max) && S() == old(HeadLinked(S(), t))
    {
      hide PoolIs, Good, Linked;
      LinksAtHead(S(), t);
      ghost var s := HeadLinked(S(), t);
      var msg := At(phase, t).slot;
      next := next[msg := head];
      head := Some(msg);
      tail, entry := if tail.None? then Some(msg) else tail, entry + 1;
      phase := phase[t := Idle];
      RecordQueue(s.v, s.sent);
    }

    /** A thread that finds no message and waits. */
    method WaitForMessage(t: Tid)
      requires Valid() && entry == 0 && (At(phase, t).Idle? || At(phase, t).RecvWoken?)
      modifies `phase, `receivers, `wokenR
      ensures Valid() && phase == old(phase)[t := RecvWait] && receivers == Inserted(old(receivers), prio, t, flag)
    {
      hide PoolIs, LinksOk, ThreadsOk, BytesOk, Served, Inserted;
      WaitsToReceive(phase, view.owner, W(), t, prio, flag);
      PhaseMoves(B(), t, RecvWait);
      receivers := Suspend(receivers, prio, t, flag);
      phase, wokenR := phase[t := RecvWait], wokenR - {t};
      ServedNone(receivers, wokenR);
    }

    /** The thread unlinks the message at the head of the queue. */
    method TakeMessage(t: Tid)
      requires Valid() && entry > 0 && (At(phase, t).Idle? || At(phase, t).RecvWoken?)
      modifies `phase, `head, `tail, `entry, `view, `wokenR, `sent, `taken
      ensures Valid() && S() == old(HeadTaken(S(), t))
    {
      hide PoolIs, Good, TailWithout, At;
      TakesMessage(S(), t);
      ghost var s := HeadTaken(S(), t);
      var msg := head.value;
      UnlinkHead(msg);
      phase := phase[t := Holding(msg)];
      Record(s);
    }

    ghost method RecordQueue(v: View, messages: seq<Bytes>)
      modifies `view, `sent
      ensures view == v && sent == messages
    {
      view, sent := v, messages;
    }

    /** The ghost fields follow the state. */
    ghost method Record(s: State)
      modifies `view, `wokenR, `taken, `sent
      ensures view == s.v && wokenR == s.w.wokenR && taken == s.taken && sent == s.sent
    {
      view, wokenR, taken, sent := s.v, s.w.wokenR, s.taken, s.sent;
    }

    /** The head and tail pointers move on and the counter goes down. */
    method UnlinkHead(msg: Slot)
      requires msg in next && entry > 0
      modifies `head, `tail, `entry
      ensures head == next[msg] && tail == TailWithout(old(tail), msg) && entry == old(entry) - 1
    {
      head := next[msg];
      if tail == Some(msg) {
        tail := None;
      }
      entry := entry - 1;
    }

    /** The critical section of rt_mq_recv that waits for a message and unlinks it, entered for the
        first time or after having been resumed. */
    method Receive(t: Tid, timeout: int) returns (o: Outcome)
      requires Valid() && (At(phase, t).Idle? || At(phase, t).RecvWoken?)
      modifies `phase, `head, `tail, `entry, `view, `receivers, `wokenR, `wokenS, `sent, `taken
      ensures Valid()
      ensures o == if old(sent) != [] then Proceed else if timeout == 0 then TimedOut else Suspended
      ensures !o.Proceed? ==> sent == old(sent) && taken == old(taken)
      ensures !o.Proceed? ==> head == old(head) && tail == old(tail) && entry == old(entry)
      ensures o.TimedOut? ==> phase == old(phase)[t := Idle] && receivers == old(receivers)
      ensures o.Suspended? ==>
        phase == old(phase)[t := RecvWait] && receivers == Inserted(old(receivers), prio, t, flag)
      ensures o.Proceed? ==>
        sent == old(sent)[1..] && taken == old(taken)[t := old(sent)[0]] && receivers == old(receivers)
      ensures o.Proceed? ==> At(phase, t).Holding?
    {
      hide PoolIs, LinksOk, ThreadsOk, BytesOk, Served, Inserted;
      FreeIff(L(), view);
      SentIs(B());
      if entry > 0 { TakesMessage(S(), t); }
      if entry == 0 {
        if timeout == 0 {
          GiveUp(t);
          return TimedOut;
        }
        WaitForMessage(t);
        return Suspended;
      }
      TakeMessage(t);
      return Proceed;
    }

    /** The copy out of the slot, outside the critical sections: what is returned is what was sent in
        the message that was at the head of the queue, up to the shorter of the two lengths. */
    method CopyOut(t: Tid, size: nat) returns (buffer: Bytes)
      requires Valid() && At(phase, t).Holding?
      ensures |buffer| == if size > msgSize then msgSize else size
      ensures t in taken && |taken[t]| <= msgSize
      ensures buffer <= taken[t] || taken[t] <= buffer
    {
      PhaseAt(B(), t);
      var n := if size > msgSize then msgSize else size;
      buffer := data[At(phase, t).slot][..n];
    }

    /** The last critical section of rt_mq_recv: the slot goes back to the free list and the first
        waiting sender is resumed. */
    method Release(t: Tid)
      requires Valid() && At(phase, t).Holding?
      modifies `phase, `next, `free, `view, `senders, `wokenS
      ensures Valid() && free == Some(old(At(phase, t).slot))
      ensures senders == (if old(senders) == [] then [] else old(senders)[1..]) && At(phase, t).Idle?
      ensures forall x :: x != t && (old(senders) == [] || x != old(senders)[0]) ==> At(phase, x) == At(old(phase), x)
      ensures old(senders) != [] && old(senders)[0] != t ==> forall buf ::
        At(old(phase), old(senders)[0]) == SendWait(buf) ==> At(phase, old(senders)[0]) == SendWoken(buf)
      ensures t !in old(senders) && forall x :: x in old(senders) ==> At(old(phase), x).SendWait?
    {
      hide PoolIs, Good, Freed;
      ListsArePhases(S());
      PutSlotBack(t);
      WakeSender();
    }

    /** The slot becomes the first of the free list. */
    method PutSlotBack(t: Tid)
      requires Valid() && At(phase, t).Holding?
      modifies `phase, `next, `free, `view
      ensures Freed(S()) && PoolIs(next, max) && S() == old(SlotFreed(S(), t))
    {
      hide PoolIs, Good, Freed;
      FreesSlot(S(), t);
      ghost var s := SlotFreed(S(), t);
      var msg := At(phase, t).slot;
      next := next[msg := free];
      free := Some(msg);
      phase := phase[t := Idle];
      view := s.v;
    }

    /** rt_ipc_list_resume of the first waiting sender, if there is one, for a slot just freed. */
    method WakeSender()
      requires Freed(S()) && PoolIs(next, max)
      modifies `phase, `senders, `wokenS
      ensures Valid() && senders == AfterGive(old(senders)) && phase == SenderWoken(old(phase), old(senders))
    {
      hide PoolIs, LinksOk, ThreadsOk, BytesOk;
      if senders != [] {
        var r := senders[0];
        SenderWakes(phase, view.owner, W());
        PhaseAt(B(), r);
        var q := SendWoken(At(phase, r).buf);
        PhaseMoves(B(), r, q);
        ServedResume(senders, wokenS, |view.free| - 1);
        phase, senders, wokenS := phase[r := q], senders[1..], wokenS + {r};
      }
    }

    /** rt_thread_timeout for a thread that waits on this queue. */
    method Timeout(t: Tid)
      requires Valid() && (At(phase, t).RecvWait? || At(phase, t).SendWait?)
      modifies `phase, `receivers, `senders
      ensures Valid() && phase == old(phase)[t := Failed]
      ensures receivers == Removed(old(receivers), t) && senders == Removed(old(senders), t)
    {
      hide PoolIs, LinksOk, ThreadsOk, BytesOk, Served, Removed;
      WaitFails(phase, view.owner, W(), t);
      PhaseMoves(B(), t, Failed);
      ServedWithout(receivers, wokenR, entry, t);
      ServedWithout(senders, wokenS, |view.free|, t);
      phase, receivers, senders := phase[t := Failed], Removed(receivers, t), Removed(senders, t);
    }

    /** rt_ipc_list_resume_all for the receivers. */
    method FailReceivers()
      requires Valid()
      modifies `phase, `receivers
      ensures Valid() && receivers == []
      ensures forall x :: At(phase, x) == if x in old(receivers) then Failed else At(old(phase), x)
    {
      hide PoolIs, Good;
      while receivers != []
        invariant Valid()
        invariant forall x :: x in receivers ==> x in old(receivers)
        invariant forall x :: x in old(receivers) && x !in receivers ==> At(phase, x).Failed?
        invariant forall x :: x !in old(receivers) || x in receivers ==> At(phase, x) == At(old(phase), x)
        decreases |receivers|
      {
        FirstReceiver(S());
        FailFirst(S(), receivers[0]);
        phase, receivers := phase[receivers[0] := Failed], receivers[1..];
      }
    }

    method FailSenders()
      requires Valid()
      modifies `phase, `senders
      ensures Valid() && senders == []
      ensures forall x :: At(phase, x) == if x in old(senders) then Failed else At(old(phase), x)
    {
      hide PoolIs, Good;
      while senders != []
        invariant Valid()
        invariant forall x :: x in senders ==> x in old(senders)
        invariant forall x :: x in old(senders) && x !in senders ==> At(phase, x).Failed?
        invariant forall x :: x !in old(senders) || x in senders ==> At(phase, x) == At(old(phase), x)
        decreases |senders|
      {
        FirstSender(S());
        FailFirst(S(), senders[0]);
        phase, senders := phase[senders[0] := Failed], senders[1..];
      }
    }

    /** The loop of the reset command that frees every queued message. */
    method DrainQueue()
      requires Valid() && receivers == [] && senders == []
      modifies `next, `head, `tail, `free, `entry, `view, `sent
      ensures Valid() && sent == [] && head.None? && tail.None? && entry == 0
    {
      hide Good, PoolIs;
      ghost var s := S();
      EntryIs(s);
      while head != None
        invariant PoolIs(next, max) && Good(s) && s == S().(m := L().(entry := s.m.entry))
        invariant receivers == [] && senders == []
        decreases |view.queue|
      {
        DrainOne(s);
        var msg := head.value;
        PoolKept(next, max, msg, free);
        head, tail, free, next := next[msg], TailWithout(tail, msg), Some(msg), next[msg := free];
        s := HeadDrained(s);
        RecordQueue(s.v, s.sent);
      }
      Drained(s);
      entry := 0;
    }

    /** rt_mq_control with RT_IPC_CMD_RESET: every waiting thread fails, the queue becomes empty, and the
        slots that threads have are not touched. */
    method Reset()
      requires Valid()
      modifies this
      ensures Valid() && sent == [] && taken == old(taken) && entry == 0 && receivers == [] && senders == []
      ensures forall x ::
        At(phase, x) == if At(old(phase), x).RecvWait? || At(old(phase), x).SendWait? then Failed else At(old(phase), x)
    {
      hide PoolIs, Good;
      ListsArePhases(S());
      FailReceivers();
      FailSenders();
      DrainQueue();
    }
  }

  /* What follows from the invariant in every reachable state. */

  lemma NoMembers(s: set<Tid>)
    requires forall x :: x !in s
    ensures |s| == 0
  {
    assert s == {};
  }

  /** With no resumed receiver still to run, receivers wait only for an empty queue; with no resumed
      sender still to run, senders wait only when no slot is free. */
  lemma NoLostWakeUp(s: State)
    requires Good(s)
    ensures s.w.receivers != [] ==> |s.sent| <= |s.w.wokenR|
    ensures s.w.senders != [] ==> |s.v.free| <= |s.w.wokenS|
    ensures (forall x :: !At(s.phase, x).RecvWoken?) && (exists x :: At(s.phase, x).RecvWait?) ==>
      s.sent == [] && s.m.head.None? && s.m.tail.None?
    ensures (forall x :: !At(s.phase, x).SendWoken?) && (exists x :: At(s.phase, x).SendWait?) ==> s.m.free.None?
  {
    ListsArePhases(s);
    SentIs(StoreOf(s));
    FreeIff(s.m, s.v);
    HeadIffTail(s.m, s.v);
    forall x ensures x in s.w.wokenR <==> At(s.phase, x).RecvWoken?
      ensures x in s.w.wokenS <==> At(s.phase, x).SendWoken?
    {
      assert ThreadOk(s.phase, s.v.owner, s.w, x);
    }
    hide LinksOk, ThreadsOk, BytesOk;
    if forall x :: !At(s.phase, x).RecvWoken? { NoMembers(s.w.wokenR); }
    if forall x :: !At(s.phase, x).SendWoken? { NoMembers(s.w.wokenS); }
  }

  /* Every slot is free, queued, or with exactly one thread. */

  function InFlightSlots(owner: map<Slot, Owner>): set<Slot> { set s | s in owner && owner[s].InFlight? }

  lemma SplitPool(v: View)
    requires Partition(v.owner, v.free, v.queue)
    ensures |v.owner.Keys| == |Elements(v.free)| + |Elements(v.queue)| + |InFlightSlots(v.owner)|
  {
    var a, b, c := Elements(v.free), Elements(v.queue), InFlightSlots(v.owner);
    hide NoDup;
    assert a * b == {} && (a + b) * c == {};
    assert v.owner.Keys == a + b + c;
  }

  lemma {:induction false} PoolSize(pool: set<Slot>, n: nat)
    requires forall s :: s in pool <==> s.index < n
    ensures |pool| == n
  {
    if n == 0 {
      assert pool == {};
    } else {
      var rest := pool - {Slot(n - 1)};
      PoolSize(rest, n - 1);
      assert Slot(n - 1) in pool;
      assert |rest| == |pool| - 1;
    }
  }

  /** Slots are conserved: free slots, queued slots and slots in flight add up to the pool, and each slot
      in flight is with the one thread that owns it. */
  lemma Conserved(m: Lists, v: View, w: Waits, phase: map<Tid, Phase>, max: nat)
    requires LinksOk(m, v) && ThreadsOk(phase, v.owner, w) && PoolIs(m.next, max)
    ensures |v.free| + |v.queue| + |InFlightSlots(v.owner)| == max
    ensures forall s :: s in InFlightSlots(v.owner) <==> exists t :: HeldBy(phase, t, s)
    ensures forall s, t, u :: HeldBy(phase, t, s) && HeldBy(phase, u, s) ==> t == u
  {
    ElementsSize(v.free);
    ElementsSize(v.queue);
    SplitPool(v);
    PoolSize(v.owner.Keys, max);
    forall s, t | HeldBy(phase, t, s) ensures s in v.owner && v.owner[s] == InFlight(t) {
      assert ThreadOk(phase, v.owner, w, t);
    }
    forall s | s in InFlightSlots(v.owner) ensures exists t :: HeldBy(phase, t, s) {
      assert HeldBy(phase, v.owner[s].t, s);
    }
  }
}
