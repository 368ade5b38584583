/** The mailbox of `src/ipc.c`: a ring buffer with waiting senders and receivers. Each method is one critical
    section, so a run of a system of threads is any sequence of calls. */
module Mailbox {
  import opened Activity
  import opened Seqs
  import opened Threads
  import opened WaitList

  datatype Outcome = Done | Full | Empty | Suspended

  /** A mail: rt_ubase_t */
  type Value = bv32

  /** The place `i` steps after `at` in a ring of `n`. */
  function Step(at: nat, i: nat, n: nat): nat { if at + i < n then at + i else at + i - n }

  /** The ring holds `mails` from `out` on, and `in_` is the place after them. */
  ghost predicate RingOk(pool: seq<Value>, in_: nat, out: nat, mails: seq<Value>) {
    && |mails| <= |pool|
    && (if |pool| == 0 then in_ == 0 && out == 0 else in_ < |pool| && out < |pool| && in_ == Step(out, |mails|, |pool|))
    && forall i :: 0 <= i < |mails| ==> Step(out, i, |pool|) < |pool| && pool[Step(out, i, |pool|)] == mails[i]
  }

  function Next(at: nat, n: nat): nat { if at + 1 >= n then 0 else at + 1 }

  lemma RingPut(pool: seq<Value>, in_: nat, out: nat, mails: seq<Value>, v: Value)
    requires RingOk(pool, in_, out, mails) && |mails| < |pool|
    ensures RingOk(pool[in_ := v], Next(in_, |pool|), out, mails + [v])
  {
    var pool', mails' := pool[in_ := v], mails + [v];
    forall i | 0 <= i < |mails'| ensures Step(out, i, |pool|) < |pool| && pool'[Step(out, i, |pool|)] == mails'[i] {
      if i < |mails| {
        assert pool[Step(out, i, |pool|)] == mails[i];
      }
    }
  }

  lemma RingTake(pool: seq<Value>, in_: nat, out: nat, mails: seq<Value>)
    requires RingOk(pool, in_, out, mails) && mails != []
    ensures out < |pool| && pool[out] == mails[0]
    ensures RingOk(pool, in_, Next(out, |pool|), mails[1..])
  {
    assert Step(out, 0, |pool|) == out;
    var out', mails' := Next(out, |pool|), mails[1..];
    forall i | 0 <= i < |mails'| ensures Step(out', i, |pool|) < |pool| && pool[Step(out', i, |pool|)] == mails'[i] {
      assert Step(out', i, |pool|) == Step(out, i + 1, |pool|);
      assert pool[Step(out, i + 1, |pool|)] == mails[i + 1];
    }
  }

  lemma HeadMoves(a: seq<Value>, b: seq<Value>)
    ensures b != [] ==> a + b == a + [b[0]] + b[1..]
    ensures b == [] ==> a + b == a
  {
  }

  lemma RingEmpty(pool: seq<Value>)
    ensures RingOk(pool, 0, 0, [])
  {
  }

  lemma EmptyBox(size: nat)
    ensures forall pool: seq<Value> :: |pool| == size ==> RingOk(pool, 0, 0, [])
    ensures QueueOk([], {}, 0) && QueueOk([], {}, size)
    ensures Known(map[], Receiving, [], {}) && Known(map[], Sending, [], {})
  {
  }

  /** Resuming the first thread of one side leaves the other side as it is. */
  lemma WakesOther(doing: Doings, side: Side, list: seq<Tid>, woken: set<Tid>,
                   other: Side, list2: seq<Tid>, woken2: set<Tid>, units: nat)
    requires Known(doing, side, list, woken) && Known(doing, other, list2, woken2) && side != other
      && QueueOk(list, woken, units)
    ensures Known(Woke(doing, side, list), side, AfterGive(list), WokenByGive(list, woken))
    ensures Known(Woke(doing, side, list), other, list2, woken2)
  {
    hide Known, QueueOk;
    QueueNoDup(list, woken, units);
    KnownWoke(doing, side, list, woken);
    if list != [] {
      KnownAside(doing, other, list2, woken2, list[0], Woken(side));
    }
  }

  lemma FirstGiven(doing: Doings, side: Side, list: seq<Tid>)
    ensures AfterGive(list) == if list == [] then [] else list[1..]
    ensures Woke(doing, side, list) == if list == [] then doing else doing[list[0] := Woken(side)]
  {
  }

  /** A thread that runs is not the one that is resumed. */
  lemma NotFirst(doing: Doings, side: Side, list: seq<Tid>, woken: set<Tid>, t: Tid)
    requires Known(doing, side, list, woken) && DoingOf(doing, t) == Runs
    ensures list != [] ==> list[0] != t
  {
    assert KnownAt(doing, side, list, woken, t);
  }

  lemma InBounds(pool: seq<Value>, in_: nat, out: nat, mails: seq<Value>)
    requires RingOk(pool, in_, out, mails) && |mails| < |pool|
    ensures in_ < |pool|
  {
  }

  class Mailbox {
    const pool: array<Value>              // msg_pool
    const flag: Flag
    const prio: Priorities
    var entry: nat
    var in_: nat                      // in_offset
    var out: nat                      // out_offset
    var receivers: seq<Tid>           // parent.suspend_thread
    var senders: seq<Tid>             // suspend_sender_thread
    ghost var mails: seq<Value>
    ghost var doing: Doings
    ghost var wokenR: set<Tid>
    ghost var wokenS: set<Tid>

    /** The mailbox is a bounded queue, and no wake-up is lost on either side. */
    ghost predicate Valid() reads this, pool {
      && RingOk(pool[..], in_, out, mails) && entry == |mails| <= pool.Length
      && QueueOk(receivers, wokenR, |mails|) && QueueOk(senders, wokenS, pool.Length - |mails|)
      && Known(doing, Receiving, receivers, wokenR) && Known(doing, Sending, senders, wokenS)
    }

    /** Thread `t` runs, and is in no call on this mailbox or comes back from waiting on the given side. */
    ghost predicate Enters(t: Tid, side: Side) reads `doing {
      DoingOf(doing, t) == Runs || DoingOf(doing, t) == Woken(side)
    }

    /** rt_mb_init */
    constructor (size: nat, flag: Flag, prio: Priorities)
      ensures Valid() && fresh(pool) && pool.Length == size && mails == [] && doing == map[]
      ensures this.flag == flag && this.prio == prio
    {
      hide RingOk, QueueOk, Known;
      EmptyBox(size);
      this.flag, this.prio := flag, prio;
      pool := new Value[size];
      entry, in_, out, receivers, senders := 0, 0, 0, [], [];
      mails, wokenR, wokenS, doing := [], {}, {}, map[];
    }

    /** The critical section of rt_mb_send_wait, entered for the first time or after having been resumed. */
    method Send(t: Tid, value: Value, timeout: int) returns (o: Outcome)
      requires Valid() && Enters(t, Sending)
      modifies this, pool
      ensures Valid()
      ensures o == if old(|mails|) < pool.Length then Done else if timeout == 0 then Full else Suspended
      ensures mails == if o.Done? then old(mails) + [value] else old(mails)
      ensures senders == if o.Suspended? then Inserted(old(senders), prio, t, flag) else old(senders)
      ensures receivers == if o.Done? && old(receivers) != [] then old(receivers)[1..] else old(receivers)
      ensures doing == match o
        case Suspended => old(doing)[t := Waits(Sending)]
        case Done => if old(receivers) == [] then old(doing)[t := Runs]
                     else old(doing)[t := Runs][old(receivers)[0] := Woken(Receiving)]
        case _ => old(doing)[t := Runs]
    {
      hide RingOk, QueueOk, Inserted, Known, Woke, AfterGive, WokenByGive;
      if entry == pool.Length {
        if timeout == 0 {
          QueueLeaves(senders, wokenS, t);
          KnownRuns(doing, Sending, senders, wokenS, t);
          KnownAside(doing, Receiving, receivers, wokenR, t, Runs);
          doing, wokenS := doing[t := Runs], wokenS - {t};
          return Full;
        }
        WaitToSend(t);
        return Suspended;
      }
      RingPut(pool[..], in_, out, mails, value);
      QueueTakes(senders, wokenS, pool.Length - |mails|, t);
      QueueGives(receivers, wokenR, |mails|);
      KnownRuns(doing, Sending, senders, wokenS, t);
      KnownAside(doing, Receiving, receivers, wokenR, t, Runs);
      WakesOther(doing[t := Runs], Receiving, receivers, wokenR, Sending, senders, wokenS - {t}, |mails|);
      InBounds(pool[..], in_, out, mails);
      Store(value);
      doing, wokenS := Woke(doing[t := Runs], Receiving, receivers), wokenS - {t};
      wokenR := WokenByGive(receivers, wokenR);
      FirstGiven(old(doing)[t := Runs], Receiving, receivers);
      if receivers != [] {
        receivers := receivers[1..];
      }
      return Done;
    }

    /** The mail is stored at the input offset, which advances. */
    method Store(value: Value)
      requires in_ < pool.Length
      modifies pool, `in_, `entry, `mails
      ensures pool[..] == old(pool[..])[old(in_) := value] && in_ == Next(old(in_), pool.Length)
      ensures entry == old(entry) + 1 && mails == old(mails) + [value]
    {
      pool[in_] := value;
      in_ := Next(in_, pool.Length);
      entry := entry + 1;
      mails := mails + [value];
    }

    /** A sender that finds no room and waits. */
    method WaitToSend(t: Tid)
      requires Valid() && Enters(t, Sending) && entry == pool.Length
      modifies `senders, `wokenS, `doing
      ensures Valid() && senders == Inserted(old(senders), prio, t, flag) && doing == old(doing)[t := Waits(Sending)]
    {
      hide RingOk, QueueOk, Inserted, Known;
      KnownRuns(doing, Sending, senders, wokenS, t);
      QueueNoDup(senders, wokenS, 0);
      SuspendedMembers(senders, prio, t, flag);
      QueueWaits(senders, wokenS, t, Inserted(senders, prio, t, flag));
      KnownWaits(doing, Sending, senders, wokenS, t, Inserted(senders, prio, t, flag));
      KnownAside(doing, Receiving, receivers, wokenR, t, Waits(Sending));
      senders := Suspend(senders, prio, t, flag);
      doing, wokenS := doing[t := Waits(Sending)], wokenS - {t};
    }

    /** The critical section of rt_mb_recv, entered for the first time or after having been resumed. */
    method Recv(t: Tid, timeout: int) returns (o: Outcome, value: Value)
      requires Valid() && Enters(t, Receiving)
      modifies this
      ensures Valid()
      ensures o == if old(mails) != [] then Done else if timeout == 0 then Empty else Suspended
      ensures o.Done? ==> value == old(mails)[0]
      ensures mails == if o.Done? then old(mails)[1..] else old(mails)
      ensures receivers == if o.Suspended? then Inserted(old(receivers), prio, t, flag) else old(receivers)
      ensures senders == if o.Done? && old(senders) != [] then old(senders)[1..] else old(senders)
      ensures doing == match o
        case Suspended => old(doing)[t := Waits(Receiving)]
        case Done => if old(senders) == [] then old(doing)[t := Runs]
                     else old(doing)[t := Runs][old(senders)[0] := Woken(Sending)]
        case _ => old(doing)[t := Runs]
    {
      hide RingOk, QueueOk, Inserted, Known, Woke, AfterGive, WokenByGive;
      if entry == 0 {
        if timeout == 0 {
          QueueLeaves(receivers, wokenR, t);
          KnownRuns(doing, Receiving, receivers, wokenR, t);
          KnownAside(doing, Sending, senders, wokenS, t, Runs);
          doing, wokenR := doing[t := Runs], wokenR - {t};
          return Empty, 0;
        }
        WaitToReceive(t);
        return Suspended, 0;
      }
      RingTake(pool[..], in_, out, mails);
      QueueTakes(receivers, wokenR, |mails|, t);
      QueueGives(senders, wokenS, pool.Length - |mails|);
      KnownRuns(doing, Receiving, receivers, wokenR, t);
      KnownAside(doing, Sending, senders, wokenS, t, Runs);
      WakesOther(doing[t := Runs], Sending, senders, wokenS, Receiving, receivers, wokenR - {t}, pool.Length - |mails|);
      value := pool[out];
      out := Next(out, pool.Length);
      entry := entry - 1;
      mails := mails[1..];
      doing, wokenR := Woke(doing[t := Runs], Sending, senders), wokenR - {t};
      wokenS := WokenByGive(senders, wokenS);
      FirstGiven(old(doing)[t := Runs], Sending, senders);
      if senders != [] {
        senders := senders[1..];
      }
      o := Done;
    }

    /** A receiver that finds no mail and waits. */
    method WaitToReceive(t: Tid)
      requires Valid() && Enters(t, Receiving) && entry == 0
      modifies `receivers, `wokenR, `doing
      ensures Valid() && receivers == Inserted(old(receivers), prio, t, flag)
        && doing == old(doing)[t := Waits(Receiving)]
    {
      hide RingOk, QueueOk, Inserted, Known;
      KnownRuns(doing, Receiving, receivers, wokenR, t);
      QueueNoDup(receivers, wokenR, 0);
      SuspendedMembers(receivers, prio, t, flag);
      QueueWaits(receivers, wokenR, t, Inserted(receivers, prio, t, flag));
      KnownWaits(doing, Receiving, receivers, wokenR, t, Inserted(receivers, prio, t, flag));
      KnownAside(doing, Sending, senders, wokenS, t, Waits(Receiving));
      receivers := Suspend(receivers, prio, t, flag);
      doing, wokenR := doing[t := Waits(Receiving)], wokenR - {t};
    }

    /** rt_thread_timeout for a thread that waits on this mailbox. */
    method Timeout(t: Tid)
      requires Valid() && DoingOf(doing, t).Waits?
      modifies `receivers, `senders, `doing
      ensures Valid() && doing == old(doing)[t := Failed]
      ensures receivers == Removed(old(receivers), t) && senders == Removed(old(senders), t)
    {
      hide RingOk, QueueOk, Removed, Known;
      QueueNoDup(receivers, wokenR, |mails|);
      QueueNoDup(senders, wokenS, pool.Length - |mails|);
      QueueFails(receivers, wokenR, |mails|, t);
      QueueFails(senders, wokenS, pool.Length - |mails|, t);
      KnownFails(doing, Receiving, receivers, wokenR, t);
      KnownFails(doing, Sending, senders, wokenS, t);
      receivers, senders := Removed(receivers, t), Removed(senders, t);
      doing := doing[t := Failed];
    }

    /** A thread that was resumed with an error returns from the call. */
    method Fail(t: Tid)
      requires Valid() && DoingOf(doing, t) == Failed
      modifies `doing
      ensures Valid() && doing == old(doing)[t := Runs]
    {
      hide RingOk, QueueOk, Known;
      KnownAside(doing, Receiving, receivers, wokenR, t, Runs);
      KnownAside(doing, Sending, senders, wokenS, t, Runs);
      doing := doing[t := Runs];
    }

    /** rt_mb_control with RT_IPC_CMD_RESET: every waiting thread is resumed with an error. */
    method Reset()
      requires Valid()
      modifies `receivers, `senders, `entry, `in_, `out, `mails, `doing
      ensures Valid() && mails == [] && receivers == [] && senders == []
      ensures forall t :: DoingOf(doing, t) == if DoingOf(old(doing), t).Waits? then Failed else DoingOf(old(doing), t)
    {
      hide Known, QueueOk, RingOk;
      QueueEmpty(wokenR, 0);
      QueueEmpty(wokenS, pool.Length);
      RingEmpty(pool[..]);
      KnownAllFail(doing, Receiving, receivers, wokenR);
      KnownAllFail(doing, Sending, senders, wokenS);
      doing := AllFail(doing);
      receivers, senders := [], [];
      entry, in_, out := 0, 0, 0;
      mails := [];
    }

    /** While a receiver waits, the mails do not outnumber the receivers resumed and not yet run, and likewise
        for senders and room; with none of them still to run, the mailbox is empty, or full. */
    lemma NoLostWakeUp()
      requires Valid()
      ensures (exists t :: DoingOf(doing, t) == Waits(Receiving)) ==>
        |mails| <= |wokenR| && ((forall t :: DoingOf(doing, t) != Woken(Receiving)) ==> mails == [])
      ensures (exists t :: DoingOf(doing, t) == Waits(Sending)) ==>
        && pool.Length - |mails| <= |wokenS|
        && ((forall t :: DoingOf(doing, t) != Woken(Sending)) ==> |mails| == pool.Length)
      ensures forall t ::
        && (t in wokenR <==> DoingOf(doing, t) == Woken(Receiving))
        && (t in wokenS <==> DoingOf(doing, t) == Woken(Sending))
    {
      hide RingOk, QueueOk;
      if t :| DoingOf(doing, t) == Waits(Receiving) {
        NobodyWoken(doing, Receiving, receivers, wokenR, |mails|);
      }
      if t :| DoingOf(doing, t) == Waits(Sending) {
        NobodyWoken(doing, Sending, senders, wokenS, pool.Length - |mails|);
      }
      forall t ensures (t in wokenR <==> DoingOf(doing, t) == Woken(Receiving))
        && (t in wokenS <==> DoingOf(doing, t) == Woken(Sending)) {
        assert KnownAt(doing, Receiving, receivers, wokenR, t) && KnownAt(doing, Sending, senders, wokenS, t);
      }
    }

    /** What is received is what was sent, in the same order, whoever else waits: a mail that is put into the
        mailbox behind others comes out after them. */
    method SendThenReceive(s: Tid, r: Tid, value: Value) returns (got: seq<Value>)
      requires Valid() && |mails| < pool.Length
      requires s != r && DoingOf(doing, s) == Runs && DoingOf(doing, r) == Runs
      modifies this, pool
      ensures Valid() && mails == [] && got == old(mails) + [value]
    {
      hide RingOk, QueueOk, Inserted, Known;
      NotFirst(doing, Receiving, receivers, wokenR, r);
      var _ := Send(s, value, 0);
      ghost var all := mails;
      got := [];
      while entry > 0
        invariant Valid() && got + mails == all && DoingOf(doing, r) == Runs
        decreases entry
      {
        NotFirst(doing, Sending, senders, wokenS, r);
        HeadMoves(got, mails);
        var _, v := Recv(r, 0);
        got := got + [v];
      }
    }
  }
}
