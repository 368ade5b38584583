/** The event object of `src/ipc.c`. Each method is one critical section. */
module Event {
  import opened Seqs
  import opened Threads
  import opened WaitList

  type Mask = bv32

  /** RT_EVENT_FLAG_AND, RT_EVENT_FLAG_OR, RT_EVENT_FLAG_CLEAR */
  const AND: bv8 := 1
  const OR: bv8 := 2
  const CLEAR: bv8 := 4

  datatype Outcome = Error | Received(mask: Mask) | TimedOut | Suspended

  /** A thread that was resumed, with the events it has received. */
  datatype Woken = Woken(t: Tid, mask: Mask)

  /** The condition that a receiver waits for. */
  predicate Satisfied(set_: Mask, want: Mask, option: bv8) {
    if option & AND != 0 then set_ & want == want else option & OR != 0 && set_ & want != 0
  }

  predicate HasMode(option: bv8) { option & AND != 0 || option & OR != 0 }

  /** `a` has no events that `b` does not have. */
  predicate Fewer(a: Mask, b: Mask) { a & b == a }

  /** What an immediate receive leaves. */
  function Residual(set_: Mask, want: Mask, option: bv8): Mask { if option & CLEAR != 0 then set_ & !want else set_ }

  datatype Served = Served(residual: Mask, waiting: seq<Tid>, woken: seq<Woken>)

  type Masks = map<Tid, Mask>

  type Options = map<Tid, bv8>

  function MaskOf(m: Masks, t: Tid): Mask { if t in m then m[t] else 0 }

  function OptionOf(m: Options, t: Tid): bv8 { if t in m then m[t] else 0 }

  /** Running the immediate receive for every waiting thread in the order of the list. */
  function Serve(set_: Mask, ws: seq<Tid>, want: Masks, info: Options): Served {
    if ws == [] then Served(set_, [], [])
    else
      var t := ws[0];
      if Satisfied(set_, MaskOf(want, t), OptionOf(info, t)) then
        var r := Serve(Residual(set_, MaskOf(want, t), OptionOf(info, t)), ws[1..], want, info);
        r.(woken := [Woken(t, set_ & MaskOf(want, t))] + r.woken)
      else
        var r := Serve(set_, ws[1..], want, info);
        r.(waiting := [t] + r.waiting)
  }

  /** Fewer events satisfy fewer receivers. */
  lemma FewerSatisfy(small: Mask, big: Mask, want: Mask, option: bv8)
    requires Fewer(small, big) && Satisfied(small, want, option)
    ensures Satisfied(big, want, option)
  {
  }

  lemma AndSelf(x: Mask)
    ensures x & x == x
  {
  }

  lemma AndTwice(x: Mask, y: Mask)
    ensures (x & y) & x == x & y
  {
  }

  lemma ResidualFewer(set_: Mask, want: Mask, option: bv8)
    ensures Fewer(Residual(set_, want, option), set_) && Fewer(set_, set_)
  {
    AndSelf(set_);
    AndTwice(set_, !want);
    hide HasMode;
    if option & CLEAR != 0 {
      assert Residual(set_, want, option) == set_ & !want;
    } else {
      assert Residual(set_, want, option) == set_;
    }
  }

  lemma BothFewer(x: Mask, y: Mask)
    ensures Fewer(x & y, x) && Fewer(x & y, y)
  {
  }

  lemma FewerTransitive(a: Mask, b: Mask, c: Mask)
    requires Fewer(a, b) && Fewer(b, c)
    ensures Fewer(a, c)
  {
  }

  lemma AndAssoc(x: Mask, y: Mask, z: Mask)
    ensures x & (y & z) == (x & y) & z
  {
  }

  lemma FewerOfBoth(e: Mask, x: Mask, y: Mask)
    ensures Fewer(e, x & y) <==> Fewer(e, x) && Fewer(e, y)
  {
    BothFewer(x, y);
    if Fewer(e, x & y) {
      hide Fewer;
      FewerTransitive(e, x & y, x);
      FewerTransitive(e, x & y, y);
    } else if Fewer(e, x) && Fewer(e, y) {
      AndAssoc(e, x, y);
    }
  }

  lemma NoneLeft(e: Mask, y: Mask)
    ensures Fewer(e, !y) <==> e & y == 0
  {
  }

  lemma AllIn(x: Mask, y: Mask)
    ensures x & y == y <==> Fewer(y, x)
  {
  }

  lemma NothingFewer()
    ensures forall e: Mask :: Fewer(e, 0) ==> e == 0
  {
  }

  /** With RT_EVENT_FLAG_AND a receiver needs all the events that it wants, otherwise one of them. */
  lemma Needs(set_: Mask, want: Mask, option: bv8)
    requires HasMode(option)
    ensures option & AND != 0 ==> (Satisfied(set_, want, option) <==> Fewer(want, set_))
    ensures option & AND == 0 ==>
      (Satisfied(set_, want, option) <==> exists e: Mask :: e != 0 && Fewer(e, want) && Fewer(e, set_))
  {
    AllIn(set_, want);
    BothFewer(set_, want);
    forall e: Mask ensures Fewer(e, set_ & want) <==> Fewer(e, set_) && Fewer(e, want) { FewerOfBoth(e, set_, want); }
    NothingFewer();
    hide Fewer;
  }

  /** With RT_EVENT_FLAG_CLEAR exactly the events that are not wanted are left, otherwise all. */
  lemma Leaves(set_: Mask, want: Mask, option: bv8, e: Mask)
    ensures option & CLEAR != 0 ==>
      (Fewer(e, Residual(set_, want, option)) <==> Fewer(e, set_) && e & want == 0)
    ensures option & CLEAR == 0 ==> Residual(set_, want, option) == set_
  {
    FewerOfBoth(e, set_, !want);
    NoneLeft(e, want);
    hide Fewer;
  }

  /** Clearing the received events clears what an immediate receive would clear. */
  lemma ClearsSame(set_: Mask, want: Mask)
    ensures set_ & !(want & set_) == set_ & !want
    ensures want & set_ == set_ & want
  {
  }

  lemma {:induction false} ServeFewer(set_: Mask, ws: seq<Tid>, want: Masks, info: Options)
    ensures Fewer(Serve(set_, ws, want, info).residual, set_)
    decreases ws
  {
    hide Satisfied, Residual, Fewer, MaskOf, OptionOf;
    ResidualFewer(set_, 0, 0);
    if ws != [] {
      var t := ws[0];
      var next := if Satisfied(set_, MaskOf(want, t), OptionOf(info, t))
        then Residual(set_, MaskOf(want, t), OptionOf(info, t)) else set_;
      ResidualFewer(set_, MaskOf(want, t), OptionOf(info, t));
      ServeFewer(next, ws[1..], want, info);
      FewerTransitive(Serve(next, ws[1..], want, info).residual, next, set_);
    }
  }

  predicate Clears(option: bv8) { option & CLEAR != 0 }

  predicate Apart(a: Mask, b: Mask) { a & b == 0 }

  lemma ClearedApart(set_: Mask, want: Mask, option: bv8, x: Mask)
    requires Clears(option) && Fewer(x, Residual(set_, want, option))
    ensures Apart(x, set_ & want)
  {
    assert Residual(set_, want, option) == set_ & !want;
  }

  lemma ServeHead(set_: Mask, ws: seq<Tid>, want: Masks, info: Options)
    requires ws != []
    ensures var t, m, o := ws[0], MaskOf(want, ws[0]), OptionOf(info, ws[0]);
      Serve(set_, ws, want, info).woken ==
        if Satisfied(set_, m, o) then [Woken(t, set_ & m)] + Serve(Residual(set_, m, o), ws[1..], want, info).woken
        else Serve(set_, ws[1..], want, info).woken
  {
  }

  /** What a receiver gets was there, and apart from what receivers before it have cleared. */
  ghost predicate Exclusive(w: seq<Woken>, set_: Mask, info: Options) {
    && (forall i :: 0 <= i < |w| ==> Fewer(w[i].mask, set_))
    && forall i, j :: 0 <= i < j < |w| && Clears(OptionOf(info, w[i].t)) ==> Apart(w[j].mask, w[i].mask)
  }

  lemma ExclusiveCons(v: seq<Woken>, set_: Mask, next: Mask, info: Options, x: Woken)
    requires Exclusive(v, next, info) && Fewer(next, set_) && Fewer(x.mask, set_)
    requires Clears(OptionOf(info, x.t)) ==> forall y: Mask :: Fewer(y, next) ==> Apart(y, x.mask)
    ensures Exclusive([x] + v, set_, info)
  {
    hide Fewer, Clears, Apart, OptionOf;
    forall i | 0 <= i < |v| ensures Fewer(v[i].mask, set_) { FewerTransitive(v[i].mask, next, set_); }
  }

  lemma ServesNobody(set_: Mask, want: Masks, info: Options)
    ensures Exclusive(Serve(set_, [], want, info).woken, set_, info)
  {
  }

  lemma ReceivedFewer(set_: Mask, want: Mask)
    ensures Fewer(set_ & want, set_)
  {
  }

  /** An event that a receiver has cleared is not received by any after it, and nobody receives an event that was
      not there. */
  lemma {:induction false} ServeExclusive(set_: Mask, ws: seq<Tid>, want: Masks, info: Options)
    ensures Exclusive(Serve(set_, ws, want, info).woken, set_, info)
    decreases ws
  {
    hide Satisfied, Fewer, MaskOf, OptionOf, Residual, Serve, Exclusive, Clears, Apart;
    if ws == [] {
      ServesNobody(set_, want, info);
    } else {
      var t, m, o := ws[0], MaskOf(want, ws[0]), OptionOf(info, ws[0]);
      ServeHead(set_, ws, want, info);
      if Satisfied(set_, m, o) {
        var next := Residual(set_, m, o);
        ResidualFewer(set_, m, o);
        ReceivedFewer(set_, m);
        ServeExclusive(next, ws[1..], want, info);
        forall y: Mask | Clears(o) && Fewer(y, next) ensures Apart(y, set_ & m) { ClearedApart(set_, m, o, y); }
        ExclusiveCons(Serve(next, ws[1..], want, info).woken, set_, next, info, Woken(t, set_ & m));
      } else {
        ServeExclusive(set_, ws[1..], want, info);
      }
    }
  }

  /** The first receiver in the list that the events satisfy is served first, and the rest with what is left. */
  lemma {:induction false} ServesFirst(set_: Mask, a: seq<Tid>, t: Tid, b: seq<Tid>, want: Masks, info: Options)
    requires forall x :: x in a ==> !Satisfied(set_, MaskOf(want, x), OptionOf(info, x))
    requires Satisfied(set_, MaskOf(want, t), OptionOf(info, t))
    ensures var r := Serve(Residual(set_, MaskOf(want, t), OptionOf(info, t)), b, want, info);
      Serve(set_, a + [t] + b, want, info)
      == Served(r.residual, a + r.waiting, [Woken(t, set_ & MaskOf(want, t))] + r.woken)
    decreases a
  {
    hide Satisfied, Residual, MaskOf, OptionOf;
    if a == [] {
      assert a + [t] + b == [t] + b;
    } else {
      assert (a + [t] + b)[1..] == a[1..] + [t] + b;
      ServesFirst(set_, a[1..], t, b, want, info);
      var r := Serve(Residual(set_, MaskOf(want, t), OptionOf(info, t)), b, want, info);
      assert [a[0]] + (a[1..] + r.waiting) == a + r.waiting;
    }
  }

  /** Nobody who stays on the list is satisfied by what is left, also when a later receiver has cleared
      events. */
  lemma {:induction false} ServeUnsatisfied(set_: Mask, ws: seq<Tid>, want: Masks, info: Options)
    ensures var r := Serve(set_, ws, want, info);
      forall t :: t in r.waiting ==> t in ws && !Satisfied(r.residual, MaskOf(want, t), OptionOf(info, t))
    decreases ws
  {
    hide Satisfied, Residual, Fewer, MaskOf, OptionOf;
    if ws != [] {
      var t := ws[0];
      var done := Satisfied(set_, MaskOf(want, t), OptionOf(info, t));
      var next := if done then Residual(set_, MaskOf(want, t), OptionOf(info, t)) else set_;
      ServeUnsatisfied(next, ws[1..], want, info);
      var r := Serve(next, ws[1..], want, info);
      if !done {
        ServeFewer(set_, ws[1..], want, info);
        if Satisfied(r.residual, MaskOf(want, t), OptionOf(info, t)) {
          FewerSatisfy(r.residual, set_, MaskOf(want, t), OptionOf(info, t));
          assert false;
        }
      }
    }
  }

  /** Serving the first thread and then the others. */
  lemma ServeFirst(set_: Mask, ws: seq<Tid>, want: Masks, info: Options)
    requires ws != []
    ensures var t := ws[0];
      var ok := Satisfied(set_, MaskOf(want, t), OptionOf(info, t));
      var r := Serve(if ok then Residual(set_, MaskOf(want, t), OptionOf(info, t)) else set_, ws[1..], want, info);
      Serve(set_, ws, want, info)
      == if ok then r.(woken := [Woken(t, set_ & MaskOf(want, t))] + r.woken) else r.(waiting := [t] + r.waiting)
  {
  }

  lemma ServeNobody(set_: Mask, want: Masks, info: Options)
    ensures Serve(set_, [], want, info) == Served(set_, [], [])
  {
  }

  /** Only the threads on the list matter. */
  lemma {:induction false} ServeFrame(set_: Mask, ws: seq<Tid>, want: Masks, info: Options, want': Masks)
    requires forall t :: t in ws ==> MaskOf(want, t) == MaskOf(want', t)
    ensures Serve(set_, ws, want, info) == Serve(set_, ws, want', info)
    decreases ws
  {
    hide Serve, Satisfied, Residual, MaskOf, OptionOf;
    if ws == [] {
      ServeNobody(set_, want, info);
      ServeNobody(set_, want', info);
    } else {
      var t := ws[0];
      assert t in ws;
      var next := if Satisfied(set_, MaskOf(want, t), OptionOf(info, t))
        then Residual(set_, MaskOf(want, t), OptionOf(info, t)) else set_;
      ServeFrame(next, ws[1..], want, info, want');
      ServeFirst(set_, ws, want, info);
      ServeFirst(set_, ws, want', info);
    }
  }

  ghost predicate Unsatisfied(set_: Mask, want: Masks, info: Options, t: Tid) {
    && t in want && t in info && HasMode(info[t])
    && !Satisfied(set_, want[t], info[t])
  }

  /** No suspended receiver is satisfied by the current set. */
  ghost predicate Waiting(set_: Mask, ws: seq<Tid>, want: Masks, info: Options) {
    NoDup(ws) && forall t :: t in ws ==> Unsatisfied(set_, want, info, t)
  }

  /** The loop of rt_event_send when it has come to place `n` of the list: the threads before it stay, and
      serving the rest gives what serving the whole list gives. */
  ghost predicate Sending(r0: Served, set_: Mask, ws: seq<Tid>, n: nat, want: Masks, info: Options, woken: seq<Woken>) {
    && n <= |ws| && NoDup(ws) && (forall t :: t in ws ==> t in want && t in info && HasMode(info[t]))
    && var r := Serve(set_, ws[n..], want, info);
       r0 == Served(r.residual, ws[..n] + r.waiting, woken + r.woken)
  }

  lemma SendingSkips(r0: Served, set_: Mask, ws: seq<Tid>, n: nat, want: Masks, info: Options, woken: seq<Woken>)
    requires Sending(r0, set_, ws, n, want, info, woken) && n < |ws|
    requires !Satisfied(set_, MaskOf(want, ws[n]), OptionOf(info, ws[n]))
    ensures Sending(r0, set_, ws, n + 1, want, info, woken)
  {
    hide Satisfied, Residual;
    var r := Serve(set_, ws[n + 1..], want, info);
    assert ws[n..][1..] == ws[n + 1..];
    assert ws[..n] + ([ws[n]] + r.waiting) == ws[..n + 1] + r.waiting;
  }

  lemma OthersKeep(want: Masks, t: Tid, mask: Mask)
    ensures forall x :: x != t ==> MaskOf(want[t := mask], x) == MaskOf(want, x)
  {
  }

  lemma Joined(a: seq<Woken>, w: Woken, b: seq<Woken>)
    ensures a + ([w] + b) == a + [w] + b
  {
  }

  lemma ServeResumes(set_: Mask, ws: seq<Tid>, n: nat, want: Masks, info: Options, want': Masks)
    requires n < |ws| && Satisfied(set_, MaskOf(want, ws[n]), OptionOf(info, ws[n]))
    requires forall t :: t in ws && t != ws[n] ==> MaskOf(want', t) == MaskOf(want, t)
    requires NoDup(ws)
    ensures var next := Residual(set_, MaskOf(want, ws[n]), OptionOf(info, ws[n]));
      var r := Serve(next, (ws[..n] + ws[n + 1..])[n..], want', info);
      Serve(set_, ws[n..], want, info) == r.(woken := [Woken(ws[n], set_ & MaskOf(want, ws[n]))] + r.woken)
    ensures (ws[..n] + ws[n + 1..])[..n] == ws[..n]
  {
    hide Satisfied, Residual, HasMode, MaskOf, OptionOf;
    assert ws[n..][1..] == ws[n + 1..];
    assert (ws[..n] + ws[n + 1..])[n..] == ws[n + 1..];
    forall t | t in ws[n + 1..] ensures MaskOf(want, t) == MaskOf(want', t) {
      var i :| n + 1 <= i < |ws| && ws[i] == t;
    }
    ServeFrame(Residual(set_, MaskOf(want, ws[n]), OptionOf(info, ws[n])), ws[n + 1..], want, info, want');
  }

  lemma SendingResumes(r0: Served, set_: Mask, ws: seq<Tid>, n: nat, want: Masks, info: Options, woken: seq<Woken>,
                       mask: Mask)
    requires Sending(r0, set_, ws, n, want, info, woken) && n < |ws|
    requires Satisfied(set_, MaskOf(want, ws[n]), OptionOf(info, ws[n]))
    ensures Sending(r0, Residual(set_, MaskOf(want, ws[n]), OptionOf(info, ws[n])), ws[..n] + ws[n + 1..], n,
                    want[ws[n] := mask], info, woken + [Woken(ws[n], set_ & MaskOf(want, ws[n]))])
  {
    hide Satisfied, Residual, HasMode, OptionOf, NoDup, MaskOf, Serve;
    var t := ws[n];
    var next := Residual(set_, MaskOf(want, t), OptionOf(info, t));
    var ws', want' := ws[..n] + ws[n + 1..], want[t := mask];
    WithoutAt(ws, n);
    OthersKeep(want, t, mask);
    ServeResumes(set_, ws, n, want, info, want');
    var r := Serve(next, ws'[n..], want', info);
    Joined(woken, Woken(t, set_ & MaskOf(want, t)), r.woken);
  }

  /** The test in the loop of rt_event_send, what the resumed thread is given, and what is left. */
  method Grant(set_: Mask, want: Mask, option: bv8) returns (status: bool, received: Mask, left: Mask)
    requires HasMode(option)
    ensures status == Satisfied(set_, want, option)
    ensures status ==> received == set_ & want && left == Residual(set_, want, option)
    ensures !status ==> left == set_
  {
    ClearsSame(set_, want);
    status, received, left := false, want, set_;
    if option & AND != 0 {
      if want & set_ == want {
        status := true;
      }
    } else if option & OR != 0 {
      if want & set_ != 0 {
        received := want & set_;
        status := true;
      }
    }
    if status && option & CLEAR != 0 {
      left := set_ & !received;
    }
  }

  /** The test in rt_event_recv, and what an immediate receive leaves. */
  method Immediate(set_: Mask, want: Mask, option: bv8) returns (status: bool, received: Mask, left: Mask)
    requires HasMode(option)
    ensures status == Satisfied(set_, want, option)
    ensures status ==> received == set_ & want && left == Residual(set_, want, option)
    ensures !status ==> left == set_
  {
    status := false;
    if option & AND != 0 {
      status := set_ & want == want;
    } else if option & OR != 0 {
      status := set_ & want != 0;
    }
    received, left := set_ & want, set_;
    if status && option & CLEAR != 0 {
      left := set_ & !want;
    }
  }

  /** The resumed threads find their events in event_set. */
  ghost predicate Informed(woken: seq<Woken>, ws: seq<Tid>, want: Masks) {
    forall w :: w in woken ==> w.t in want && want[w.t] == w.mask && w.t !in ws
  }

  ghost predicate SameMasks(ws: seq<Tid>, want: Masks, want0: Masks) {
    forall t :: t in ws ==> MaskOf(want, t) == MaskOf(want0, t)
  }

  lemma InformedNone(ws: seq<Tid>, want: Masks)
    ensures Informed([], ws, want) && SameMasks(ws, want, want)
  {
  }

  lemma InformedNext(woken: seq<Woken>, ws: seq<Tid>, want: Masks, want0: Masks, n: nat, mask: Mask)
    requires Informed(woken, ws, want) && SameMasks(ws, want, want0) && n < |ws| && NoDup(ws)
    ensures Informed(woken + [Woken(ws[n], mask)], ws[..n] + ws[n + 1..], want[ws[n] := mask])
    ensures SameMasks(ws[..n] + ws[n + 1..], want[ws[n] := mask], want0)
  {
    WithoutAt(ws, n);
    assert ws[n] in ws;
    hide NoDup;
  }

  lemma SendingStart(set_: Mask, more: Mask, ws: seq<Tid>, want: Masks, info: Options)
    requires Waiting(set_, ws, want, info)
    ensures Sending(Serve(more, ws, want, info), more, ws, 0, want, info, [])
  {
    hide Satisfied, Residual, Serve;
    var r := Serve(more, ws, want, info);
    assert ws[0..] == ws && ws[..0] + r.waiting == r.waiting && [] + r.woken == r.woken;
    forall t | t in ws ensures t in want && t in info && HasMode(info[t]) {
      assert Unsatisfied(set_, want, info, t);
    }
  }

  lemma SendingAt(r0: Served, set_: Mask, ws: seq<Tid>, n: nat, want: Masks, info: Options, woken: seq<Woken>)
    requires Sending(r0, set_, ws, n, want, info, woken) && n < |ws|
    ensures ws[n] in want && ws[n] in info && HasMode(info[ws[n]]) && NoDup(ws)
    ensures MaskOf(want, ws[n]) == want[ws[n]] && OptionOf(info, ws[n]) == info[ws[n]]
  {
    assert ws[n] in ws;
  }

  lemma SendingEnd(r0: Served, set_: Mask, ws: seq<Tid>, set0: Mask, ws0: seq<Tid>, want0: Masks, want: Masks,
                   info: Options, woken: seq<Woken>)
    requires r0 == Serve(set0, ws0, want0, info) && Sending(r0, set_, ws, |ws|, want, info, woken)
    requires SameMasks(ws, want, want0)
    ensures Served(set_, ws, woken) == r0 && Waiting(set_, ws, want, info)
  {
    hide Satisfied, Residual;
    assert ws[|ws|..] == [];
    assert ws[..|ws|] + [] == ws && woken + [] == woken;
    ServeUnsatisfied(set0, ws0, want0, info);
  }

  lemma FewerWaiting(set_: Mask, less: Mask, ws: seq<Tid>, want: Masks, info: Options)
    requires Waiting(set_, ws, want, info) && Fewer(less, set_)
    ensures Waiting(less, ws, want, info)
  {
    hide Satisfied, Fewer, HasMode;
    forall t | t in ws ensures Unsatisfied(less, want, info, t) {
      assert Unsatisfied(set_, want, info, t);
      if Satisfied(less, want[t], info[t]) {
        FewerSatisfy(less, set_, want[t], info[t]);
        assert false;
      }
    }
  }

  lemma MoreWaiting(set_: Mask, ws: seq<Tid>, want: Masks, info: Options, t: Tid, m: Mask, option: bv8,
                    prio: Priorities, flag: Flag)
    requires Waiting(set_, ws, want, info) && t !in ws && !Satisfied(set_, m, option) && HasMode(option)
    ensures Waiting(set_, Inserted(ws, prio, t, flag), want[t := m], info[t := option])
  {
    hide Satisfied, Inserted, HasMode, NoDup;
    SuspendedMembers(ws, prio, t, flag);
    var ws', want', info' := Inserted(ws, prio, t, flag), want[t := m], info[t := option];
    forall x | x in ws' ensures Unsatisfied(set_, want', info', x) {
      assert x != t ==> Unsatisfied(set_, want, info, x);
    }
  }

  class Event {
    const flag: Flag
    const prio: Priorities
    var set_: Mask                    // set
    var waiters: seq<Tid>             // parent.suspend_thread
    var eventSet: Masks               // event_set of the threads
    var eventInfo: Options            // event_info of the threads

    ghost predicate Valid() reads this { Waiting(set_, waiters, eventSet, eventInfo) }

    constructor (flag: Flag, prio: Priorities)
      ensures Valid() && set_ == 0 && waiters == []
    {
      this.flag, this.prio := flag, prio;
      set_, waiters, eventSet, eventInfo := 0, [], map[], map[];
    }

    /** rt_event_send: the events are added, and then every waiting thread, in the order of the list, does
        what an immediate receive would do. A resumed thread finds its events in event_set. */
    method Send(events: Mask) returns (ok: bool, woken: seq<Woken>)
      requires Valid()
      modifies `set_, `waiters, `eventSet
      ensures Valid() && ok == (events != 0)
      ensures !ok ==> set_ == old(set_) && waiters == old(waiters) && woken == []
      ensures ok ==> Served(set_, waiters, woken) == Serve(old(set_) | events, old(waiters), old(eventSet), eventInfo)
      ensures Informed(woken, waiters, eventSet)
    {
      hide Waiting, Serve, Sending, Satisfied, Residual, HasMode, NoDup, OptionOf, MaskOf, Informed, SameMasks;
      InformedNone(waiters, eventSet);
      woken := [];
      if events == 0 {
        return false, [];
      }
      ghost var r0 := Serve(set_ | events, waiters, eventSet, eventInfo);
      SendingStart(set_, set_ | events, waiters, eventSet, eventInfo);
      set_ := set_ | events;
      var n := 0;
      while n < |waiters|
        invariant Sending(r0, set_, waiters, n, eventSet, eventInfo, woken)
        invariant 0 <= n <= |waiters|
        invariant Informed(woken, waiters, eventSet) && SameMasks(waiters, eventSet, old(eventSet))
        decreases |waiters| - n
      {
        var thread := waiters[n];
        SendingAt(r0, set_, waiters, n, eventSet, eventInfo, woken);
        var status, received, left := Grant(set_, eventSet[thread], eventInfo[thread]);
        if status {
          SendingResumes(r0, set_, waiters, n, eventSet, eventInfo, woken, received);
          InformedNext(woken, waiters, eventSet, old(eventSet), n, received);
          set_ := left;
          eventSet := eventSet[thread := received];
          waiters := waiters[..n] + waiters[n + 1..];
          woken := woken + [Woken(thread, received)];
        } else {
          SendingSkips(r0, set_, waiters, n, eventSet, eventInfo, woken);
          n := n + 1;
        }
      }
      SendingEnd(r0, set_, waiters, old(set_) | events, old(waiters), old(eventSet), eventSet, eventInfo, woken);
      return true, woken;
    }

    /** rt_event_recv by a running thread: it receives at once, or gives up, or waits. */
    method Recv(t: Tid, want: Mask, option: bv8, timeout: int) returns (o: Outcome)
      requires Valid() && t !in waiters && HasMode(option)
      modifies `set_, `waiters, `eventSet, `eventInfo
      ensures Valid()
      ensures o == if want == 0 then Error
                   else if Satisfied(old(set_), want, option) then Received(old(set_) & want)
                   else if timeout == 0 then TimedOut else Suspended
      ensures set_ == if o.Received? then Residual(old(set_), want, option) else old(set_)
      ensures waiters == if o.Suspended? then Inserted(old(waiters), prio, t, flag) else old(waiters)
      ensures eventSet == if o.Suspended? then old(eventSet)[t := want] else old(eventSet)
      ensures eventInfo == if o.Suspended? then old(eventInfo)[t := option] else old(eventInfo)
    {
      hide Waiting, Inserted, Satisfied, Residual, HasMode, Fewer;
      if want == 0 {
        return Error;
      }
      var status, received, left := Immediate(set_, want, option);
      if status {
        ResidualFewer(set_, want, option);
        FewerWaiting(set_, left, waiters, eventSet, eventInfo);
        set_ := left;
        return Received(received);
      }
      if timeout == 0 {
        return TimedOut;
      }
      MoreWaiting(set_, waiters, eventSet, eventInfo, t, want, option, prio, flag);
      eventSet, eventInfo := eventSet[t := want], eventInfo[t := option];
      waiters := Suspend(waiters, prio, t, flag);
      return Suspended;
    }

    /** rt_thread_timeout for a waiting thread. */
    method Timeout(t: Tid)
      requires Valid() && t in waiters
      modifies `waiters
      ensures Valid() && waiters == Removed(old(waiters), t)
    {
      RemovedMembers(waiters, t);
      waiters := Removed(waiters, t);
    }
  }
}
