/** What each thread is doing with an IPC object, and how the lists of waiting threads agree with it. */
module Activity {
  import opened Seqs
  import opened Threads
  import opened WaitList

  /** The two lists of waiting threads that an object can have. */
  datatype Side = Sending | Receiving

  /** A thread runs outside the object, is suspended on one of its lists, has been resumed from there without
      error and not run yet, or has been resumed with an error and not run yet. */
  datatype Doing = Runs | Waits(side: Side) | Woken(side: Side) | Failed

  type Doings = map<Tid, Doing>

  function DoingOf(doing: Doings, t: Tid): Doing { if t in doing then doing[t] else Runs }

  ghost predicate KnownAt(doing: Doings, side: Side, list: seq<Tid>, woken: set<Tid>, t: Tid) {
    (t in list <==> DoingOf(doing, t) == Waits(side)) && (t in woken <==> DoingOf(doing, t) == Woken(side))
  }

  /** `list` holds the threads that wait on that side, and `woken` those resumed from there. */
  ghost predicate Known(doing: Doings, side: Side, list: seq<Tid>, woken: set<Tid>) {
    forall t :: KnownAt(doing, side, list, woken, t)
  }

  /** What the threads do once the first of `list` has been resumed, if there is one. */
  function Woke(doing: Doings, side: Side, list: seq<Tid>): Doings {
    if list == [] then doing else doing[list[0] := Woken(side)]
  }

  /** Thread `t` goes on to do `d`. */
  lemma KnownMoves(doing: Doings, side: Side, list: seq<Tid>, woken: set<Tid>, t: Tid, d: Doing, list': seq<Tid>,
                   woken': set<Tid>)
    requires Known(doing, side, list, woken)
    requires forall x :: x in list' <==> if x == t then d == Waits(side) else x in list
    requires forall x :: x in woken' <==> if x == t then d == Woken(side) else x in woken
    ensures Known(doing[t := d], side, list', woken')
  {
    var doing' := doing[t := d];
    forall x ensures KnownAt(doing', side, list', woken', x) {
      assert KnownAt(doing, side, list, woken, x);
    }
  }

  /** A thread that is not concerned with a side moves on without concerning it. */
  lemma KnownAside(doing: Doings, side: Side, list: seq<Tid>, woken: set<Tid>, t: Tid, d: Doing)
    requires Known(doing, side, list, woken)
    requires (DoingOf(doing, t).Waits? || DoingOf(doing, t).Woken?) ==> DoingOf(doing, t).side != side
    requires d.Waits? || d.Woken? ==> d.side != side
    ensures Known(doing[t := d], side, list, woken)
  {
    assert KnownAt(doing, side, list, woken, t);
    KnownMoves(doing, side, list, woken, t, d, list, woken);
  }

  /** A thread that runs, or was resumed from this side, runs on. */
  lemma KnownRuns(doing: Doings, side: Side, list: seq<Tid>, woken: set<Tid>, t: Tid)
    requires Known(doing, side, list, woken) && DoingOf(doing, t) != Waits(side)
    ensures t !in list && Known(doing[t := Runs], side, list, woken - {t})
  {
    assert KnownAt(doing, side, list, woken, t);
    KnownMoves(doing, side, list, woken, t, Runs, list, woken - {t});
  }

  /** A thread that runs, or was resumed from this side, waits on it. */
  lemma KnownWaits(doing: Doings, side: Side, list: seq<Tid>, woken: set<Tid>, t: Tid, list': seq<Tid>)
    requires Known(doing, side, list, woken) && DoingOf(doing, t) != Waits(side)
    requires forall x :: x in list' <==> x in list || x == t
    ensures t !in list && Known(doing[t := Waits(side)], side, list', woken - {t})
  {
    assert KnownAt(doing, side, list, woken, t);
    KnownMoves(doing, side, list, woken, t, Waits(side), list', woken - {t});
  }

  /** The first thread that waits on this side is resumed. */
  lemma KnownWoke(doing: Doings, side: Side, list: seq<Tid>, woken: set<Tid>)
    requires Known(doing, side, list, woken) && NoDup(list)
    ensures Known(Woke(doing, side, list), side, AfterGive(list), WokenByGive(list, woken))
    ensures list != [] ==> DoingOf(doing, list[0]) == Waits(side)
  {
    if list != [] {
      assert KnownAt(doing, side, list, woken, list[0]);
      RestMembers(list);
      KnownMoves(doing, side, list, woken, list[0], Woken(side), list[1..], woken + {list[0]});
    }
  }

  /** A waiting thread is resumed with an error. */
  lemma KnownFails(doing: Doings, side: Side, list: seq<Tid>, woken: set<Tid>, t: Tid)
    requires Known(doing, side, list, woken) && NoDup(list) && DoingOf(doing, t).Waits?
    ensures Known(doing[t := Failed], side, Removed(list, t), woken)
  {
    assert KnownAt(doing, side, list, woken, t);
    RemovedMembers(list, t);
    KnownMoves(doing, side, list, woken, t, Failed, Removed(list, t), woken);
  }

  /** Every waiting thread fails. */
  function AllFail(doing: Doings): Doings { map t | t in doing :: if doing[t].Waits? then Failed else doing[t] }

  lemma KnownAllFail(doing: Doings, side: Side, list: seq<Tid>, woken: set<Tid>)
    requires Known(doing, side, list, woken)
    ensures Known(AllFail(doing), side, [], woken)
  {
    forall x ensures KnownAt(AllFail(doing), side, [], woken, x) {
      assert KnownAt(doing, side, list, woken, x);
    }
  }

  /** With no thread resumed from this side still to run, threads wait only when there is no unit. */
  lemma NobodyWoken(doing: Doings, side: Side, list: seq<Tid>, woken: set<Tid>, units: nat)
    requires QueueOk(list, woken, units) && Known(doing, side, list, woken)
    requires exists t :: DoingOf(doing, t) == Waits(side)
    ensures units <= |woken|
    ensures (forall t :: DoingOf(doing, t) != Woken(side)) ==> units == 0
  {
    var t :| DoingOf(doing, t) == Waits(side);
    assert KnownAt(doing, side, list, woken, t);
    if forall t :: DoingOf(doing, t) != Woken(side) {
      forall x ensures x !in woken {
        assert KnownAt(doing, side, list, woken, x);
      }
      assert woken == {};
    }
  }
}
