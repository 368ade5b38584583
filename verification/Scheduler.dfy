/** The uniprocessor scheduler of `src/scheduler.c` and the thread operations of `src/thread.c`: ready lists,
    indexed by a two-level bitmap, and the choice of the running thread. */
module Scheduler {
  import opened Bits
  import opened Seqs
  import opened T = Threads

  datatype Stat = Init | Ready | Suspend | Running | Close

  type Lists = seq<seq<Tid>>

  /* The index: rt_thread_ready_table and rt_thread_ready_priority_group. */

  ghost predicate BitFor(lists: Lists, table: seq<nat>, p: nat)
    requires |table| == 32 && p < 256
  {
    Bit(table[p / 8], p % 8) <==> p < |lists| && lists[p] != []
  }

  /** Bit `p % 8` of table entry `p / 8` is set exactly when list `p` has a thread. */
  ghost predicate TableOk(lists: Lists, table: seq<nat>) {
    && 32 < |lists| <= 256 && |table| == 32
    && (forall n :: 0 <= n < 32 ==> table[n] < 256)
    && forall p :: 0 <= p < 256 ==> BitFor(lists, table, p)
  }

  /** Group bit `n` is set exactly when table entry `n` is not zero. */
  ghost predicate GroupOk(table: seq<nat>, group: nat) {
    && |table| == 32 && group < 0x1_0000_0000
    && forall n :: 0 <= n < 32 ==> (Bit(group, n) <==> table[n] != 0)
  }

  lemma DivMod8(p: nat, q: nat)
    requires p < 256
    ensures p / 8 < 32 && p % 8 < 8 && p == p / 8 * 8 + p % 8
    ensures p / 8 == q / 8 && p % 8 == q % 8 ==> p == q
  {
  }

  lemma ByteSet(x: nat, i: nat)
    requires x < 256 && i < 8
    ensures SetBit(x, i) < 256 && SetBit(x, i) != 0
    ensures forall j: nat :: Bit(SetBit(x, i), j) <==> Bit(x, j) || i == j
  {
    FitsWord(x);
    SetFits(x, i, 8);
    FitsWord(SetBit(x, i));
    forall j: nat ensures Bit(SetBit(x, i), j) <==> Bit(x, j) || i == j { BitOfSet(x, i, j); }
    NoBits(i);
    BitOfSet(x, i, i);
  }

  lemma ByteClear(x: nat, i: nat)
    requires x < 256
    ensures ClearBit(x, i) < 256
    ensures forall j: nat :: Bit(ClearBit(x, i), j) <==> Bit(x, j) && i != j
  {
    FitsWord(x);
    ClearFits(x, i, 8);
    FitsWord(ClearBit(x, i));
    forall j: nat ensures Bit(ClearBit(x, i), j) <==> Bit(x, j) && i != j { BitOfClear(x, i, j); }
  }

  lemma WordSet(x: nat, i: nat)
    requires x < 0x1_0000_0000 && i < 32
    ensures SetBit(x, i) < 0x1_0000_0000
    ensures forall j: nat :: Bit(SetBit(x, i), j) <==> Bit(x, j) || i == j
  {
    FitsWord(x);
    SetFits(x, i, 32);
    FitsWord(SetBit(x, i));
    forall j: nat ensures Bit(SetBit(x, i), j) <==> Bit(x, j) || i == j { BitOfSet(x, i, j); }
  }

  lemma WordClear(x: nat, i: nat)
    requires x < 0x1_0000_0000
    ensures ClearBit(x, i) < 0x1_0000_0000
    ensures forall j: nat :: Bit(ClearBit(x, i), j) <==> Bit(x, j) && i != j
  {
    FitsWord(x);
    ClearFits(x, i, 32);
    FitsWord(ClearBit(x, i));
    forall j: nat ensures Bit(ClearBit(x, i), j) <==> Bit(x, j) && i != j { BitOfClear(x, i, j); }
  }

  /** The list of priority `p` changes to one that is not empty, and its bits are set. */
  lemma IndexSet(lists: Lists, table: seq<nat>, group: nat, p: nat, l: seq<Tid>)
    requires TableOk(lists, table) && GroupOk(table, group) && p < |lists| && l != []
    ensures TableOk(lists[p := l], table[p / 8 := SetBit(table[p / 8], p % 8)])
    ensures GroupOk(table[p / 8 := SetBit(table[p / 8], p % 8)], SetBit(group, p / 8))
  {
    hide Bit, SetBit;
    DivMod8(p, 0);
    ByteSet(table[p / 8], p % 8);
    WordSet(group, p / 8);
    var lists', table' := lists[p := l], table[p / 8 := SetBit(table[p / 8], p % 8)];
    forall q | 0 <= q < 256 ensures BitFor(lists', table', q) {
      assert BitFor(lists, table, q);
      DivMod8(q, p);
    }
  }

  /** A byte that is not zero after a bit was cleared was not zero before. */
  lemma StillSet(x: nat, i: nat)
    requires x < 256
    ensures ClearBit(x, i) != 0 ==> x != 0
  {
    ClearZero(i);
  }

  /** The list of priority `p` becomes empty, and its bits are cleared. */
  lemma IndexClear(lists: Lists, table: seq<nat>, group: nat, p: nat)
    requires TableOk(lists, table) && GroupOk(table, group) && p < |lists|
    ensures var table' := table[p / 8 := ClearBit(table[p / 8], p % 8)];
      TableOk(lists[p := []], table') && GroupOk(table', if table'[p / 8] == 0 then ClearBit(group, p / 8) else group)
  {
    hide Bit, ClearBit;
    DivMod8(p, 0);
    ByteClear(table[p / 8], p % 8);
    WordClear(group, p / 8);
    var lists', table' := lists[p := []], table[p / 8 := ClearBit(table[p / 8], p % 8)];
    forall q | 0 <= q < 256 ensures BitFor(lists', table', q) {
      assert BitFor(lists, table, q);
      DivMod8(q, p);
    }
    StillSet(table[p / 8], p % 8);
  }

  /** The list of priority `p` changes and stays non-empty. */
  lemma IndexKept(lists: Lists, table: seq<nat>, p: nat, l: seq<Tid>)
    requires TableOk(lists, table) && p < |lists| && lists[p] != [] && l != []
    ensures TableOk(lists[p := l], table)
  {
    hide Bit;
    var lists' := lists[p := l];
    forall q | 0 <= q < 256 ensures BitFor(lists', table, q) {
      assert BitFor(lists, table, q);
    }
  }

  /** With at most 32 priorities, group bit `p` is set exactly when list `p` has a thread. */
  ghost predicate OneLevel(lists: Lists, group: nat) {
    && 0 < |lists| <= 32 && group < 0x1_0000_0000
    && forall p :: 0 <= p < 32 ==> (Bit(group, p) <==> p < |lists| && lists[p] != [])
  }

  /** The bitmap agrees with the ready lists. */
  ghost predicate IndexIs(lists: Lists, table: seq<nat>, group: nat) {
    if |lists| > 32 then TableOk(lists, table) && GroupOk(table, group) else OneLevel(lists, group)
  }

  lemma OneLevelSet(lists: Lists, group: nat, p: nat, l: seq<Tid>)
    requires OneLevel(lists, group) && p < |lists| && l != []
    ensures OneLevel(lists[p := l], SetBit(group, p))
  {
    hide Bit, SetBit;
    WordSet(group, p);
  }

  lemma OneLevelClear(lists: Lists, group: nat, p: nat)
    requires OneLevel(lists, group) && p < |lists|
    ensures OneLevel(lists[p := []], ClearBit(group, p))
  {
    hide Bit, ClearBit;
    WordClear(group, p);
  }

  lemma OneLevelKept(lists: Lists, group: nat, p: nat, l: seq<Tid>)
    requires OneLevel(lists, group) && p < |lists| && lists[p] != [] && l != []
    ensures OneLevel(lists[p := l], group)
  {
    hide Bit;
  }

  /** With at most 32 priorities, one look-up finds the most urgent priority that has a ready thread. */
  lemma OneLevelHighest(lists: Lists, group: nat)
    requires OneLevel(lists, group) && group != 0
    ensures 0 <= Ffs(group) - 1 < |lists| && lists[Ffs(group) - 1] != []
    ensures forall p :: 0 <= p < Ffs(group) - 1 ==> lists[p] == []
  {
    hide Bit, Lowest, Ffs;
    FitsWord(group);
    FfsIsLowest(group);
    ZeroIff(group, 32);
    LowestIs(group, 32, 0);
    forall p | 0 <= p < Lowest(group) ensures lists[p] == [] {
      LowestIs(group, 32, p);
    }
  }

  lemma OneLevelZero(lists: Lists, group: nat)
    requires OneLevel(lists, group)
    ensures group == 0 <==> forall p :: 0 <= p < |lists| ==> lists[p] == []
  {
    hide Bit, Lowest, Ffs;
    if group != 0 {
      OneLevelHighest(lists, group);
    } else {
      forall p | 0 <= p < |lists| ensures lists[p] == [] {
        NoBits(p);
      }
    }
  }

  /** The priority that the double look-up of _get_highest_priority_thread finds. */
  function HighestOf(table: seq<nat>, group: nat): int
    requires |table| == 32 && group < 0x1_0000_0000
  {
    var number := Ffs(group) - 1;
    if 0 <= number < 32 && table[number] < 0x1_0000_0000 then number * 8 + Ffs(table[number]) - 1 else 0
  }

  /** It is the most urgent priority that has a ready thread. */
  lemma HighestIsMinimal(lists: Lists, table: seq<nat>, group: nat)
    requires TableOk(lists, table) && GroupOk(table, group) && group != 0
    ensures 0 < Ffs(group) <= 32 && 0 < table[Ffs(group) - 1] < 256
    ensures 0 <= HighestOf(table, group) < |lists| && lists[HighestOf(table, group)] != []
    ensures forall p :: 0 <= p < HighestOf(table, group) ==> lists[p] == []
  {
    hide Bit, Lowest, Ffs;
    FitsWord(group);
    FfsIsLowest(group);
    ZeroIff(group, 32);
    var n := Lowest(group);
    assert table[n] != 0;
    FitsWord(table[n]);
    FfsIsLowest(table[n]);
    ZeroIff(table[n], 8);
    var i := Lowest(table[n]);
    var h := n * 8 + i;
    assert h / 8 == n && h % 8 == i;
    assert BitFor(lists, table, h);
    forall p | 0 <= p < h ensures lists[p] == [] {
      assert BitFor(lists, table, p);
      DivMod8(p, 0);
      if p / 8 < n {
        LowestIs(group, 32, p / 8);
        ZeroIff(table[p / 8], 8) by { FitsWord(table[p / 8]); }
      } else {
        LowestIs(table[n], 8, p % 8);
      }
    }
  }

  /** No ready thread at all. */
  lemma GroupZero(lists: Lists, table: seq<nat>, group: nat)
    requires TableOk(lists, table) && GroupOk(table, group)
    ensures group == 0 <==> forall p :: 0 <= p < |lists| ==> lists[p] == []
  {
    hide Bit, Lowest, Ffs;
    if group != 0 {
      HighestIsMinimal(lists, table, group);
    } else {
      forall p | 0 <= p < |lists| ensures lists[p] == [] {
        assert BitFor(lists, table, p);
        DivMod8(p, 0);
        NoBits(p / 8);
        NoBits(p % 8);
      }
    }
  }

  /* The two cases together. */

  lemma Shapes(lists: Lists, table: seq<nat>, group: nat)
    requires IndexIs(lists, table, group)
    ensures 0 < |lists| <= 256 && group < 0x1_0000_0000 && (|lists| > 32 ==> |table| == 32)
  {
  }

  lemma SetIndex(lists: Lists, table: seq<nat>, group: nat, p: nat, l: seq<Tid>)
    requires IndexIs(lists, table, group) && p < |lists| && l != []
    ensures |lists| > 32 ==> |table| == 32 && p / 8 < 32
    ensures |lists| > 32 ==> IndexIs(lists[p := l], table[p / 8 := SetBit(table[p / 8], p % 8)], SetBit(group, p / 8))
    ensures |lists| <= 32 ==> IndexIs(lists[p := l], table, SetBit(group, p))
  {
    Shapes(lists, table, group);
    hide TableOk, GroupOk, OneLevel, SetBit;
    if |lists| > 32 { IndexSet(lists, table, group, p, l); } else { OneLevelSet(lists, group, p, l); }
  }

  lemma ClearIndex(lists: Lists, table: seq<nat>, group: nat, p: nat)
    requires IndexIs(lists, table, group) && p < |lists|
    ensures |lists| > 32 ==> |table| == 32 && p / 8 < 32
    ensures |lists| > 32 ==>
      var table' := table[p / 8 := ClearBit(table[p / 8], p % 8)];
      IndexIs(lists[p := []], table', if table'[p / 8] == 0 then ClearBit(group, p / 8) else group)
    ensures |lists| <= 32 ==> IndexIs(lists[p := []], table, ClearBit(group, p))
  {
    Shapes(lists, table, group);
    hide TableOk, GroupOk, OneLevel, ClearBit;
    if |lists| > 32 { IndexClear(lists, table, group, p); } else { OneLevelClear(lists, group, p); }
  }

  lemma KeepIndex(lists: Lists, table: seq<nat>, group: nat, p: nat, l: seq<Tid>)
    requires IndexIs(lists, table, group) && p < |lists| && lists[p] != [] && l != []
    ensures IndexIs(lists[p := l], table, group)
  {
    hide TableOk, GroupOk, OneLevel;
    if |lists| > 32 { IndexKept(lists, table, p, l); } else { OneLevelKept(lists, group, p, l); }
  }

  lemma HighestFound(lists: Lists, table: seq<nat>, group: nat)
    requires IndexIs(lists, table, group) && group != 0
    ensures group < 0x1_0000_0000 && 0 < Ffs(group) <= 32
    ensures |lists| > 32 ==> |table| == 32 && 0 < table[Ffs(group) - 1] < 256
    ensures var h := if |lists| > 32 then (Ffs(group) - 1) * 8 + Ffs(table[Ffs(group) - 1]) - 1 else Ffs(group) - 1;
      0 <= h < |lists| && lists[h] != [] && forall p :: 0 <= p < h ==> lists[p] == []
  {
    Shapes(lists, table, group);
    hide TableOk, GroupOk, OneLevel, Ffs;
    if |lists| > 32 { HighestIsMinimal(lists, table, group); } else { OneLevelHighest(lists, group); }
  }

  /* Threads. */

  /** `prio` is current_priority and `init` is init_priority; `yielding` is RT_THREAD_STAT_YIELD. */
  datatype Thread = Thread(stat: Stat, prio: nat, init: nat, yielding: bool)

  type Threads = map<Tid, Thread>

  function StatOf(ts: Threads, t: Tid): Stat { if t in ts then ts[t].stat else Close }

  function PrioOf(ts: Threads, t: Tid): nat { if t in ts then ts[t].prio else 0 }

  ghost predicate OnList(ts: Threads, lists: Lists, p: nat, t: Tid)
    requires p < |lists|
  {
    t in lists[p] <==> StatOf(ts, t) == Ready && PrioOf(ts, t) == p
  }

  /** Every ready thread is once on the list of its priority and on no other, and nobody else is on any. */
  ghost predicate ReadyOk(ts: Threads, lists: Lists) {
    && (forall p :: 0 <= p < |lists| ==> NoDup(lists[p]))
    && (forall t :: t in ts ==> ts[t].prio < |lists| && ts[t].init < |lists|)
    && forall p, t :: 0 <= p < |lists| ==> OnList(ts, lists, p, t)
  }

  /** Only the current thread runs, and the idle thread never blocks. */
  ghost predicate RunningOk(ts: Threads, current: Tid, idle: Tid) {
    && current in ts && ts[current].stat != Ready && ts[current].stat != Init
    && (forall t :: StatOf(ts, t) == Running ==> t == current)
    && idle in ts && (ts[idle].stat == Ready || ts[idle].stat == Running)
  }

  lemma ReadyAt(ts: Threads, lists: Lists, t: Tid)
    requires ReadyOk(ts, lists) && t in ts
    ensures ts[t].prio < |lists| && ts[t].init < |lists| && NoDup(lists[ts[t].prio])
    ensures t in lists[ts[t].prio] <==> ts[t].stat == Ready
    ensures forall p :: 0 <= p < |lists| && t in lists[p] ==> ts[t].stat == Ready && ts[t].prio == p
  {
    assert OnList(ts, lists, ts[t].prio, t);
    forall p | 0 <= p < |lists| && t in lists[p] ensures ts[t].stat == Ready && ts[t].prio == p {
      assert OnList(ts, lists, p, t);
    }
  }

  lemma Head(ts: Threads, lists: Lists, p: nat)
    requires ReadyOk(ts, lists) && p < |lists| && lists[p] != []
    ensures lists[p][0] in ts && ts[lists[p][0]].stat == Ready && ts[lists[p][0]].prio == p
  {
    assert OnList(ts, lists, p, lists[p][0]);
    assert lists[p][0] in lists[p];
  }

  /** A thread that is not ready becomes ready at the end of the list of priority `p`. */
  lemma ReadyInsert(ts: Threads, lists: Lists, t: Tid, th: Thread)
    requires ReadyOk(ts, lists) && t in ts && ts[t].stat != Ready && th.stat == Ready && th.prio < |lists|
      && th.init < |lists|
    ensures ReadyOk(ts[t := th], lists[th.prio := lists[th.prio] + [t]])
  {
    var p := th.prio;
    ReadyAt(ts, lists, t);
    assert OnList(ts, lists, p, t);
    SnocMembers(t, lists[p]);
    var ts', lists' := ts[t := th], lists[p := lists[p] + [t]];
    forall q, x | 0 <= q < |lists'| ensures OnList(ts', lists', q, x) {
      assert OnList(ts, lists, q, x);
    }
  }

  /** A ready thread leaves its list and is not ready any more. */
  lemma ReadyRemove(ts: Threads, lists: Lists, t: Tid, th: Thread)
    requires ReadyOk(ts, lists) && t in ts && th.stat != Ready && th.prio < |lists| && th.init < |lists|
    ensures ts[t].prio < |lists| && ReadyOk(ts[t := th], lists[ts[t].prio := Removed(lists[ts[t].prio], t)])
  {
    var p := ts[t].prio;
    ReadyAt(ts, lists, t);
    RemovedMembers(lists[p], t);
    var ts', lists' := ts[t := th], lists[p := Removed(lists[p], t)];
    forall q, x | 0 <= q < |lists'| ensures OnList(ts', lists', q, x) {
      assert OnList(ts, lists, q, x);
    }
  }

  /** A thread changes without becoming ready or having been ready. */
  lemma ReadySame(ts: Threads, lists: Lists, t: Tid, th: Thread)
    requires ReadyOk(ts, lists) && t in ts && th.prio < |lists| && th.init < |lists|
    requires if ts[t].stat == Ready then th.stat == Ready && th.prio == ts[t].prio else th.stat != Ready
    ensures ReadyOk(ts[t := th], lists)
  {
    ReadyAt(ts, lists, t);
    var ts' := ts[t := th];
    forall q, x | 0 <= q < |lists| ensures OnList(ts', lists, q, x) {
      assert OnList(ts, lists, q, x);
    }
  }

  /** With the idle thread not blocked, there is a ready thread unless the current thread is the idle
      thread. */
  lemma SomeReady(ts: Threads, lists: Lists, table: seq<nat>, group: nat, current: Tid, idle: Tid)
    requires ReadyOk(ts, lists) && RunningOk(ts, current, idle) && IndexIs(lists, table, group)
    ensures group == 0 ==> ts[current].stat == Running && forall t :: StatOf(ts, t) != Ready
  {
    hide TableOk, GroupOk, OneLevel;
    if |lists| > 32 {
      GroupZero(lists, table, group);
    } else {
      OneLevelZero(lists, group);
    }
    if group == 0 {
      forall t ensures StatOf(ts, t) != Ready {
        if t in ts { ReadyAt(ts, lists, t); }
      }
      assert StatOf(ts, idle) != Ready;
      assert StatOf(ts, idle) == Running;
    }
  }

  /** A thread moves from one ready list to the end of another. */
  function Moved(lists: Lists, t: Tid, p: nat, q: nat): Lists
    requires p < |lists| && q < |lists|
  {
    var l := lists[p := Removed(lists[p], t)];
    l[q := l[q] + [t]]
  }

  lemma ThriceUpdated(ts: Threads, t: Tid, a: Thread, b: Thread, c: Thread)
    ensures ts[t := a][t := b][t := c] == ts[t := c]
  {
  }

  lemma SameStats(ts: Threads, t: Tid, th: Thread)
    requires t in ts && th.stat == ts[t].stat && th.prio == ts[t].prio
    ensures forall x :: StatOf(ts[t := th], x) == StatOf(ts, x) && PrioOf(ts[t := th], x) == PrioOf(ts, x)
  {
  }

  lemma EmptyIndex(lists: Lists, table: seq<nat>)
    requires 0 < |lists| <= 256 && |table| == 32
    requires (forall p :: 0 <= p < |lists| ==> lists[p] == []) && forall n :: 0 <= n < 32 ==> table[n] == 0
    ensures IndexIs(lists, table, 0)
  {
    if |lists| > 32 {
      forall p | 0 <= p < 256 ensures BitFor(lists, table, p) {
        NoBits(p % 8);
      }
    }
    forall n | 0 <= n < 32 ensures !Bit(0, n) {
      NoBits(n);
    }
  }

  lemma NewThread(ts: Threads, lists: Lists, t: Tid, th: Thread)
    requires ReadyOk(ts, lists) && t !in ts && th.stat == Init && th.prio < |lists| && th.init < |lists|
    ensures ReadyOk(ts[t := th], lists)
  {
    var ts' := ts[t := th];
    forall q, x | 0 <= q < |lists| ensures OnList(ts', lists, q, x) {
      assert OnList(ts, lists, q, x);
    }
  }

  lemma NewRunning(ts: Threads, current: Tid, idle: Tid, t: Tid, th: Thread)
    requires RunningOk(ts, current, idle) && t !in ts && th.stat == Init
    ensures RunningOk(ts[t := th], current, idle)
  {
    var ts' := ts[t := th];
    forall x | StatOf(ts', x) == Running ensures x == current {
      assert StatOf(ts, x) == Running;
    }
  }

  lemma StillRunning(ts: Threads, current: Tid, idle: Tid, t: Tid, th: Thread)
    requires RunningOk(ts, current, idle) && t in ts
    requires if t == current then th.stat != Ready && th.stat != Init else th.stat != Running
    requires t == idle ==> th.stat == Ready || th.stat == Running
    ensures RunningOk(ts[t := th], current, idle)
  {
    var ts' := ts[t := th];
    forall x | StatOf(ts', x) == Running ensures x == current {
      assert x != t ==> StatOf(ts, x) == Running;
    }
  }

  lemma HeadRemoved(l: seq<Tid>)
    ensures l != [] ==> Removed(l, l[0]) == l[1..]
  {
  }

  lemma TwiceUpdated(ts: Threads, t: Tid, a: Thread, b: Thread)
    ensures ts[t := a][t := b] == ts[t := b]
  {
  }

  lemma SameThread(ts: Threads, t: Tid)
    requires t in ts
    ensures ts[t := ts[t]] == ts
  {
  }

  /** Whether rt_schedule leaves the current thread running. */
  ghost predicate Stays(ts: Threads, c: Tid) {
    && StatOf(ts, c) == Running
    && forall t :: StatOf(ts, t) == Ready ==>
      PrioOf(ts, c) < PrioOf(ts, t) || (PrioOf(ts, c) == PrioOf(ts, t) && !ts[c].yielding)
  }

  lemma StaysIs(ts: Threads, c: Tid)
    ensures Stays(ts, c) <==>
      && c in ts && ts[c].stat == Running
      && forall t :: t in ts && ts[t].stat == Ready ==>
           ts[c].prio < ts[t].prio || (ts[c].prio == ts[t].prio && !ts[c].yielding)
  {
    if Stays(ts, c) {
      forall t | t in ts && ts[t].stat == Ready
        ensures ts[c].prio < ts[t].prio || (ts[c].prio == ts[t].prio && !ts[c].yielding)
      {
        assert StatOf(ts, t) == Ready;
      }
    }
  }

  lemma Preempted(ts: Threads, c: Tid, d: Tid)
    requires d in ts && ts[d].stat == Ready && c in ts
    requires ts[c].stat == Running ==> ts[c].prio >= ts[d].prio && (ts[c].prio == ts[d].prio ==> ts[c].yielding)
    ensures !Stays(ts, c)
  {
    assert StatOf(ts, d) == Ready;
  }

  /** The switch from thread `c` to thread `d`, the first on the list of its priority: nobody is lost or
      duplicated. */
  ghost predicate Switched(ts: Threads, lists: Lists, c: Tid, ts': Threads, lists': Lists, d: Tid) {
    && c in ts && d in ts && ts[d].stat == Ready && ts[d].prio < |lists|
    && lists[ts[d].prio] != [] && lists[ts[d].prio][0] == d
    && ts' == ts[c := if ts[c].stat == Running then ts[c].(stat := Ready, yielding := false)
                 else ts[c]][d := ts[d].(stat := Running)]
    && (ts[c].stat == Running ==> ts[c].prio < |lists|)
    && lists' == (var l := if ts[c].stat == Running then lists[ts[c].prio := lists[ts[c].prio] + [c]] else lists;
                  l[ts[d].prio := l[ts[d].prio][1..]])
  }

  /** The first of the most urgent ready threads takes over from a thread that does not stay. */
  lemma SwitchedOk(ts: Threads, lists: Lists, c: Tid, idle: Tid, ts': Threads, lists': Lists, d: Tid)
    requires RunningOk(ts, c, idle) && Switched(ts, lists, c, ts', lists', d)
    requires forall x :: StatOf(ts, x) == Ready ==> ts[d].prio <= PrioOf(ts, x)
    requires ts[c].stat == Running ==> ts[c].prio >= ts[d].prio
    ensures RunningOk(ts', d, idle) && ts'[d].stat == Running
    ensures forall x :: StatOf(ts', x) == Ready ==> ts'[d].prio <= PrioOf(ts', x)
  {
    forall x | StatOf(ts', x) == Running ensures x == d {
      assert StatOf(ts, x) == Running ==> x == c;
    }
    forall x | StatOf(ts', x) == Ready ensures ts'[d].prio <= PrioOf(ts', x) {
      assert StatOf(ts, x) == Ready ==> ts[d].prio <= PrioOf(ts, x);
    }
    assert StatOf(ts, idle) == Running ==> idle == c;
  }

  /** What rt_schedule makes of the threads `ts` and the ready lists `lists` while thread `c` is the current one. */
  ghost predicate Scheduled(lockNest: nat, ts: Threads, lists: Lists, c: Tid, ts': Threads, lists': Lists, c': Tid) {
    && (lockNest > 0 ==> c' == c)
    && (lockNest == 0 ==> (c' == c <==> Stays(ts, c)))
    && if c' == c then ts' == ts && lists' == lists else Switched(ts, lists, c, ts', lists', c')
  }

  lemma ReadyFrom(ts: Threads, lists: Lists, p: nat)
    requires ReadyOk(ts, lists) && p < |lists| && forall q :: 0 <= q < p ==> lists[q] == []
    ensures forall x :: StatOf(ts, x) == Ready ==> p <= PrioOf(ts, x)
  {
    forall x | StatOf(ts, x) == Ready ensures p <= PrioOf(ts, x) {
      ReadyAt(ts, lists, x);
    }
  }

  lemma RemovedNothing(ts: Threads, lists: Lists, t: Tid)
    requires ReadyOk(ts, lists) && t in ts && ts[t].stat != Ready
    ensures ts[t].prio < |lists| && lists[ts[t].prio := Removed(lists[ts[t].prio], t)] == lists
  {
    ReadyAt(ts, lists, t);
    RemovedAbsent(lists[ts[t].prio], t);
  }

  lemma RemovedEmpty(l: seq<Tid>, t: Tid)
    ensures Removed(l, t) != [] ==> l != []
  {
  }

  class Scheduler {
    const idle: Tid
    var lists: Lists                  // rt_thread_priority_table
    var table: seq<nat>               // rt_thread_ready_table
    var group: nat                    // rt_thread_ready_priority_group
    var current: Tid                  // rt_current_thread
    var threads: Threads
    var lockNest: nat                 // rt_scheduler_lock_nest

    ghost predicate IndexOk() reads `lists, `table, `group { IndexIs(lists, table, group) }

    ghost predicate Valid() reads this {
      IndexOk() && ReadyOk(threads, lists) && RunningOk(threads, current, idle)
    }

    /** The system when only the idle thread has been started and runs. */
    constructor (max: nat, idle: Tid, prio: nat)
      requires 0 < max <= 256 && prio < max
      ensures Valid() && this.idle == idle && current == idle && lockNest == 0 && |lists| == max
      ensures threads == map[idle := Thread(Running, prio, prio, false)]
    {
      this.idle, current, lockNest := idle, idle, 0;
      threads := map[idle := Thread(Running, prio, prio, false)];
      lists := seq(max, _ => []);
      table := seq(32, _ => 0);
      group := 0;
      new;
      EmptyIndex(lists, table);
    }

    /** rt_thread_init: a thread that has not been started. */
    method Create(t: Tid, prio: nat)
      requires Valid() && t !in threads && prio < |lists|
      modifies `threads
      ensures Valid() && threads == old(threads)[t := Thread(Init, prio, prio, false)]
    {
      hide IndexIs;
      NewThread(threads, lists, t, Thread(Init, prio, prio, false));
      NewRunning(threads, current, idle, t, Thread(Init, prio, prio, false));
      threads := threads[t := Thread(Init, prio, prio, false)];
    }

    /** rt_schedule_insert_thread for a thread other than the current one. */
    method Insert(t: Tid)
      requires IndexOk() && ReadyOk(threads, lists) && t in threads && threads[t].stat != Ready && t != current
      modifies `lists, `table, `group, `threads
      ensures IndexOk() && ReadyOk(threads, lists)
      ensures threads == old(threads)[t := old(threads)[t].(stat := Ready)]
      ensures lists == var p := threads[t].prio; old(lists)[p := old(lists)[p] + [t]]
    {
      hide IndexIs, ReadyOk, SetBit;
      Shapes(lists, table, group);
      var thread := threads[t];
      ReadyAt(threads, lists, t);
      var p := thread.prio;
      ReadyInsert(threads, lists, t, thread.(stat := Ready));
      SetIndex(lists, table, group, p, lists[p] + [t]);
      DivMod8(p, 0);
      threads := threads[t := thread.(stat := Ready)];
      lists := lists[p := lists[p] + [t]];
      if |lists| > 32 {
        table := table[p / 8 := SetBit(table[p / 8], p % 8)];
        group := SetBit(group, p / 8);
      } else {
        group := SetBit(group, p);
      }
    }

    /** rt_schedule_remove_thread, after which the thread has the state `stat`. */
    method Remove(t: Tid, stat: Stat)
      requires IndexOk() && ReadyOk(threads, lists) && t in threads && stat != Ready
      modifies `lists, `table, `group, `threads
      ensures IndexOk() && ReadyOk(threads, lists)
      ensures threads == old(threads)[t := old(threads)[t].(stat := stat)]
      ensures lists == var p := threads[t].prio; old(lists)[p := Removed(old(lists)[p], t)]
    {
      hide IndexIs, ReadyOk, ClearBit, Removed;
      Shapes(lists, table, group);
      var thread := threads[t];
      ReadyAt(threads, lists, t);
      var p := thread.prio;
      ReadyRemove(threads, lists, t, thread.(stat := stat));
      RemovedEmpty(lists[p], t);
      DivMod8(p, 0);
      threads := threads[t := thread.(stat := stat)];
      ghost var was := lists;
      lists := lists[p := Removed(lists[p], t)];
      if lists[p] != [] {
        KeepIndex(was, table, group, p, lists[p]);
        return;
      }
      ClearIndex(was, table, group, p);
      if |lists| > 32 {
        table := table[p / 8 := ClearBit(table[p / 8], p % 8)];
        if table[p / 8] == 0 {
          group := ClearBit(group, p / 8);
        }
      } else {
        group := ClearBit(group, p);
      }
    }

    /** _get_highest_priority_thread */
    method GetHighest() returns (t: Tid, p: nat)
      requires IndexOk() && ReadyOk(threads, lists) && group != 0
      ensures p < |lists| && lists[p] != [] && t == lists[p][0] && t in threads
      ensures threads[t].stat == Ready && threads[t].prio == p
      ensures forall x :: StatOf(threads, x) == Ready ==> p <= PrioOf(threads, x)
    {
      hide IndexIs, ReadyOk, Ffs, StatOf, PrioOf;
      Shapes(lists, table, group);
      HighestFound(lists, table, group);
      var number := Ffs(group) - 1;
      p := if |lists| > 32 then number * 8 + Ffs(table[number]) - 1 else number;
      t := lists[p][0];
      Head(threads, lists, p);
      ReadyFrom(threads, lists, p);
    }

    /** rt_schedule. The current thread keeps running exactly when it is running and more urgent than every
        ready thread, or as urgent as the most urgent ones and not asked to yield. Otherwise the first of
        the most urgent ready threads takes its place, and it becomes the last of its list if it was
        running. */
    method Schedule()
      requires Valid()
      modifies `lists, `table, `group, `threads, `current
      ensures Valid()
      ensures lockNest == 0 ==> threads[current].stat == Running
      ensures lockNest == 0 ==> forall t :: StatOf(threads, t) == Ready ==> threads[current].prio <= PrioOf(threads, t)
      ensures Scheduled(lockNest, old(threads), old(lists), old(current), threads, lists, current)
      ensures lockNest == 0 ==>
        (current == old(current) <==>
          && old(current) in old(threads) && old(threads)[old(current)].stat == Running
          && forall t :: t in old(threads) && old(threads)[t].stat == Ready ==>
               var c := old(threads)[old(current)];
               c.prio < old(threads)[t].prio || (c.prio == old(threads)[t].prio && !c.yielding))
    {
      hide IndexIs, ReadyOk, Switched;
      StaysIs(threads, current);
      if lockNest == 0 {
        SomeReady(threads, lists, table, group, current, idle);
        if group != 0 {
          var to, highest := GetHighest();
          ReadyAt(threads, lists, current);
          var c := threads[current];
          var needInsert := false;
          if c.stat == Running {
            if c.prio < highest {
              to := current;
            } else if c.prio == highest && !c.yielding {
              to := current;
            } else {
              needInsert := true;
            }
          }
          if to != current {
            ghost var ts, ls, from := threads, lists, current;
            Preempted(threads, current, to);
            SwitchTo(to, needInsert);
            SwitchedOk(ts, ls, from, idle, threads, lists, to);
          } else {
            RemovedNothing(threads, lists, current);
            SameThread(threads, current);
            Remove(current, Running);
          }
        }
      }
    }

    /** The switch in rt_schedule; the yield flag of a thread that goes back to its list is cleared. */
    method SwitchTo(to: Tid, needInsert: bool)
      requires IndexOk() && ReadyOk(threads, lists) && current in threads && threads[current].stat != Ready
      requires needInsert == (threads[current].stat == Running)
      requires to in threads && threads[to].stat == Ready && threads[to].prio < |lists|
      requires lists[threads[to].prio] != [] && lists[threads[to].prio][0] == to
      modifies `lists, `table, `group, `threads, `current
      ensures IndexOk() && ReadyOk(threads, lists) && current == to
      ensures Switched(old(threads), old(lists), old(current), threads, lists, to)
    {
      hide IndexIs, ReadyOk;
      var from := current;
      var c := threads[from];
      ReadyAt(threads, lists, from);
      if needInsert {
        ReadySame(threads, lists, from, c.(yielding := false));
        threads := threads[from := c.(yielding := false)];
      }
      current := to;
      if needInsert {
        Insert(from);
      }
      HeadRemoved(lists[threads[to].prio]);
      Remove(to, Running);
      if needInsert {
        TwiceUpdated(old(threads), from, c.(yielding := false), c.(stat := Ready, yielding := false));
      } else {
        assert old(threads)[from := c] == old(threads);
      }
    }

    /** rt_thread_resume; the current thread, when it is resumed before the switch, keeps running. */
    method Resume(t: Tid) returns (ok: bool)
      requires Valid() && t in threads
      modifies `lists, `table, `group, `threads
      ensures Valid() && ok == (old(threads)[t].stat == Suspend)
      ensures !ok ==> threads == old(threads) && lists == old(lists)
      ensures ok ==> threads == old(threads)[t := old(threads)[t].(stat := if t == current then Running else Ready)]
      ensures ok ==> lists == var p := old(threads)[t].prio; if t == current then old(lists)
        else old(lists)[p := old(lists)[p] + [t]]
    {
      hide IndexIs, ReadyOk;
      ReadyAt(threads, lists, t);
      var thread := threads[t];
      if thread.stat != Suspend {
        return false;
      }
      StillRunning(threads, current, idle, t, thread.(stat := if t == current then Running else Ready));
      if t == current {
        ReadySame(threads, lists, t, thread.(stat := Running));
        threads := threads[t := thread.(stat := Running)];
      } else {
        Insert(t);
      }
      return true;
    }

    /** rt_thread_startup */
    method Startup(t: Tid)
      requires Valid() && t in threads && threads[t].stat == Init
      modifies `lists, `table, `group, `threads, `current
      ensures Valid() && (lockNest == 0 ==> threads[current].stat == Running)
      ensures var th := old(threads)[t]; var ready := th.(prio := th.init, stat := Ready, yielding := false);
        var ts, ls := old(threads)[t := ready], old(lists)[th.init := old(lists)[th.init] + [t]];
        Scheduled(lockNest, ts, ls, old(current), threads, lists, current)
    {
      hide IndexIs, ReadyOk, Scheduled;
      ReadyAt(threads, lists, t);
      var thread := threads[t].(prio := threads[t].init, stat := Suspend, yielding := false);
      ReadySame(threads, lists, t, thread);
      StillRunning(threads, current, idle, t, thread);
      threads := threads[t := thread];
      var _ := Resume(t);
      TwiceUpdated(old(threads), t, thread, thread.(stat := Ready));
      Schedule();
    }

    /** rt_thread_suspend, for a thread other than the idle thread. */
    method SuspendThread(t: Tid) returns (ok: bool)
      requires Valid() && t in threads && t != idle
      modifies `lists, `table, `group, `threads
      ensures Valid() && ok == (old(threads)[t].stat == Ready || old(threads)[t].stat == Running)
      ensures !ok ==> threads == old(threads) && lists == old(lists)
      ensures ok ==> threads == old(threads)[t := old(threads)[t].(stat := Suspend)]
      ensures ok ==> lists == var p := old(threads)[t].prio; old(lists)[p := Removed(old(lists)[p], t)]
    {
      hide IndexIs, ReadyOk, Removed;
      ReadyAt(threads, lists, t);
      var stat := threads[t].stat;
      if stat != Ready && stat != Running {
        return false;
      }
      StillRunning(threads, current, idle, t, threads[t].(stat := Suspend));
      Remove(t, Suspend);
      return true;
    }

    /** rt_thread_timeout: a thread whose timer has expired becomes ready, and the scheduler runs. */
    method Timeout(t: Tid)
      requires Valid() && t in threads && threads[t].stat == Suspend
      modifies `lists, `table, `group, `threads, `current
      ensures Valid() && (lockNest == 0 ==> threads[current].stat == Running)
      ensures var th := old(threads)[t];
        var ts := old(threads)[t := th.(stat := if t == old(current) then Running else Ready)];
        var ls := if t == old(current) then old(lists) else old(lists)[th.prio := old(lists)[th.prio] + [t]];
        Scheduled(lockNest, ts, ls, old(current), threads, lists, current)
    {
      hide IndexIs, ReadyOk, Scheduled;
      var _ := Resume(t);
      Schedule();
    }

    /** rt_thread_control with RT_THREAD_CTRL_CHANGE_PRIORITY: a ready thread moves to the end of the list of
        its new priority. */
    method ChangePriority(t: Tid, prio: nat)
      requires Valid() && t in threads && prio < |lists|
      modifies `lists, `table, `group, `threads
      ensures Valid() && threads == old(threads)[t := old(threads)[t].(prio := prio)]
      ensures lists == if old(threads)[t].stat != Ready then old(lists)
        else var p := old(threads)[t].prio;
          var rest := old(lists)[p := Removed(old(lists)[p], t)];
          rest[prio := rest[prio] + [t]]
    {
      hide IndexIs, ReadyOk, Removed;
      ReadyAt(threads, lists, t);
      var thread := threads[t];
      assert StatOf(threads, t) == Running ==> t == current;
      StillRunning(threads, current, idle, t, thread.(prio := prio));
      if thread.stat == Ready {
        Remove(t, Suspend);
        var mid := thread.(stat := Suspend, prio := prio);
        ReadySame(threads, lists, t, mid);
        threads := threads[t := mid];
        Insert(t);
        ThriceUpdated(old(threads), t, thread.(stat := Suspend), mid, thread.(prio := prio));
      } else {
        ReadySame(threads, lists, t, thread.(prio := prio));
        threads := threads[t := thread.(prio := prio)];
      }
    }

    /** rt_thread_delete, for a thread other than the idle thread. */
    method Delete(t: Tid)
      requires Valid() && t in threads && t != idle
      modifies `lists, `table, `group, `threads
      ensures Valid() && threads == old(threads)[t := old(threads)[t].(stat := Close)]
      ensures lists == var p := old(threads)[t].prio; old(lists)[p := Removed(old(lists)[p], t)]
    {
      hide IndexIs, ReadyOk, Removed;
      ReadyAt(threads, lists, t);
      var stat := threads[t].stat;
      if stat == Init || stat == Close { RemovedNothing(threads, lists, t); }
      if stat != Close {
        StillRunning(threads, current, idle, t, threads[t].(stat := Close));
        if stat != Init {
          Remove(t, Close);
        } else {
          ReadySame(threads, lists, t, threads[t].(stat := Close));
          threads := threads[t := threads[t].(stat := Close)];
        }
      } else {
        SameThread(threads, t);
      }
    }

    /** rt_tick_increase when the time slice of the current thread is used up. */
    method SliceEnds()
      requires Valid()
      modifies `lists, `table, `group, `threads, `current
      ensures Valid()
      ensures var ts := old(threads)[old(current) := old(threads)[old(current)].(yielding := true)];
        Scheduled(lockNest, ts, old(lists), old(current), threads, lists, current)
      ensures lockNest == 0 && old(threads)[old(current)].stat == Running && current == old(current) ==>
        forall t :: StatOf(old(threads), t) == Ready ==> PrioOf(old(threads), current) < PrioOf(old(threads), t)
    {
      hide IndexIs, ReadyOk, Switched;
      var c := threads[current];
      ReadyAt(threads, lists, current);
      ReadySame(threads, lists, current, c.(yielding := true));
      StillRunning(threads, current, idle, current, c.(yielding := true));
      threads := threads[current := c.(yielding := true)];
      SameStats(old(threads), current, c.(yielding := true));
      Schedule();
    }
  }

  /** In a switch, the thread that takes over leaves the front of its list, a thread that was running goes to the end
      of its own without its yield flag, and nobody else moves. */
  lemma SwitchMoves(ts: Threads, lists: Lists, c: Tid, ts': Threads, lists': Lists, d: Tid)
    requires Switched(ts, lists, c, ts', lists', d) && c != d
    ensures d in ts' && ts'[d] == ts[d].(stat := Running) && forall x :: x in ts && x != c && x != d ==> ts'[x] == ts[x]
    ensures |lists'| == |lists| && lists[ts[d].prio][0] == d
    ensures ts[c].stat == Running ==>
      && ts'[c] == ts[c].(stat := Ready, yielding := false)
      && lists'[ts[c].prio] == (if ts[c].prio == ts[d].prio then lists[ts[c].prio][1..] else lists[ts[c].prio]) + [c]
    ensures ts[c].stat != Running ==> ts'[c] == ts[c]
    ensures ts[c].stat != Running || ts[c].prio != ts[d].prio ==> lists'[ts[d].prio] == lists[ts[d].prio][1..]
    ensures forall p :: 0 <= p < |lists| && p != ts[d].prio && (ts[c].stat == Running ==> p != ts[c].prio) ==>
      lists'[p] == lists[p]
  {
    assert (lists[ts[d].prio] + [c])[1..] == lists[ts[d].prio][1..] + [c];
  }

  /** A thread that yields goes behind all threads of its priority. */
  lemma YieldRotates(ts: Threads, lists: Lists, c: Tid, ts': Threads, lists': Lists, d: Tid)
    requires Switched(ts, lists, c, ts', lists', d) && ts[c].stat == Running && ts[c].prio == ts[d].prio && c != d
    ensures lists' == lists[ts[c].prio := lists[ts[c].prio][1..] + [c]]
    ensures ts'[c].stat == Ready && !ts'[c].yielding && ts'[d].stat == Running
  {
    var p := ts[c].prio;
    assert (lists[p] + [c])[1..] == lists[p][1..] + [c];
  }
}
