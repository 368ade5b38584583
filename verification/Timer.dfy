/** The timer list of `src/timer.c`: a skip list ordered by a wrap-around comparison of 32-bit ticks, and
    the loop that fires expired timers. `due` and `now` are the deadlines and the time as they would be
    without wrap-around. */
module Timer {
  import opened Seqs

  datatype Tim = Tim(id: nat)

  type Ticks = map<Tim, int>

  type Heights = map<Tim, nat>

  /** One more than RT_TICK_MAX. */
  const WRAP: int := 0x1_0000_0000

  /** RT_TICK_MAX / 2 */
  const HALF: int := 0x7FFF_FFFF

  /** The tests of rt_timer_start and rt_timer_check on 32-bit values. */
  predicate Later(t: int, new_: int) { (t - new_) % WRAP != 0 && (t - new_) % WRAP < HALF }

  predicate Expired(tick: int, t: int) { (tick - t) % WRAP < HALF }

  lemma ModShift(x: int, k: int)
    ensures (x + k * WRAP) % WRAP == x % WRAP
  {
    var y := x + k * WRAP;
    assert y == (x / WRAP + k) * WRAP + x % WRAP;
  }

  lemma Wrapped(a: int, b: int)
    ensures (a % WRAP - b % WRAP) % WRAP == (a - b) % WRAP
  {
    var k := a / WRAP - b / WRAP;
    assert a - b == a % WRAP - b % WRAP + k * WRAP;
    ModShift(a % WRAP - b % WRAP, k);
  }

  /** The window in which the wrap-around test for insertion agrees with the order of the deadlines. */
  predicate InWindow(d: int, new_: int) { -0x8000_0001 <= d - new_ <= 0x7FFF_FFFE }

  /** For deadlines less than a full turn apart, the test tells the later one exactly inside the window. */
  lemma LaterAgrees(d: int, new_: int)
    requires -WRAP < d - new_ < WRAP
    ensures (Later(d % WRAP, new_ % WRAP) <==> d > new_) <==> InWindow(d, new_)
  {
    Wrapped(d, new_);
    ModShift(d - new_, if d < new_ then 1 else 0);
  }

  /** The expiry test agrees with the passing of the deadline exactly inside the same window. */
  lemma ExpiredAgrees(now: int, d: int)
    requires -WRAP < now - d < WRAP
    ensures (Expired(now % WRAP, d % WRAP) <==> d <= now) <==> InWindow(now, d)
  {
    Wrapped(now, d);
    ModShift(now - d, if now < d then 1 else 0);
  }

  /* Lists of timers. */

  function DueOf(due: Ticks, t: Tim): int { if t in due then due[t] else 0 }

  function HeightOf(h: Heights, t: Tim): nat { if t in h then h[t] else 0 }

  ghost predicate Sorted(s: seq<Tim>, due: Ticks) {
    forall i, j :: 0 <= i < j < |s| ==> DueOf(due, s[i]) <= DueOf(due, s[j])
  }

  /** How many timers at the front are due no later than `d`. */
  function Before(s: seq<Tim>, due: Ticks, d: int): (k: nat)
    ensures k <= |s|
    ensures forall i :: 0 <= i < k ==> DueOf(due, s[i]) <= d
    ensures k < |s| ==> DueOf(due, s[k]) > d
  {
    if s == [] || DueOf(due, s[0]) > d then 0 else 1 + Before(s[1..], due, d)
  }

  /** The timers of `s` that reach up `n` rows: the row that they form, counted from the bottom. */
  function Tall(s: seq<Tim>, h: Heights, n: nat): seq<Tim> {
    if s == [] then [] else (if HeightOf(h, s[0]) >= n then [s[0]] else []) + Tall(s[1..], h, n)
  }

  predicate Subsequence(a: seq<Tim>, b: seq<Tim>) {
    a == [] || (b != [] && if a[0] == b[0] then Subsequence(a[1..], b[1..]) else Subsequence(a, b[1..]))
  }

  lemma {:induction false} TallAppend(a: seq<Tim>, b: seq<Tim>, h: Heights, n: nat)
    ensures Tall(a + b, h, n) == Tall(a, h, n) + Tall(b, h, n)
  {
    if a == [] {
      assert a + b == b;
    } else {
      assert (a + b)[1..] == a[1..] + b;
      TallAppend(a[1..], b, h, n);
    }
  }

  lemma {:induction false} TallMembers(s: seq<Tim>, h: Heights, n: nat)
    ensures forall t :: t in Tall(s, h, n) <==> t in s && HeightOf(h, t) >= n
    ensures |Tall(s, h, n)| <= |s|
  {
    if s != [] {
      TallMembers(s[1..], h, n);
    }
  }

  lemma SortedRest(s: seq<Tim>, due: Ticks)
    requires Sorted(s, due) && s != []
    ensures Sorted(s[1..], due) && forall t :: t in s[1..] ==> DueOf(due, s[0]) <= DueOf(due, t)
  {
    hide DueOf;
  }

  lemma SortedCons(t: Tim, s: seq<Tim>, due: Ticks)
    requires Sorted(s, due) && forall u :: u in s ==> DueOf(due, t) <= DueOf(due, u)
    ensures Sorted([t] + s, due)
  {
    hide DueOf;
  }

  lemma {:induction false} TallSorted(s: seq<Tim>, h: Heights, n: nat, due: Ticks)
    requires Sorted(s, due)
    ensures Sorted(Tall(s, h, n), due)
  {
    hide Sorted, DueOf, HeightOf;
    if s != [] {
      var rest := s[1..];
      SortedRest(s, due);
      TallSorted(rest, h, n, due);
      TallMembers(rest, h, n);
      SortedCons(s[0], Tall(rest, h, n), due);
      assert [] + Tall(rest, h, n) == Tall(rest, h, n);
    } else {
      assert Tall(s, h, n) == s;
    }
  }

  lemma {:induction false} TallNoDup(s: seq<Tim>, h: Heights, n: nat)
    requires NoDup(s)
    ensures NoDup(Tall(s, h, n))
  {
    if s != [] {
      TallNoDup(s[1..], h, n);
      TallMembers(s[1..], h, n);
      assert s[0] !in s[1..];
    }
  }

  /** Changing the height of a timer that is not in the list. */
  lemma {:induction false} TallFrame(s: seq<Tim>, h: Heights, n: nat, t: Tim, v: nat)
    requires t !in s
    ensures Tall(s, h[t := v], n) == Tall(s, h, n)
  {
    if s != [] {
      TallFrame(s[1..], h, n, t, v);
    }
  }

  lemma SubsequenceCons(a: seq<Tim>, b: seq<Tim>, t: Tim)
    requires Subsequence(a, b) && t !in a
    ensures Subsequence([] + a, [t] + b)
  {
    assert [] + a == a && ([t] + b)[1..] == b;
    assert a != [] ==> a[0] in a;
  }

  /** A row is a subsequence of the row below. */
  lemma {:induction false} TallSubsequence(s: seq<Tim>, h: Heights, n: nat)
    requires NoDup(s)
    ensures Subsequence(Tall(s, h, n + 1), Tall(s, h, n))
  {
    if s != [] {
      RestMembers(s);
      TallSubsequence(s[1..], h, n);
      TallMembers(s[1..], h, n + 1);
      var a, b := Tall(s[1..], h, n + 1), Tall(s[1..], h, n);
      assert [] + a == a && [] + b == b;
      if HeightOf(h, s[0]) >= n {
        assert ([s[0]] + b)[1..] == b;
        if HeightOf(h, s[0]) >= n + 1 {
          assert ([s[0]] + a)[1..] == a;
        } else {
          SubsequenceCons(a, b, s[0]);
        }
      }
    }
  }

  lemma WithoutSingle(a: seq<Tim>, m: seq<Tim>, b: seq<Tim>, t: Tim)
    requires t !in a && t !in b && (m == [] || m == [t])
    ensures Removed(a + m + b, t) == a + b
  {
    if m == [] {
      assert a + m + b == a + b;
      RemovedAbsent(a + b, t);
    } else {
      RemovedSplit(a, t, b);
    }
  }

  lemma TallSingle(t: Tim, h: Heights, n: nat)
    ensures Tall([t], h, n) == if HeightOf(h, t) >= n then [t] else []
  {
    assert [t][1..] == [];
  }

  /** Unlinking a timer from every row removes it from the bottom row and keeps the rows in step. */
  lemma {:induction false} TallRemoved(s: seq<Tim>, h: Heights, n: nat, t: Tim)
    requires NoDup(s)
    ensures Tall(Removed(s, t), h, n) == Removed(Tall(s, h, n), t)
  {
    hide Tall, Removed, HeightOf;
    if t in s {
      var k :| 0 <= k < |s| && s[k] == t;
      var a, b := s[..k], s[k + 1..];
      assert s == a + [t] + b;
      SplitMembers(a, t, b);
      RemovedSplit(a, t, b);
      TallAppend(a, b, h, n);
      TallAppend(a + [t], b, h, n);
      TallAppend(a, [t], h, n);
      TallMembers(a, h, n);
      TallMembers(b, h, n);
      TallSingle(t, h, n);
      WithoutSingle(Tall(a, h, n), Tall([t], h, n), Tall(b, h, n), t);
    } else {
      RemovedAbsent(s, t);
      TallMembers(s, h, n);
      RemovedAbsent(Tall(s, h, n), t);
    }
  }

  lemma RemovedSorted(s: seq<Tim>, t: Tim, due: Ticks)
    requires Sorted(s, due)
    ensures Sorted(Removed(s, t), due)
  {
    hide DueOf, Removed;
    var r := Removed(s, t);
    forall i, j | 0 <= i < j < |r| ensures DueOf(due, r[i]) <= DueOf(due, r[j]) {
      var p, q := RemovedOrder(s, t, i, j);
    }
  }

  lemma {:induction false} BeforeIs(s: seq<Tim>, due: Ticks, d: int, k: nat)
    requires k <= |s| && forall i :: 0 <= i < k ==> DueOf(due, s[i]) <= d
    requires k < |s| ==> DueOf(due, s[k]) > d
    ensures Before(s, due, d) == k
  {
    if k > 0 {
      BeforeIs(s[1..], due, d, k - 1);
    }
  }

  lemma SplitBefore(a: seq<Tim>, b: seq<Tim>, due: Ticks, d: int)
    requires forall i :: 0 <= i < |a| ==> DueOf(due, a[i]) <= d
    requires b != [] ==> DueOf(due, b[0]) > d
    ensures Before(a + b, due, d) == |a|
  {
    BeforeIs(a + b, due, d, |a|);
  }

  lemma LaterOnes(s: seq<Tim>, due: Ticks, d: int, t: Tim)
    requires Sorted(s, due) && t in s[Before(s, due, d)..]
    ensures DueOf(due, t) > d
  {
    var k := Before(s, due, d);
    var i :| k <= i < |s| && s[i] == t;
  }

  /** The row of timers up to a deadline is the row of the timers up to that deadline. */
  lemma {:induction false} TallBefore(s: seq<Tim>, h: Heights, n: nat, due: Ticks, d: int)
    requires Sorted(s, due)
    ensures Tall(s, h, n) == Tall(s[..Before(s, due, d)], h, n) + Tall(s[Before(s, due, d)..], h, n)
    ensures Before(Tall(s, h, n), due, d) == |Tall(s[..Before(s, due, d)], h, n)|
  {
    hide Tall, Before, Sorted;
    var k := Before(s, due, d);
    var a, b := Tall(s[..k], h, n), Tall(s[k..], h, n);
    assert s == s[..k] + s[k..];
    TallAppend(s[..k], s[k..], h, n);
    TallMembers(s[..k], h, n);
    TallMembers(s[k..], h, n);
    forall i | 0 <= i < |a| ensures DueOf(due, a[i]) <= d {
      assert a[i] in s[..k];
    }
    if b != [] {
      assert b[0] in s[k..];
      LaterOnes(s, due, d, b[0]);
    }
    SplitBefore(a, b, due, d);
  }

  /** The list after timer `t`, due at `d`, is put behind all that are due no later. */
  function Placed(s: seq<Tim>, due: Ticks, t: Tim, d: int): seq<Tim> { InsertedAt(s, Before(s, due, d), t) }

  /** Inserting a timer of height `v` after everything due no later than it keeps the rows in step. */
  lemma TallInserted(s: seq<Tim>, h: Heights, n: nat, due: Ticks, d: int, t: Tim, v: nat)
    requires Sorted(s, due) && t !in s
    ensures var r := Tall(s, h, n);
      Tall(Placed(s, due, t, d), h[t := v], n) == if v >= n then Placed(r, due, t, d) else r
  {
    hide Sorted, Tall, Before, DueOf;
    var k := Before(s, due, d);
    var h' := h[t := v];
    assert s == s[..k] + s[k..];
    TallBefore(s, h, n, due, d);
    TallFrame(s[..k], h, n, t, v);
    TallFrame(s[k..], h, n, t, v);
    TallAppend(s[..k] + [t], s[k..], h', n);
    TallAppend(s[..k], [t], h', n);
    TallSingle(t, h', n);
    var a, b := Tall(s[..k], h, n), Tall(s[k..], h, n);
    assert (a + b)[..|a|] == a && (a + b)[|a|..] == b && a + [] + b == a + b;
  }

  lemma NewDue(due: Ticks, t: Tim, d: int)
    ensures DueOf(due[t := d], t) == d
  {
  }

  lemma InsertedSorted(s: seq<Tim>, due: Ticks, t: Tim, d: int)
    requires Sorted(s, due) && t !in s
    ensures Sorted(Placed(s, due, t, d), due[t := d])
  {
    hide Before, InsertedAt;
    var k := Before(s, due, d);
    var r, due' := InsertedAt(s, k, t), due[t := d];
    InsertedIndex(s, k, t, 0);
    forall i | 0 <= i < |s| ensures DueOf(due', s[i]) == DueOf(due, s[i]) && (i >= k ==> DueOf(due, s[i]) > d) {
      assert s[i] in s;
      if i >= k { assert s[i] in s[k..]; LaterOnes(s, due, d, s[i]); }
    }
    hide DueOf;
    assert DueOf(due', t) == d by { NewDue(due, t, d); }
    forall i, j | 0 <= i < j < |r| ensures DueOf(due', r[i]) <= DueOf(due', r[j]) {
      InsertedIndex(s, k, t, i);
      InsertedIndex(s, k, t, j);
    }
  }

  lemma {:induction false} BeforeFrame(s: seq<Tim>, due: Ticks, d: int, t: Tim, v: int)
    requires t !in s
    ensures Before(s, due[t := v], d) == Before(s, due, d)
  {
    if s != [] {
      BeforeFrame(s[1..], due, d, t, v);
    }
  }

  /* The whole list. */

  /** The rows are the bottom row filtered by height, so each is a subsequence of the row below. */
  ghost predicate RowsOk(rows: seq<seq<Tim>>, levels: nat, h: Heights) {
    && levels >= 1 && |rows| == levels
    && forall l :: 0 <= l < levels ==> rows[l] == Tall(rows[levels - 1], h, levels - l)
  }

  /** A pending timer: its 32-bit deadline stands for `due`, which lies less than half the range from `now`. */
  ghost predicate PendingOk(t: Tim, due: Ticks, timeoutTick: Ticks, h: Heights, now: int) {
    && t in timeoutTick && timeoutTick[t] == DueOf(due, t) % WRAP
    && now - 0x7FFF_FFFE <= DueOf(due, t) <= now + 0x7FFF_FFFE && HeightOf(h, t) >= 1
  }

  /** Timer `t` is due before `u`, or at the same time and was started first. */
  ghost predicate Precedes(due: Ticks, stamp: Ticks, t: Tim, u: Tim) {
    DueOf(due, t) < DueOf(due, u) || (DueOf(due, t) == DueOf(due, u) && DueOf(stamp, t) < DueOf(stamp, u))
  }

  /** The list is in the order of deadlines and, for equal deadlines, of starts. */
  ghost predicate Stamped(s: seq<Tim>, due: Ticks, stamp: Ticks, starts: nat) {
    && (forall i, j {:trigger Precedes(due, stamp, s[i], s[j])} :: 0 <= i < j < |s| ==>
        Precedes(due, stamp, s[i], s[j]))
    && forall t :: t in s ==> DueOf(stamp, t) < starts
  }

  lemma StampedRemoved(s: seq<Tim>, due: Ticks, stamp: Ticks, starts: nat, t: Tim)
    requires Stamped(s, due, stamp, starts) && NoDup(s)
    ensures Stamped(Removed(s, t), due, stamp, starts)
  {
    hide Precedes, Removed, DueOf;
    var r := Removed(s, t);
    forall i, j | 0 <= i < j < |r| ensures Precedes(due, stamp, r[i], r[j]) {
      var p, q := RemovedOrder(s, t, i, j);
      assert Precedes(due, stamp, s[p], s[q]);
    }
    RemovedMembers(s, t);
  }

  lemma PrecedesIs(due: Ticks, stamp: Ticks, t: Tim, u: Tim)
    ensures Precedes(due, stamp, t, u)
       <==> DueOf(due, t) < DueOf(due, u) || (DueOf(due, t) == DueOf(due, u) && DueOf(stamp, t) < DueOf(stamp, u))
  {
  }

  lemma AfterDue(s: seq<Tim>, due: Ticks, stamp: Ticks, starts: nat, d: int, i: nat)
    requires Stamped(s, due, stamp, starts) && Before(s, due, d) <= i < |s|
    ensures DueOf(due, s[i]) > d
  {
    hide Before;
    var k := Before(s, due, d);
    if k < i {
      assert Precedes(due, stamp, s[k], s[i]);
    }
  }

  lemma InsertedMembersOf(s: seq<Tim>, k: nat, t: Tim)
    requires k <= |s|
    ensures forall x :: x in InsertedAt(s, k, t) <==> x in s || x == t
  {
    assert s == s[..k] + s[k..];
  }

  /** A timer that is started goes behind all others with the same deadline. */
  lemma StampedInserted(s: seq<Tim>, due: Ticks, stamp: Ticks, starts: nat, t: Tim, d: int)
    requires Stamped(s, due, stamp, starts) && NoDup(s) && t !in s
    ensures Stamped(Placed(s, due, t, d), due[t := d], stamp[t := starts], starts + 1)
  {
    hide Precedes, Before, InsertedAt;
    var k := Before(s, due, d);
    var r := InsertedAt(s, k, t);
    InsertedMembersOf(s, k, t);
    InsertedIndex(s, k, t, 0);
    forall i, j | 0 <= i < j < |r| ensures Precedes(due[t := d], stamp[t := starts], r[i], r[j]) {
      InsertedIndex(s, k, t, i);
      InsertedIndex(s, k, t, j);
      PrecedesIs(due[t := d], stamp[t := starts], r[i], r[j]);
      if i != k && j != k {
        var p, q := if i < k then i else i - 1, if j < k then j else j - 1;
        assert Precedes(due, stamp, s[p], s[q]);
        PrecedesIs(due, stamp, s[p], s[q]);
        assert s[p] in s && s[q] in s;
      } else if j == k {
        assert s[i] in s && DueOf(due, s[i]) <= d;
      } else {
        assert s[j - 1] in s;
        AfterDue(s, due, stamp, starts, d, j - 1);
      }
    }
  }

  /** The timers at the front that are due, and the others. */
  lemma FrontPrecedes(s: seq<Tim>, due: Ticks, stamp: Ticks, starts: nat, now: int)
    requires Stamped(s, due, stamp, starts) && NoDup(s)
    ensures var f := s[..Before(s, due, now)];
      && (forall i, j :: 0 <= i < j < |f| ==> Precedes(due, stamp, f[i], f[j]))
      && forall t :: t in s ==> (t in f <==> DueOf(due, t) <= now)
  {
    hide Precedes, Before, DueOf;
    var k := Before(s, due, now);
    forall t | t in s ensures t in s[..k] <==> DueOf(due, t) <= now {
      var i :| 0 <= i < |s| && s[i] == t;
      if i >= k { AfterDue(s, due, stamp, starts, now, i); }
    }
  }

  /** The 32-bit test tells for all the timers in `s` whether they are due later than `d`. */
  ghost predicate AllInWindow(s: seq<Tim>, due: Ticks, d: int) { forall t :: t in s ==> InWindow(DueOf(due, t), d) }

  /** How late pending timers may be for a timer to be started: the longer its initial tick, the less. */
  lemma LatestStart(s: seq<Tim>, due: Ticks, now: int, init: int)
    requires 0 <= init < HALF && forall t :: t in s ==> DueOf(due, t) <= now + 0x7FFF_FFFE
    ensures AllInWindow(s, due, now + init) <==> forall t :: t in s ==> now - DueOf(due, t) <= 0x8000_0001 - init
  {
    forall t | t in s ensures InWindow(DueOf(due, t), now + init) <==> now - DueOf(due, t) <= 0x8000_0001 - init {
    }
    hide InWindow, DueOf;
  }

  /** Next to a timer with the longest initial tick, a pending timer may be three ticks late and not four. */
  lemma ThreeTicksLate(t: Tim, due: Ticks, now: int, late: nat)
    requires t in due && due[t] == now - late
    ensures AllInWindow([t], due, now + HALF - 1) <==> late <= 3
    ensures late == 4 ==> due[t] < now + HALF - 1 && Later(due[t] % WRAP, (now + HALF - 1) % WRAP)
  {
    LatestStart([t], due, now, HALF - 1);
    assert t in [t];
    if late == 4 { LaterAgrees(due[t], now + HALF - 1); }
  }

  ghost predicate ListOk(base: seq<Tim>, due: Ticks, timeoutTick: Ticks, h: Heights, now: int) {
    NoDup(base) && Sorted(base, due) && forall t :: t in base ==> PendingOk(t, due, timeoutTick, h, now)
  }

  lemma RowSorted(rows: seq<seq<Tim>>, levels: nat, h: Heights, due: Ticks, l: nat)
    requires RowsOk(rows, levels, h) && NoDup(rows[levels - 1]) && Sorted(rows[levels - 1], due) && l < levels
    ensures Sorted(rows[l], due) && NoDup(rows[l])
    ensures l + 1 < levels ==> Subsequence(rows[l], rows[l + 1]) && forall t :: t in rows[l] ==> t in rows[l + 1]
    ensures forall t :: t in rows[l] ==> t in rows[levels - 1]
  {
    hide Tall, Sorted, NoDup, Subsequence, HeightOf;
    var base := rows[levels - 1];
    TallSorted(base, h, levels - l, due);
    TallNoDup(base, h, levels - l);
    TallMembers(base, h, levels - l);
    if l + 1 < levels {
      TallSubsequence(base, h, levels - l - 1);
      TallMembers(base, h, levels - l - 1);
    }
  }

  function IndexOf(s: seq<Tim>, t: Tim): (k: nat)
    requires t in s
    ensures k < |s| && s[k] == t
  {
    if s[0] == t then 0 else 1 + IndexOf(s[1..], t)
  }

  lemma {:induction false} RowsRemoved(rows: seq<seq<Tim>>, levels: nat, h: Heights, t: Tim, rows': seq<seq<Tim>>)
    requires RowsOk(rows, levels, h) && NoDup(rows[levels - 1]) && |rows'| == levels
    requires forall l :: 0 <= l < levels ==> rows'[l] == Removed(rows[l], t)
    ensures RowsOk(rows', levels, h)
  {
    hide Tall, Removed;
    forall l | 0 <= l < levels ensures rows'[l] == Tall(rows'[levels - 1], h, levels - l) {
      TallRemoved(rows[levels - 1], h, levels - l, t);
    }
  }

  lemma RowsInserted(rows: seq<seq<Tim>>, levels: nat, h: Heights, due: Ticks, d: int, t: Tim, v: nat,
                     rows': seq<seq<Tim>>)
    requires RowsOk(rows, levels, h) && Sorted(rows[levels - 1], due) && t !in rows[levels - 1] && 1 <= v
      && |rows'| == levels
    requires forall l :: 0 <= l < levels ==>
      rows'[l] == if levels - l <= v then Placed(rows[l], due, t, d) else rows[l]
    ensures RowsOk(rows', levels, h[t := v])
  {
    hide Tall, Sorted, Placed;
    forall l | 0 <= l < levels ensures rows'[l] == Tall(rows'[levels - 1], h[t := v], levels - l) {
      TallInserted(rows[levels - 1], h, levels - l, due, d, t, v);
    }
  }

  lemma ListRemoved(base: seq<Tim>, due: Ticks, timeoutTick: Ticks, h: Heights, now: int, t: Tim)
    requires ListOk(base, due, timeoutTick, h, now)
    ensures ListOk(Removed(base, t), due, timeoutTick, h, now)
    ensures t !in Removed(base, t)
  {
    hide PendingOk;
    RemovedMembers(base, t);
    RemovedSorted(base, t, due);
  }

  /** The deadline of a timer that is not pending may change. */
  lemma ListFrame(base: seq<Tim>, due: Ticks, timeoutTick: Ticks, h: Heights, now: int, t: Tim, d: int, d32: int,
                  v: nat)
    requires ListOk(base, due, timeoutTick, h, now) && t !in base
    ensures ListOk(base, due[t := d], timeoutTick[t := d32], h[t := v], now)
  {
    forall i | 0 <= i < |base| ensures DueOf(due[t := d], base[i]) == DueOf(due, base[i]) {
      assert base[i] in base;
    }
    forall x | x in base ensures PendingOk(x, due[t := d], timeoutTick[t := d32], h[t := v], now) {
      assert PendingOk(x, due, timeoutTick, h, now);
    }
  }

  lemma ListInserted(base: seq<Tim>, due: Ticks, timeoutTick: Ticks, h: Heights, now: int, t: Tim, d: int, v: nat)
    requires ListOk(base, due, timeoutTick, h, now) && t !in base && v >= 1 && now <= d <= now + 0x7FFF_FFFE
    ensures ListOk(Placed(base, due, t, d), due[t := d], timeoutTick[t := d % WRAP], h[t := v], now)
  {
    InsertedSorted(base, due, t, d);
    InsertedMembers(base, Before(base, due, d), t);
    ListFrame(base, due, timeoutTick, h, now, t, d, d % WRAP, v);
    hide Sorted, Before;
  }

  /** `!(tst_nr & RT_TIMER_SKIP_LIST_MASK)` and the shift by the bits tested, for a mask of one or two bits. */
  predicate LowBitsZero(tst: int, mask: nat) { tst % (mask + 1) == 0 }

  function Shifted(tst: int, mask: nat): int { tst / (mask + 1) }

  function InitOf(initTick: Ticks, t: Tim): int { if t in initTick then initTick[t] else 0 }

  ghost predicate Startable(s: seq<Tim>, due: Ticks, initTick: Ticks, now: int, t: Tim) {
    && t in initTick && 0 <= InitOf(initTick, t) < HALF
    && AllInWindow(Removed(s, t), due, now + InitOf(initTick, t))
  }

  ghost predicate Joined(later: seq<Tim>, fired: seq<Tim>, periodic: set<Tim>, rest: seq<Tim>) {
    forall t :: t in rest <==> t in later || (t in fired && t in periodic)
  }

  ghost predicate NewDues(fired: seq<Tim>, periodic: set<Tim>, initTick: Ticks, now: int, due0: Ticks, due: Ticks) {
    forall t :: DueOf(due, t) == if t in fired && t in periodic then now + InitOf(initTick, t) else DueOf(due0, t)
  }

  /** The deadlines after the timers `fired` have fired one after the other. */
  function DueAfter(due0: Ticks, fired: seq<Tim>, periodic: set<Tim>, initTick: Ticks, now: int): Ticks {
    if fired == [] then due0
    else
      var n := |fired| - 1;
      var t, due := fired[n], DueAfter(due0, fired[..n], periodic, initTick, now);
      if t in periodic then due[t := now + InitOf(initTick, t)] else due
  }

  /** The list `later` after the periodic timers among `fired` have been started again, one after the other. */
  function Restarted(later: seq<Tim>, due0: Ticks, fired: seq<Tim>, periodic: set<Tim>, initTick: Ticks,
                     now: int): seq<Tim> {
    if fired == [] then later
    else
      var n := |fired| - 1;
      var t, rest := fired[n], Restarted(later, due0, fired[..n], periodic, initTick, now);
      if t in periodic
      then Placed(rest, DueAfter(due0, fired, periodic, initTick, now), t, now + InitOf(initTick, t))
      else rest
  }

  /** What the loop of rt_timer_check has made of the timers that were not due, `later`, after it has fired
      the timers `fired`: the periodic ones have joined them. */
  ghost predicate Rearmed(later: seq<Tim>, fired: seq<Tim>, periodic: set<Tim>, initTick: Ticks, now: int,
                          due0: Ticks, due: Ticks, rest: seq<Tim>) {
    && (forall t :: t in rest ==> DueOf(due, t) > now)
    && Joined(later, fired, periodic, rest)
    && NewDues(fired, periodic, initTick, now, due0, due)
    && due == DueAfter(due0, fired, periodic, initTick, now)
    && rest == Restarted(later, due0, fired, periodic, initTick, now)
  }

  lemma FirstPending(base: seq<Tim>, due: Ticks, timeoutTick: Ticks, h: Heights, now: int)
    requires ListOk(base, due, timeoutTick, h, now) && base != []
    ensures base[0] in timeoutTick
    ensures Expired(now % WRAP, timeoutTick[base[0]]) <==> DueOf(due, base[0]) <= now
  {
    assert PendingOk(base[0], due, timeoutTick, h, now);
    ExpiredAgrees(now, DueOf(due, base[0]));
  }

  /** The state of the loop of rt_timer_check when it has fired the timers `fired`, from the list `base` on. */
  ghost predicate Firing(base: seq<Tim>, due0: Ticks, now: int, periodic: set<Tim>, initTick: Ticks,
                         fired: seq<Tim>, due: Ticks, b: seq<Tim>) {
    var j := Before(base, due0, now);
    var rest := Restarted(base[j..], due0, fired, periodic, initTick, now);
    && NoDup(base) && |fired| <= j && fired == base[..|fired|] && b == base[|fired|..j] + rest
    && Rearmed(base[j..], fired, periodic, initTick, now, due0, due, rest)
  }

  lemma NoneFired(base: seq<Tim>, due0: Ticks, now: int, periodic: set<Tim>, initTick: Ticks)
    requires Sorted(base, due0)
    ensures Rearmed(base[Before(base, due0, now)..], [], periodic, initTick, now, due0, due0,
                    base[Before(base, due0, now)..])
  {
    hide Before;
    var later := base[Before(base, due0, now)..];
    forall t | t in later ensures DueOf(due0, t) > now {
      LaterOnes(base, due0, now, t);
    }
  }

  lemma ListSplits(base: seq<Tim>, j: nat)
    requires j <= |base|
    ensures base == base[0..j] + base[j..] && base[..0] == []
  {
  }

  lemma FiringStart(base: seq<Tim>, due0: Ticks, now: int, periodic: set<Tim>, initTick: Ticks)
    requires NoDup(base) && Sorted(base, due0)
    ensures Firing(base, due0, now, periodic, initTick, [], due0, base)
  {
    hide Before, Rearmed, NoDup, Sorted;
    NoneFired(base, due0, now, periodic, initTick);
    ListSplits(base, Before(base, due0, now));
  }

  lemma RearmedIs(later: seq<Tim>, fired: seq<Tim>, periodic: set<Tim>, initTick: Ticks, now: int,
                  due0: Ticks, due: Ticks, rest: seq<Tim>)
    requires Rearmed(later, fired, periodic, initTick, now, due0, due, rest)
    ensures due == DueAfter(due0, fired, periodic, initTick, now)
      && rest == Restarted(later, due0, fired, periodic, initTick, now)
  {
  }

  /** While the expired timers fire, the pending ones stay within the window of the next one that is started
      again. */
  lemma StillInWindow(base: seq<Tim>, due0: Ticks, now: int, periodic: set<Tim>, initTick: Ticks,
                      fired: seq<Tim>, rest: seq<Tim>, due: Ticks, j: nat, b: seq<Tim>, t: Tim)
    requires NoDup(base) && NoDup(b) && j <= |base| && |fired| <= j && b == base[|fired|..j] + rest && t in b
      && t in periodic
    requires Rearmed(base[j..], fired, periodic, initTick, now, due0, due, rest) && fired == base[..|fired|]
    requires forall u :: u in base && u in periodic ==>
      Startable(base, due0, initTick, now, u) && InitOf(initTick, u) >= 1
    ensures Startable(b, due, initTick, now, t) && InitOf(initTick, t) >= 1
  {
    hide Before, Removed, Restarted, DueAfter, DueOf, NoDup;
    RemovedMembers(b, t);
    forall u | u in b ensures u in base {
      if u !in base[|fired|..j] {
        assert u in rest;
      }
    }
    RemovedMembers(base, t);
    assert Startable(base, due0, initTick, now, t);
    forall u | u in Removed(b, t) ensures InWindow(DueOf(due, u), now + InitOf(initTick, t)) {
      assert u in Removed(base, t);
    }
  }

  /** The timers that were due and have not fired yet keep their deadlines. */
  lemma DueStill(base: seq<Tim>, due0: Ticks, now: int, periodic: set<Tim>, initTick: Ticks,
                 fired: seq<Tim>, rest: seq<Tim>, due: Ticks, j: nat)
    requires NoDup(base) && j == Before(base, due0, now) && |fired| <= j && fired == base[..|fired|]
    requires Rearmed(base[j..], fired, periodic, initTick, now, due0, due, rest)
    ensures forall t :: t in base[|fired|..j] ==> DueOf(due, t) <= now
  {
    hide Before;
    forall t | t in base[|fired|..j] ensures DueOf(due, t) <= now {
      var i :| |fired| <= i < j && base[i] == t;
      assert t !in fired;
    }
  }

  lemma JoinedNext(later: seq<Tim>, fired: seq<Tim>, periodic: set<Tim>, rest: seq<Tim>, t: Tim, k: nat)
    requires Joined(later, fired, periodic, rest) && k <= |rest|
    ensures Joined(later, fired + [t], periodic, if t in periodic then InsertedAt(rest, k, t) else rest)
  {
    InsertedMembersOf(rest, k, t);
    hide InsertedAt;
    assert forall x :: x in fired + [t] <==> x in fired || x == t;
  }

  lemma DuesNext(fired: seq<Tim>, periodic: set<Tim>, initTick: Ticks, now: int, due0: Ticks, due: Ticks, t: Tim)
    requires NewDues(fired, periodic, initTick, now, due0, due)
    ensures NewDues(fired + [t], periodic, initTick, now, due0,
                    if t in periodic then due[t := now + InitOf(initTick, t)] else due)
    ensures t in periodic ==> forall x :: x != t ==> DueOf(due[t := now + InitOf(initTick, t)], x) == DueOf(due, x)
  {
    assert forall x :: x in fired + [t] <==> x in fired || x == t;
  }

  lemma OneRestarted(later: seq<Tim>, due0: Ticks, fired: seq<Tim>, periodic: set<Tim>, initTick: Ticks, now: int,
                     t: Tim)
    ensures var due, rest := DueAfter(due0, fired, periodic, initTick, now),
      Restarted(later, due0, fired, periodic, initTick, now);
      var d := now + InitOf(initTick, t);
      && DueAfter(due0, fired + [t], periodic, initTick, now) == (if t in periodic then due[t := d] else due)
      && Restarted(later, due0, fired + [t], periodic, initTick, now)
         == if t in periodic then Placed(rest, due[t := d], t, d) else rest
  {
    hide Before, InsertedAt, InitOf;
    assert (fired + [t])[..|fired|] == fired;
  }

  /** One more timer has fired; it is gone, or has joined the timers that are not due. */
  lemma OneFires(later: seq<Tim>, fired: seq<Tim>, periodic: set<Tim>, initTick: Ticks, now: int,
                 due0: Ticks, due: Ticks, rest: seq<Tim>, t: Tim)
    requires Rearmed(later, fired, periodic, initTick, now, due0, due, rest) && t !in fired && t !in rest
    ensures t !in periodic ==> Rearmed(later, fired + [t], periodic, initTick, now, due0, due, rest)
    ensures t in periodic && InitOf(initTick, t) >= 1 ==>
      var d := now + InitOf(initTick, t);
      && Before(rest, due[t := d], d) == Before(rest, due, d)
      && Rearmed(later, fired + [t], periodic, initTick, now, due0, due[t := d], Placed(rest, due, t, d))
  {
    hide Before, InsertedAt, DueAfter, Restarted, Joined, NewDues, DueOf;
    OneRestarted(later, due0, fired, periodic, initTick, now, t);
    DuesNext(fired, periodic, initTick, now, due0, due, t);
    var d := now + InitOf(initTick, t);
    var k := Before(rest, due, d);
    JoinedNext(later, fired, periodic, rest, t, k);
    InsertedMembersOf(rest, k, t);
    BeforeFrame(rest, due, d, t, d);
    NewDue(due, t, d);
  }

  lemma {:induction false} BeforeAppend(a: seq<Tim>, b: seq<Tim>, due: Ticks, d: int)
    requires forall t :: t in a ==> DueOf(due, t) <= d
    ensures Before(a + b, due, d) == |a| + Before(b, due, d)
  {
    if a == [] {
      assert a + b == b;
    } else {
      assert (a + b)[1..] == a[1..] + b;
      BeforeAppend(a[1..], b, due, d);
    }
  }

  lemma InsertedAppend(a: seq<Tim>, b: seq<Tim>, k: nat, t: Tim)
    requires k <= |b|
    ensures InsertedAt(a + b, |a| + k, t) == a + InsertedAt(b, k, t)
  {
    assert (a + b)[..|a| + k] == a + b[..k] && (a + b)[|a| + k..] == b[k..];
  }

  lemma PlacedAppend(a: seq<Tim>, b: seq<Tim>, due: Ticks, t: Tim, d: int)
    requires forall u :: u in a ==> DueOf(due, u) <= d
    ensures Placed(a + b, due, t, d) == a + Placed(b, due, t, d)
  {
    hide Before, InsertedAt, DueOf;
    BeforeAppend(a, b, due, d);
    InsertedAppend(a, b, Before(b, due, d), t);
  }

  lemma RemovedFirst(b: seq<Tim>)
    requires b != []
    ensures Removed(b, b[0]) == b[1..]
  {
  }

  lemma NextParts(base: seq<Tim>, fired: seq<Tim>, rest: seq<Tim>, j: nat, b: seq<Tim>)
    requires |fired| <= j <= |base| && b == base[|fired|..j] + rest && b != [] && b[0] !in rest && NoDup(b)
    ensures |fired| < j && b[0] == base[|fired|] && b[0] in base
    ensures Removed(b, b[0]) == base[|fired| + 1..j] + rest && b[0] !in Removed(b, b[0])
  {
    hide NoDup, Removed;
    var k := |fired|;
    assert base[k..j] == [base[k]] + base[k + 1..j];
    RestMembers(b);
    assert b[1..] == base[k + 1..j] + rest;
    RemovedFirst(b);
  }

  lemma NotInRest(later: seq<Tim>, fired: seq<Tim>, periodic: set<Tim>, initTick: Ticks, now: int,
                  due0: Ticks, due: Ticks, rest: seq<Tim>, t: Tim)
    requires Rearmed(later, fired, periodic, initTick, now, due0, due, rest)
    ensures DueOf(due, t) <= now ==> t !in rest
  {
  }

  lemma FiredBefore(base: seq<Tim>, k: nat)
    requires NoDup(base) && k < |base|
    ensures base[k] !in base[..k] && base[..k + 1] == base[..k] + [base[k]]
  {
  }

  /** The first timer of the list, when it has expired, is the next of those that were due. */
  lemma NextFires(base: seq<Tim>, due0: Ticks, now: int, periodic: set<Tim>, initTick: Ticks,
                  fired: seq<Tim>, rest: seq<Tim>, due: Ticks, j: nat, b: seq<Tim>)
    requires NoDup(base) && NoDup(b) && j == Before(base, due0, now) && |fired| <= j && fired == base[..|fired|]
    requires b == base[|fired|..j] + rest && b != [] && DueOf(due, b[0]) <= now
    requires Rearmed(base[j..], fired, periodic, initTick, now, due0, due, rest)
    ensures |fired| < j && fired + [b[0]] == base[..|fired| + 1] && b[0] in base
    ensures Removed(b, b[0]) == base[|fired| + 1..j] + rest && b[0] !in Removed(b, b[0])
    ensures b[0] !in periodic ==> Rearmed(base[j..], fired + [b[0]], periodic, initTick, now, due0, due, rest)
    ensures b[0] in periodic && InitOf(initTick, b[0]) >= 1 ==>
      var d := now + InitOf(initTick, b[0]);
      var r := Removed(b, b[0]);
      && Rearmed(base[j..], fired + [b[0]], periodic, initTick, now, due0, due[b[0] := d], Placed(rest, due, b[0], d))
      && Placed(r, due, b[0], d) == base[|fired| + 1..j] + Placed(rest, due, b[0], d)
  {
    hide Before, Placed, NoDup, DueOf, InitOf, Removed, Rearmed;
    var k, t := |fired|, b[0];
    NotInRest(base[j..], fired, periodic, initTick, now, due0, due, rest, t);
    NextParts(base, fired, rest, j, b);
    var mid := base[k + 1..j];
    FiredBefore(base, k);
    DueStill(base, due0, now, periodic, initTick, fired, rest, due, j);
    assert forall u :: u in mid ==> u in base[k..j];
    OneFires(base[j..], fired, periodic, initTick, now, due0, due, rest, t);
    if t in periodic && InitOf(initTick, t) >= 1 {
      var d := now + InitOf(initTick, t);
      PlacedAppend(mid, rest, due, t, d);
    }
  }

  lemma FiringNext(base: seq<Tim>, due0: Ticks, now: int, periodic: set<Tim>, initTick: Ticks,
                   fired: seq<Tim>, due: Ticks, b: seq<Tim>)
    requires Firing(base, due0, now, periodic, initTick, fired, due, b) && NoDup(b)
    requires b != [] && DueOf(due, b[0]) <= now
    requires forall t :: t in base && t in periodic ==>
      Startable(base, due0, initTick, now, t) && InitOf(initTick, t) >= 1
    ensures |fired| < |base| && (b[0] in periodic ==> Startable(b, due, initTick, now, b[0]))
    ensures var t := b[0];
      var d, r := now + InitOf(initTick, t), Removed(b, t);
      Firing(base, due0, now, periodic, initTick, fired + [t],
             if t in periodic then due[t := d] else due, if t in periodic then Placed(r, due, t, d) else r)
  {
    hide Before, Rearmed, NoDup, Startable, Removed, DueOf, InitOf, Placed;
    var j, t := Before(base, due0, now), b[0];
    var rest := Restarted(base[j..], due0, fired, periodic, initTick, now);
    NextFires(base, due0, now, periodic, initTick, fired, rest, due, j, b);
    if t in periodic {
      StillInWindow(base, due0, now, periodic, initTick, fired, rest, due, j, b, t);
      var d := now + InitOf(initTick, t);
      RearmedIs(base[j..], fired + [t], periodic, initTick, now, due0, due[t := d], Placed(rest, due, t, d));
    } else {
      RearmedIs(base[j..], fired + [t], periodic, initTick, now, due0, due, rest);
    }
  }

  lemma FirstOfJoin(a: seq<Tim>, b: seq<Tim>)
    ensures a != [] ==> (a + b)[0] in a
    ensures a == [] ==> a + b == b
  {
  }

  lemma Apart(base: seq<Tim>, j: nat)
    requires NoDup(base) && j <= |base|
    ensures forall t :: t in base <==> t in base[..j] || t in base[j..]
    ensures forall t :: t in base[..j] ==> t !in base[j..]
  {
    assert base == base[..j] + base[j..];
  }

  /** When the first timer has not expired, all timers that were due have fired. */
  lemma AllFired(base: seq<Tim>, due0: Ticks, now: int, periodic: set<Tim>, initTick: Ticks,
                 fired: seq<Tim>, rest: seq<Tim>, due: Ticks, j: nat, b: seq<Tim>)
    requires NoDup(base) && j == Before(base, due0, now) && |fired| <= j && fired == base[..|fired|]
    requires b == base[|fired|..j] + rest && (b == [] || DueOf(due, b[0]) > now)
    requires Rearmed(base[j..], fired, periodic, initTick, now, due0, due, rest)
    ensures fired == base[..j] && b == rest && rest == Restarted(base[j..], due0, fired, periodic, initTick, now)
    ensures forall t :: t in b ==> DueOf(due, t) > now
    ensures forall t :: t in b <==> t in base && (t in fired ==> t in periodic)
    ensures forall t ::
      DueOf(due, t) == if t in fired && t in periodic then now + InitOf(initTick, t) else DueOf(due0, t)
  {
    hide Before;
    DueStill(base, due0, now, periodic, initTick, fired, rest, due, j);
    var mid := base[|fired|..j];
    FirstOfJoin(mid, rest);
    assert base == base[..j] + base[j..];
    Apart(base, j);
  }

  lemma FiringEnd(base: seq<Tim>, due0: Ticks, now: int, periodic: set<Tim>, initTick: Ticks,
                  fired: seq<Tim>, due: Ticks, b: seq<Tim>)
    requires Firing(base, due0, now, periodic, initTick, fired, due, b)
    requires b == [] || DueOf(due, b[0]) > now
    ensures fired == base[..Before(base, due0, now)] && b == Restarted(base[|fired|..], due0, fired, periodic,
        initTick, now)
    ensures forall t :: t in b ==> DueOf(due, t) > now
    ensures forall t :: t in b <==> t in base && (t in fired ==> t in periodic)
    ensures forall t ::
      DueOf(due, t) == if t in fired && t in periodic then now + InitOf(initTick, t) else DueOf(due0, t)
  {
    hide Before, Rearmed, NoDup, DueOf, InitOf;
    var j := Before(base, due0, now);
    var rest := Restarted(base[j..], due0, fired, periodic, initTick, now);
    AllFired(base, due0, now, periodic, initTick, fired, rest, due, j, b);
  }

  lemma TickSum(now: int, n: int)
    ensures (now % WRAP + n) % WRAP == (now + n) % WRAP
  {
    assert now + n == now % WRAP + n + now / WRAP * WRAP;
    ModShift(now % WRAP + n, now / WRAP);
  }

  lemma {:induction false} TallSame(s: seq<Tim>, h: Heights, n: nat, t: Tim)
    ensures Tall(s, h[t := HeightOf(h, t)], n) == Tall(s, h, n)
  {
    if s != [] {
      TallSame(s[1..], h, n, t);
    }
  }

  lemma SameRows(rows: seq<seq<Tim>>, levels: nat, h: Heights, t: Tim)
    requires RowsOk(rows, levels, h)
    ensures RowsOk(rows, levels, h[t := HeightOf(h, t)])
  {
    forall l | 0 <= l < levels ensures rows[l] == Tall(rows[levels - 1], h[t := HeightOf(h, t)], levels - l) {
      TallSame(rows[levels - 1], h, levels - l, t);
    }
  }

  lemma SameTick(m: Ticks, t: Tim)
    requires t in m
    ensures m[t := m[t]] == m
  {
  }

  lemma BaseNoDup(base: seq<Tim>, due: Ticks, timeoutTick: Ticks, h: Heights, now: int)
    requires ListOk(base, due, timeoutTick, h, now)
    ensures NoDup(base) && Sorted(base, due)
  {
  }

  lemma LinkedIn(rows: seq<seq<Tim>>, levels: nat, h: Heights, due: Ticks, timeoutTick: Ticks, now: int, d: int,
                 t: Tim, v: nat, rows': seq<seq<Tim>>)
    requires RowsOk(rows, levels, h) && ListOk(rows[levels - 1], due, timeoutTick, h, now) && t !in rows[levels - 1]
    requires 1 <= v && |rows'| == levels && now <= d <= now + 0x7FFF_FFFE
    requires t in timeoutTick && timeoutTick[t] == d % WRAP && t in due && due[t] == d
    requires forall l :: 0 <= l < levels ==>
      rows'[l] == if levels - l <= v then Placed(rows[l], due, t, d) else rows[l]
    ensures RowsOk(rows', levels, h[t := v]) && ListOk(rows'[levels - 1], due, timeoutTick, h[t := v], now)
  {
    hide ListOk, Tall, Placed, NoDup, Sorted, DueOf;
    var base := rows[levels - 1];
    BaseNoDup(base, due, timeoutTick, h, now);
    RowsInserted(rows, levels, h, due, d, t, v, rows');
    ListInserted(base, due, timeoutTick, h, now, t, d, v);
    SameTick(due, t);
    SameTick(timeoutTick, t);
  }

  lemma StartFacts(s: seq<Tim>, due: Ticks, initTick: Ticks, now: int, t: Tim)
    requires Startable(s, due, initTick, now, t)
    ensures t in initTick && initTick[t] == InitOf(initTick, t) && 0 <= initTick[t] < HALF
    ensures AllInWindow(Removed(s, t), due, now + initTick[t])
  {
  }

  lemma StartableRest(s: seq<Tim>, due: Ticks, initTick: Ticks, now: int, t: Tim)
    requires Startable(s, due, initTick, now, t) && NoDup(s)
    ensures Startable(Removed(s, t), due, initTick, now, t)
  {
    hide InWindow, NoDup;
    RemovedMembers(s, t);
    RemovedAbsent(Removed(s, t), t);
  }

  lemma PlacedMembers(s: seq<Tim>, due: Ticks, t: Tim, d: int)
    ensures forall x :: x in Placed(s, due, t, d) <==> x in s || x == t
  {
    hide InsertedAt;
    InsertedMembersOf(s, Before(s, due, d), t);
  }

  lemma OthersInWindow(base: seq<Tim>, due: Ticks, t: Tim, d: int)
    requires AllInWindow(base, due, d) && t !in base
    ensures AllInWindow(base, due[t := d], d)
  {
  }

  /** In every row the test of rt_timer_start tells which timers are due later than the new one. */
  lemma RowTests(rows: seq<seq<Tim>>, levels: nat, due: Ticks, timeoutTick: Ticks, h: Heights, now: int, l: nat, d: int)
    requires RowsOk(rows, levels, h) && ListOk(rows[levels - 1], due, timeoutTick, h, now) && l < levels
    requires AllInWindow(rows[levels - 1], due, d)
    ensures forall i :: 0 <= i < |rows[l]| ==>
      rows[l][i] in timeoutTick && (Later(timeoutTick[rows[l][i]], d % WRAP) <==> DueOf(due, rows[l][i]) > d)
  {
    hide Later, Tall;
    RowSorted(rows, levels, h, due, l);
    forall i | 0 <= i < |rows[l]|
      ensures rows[l][i] in timeoutTick && (Later(timeoutTick[rows[l][i]], d % WRAP) <==> DueOf(due, rows[l][i]) > d)
    {
      var t := rows[l][i];
      assert t in rows[l];
      assert PendingOk(t, due, timeoutTick, h, now);
      LaterAgrees(DueOf(due, t), d);
    }
  }

  /** Going down a row: the timers up to the node where the search above stopped are not later. */
  lemma StepDown(upper: seq<Tim>, lower: seq<Tim>, due: Ticks, d: int, k: nat)
    requires Sorted(lower, due) && (forall t :: t in upper ==> t in lower) && k == Before(upper, due, d) > 0
    ensures upper[k - 1] in lower
    ensures forall i :: 0 <= i < |lower| && i <= IndexOf(lower, upper[k - 1]) ==> DueOf(due, lower[i]) <= d
  {
    hide Before;
    assert upper[k - 1] in upper;
  }

  lemma RowsLength(rows: seq<seq<Tim>>, levels: nat, h: Heights)
    requires RowsOk(rows, levels, h)
    ensures |rows| == levels >= 1
  {
  }

  class TimerList {
    const levels: nat                 // RT_TIMER_SKIP_LIST_LEVEL
    const mask: nat                   // RT_TIMER_SKIP_LIST_MASK
    var tick: int                     // rt_tick
    var rows: seq<seq<Tim>>           // the rows of the skip list, from the top
    var initTick: Ticks               // init_tick of the timers
    var timeoutTick: Ticks            // timeout_tick of the timers
    var periodic: set<Tim>            // RT_TIMER_FLAG_PERIODIC
    var activated: set<Tim>           // RT_TIMER_FLAG_ACTIVATED
    var randomNr: int                 // random_nr
    ghost var now: int
    ghost var due: Ticks
    ghost var height: Heights
    ghost var starts: nat             // how often a timer has been started
    ghost var stamp: Ticks            // which of these starts was the last of a timer

    ghost function Base(): seq<Tim>
      reads `rows
    {
      if levels >= 1 && |rows| == levels then rows[levels - 1] else []
    }

    /** Everything but which timers are marked as activated. */
    ghost predicate Linked()
      reads `rows, `height, `due, `timeoutTick, `now, `tick
    {
      && RowsOk(rows, levels, height) && ListOk(Base(), due, timeoutTick, height, now)
      && tick == now % WRAP && now >= 0 && (mask == 1 || mask == 3)
    }

    ghost predicate Valid()
      reads this
    {
      && Linked() && (forall t :: t in activated <==> t in Base())
      && Stamped(Base(), due, stamp, starts)
    }

    /** The timer has an initial tick below half the range, as rt_timer_start asserts, and all other pending
        timers lie in the window of its deadline. */
    ghost predicate CanStart(t: Tim)
      reads `initTick, `now, `due, `rows
    {
      Startable(Base(), due, initTick, now, t)
    }

    constructor (levels: nat, mask: nat, initTick: Ticks, periodic: set<Tim>)
      requires levels >= 1 && (mask == 1 || mask == 3)
      ensures Valid() && Base() == [] && this.levels == levels && this.initTick == initTick
        && this.periodic == periodic && now == 0
    {
      this.levels, this.mask, this.initTick, this.periodic := levels, mask, initTick, periodic;
      tick, randomNr, timeoutTick, activated := 0, 0, map[], {};
      now, due, height, starts, stamp := 0, map[], map[], 0, map[];
      rows := seq(levels, _ => []);
    }

    /** _rt_timer_remove: the timer leaves every row that it is in. */
    method Unlink(t: Tim)
      requires Linked()
      modifies `rows
      ensures Linked() && Base() == Removed(old(Base()), t) && t !in Base()
    {
      hide ListOk, Removed, Tall, NoDup, Sorted, DueOf;
      ListRemoved(Base(), due, timeoutTick, height, now, t);
      BaseNoDup(Base(), due, timeoutTick, height, now);
      ghost var was := rows;
      var i := 0;
      while i < levels
        invariant 0 <= i <= levels && |rows| == levels
        invariant forall l :: 0 <= l < levels ==> rows[l] == if l < i then Removed(was[l], t) else was[l]
      {
        rows := rows[i := Removed(rows[i], t)];
        i := i + 1;
      }
      RowsRemoved(was, levels, height, t, rows);
    }

    /** The search of rt_timer_start in one row, from place `start` on. */
    method SearchRow(l: nat, start: nat, d32: int, ghost d: int) returns (k: nat)
      requires Linked() && d32 == d % WRAP && AllInWindow(Base(), due, d) && l < levels && start <= |rows[l]|
      requires forall i :: 0 <= i < start ==> DueOf(due, rows[l][i]) <= d
      ensures k == Before(rows[l], due, d)
    {
      hide ListOk, Tall, Before, Later, RowsOk;
      RowsLength(rows, levels, height);
      RowTests(rows, levels, due, timeoutTick, height, now, l, d);
      k := start;
      while k < |rows[l]| && !Later(timeoutTick[rows[l][k]], d32)
        invariant start <= k <= |rows[l]|
        invariant forall i :: 0 <= i < k ==> DueOf(due, rows[l][i]) <= d
      {
        k := k + 1;
      }
      BeforeIs(rows[l], due, d, k);
    }

    lemma Unfold()
      requires Linked()
      ensures |rows| == levels >= 1 && Base() == rows[levels - 1] && tick == now % WRAP
      ensures ListOk(Base(), due, timeoutTick, height, now) && NoDup(Base()) && Sorted(Base(), due)
    {
      RowsLength(rows, levels, height);
      BaseNoDup(Base(), due, timeoutTick, height, now);
    }

    /** A row and the row below. */
    lemma RowsStep(l: nat)
      requires Linked() && l + 1 < levels
      ensures |rows| == levels && Sorted(rows[l + 1], due) && forall t :: t in rows[l] ==> t in rows[l + 1]
    {
      hide Sorted, ListOk, RowsOk;
      Unfold();
      RowSorted(rows, levels, height, due, l);
      RowSorted(rows, levels, height, due, l + 1);
    }

    /** The search of rt_timer_start: in every row, the place after all timers due no later than `d`. Each
        row is searched from the node where the search in the row above has stopped. */
    method Search(d32: int, ghost d: int) returns (pos: seq<nat>)
      requires Linked() && d32 == d % WRAP && AllInWindow(Base(), due, d)
      ensures |pos| == levels && forall l :: 0 <= l < levels ==> pos[l] == Before(rows[l], due, d)
    {
      hide Linked, Before, Sorted, AllInWindow, DueOf;
      Unfold();
      pos := [];
      var k := 0;
      while |pos| < levels
        invariant |pos| <= levels && forall l :: 0 <= l < |pos| ==> pos[l] == Before(rows[l], due, d)
        invariant |pos| > 0 ==> k == pos[|pos| - 1]
        invariant |pos| == 0 ==> k == 0
        decreases levels - |pos|
      {
        var l := |pos|;
        if k > 0 {
          RowsStep(l - 1);
          StepDown(rows[l - 1], rows[l], due, d, k);
          k := IndexOf(rows[l], rows[l - 1][k - 1]) + 1;
        }
        k := SearchRow(l, k, d32, d);
        pos := pos + [k];
      }
    }

    /** The height that rt_timer_start gives to a timer: one more than the number of times the mask finds
        zero bits at the low end of the counter, up to the number of rows; and the links in the rows. */
    method Link(t: Tim, pos: seq<nat>, ghost d: int) returns (ghost v: nat)
      requires Linked() && t !in Base() && |pos| == levels && now <= d <= now + 0x7FFF_FFFE
      requires t in timeoutTick && timeoutTick[t] == d % WRAP && t in due && due[t] == d
      requires forall l :: 0 <= l < levels ==> pos[l] == Before(rows[l], due, d)
      modifies `rows, `randomNr, `height
      ensures Linked() && Base() == Placed(old(Base()), due, t, d)
    {
      hide ListOk, Tall, Before, RowsOk, InsertedAt, Removed, DueOf, HeightOf, NoDup, Sorted, PendingOk, LowBitsZero,
        Shifted;
      RowsLength(rows, levels, height);
      BaseNoDup(Base(), due, timeoutTick, height, now);
      ghost var was := rows;
      randomNr := (randomNr + 1) % WRAP;
      var tst := randomNr;
      rows := rows[levels - 1 := InsertedAt(rows[levels - 1], pos[levels - 1], t)];
      v := 1;
      var lvl := 2;
      while lvl <= levels && LowBitsZero(tst, mask)
        invariant 2 <= lvl <= levels + 1 && v == lvl - 1 && |rows| == levels
        invariant forall l :: 0 <= l < levels ==>
          rows[l] == if levels - l <= v then InsertedAt(was[l], pos[l], t) else was[l]
        decreases levels - lvl
        modifies `rows
      {
        rows := rows[levels - lvl := InsertedAt(rows[levels - lvl], pos[levels - lvl], t)];
        v := v + 1;
        tst := Shifted(tst, mask);
        lvl := lvl + 1;
      }
      LinkedIn(was, levels, height, due, timeoutTick, now, d, t, v, rows);
      height := height[t := v];
    }

    /** rt_timer_start: the timer is put after all pending timers due no later than it. */
    method Start(t: Tim)
      requires Valid() && CanStart(t)
      modifies `rows, `timeoutTick, `activated, `randomNr, `due, `height, `starts, `stamp
      ensures var d := now + InitOf(initTick, t);
        && Valid() && due == old(due)[t := d] && activated == old(activated) + {t}
        && Base() == Placed(Removed(old(Base()), t), old(due), t, d)
      ensures starts == old(starts) + 1 && stamp == old(stamp)[t := old(starts)]
    {
      hide Linked, Removed, DueOf, NoDup, Stamped, Placed, Startable, AllInWindow, InitOf;
      StartFacts(Base(), due, initTick, now, t);
      Unfold();
      RemovedMembers(Base(), t);
      StampedRemoved(Base(), due, stamp, starts, t);
      Unlink(t);
      activated := activated - {t};
      ghost var d, b := now + initTick[t], Base();
      StampedInserted(b, due, stamp, starts, t, d);
      SetDeadline(t);
      starts, stamp := starts + 1, stamp[t := starts];
      LinkIn(t);
      activated := activated + {t};
      PlacedMembers(b, old(due), t, d);
    }

    /** The search and the links of rt_timer_start. */
    method LinkIn(t: Tim)
      requires Linked() && t !in Base() && t in due && t in timeoutTick && timeoutTick[t] == due[t] % WRAP
      requires now <= due[t] <= now + 0x7FFF_FFFE && AllInWindow(Base(), due, due[t])
      modifies `rows, `randomNr, `height
      ensures Linked() && Base() == Placed(old(Base()), due, t, due[t])
    {
      hide Linked, Placed, Before, AllInWindow;
      var pos := Search(timeoutTick[t], due[t]);
      var _ := Link(t, pos, due[t]);
    }

    /** The assignment of timeout_tick in rt_timer_start, to a timer that is not pending. */
    method SetDeadline(t: Tim)
      requires Linked() && t !in Base() && t in initTick && 0 <= initTick[t] < HALF
      requires AllInWindow(Base(), due, now + initTick[t])
      modifies `timeoutTick, `due, `height
      ensures Linked() && due == old(due)[t := now + initTick[t]]
      ensures t in timeoutTick && timeoutTick[t] == due[t] % WRAP && AllInWindow(Base(), due, due[t])
      ensures Placed(Base(), due, t, due[t]) == Placed(Base(), old(due), t, due[t])
    {
      hide ListOk, Tall, Before, RowsOk, InsertedAt, Removed, DueOf, HeightOf, NoDup, Sorted, PendingOk;
      ghost var d := now + initTick[t];
      OthersInWindow(Base(), due, t, d);
      TickSum(now, initTick[t]);
      ListFrame(Base(), due, timeoutTick, height, now, t, d, d % WRAP, HeightOf(height, t));
      SameRows(rows, levels, height, t);
      BeforeFrame(Base(), due, d, t, d);
      timeoutTick := timeoutTick[t := (tick + initTick[t]) % WRAP];
      due, height := due[t := d], height[t := HeightOf(height, t)];
    }

    /** rt_timer_stop */
    method Stop(t: Tim) returns (ok: bool)
      requires Valid()
      modifies `rows, `activated
      ensures Valid() && ok == (t in old(Base())) && Base() == Removed(old(Base()), t)
    {
      hide ListOk, RowsOk;
      BaseNoDup(Base(), due, timeoutTick, height, now);
      RemovedMembers(Base(), t);
      StampedRemoved(Base(), due, stamp, starts, t);
      if t !in activated {
        RemovedAbsent(Base(), t);
        return false;
      }
      Unlink(t);
      activated := activated - {t};
      return true;
    }

    /** rt_timer_list_next_timeout: the deadline of the first timer, which no pending timer precedes. */
    method NextTimeout() returns (r: int)
      requires Valid()
      ensures if Base() == [] then r == WRAP - 1
              else r == DueOf(due, Base()[0]) % WRAP
                   && forall t :: t in Base() ==> DueOf(due, Base()[0]) <= DueOf(due, t)
    {
      hide RowsOk, DueOf;
      RowsLength(rows, levels, height);
      if rows[levels - 1] == [] {
        return WRAP - 1;
      }
      var t := rows[levels - 1][0];
      assert PendingOk(t, due, timeoutTick, height, now);
      r := timeoutTick[t];
    }

    /** rt_tick_increase, with timers checked often enough that none gets overdue by half the range. */
    method Tick()
      requires Valid() && forall t :: t in Base() ==> DueOf(due, t) > now - 0x7FFF_FFFE
      modifies `tick, `now
      ensures Valid() && now == old(now) + 1
    {
      hide RowsOk;
      TickSum(now, 1);
      forall t | t in Base() ensures PendingOk(t, due, timeoutTick, height, now + 1) {
        assert PendingOk(t, due, timeoutTick, height, now);
      }
      tick := (tick + 1) % WRAP;
      now := now + 1;
    }

    /** One turn of the loop of rt_timer_check: the timer is unlinked, and started again if it is periodic. */
    method Fire(t: Tim)
      requires Valid() && t in Base()
      requires t in periodic ==> CanStart(t)
      modifies `rows, `timeoutTick, `activated, `randomNr, `due, `height, `starts, `stamp
      ensures Valid()
      ensures var b, d := Removed(old(Base()), t), now + InitOf(initTick, t);
        && due == (if t in periodic then old(due)[t := d] else old(due))
        && Base() == if t in periodic then Placed(b, old(due), t, d) else b
    {
      hide Linked, Stamped, Placed, Removed, Startable, InitOf, NoDup, Sorted, ListOk;
      Unfold();
      RemovedMembers(Base(), t);
      StampedRemoved(Base(), due, stamp, starts, t);
      Unlink(t);
      if t in periodic && t in activated {
        activated := activated - {t};
        StartableRest(old(Base()), due, initTick, now, t);
        RemovedAbsent(Base(), t);
        Start(t);
      } else {
        activated := activated - {t};
      }
    }

    /** rt_timer_check, with timeout functions that do not touch the timers. It fires the timers whose
        deadline has passed, once each, in the order of their deadlines and, for equal deadlines, of their
        starts; and it starts the periodic ones again. */
    method Check() returns (fired: seq<Tim>)
      requires Valid()
      requires forall t :: t in Base() && t in periodic ==> CanStart(t) && InitOf(initTick, t) >= 1
      modifies `rows, `timeoutTick, `activated, `randomNr, `due, `height, `starts, `stamp
      ensures Valid() && fired == old(Base())[..Before(old(Base()), old(due), now)]
      ensures forall i, j :: 0 <= i < j < |fired| ==> Precedes(old(due), old(stamp), fired[i], fired[j])
      ensures forall t :: t in old(Base()) ==> (t in fired <==> DueOf(old(due), t) <= now)
      ensures forall t :: t in Base() ==> DueOf(due, t) > now
      ensures forall t :: t in Base() <==> t in old(Base()) && (t in fired ==> t in periodic)
      ensures forall t ::
        DueOf(due, t) == if t in fired && t in periodic then now + InitOf(initTick, t) else DueOf(old(due), t)
      ensures Base() == Restarted(old(Base())[|fired|..], old(due), fired, periodic, initTick, now)
    {
      hide Linked, Stamped, Precedes, Rearmed, Before, Expired, Removed, DueOf, InitOf, NoDup, Sorted, Placed,
        Startable, Firing, RowsOk, ListOk, Restarted;
      fired := [];
      Unfold();
      ghost var base, due0 := Base(), due;
      FiringStart(base, due0, now, periodic, initTick);
      FrontPrecedes(base, due0, stamp, starts, now);
      while rows[levels - 1] != []
        invariant Valid() && |rows| == levels
        invariant Firing(base, due0, now, periodic, initTick, fired, due, Base())
        decreases |base| - |fired|
      {
        var t := rows[levels - 1][0];
        Unfold();
        FirstPending(Base(), due, timeoutTick, height, now);
        if !Expired(tick, timeoutTick[t]) {
          break;
        }
        FiringNext(base, due0, now, periodic, initTick, fired, due, Base());
        Fire(t);
        fired := fired + [t];
        Unfold();
      }
      FiringEnd(base, due0, now, periodic, initTick, fired, due, Base());
    }
  }
}
