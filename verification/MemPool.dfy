/** The memory pool of `src/mempool.c`: a chain of free blocks of one size, and threads that wait for a
    block. Each method is one critical section. */
module MemPool {
  import opened Activity
  import opened Arithmetic
  import opened Options
  import opened Seqs
  import opened Threads
  import opened WaitList

  /** The address of the word in front of a block. */
  type Block = int

  /** The word in front of a block: the next free block, or the pool while the block is allocated. */
  datatype Word = NextFree(next: Option<Block>) | Owner

  type Words = map<Block, Word>

  datatype Outcome = Got(ptr: int) | NoBlock | Suspended

  /** What a caller gives rt_mp_init, and of the machine RT_ALIGN_SIZE, the bytes of a pointer and the number of
      addresses. */
  datatype Area = Area(start: nat, size: nat, blockSize: nat, align: nat, width: nat, wrap: nat)

  /** What rt_mp_init asserts of its arguments, and that the pool and a block with its word are not larger than the
      address space. */
  predicate Legal(a: Area) {
    && 0 < a.start && 0 < a.size && 0 < a.blockSize && 0 < a.align && 0 < a.width
    && a.start + a.size <= a.wrap && AlignUp(a.blockSize, a.align) + a.width < a.wrap
  }

  /** The distance between two blocks. */
  function Stride(a: Area): nat
    requires Legal(a)
  {
    AlignUp(a.blockSize, a.align) + a.width
  }

  /** block_total_count */
  function Count(a: Area): nat
    requires Legal(a)
  {
    AlignDown(a.size, a.align) / Stride(a)
  }

  function At(a: Area, i: nat): Block
    requires Legal(a)
  {
    a.start + i * Stride(a)
  }

  ghost predicate IsBlock(a: Area, b: Block)
    requires Legal(a)
  {
    exists i: nat {:trigger At(a, i)} :: i < Count(a) && b == At(a, i)
  }

  lemma NoneIsBlock(a: Area)
    requires Legal(a) && Count(a) == 0
    ensures forall b :: !IsBlock(a, b)
  {
  }

  ghost predicate Chain(h: Words, p: Option<Block>, s: seq<Block>)
    decreases s
  {
    if s == [] then p == None
    else p == Some(s[0]) && s[0] in h && h[s[0]].NextFree? && Chain(h, h[s[0]].next, s[1..])
  }

  lemma {:induction false} ChainFrame(h: Words, x: Block, v: Word, p: Option<Block>, s: seq<Block>)
    requires Chain(h, p, s) && x !in s
    ensures Chain(h[x := v], p, s)
    decreases s
  {
    if s != [] {
      ChainFrame(h, x, v, h[s[0]].next, s[1..]);
    }
  }

  /** The address that the code computes for block `k`, in unsigned arithmetic. */
  function StoreAt(a: Area, k: int): Block
    requires Legal(a)
  {
    (a.start + k % a.wrap * Stride(a) % a.wrap) % a.wrap
  }

  /** A word at `p` lies in the pool. */
  predicate Inside(a: Area, p: int) { a.start <= p && p + a.width <= a.start + a.size }

  lemma AtOrder(a: Area, i: nat, j: nat)
    requires Legal(a) && i < j
    ensures a.start <= At(a, i) && At(a, i) + Stride(a) <= At(a, j)
  {
    MulLe(i + 1, j, Stride(a));
    MulLe(0, i, Stride(a));
    assert (i + 1) * Stride(a) == i * Stride(a) + Stride(a);
  }

  /** The blocks lie in the pool. */
  lemma AtInside(a: Area, i: nat)
    requires Legal(a) && i < Count(a)
    ensures a.start <= At(a, i) && At(a, i) + Stride(a) <= a.start + AlignDown(a.size, a.align) <= a.start + a.size
  {
    AtOrder(a, i, i + 1);
    MulLe(i + 1, Count(a), Stride(a));
    DownBounds(AlignDown(a.size, a.align), Stride(a));
    DownBounds(a.size, a.align);
  }

  /** The bytes of a block lie in the pool and share none with another block or with its word. */
  lemma BlocksApart(a: Area, b: Block, c: Block)
    requires Legal(a) && IsBlock(a, b) && IsBlock(a, c)
    ensures a.start + a.width <= b + a.width && b + a.width + a.blockSize <= a.start + a.size
    ensures b != c ==> b + a.width + a.blockSize <= c || c + a.width + a.blockSize <= b
  {
    hide At, Count;
    var i: nat :| i < Count(a) && b == At(a, i);
    var j: nat :| j < Count(a) && c == At(a, j);
    AtInside(a, i);
    if i < j { AtOrder(a, i, j); }
    if j < i { AtOrder(a, j, i); }
  }

  /** A block fits exactly when there is a block. */
  lemma CountPositive(a: Area)
    requires Legal(a)
    ensures Count(a) > 0 <==> Stride(a) <= AlignDown(a.size, a.align)
  {
    var n, d := AlignDown(a.size, a.align), Stride(a);
    DownBounds(n, d);
    if n / d > 0 { MulLe(1, n / d, d); }
    if n / d <= 0 { assert n / d == 0; }
  }

  /** For the blocks the unsigned arithmetic does not wrap around. */
  lemma StoreAtBlock(a: Area, i: nat)
    requires Legal(a) && i < Count(a)
    ensures StoreAt(a, i) == At(a, i)
  {
    AtInside(a, i);
    MulLe(0, i, Stride(a));
    if i > 0 {
      MulLe(1, Stride(a), i);
      assert i * Stride(a) == Stride(a) * i;
    }
    DivModIs(i, 0, i, a.wrap);
    DivModIs(i * Stride(a), 0, i * Stride(a), a.wrap);
    DivModIs(At(a, i), 0, At(a, i), a.wrap);
  }

  /** Without a block, the index of the last block is the largest number, and its address is one stride in front
      of the pool. */
  lemma StoreAtFront(a: Area)
    requires Legal(a)
    ensures StoreAt(a, -1) == (a.start + a.wrap - Stride(a)) % a.wrap
  {
    DivModIs(-1, -1, a.wrap - 1, a.wrap);
    assert (a.wrap - 1) * Stride(a) == (Stride(a) - 1) * a.wrap + (a.wrap - Stride(a));
    DivModIs((a.wrap - 1) * Stride(a), Stride(a) - 1, a.wrap - Stride(a), a.wrap);
  }

  /** The addresses that rt_mp_init writes a word to. */
  ghost function Stored(a: Area): set<Block>
    requires Legal(a)
  {
    (set i: nat | i < Count(a) :: At(a, i)) + {StoreAt(a, Count(a) - 1)}
  }

  /** Initialisation stays in the pool exactly when a block with its word fits in the pool, or pool and block
      together reach the size of the address space. */
  lemma StoresInside(a: Area)
    requires Legal(a)
    ensures (forall p :: p in Stored(a) ==> Inside(a, p)) <==>
      || AlignUp(a.blockSize, a.align) + a.width <= AlignDown(a.size, a.align)
      || a.wrap <= a.size + AlignUp(a.blockSize, a.align)
  {
    CountPositive(a);
    hide At, StoreAt, Count;
    var last := StoreAt(a, Count(a) - 1);
    assert last in Stored(a);
    if Count(a) > 0 {
      StoreAtBlock(a, Count(a) - 1);
      forall p | p in Stored(a) ensures Inside(a, p) {
        var i: nat :| i < Count(a) && p == At(a, i);
        AtInside(a, i);
      }
    } else {
      StoreAtFront(a);
      DownBounds(a.size, a.align);
      var p := a.start + a.wrap - Stride(a);
      if p < a.wrap { DivModIs(p, 0, p, a.wrap); } else { DivModIs(p, 1, p - a.wrap, a.wrap); }
      assert forall q :: q in Stored(a) <==> q == last;
    }
  }

  /** The case without room is real: for blocks of 8 bytes in 8 bytes, the end mark goes 12 bytes in front of the
      pool. */
  lemma EightBytes(start: nat)
    requires 12 <= start <= 0xFFFF_FFF8
    ensures var a := Area(start, 8, 8, 4, 4, 0x1_0000_0000);
      Legal(a) && Count(a) == 0 && Stored(a) == {start - 12} && !Inside(a, start - 12)
  {
    var a := Area(start, 8, 8, 4, 4, 0x1_0000_0000);
    assert AlignUp(8, 4) == 8 && AlignDown(8, 4) == 8;
    CountPositive(a);
    StoreAtFront(a);
    DivModIs(start + a.wrap - 12, 1, start - 12, a.wrap);
  }

  /** Every block is on the free chain or allocated. In a pool without blocks the chain is never followed. */
  ghost predicate PoolOk(a: Area, h: Words, list: Option<Block>, count: nat, free: seq<Block>)
    requires Legal(a)
  {
    && (Count(a) > 0 ==> Chain(h, list, free)) && NoDup(free) && count == |free|
    && (forall b :: b in free ==> IsBlock(a, b))
    && forall b :: IsBlock(a, b) ==> b in h && (b in free <==> h[b] != Owner)
  }

  lemma BlockCounts(a: Area, b: Block)
    requires Legal(a) && IsBlock(a, b)
    ensures Count(a) > 0
  {
  }

  lemma PoolTakes(a: Area, h: Words, list: Option<Block>, count: nat, free: seq<Block>)
    requires Legal(a) && PoolOk(a, h, list, count, free) && count > 0
    ensures free != [] && list.Some? && list.value == free[0] && list.value in h && h[list.value].NextFree?
    ensures IsBlock(a, list.value) && PoolOk(a, h[list.value := Owner], h[list.value].next, count - 1, free[1..])
  {
    hide IsBlock, Count;
    assert IsBlock(a, free[0]);
    BlockCounts(a, free[0]);
    RestMembers(free);
    ChainFrame(h, free[0], Owner, h[free[0]].next, free[1..]);
  }

  lemma PoolGets(a: Area, h: Words, list: Option<Block>, count: nat, free: seq<Block>, b: Block)
    requires Legal(a) && PoolOk(a, h, list, count, free) && IsBlock(a, b) && h[b] == Owner
    ensures PoolOk(a, h[b := NextFree(list)], Some(b), count + 1, [b] + free)
  {
    hide IsBlock, Count;
    BlockCounts(a, b);
    ConsMembers(b, free);
    ChainFrame(h, b, NextFree(list), list, free);
    assert ([b] + free)[1..] == free;
  }

  function Blocks(a: Area, from: nat, end: nat): (s: seq<Block>)
    requires Legal(a) && from <= end
    ensures |s| == end - from
    ensures forall i :: 0 <= i < |s| ==> s[i] == At(a, from + i)
    decreases end - from
  {
    if from == end then [] else [At(a, from)] + Blocks(a, from + 1, end)
  }

  lemma BlocksMembers(a: Area)
    requires Legal(a)
    ensures NoDup(Blocks(a, 0, Count(a))) && forall b :: b in Blocks(a, 0, Count(a)) <==> IsBlock(a, b)
  {
    hide At, Count;
    var s := Blocks(a, 0, Count(a));
    forall i, j | 0 <= i < j < |s| ensures s[i] != s[j] { AtOrder(a, i, j); }
    forall b | IsBlock(a, b) ensures b in s {
      var i: nat :| i < Count(a) && b == At(a, i);
      assert s[i] == b;
    }
  }

  lemma PartsSize(all: set<Block>, f: set<Block>, u: set<Block>)
    requires forall b :: b in all <==> b in f || b in u
    requires forall b :: b in f ==> b !in u
    ensures |all| == |f| + |u|
  {
    forall b | b in all ensures b in f + u {}
    forall b | b in f + u ensures b in all {}
    assert all == f + u;
    assert f * u == {} by {
      forall b | b in f * u ensures false {}
    }
  }

  /** Free and allocated blocks add up to the pool. */
  lemma Conserved(a: Area, h: Words, list: Option<Block>, count: nat, free: seq<Block>)
    requires Legal(a) && PoolOk(a, h, list, count, free)
    ensures count + |set b | b in h && h[b] == Owner && IsBlock(a, b)| == Count(a)
  {
    hide Chain, At, Count, IsBlock;
    var all := Blocks(a, 0, Count(a));
    BlocksMembers(a);
    ElementsSize(free);
    ElementsSize(all);
    var used := set b | b in h && h[b] == Owner && IsBlock(a, b);
    PartsSize(Elements(all), Elements(free), used);
  }

  /** Exactly the first `n` blocks are linked, each to the next one. */
  ghost predicate LinkedUp(a: Area, h: Words, n: nat)
    requires Legal(a)
  {
    && h.Keys == (set i: nat | i < n :: At(a, i))
    && forall i: nat {:trigger At(a, i)} :: i < n ==> At(a, i) in h && h[At(a, i)] == NextFree(Some(StoreAt(a, i + 1)))
  }

  lemma LinksNext(a: Area, h: Words, n: nat)
    requires Legal(a) && LinkedUp(a, h, n) && n < Count(a)
    ensures LinkedUp(a, h[StoreAt(a, n) := NextFree(Some(StoreAt(a, n + 1)))], n + 1)
  {
    StoreAtBlock(a, n);
    hide At, StoreAt, Count;
    var h' := h[At(a, n) := NextFree(Some(StoreAt(a, n + 1)))];
    forall i: nat | i < n ensures At(a, i) != At(a, n) { AtOrder(a, i, n); }
    assert h'.Keys == (set i: nat | i < n + 1 :: At(a, i));
  }

  /** Block `i` is linked to the next one, or ends the chain. */
  ghost predicate LinkedTo(a: Area, h: Words, i: nat)
    requires Legal(a)
  {
    At(a, i) in h && h[At(a, i)] == NextFree(if i + 1 == Count(a) then None else Some(At(a, i + 1)))
  }

  lemma ChainStep(a: Area, h: Words, from: nat, rest: seq<Block>)
    requires Legal(a) && LinkedTo(a, h, from)
    requires Chain(h, if from + 1 == Count(a) then None else Some(At(a, from + 1)), rest)
    ensures Chain(h, Some(At(a, from)), [At(a, from)] + rest)
  {
    hide At, Count;
    assert ([At(a, from)] + rest)[1..] == rest;
  }

  lemma {:induction false} LinkedAll(a: Area, h: Words, from: nat)
    requires Legal(a) && from <= Count(a) && forall i: nat :: i < Count(a) ==> LinkedTo(a, h, i)
    ensures Chain(h, if from == Count(a) then None else Some(At(a, from)), Blocks(a, from, Count(a)))
    decreases Count(a) - from
  {
    hide LinkedTo, At, Count;
    if from < Count(a) {
      LinkedAll(a, h, from + 1);
      ChainStep(a, h, from, Blocks(a, from + 1, Count(a)));
    }
  }

  lemma LastLinked(a: Area, h: Words)
    requires Legal(a) && Count(a) > 0 && LinkedUp(a, h, Count(a))
    ensures var h' := h[StoreAt(a, Count(a) - 1) := NextFree(None)];
      (forall i: nat :: i < Count(a) ==> LinkedTo(a, h', i)) && h'.Keys == Stored(a)
  {
    hide At, StoreAt, Count;
    var last := Count(a) - 1;
    StoreAtBlock(a, last);
    var h' := h[At(a, last) := NextFree(None)];
    forall i: nat | i < Count(a) ensures LinkedTo(a, h', i) {
      if i < last {
        AtOrder(a, i, last);
        StoreAtBlock(a, i + 1);
      }
    }
    assert h'.Keys == h.Keys;
  }

  lemma BlocksLinked(a: Area, h: Words)
    requires Legal(a) && forall i: nat :: i < Count(a) ==> LinkedTo(a, h, i)
    ensures forall b :: IsBlock(a, b) ==> b in h && h[b] != Owner
  {
    hide At, Count;
    forall b | IsBlock(a, b) ensures b in h && h[b] != Owner {
      var i: nat :| i < Count(a) && b == At(a, i);
      assert LinkedTo(a, h, i);
    }
  }

  lemma FirstAt(a: Area)
    requires Legal(a)
    ensures At(a, 0) == a.start
  {
  }

  /** Ending the chain at the last block makes every block free; without blocks it only writes a word. */
  lemma Initialised(a: Area, h: Words)
    requires Legal(a) && LinkedUp(a, h, Count(a))
    ensures var h' := h[StoreAt(a, Count(a) - 1) := NextFree(None)];
      && PoolOk(a, h', Some(a.start), Count(a), Blocks(a, 0, Count(a))) && h'.Keys == Stored(a)
  {
    hide Chain, LinkedTo, At, Count, StoreAt, IsBlock;
    BlocksMembers(a);
    if Count(a) > 0 {
      FirstAt(a);
      LastLinked(a, h);
      LinkedAll(a, h[StoreAt(a, Count(a) - 1) := NextFree(None)], 0);
      BlocksLinked(a, h[StoreAt(a, Count(a) - 1) := NextFree(None)]);
    } else {
      NoneIsBlock(a);
      assert h.Keys == {};
    }
  }

  lemma NothingLinked(a: Area)
    requires Legal(a)
    ensures LinkedUp(a, map[], 0)
  {
  }

  lemma NobodyKnown()
    ensures Known(map[], Receiving, [], {})
  {
  }

  class MemPool {
    const area: Area
    const max: nat                    // block_total_count
    var words: Words
    var blockList: Option<Block>      // block_list
    var freeCount: nat                // block_free_count
    var waiters: seq<Tid>             // suspend_thread
    ghost var free: seq<Block>
    ghost var doing: Doings
    ghost var woken: set<Tid>

    /** The chain holds exactly the free blocks, and no wake-up is lost. */
    ghost predicate Valid() reads this {
      && Legal(area) && max == Count(area)
      && PoolOk(area, words, blockList, freeCount, free) && QueueOk(waiters, woken, freeCount)
      && Known(doing, Receiving, waiters, woken)
    }

    /** rt_mp_init. `words` are the words that have been written. */
    constructor (area: Area)
      requires Legal(area)
      ensures Valid() && this.area == area && freeCount == max && doing == map[]
      ensures words.Keys == Stored(area)
      ensures (forall p :: p in words ==> Inside(area, p)) <==>
        || AlignUp(area.blockSize, area.align) + area.width <= AlignDown(area.size, area.align)
        || area.wrap <= area.size + AlignUp(area.blockSize, area.align)
    {
      this.area := area;
      var count := AlignDown(area.size, area.align) / (AlignUp(area.blockSize, area.align) + area.width);
      max, freeCount := count, count;
      blockList, waiters, words := None, [], map[];
      woken, free, doing := {}, [], map[];
      new;
      LinkAll();
      StoresInside(area);
    }

    /** The loop of rt_mp_init that links each block to the next one, and the end of the chain. */
    method LinkAll()
      requires Legal(area) && max == Count(area) == freeCount && words == map[] && waiters == []
      requires doing == map[] && woken == {}
      modifies `words, `free, `blockList
      ensures Valid() && words.Keys == Stored(area)
    {
      hide PoolOk, QueueOk, Known, LinkedUp, Count, At, StoreAt, Stored, Legal;
      NothingLinked(area);
      var offset := 0;
      while offset < max
        invariant 0 <= offset <= max && LinkedUp(area, words, offset)
        modifies `words
      {
        LinksNext(area, words, offset);
        words := words[StoreAt(area, offset) := NextFree(Some(StoreAt(area, offset + 1)))];
        offset := offset + 1;
      }
      Initialised(area, words);
      words := words[StoreAt(area, offset - 1) := NextFree(None)];
      blockList := Some(area.start);
      free := Blocks(area, 0, max);
      QueueEmpty(woken, freeCount);
      NobodyKnown();
    }

    /** The critical section of rt_mp_alloc, entered for the first time or after having been resumed. A thread
        that waits goes to the front of the list. */
    method Alloc(t: Tid, time: int) returns (o: Outcome)
      requires Valid() && (DoingOf(doing, t) == Runs || DoingOf(doing, t) == Woken(Receiving))
      modifies this
      ensures Valid()
      ensures if old(freeCount) > 0 then o.Got? else o == if time == 0 then NoBlock else Suspended
      ensures o.Got? ==>
        var b := o.ptr - area.width;
        IsBlock(area, b) && old(words)[b] != Owner && words == old(words)[b := Owner]
      ensures o.Got? ==> freeCount == old(freeCount) - 1 && waiters == old(waiters)
      ensures !o.Got? ==>
        words == old(words) && waiters == if o.Suspended? then [t] + old(waiters) else old(waiters)
      ensures doing == old(doing)[t := if o.Suspended? then Waits(Receiving) else Runs]
    {
      hide PoolOk, QueueOk, Known, Count, IsBlock, Legal;
      KnownRuns(doing, Receiving, waiters, woken, t);
      if freeCount == 0 {
        if time == 0 {
          QueueLeaves(waiters, woken, t);
          doing, woken := doing[t := Runs], woken - {t};
          return NoBlock;
        }
        QueueNoDup(waiters, woken, 0);
        ConsMembers(t, waiters);
        QueueWaits(waiters, woken, t, [t] + waiters);
        KnownWaits(doing, Receiving, waiters, woken, t, [t] + waiters);
        waiters, woken, doing := [t] + waiters, woken - {t}, doing[t := Waits(Receiving)];
        return Suspended;
      }
      PoolTakes(area, words, blockList, freeCount, free);
      QueueTakes(waiters, woken, freeCount, t);
      freeCount := freeCount - 1;
      var block := blockList.value;
      blockList := words[block].next;
      words := words[block := Owner];
      free, woken, doing := free[1..], woken - {t}, doing[t := Runs];
      return Got(block + area.width);
    }

    /** rt_mp_free of an allocated block: the thread that has waited least is resumed. */
    method Free(ptr: Option<int>)
      requires Valid()
      requires ptr.Some? ==> IsBlock(area, ptr.value - area.width) && words[ptr.value - area.width] == Owner
      modifies this
      ensures Valid()
      ensures ptr.None? ==> words == old(words) && waiters == old(waiters) && doing == old(doing)
      ensures ptr.Some? ==>
        words == old(words)[ptr.value - area.width := NextFree(old(blockList))] && freeCount == old(freeCount) + 1
      ensures ptr.Some? ==> waiters == if old(waiters) == [] then [] else old(waiters)[1..]
      ensures ptr.Some? ==>
        doing == if old(waiters) == [] then old(doing) else old(doing)[old(waiters)[0] := Woken(Receiving)]
    {
      hide PoolOk, QueueOk, Known, Count, IsBlock, Legal;
      if ptr.None? {
        return;
      }
      var block := ptr.value - area.width;
      PoolGets(area, words, blockList, freeCount, free, block);
      QueueNoDup(waiters, woken, freeCount);
      QueueGives(waiters, woken, freeCount);
      KnownWoke(doing, Receiving, waiters, woken);
      freeCount := freeCount + 1;
      words := words[block := NextFree(blockList)];
      blockList := Some(block);
      free := [block] + free;
      doing := Woke(doing, Receiving, waiters);
      if waiters != [] {
        woken, waiters := woken + {waiters[0]}, waiters[1..];
      }
    }

    /** rt_thread_timeout for a waiting thread. */
    method Timeout(t: Tid)
      requires Valid() && DoingOf(doing, t) == Waits(Receiving)
      modifies `waiters, `doing
      ensures Valid() && waiters == Removed(old(waiters), t) && doing == old(doing)[t := Failed]
    {
      hide PoolOk, QueueOk, Removed, Known, Count, Legal;
      QueueNoDup(waiters, woken, freeCount);
      QueueFails(waiters, woken, freeCount, t);
      KnownFails(doing, Receiving, waiters, woken, t);
      waiters, doing := Removed(waiters, t), doing[t := Failed];
    }

    /** A thread that was resumed with an error returns from the call. */
    method Fail(t: Tid)
      requires Valid() && DoingOf(doing, t) == Failed
      modifies `doing
      ensures Valid() && doing == old(doing)[t := Runs]
    {
      hide PoolOk, QueueOk, Known, Count, IsBlock, Legal;
      KnownAside(doing, Receiving, waiters, woken, t, Runs);
      doing := doing[t := Runs];
    }

    /** While a thread waits, the free blocks do not outnumber the threads resumed and not yet run; with none of
        them still to run, no block is free. */
    lemma NoLostWakeUp()
      requires Valid()
      ensures (exists t :: DoingOf(doing, t) == Waits(Receiving)) ==>
        freeCount <= |woken| && ((forall t :: DoingOf(doing, t) != Woken(Receiving)) ==> freeCount == 0)
      ensures forall t :: t in woken <==> DoingOf(doing, t) == Woken(Receiving)
    {
      hide PoolOk, QueueOk, Count, Legal;
      if t :| DoingOf(doing, t) == Waits(Receiving) {
        NobodyWoken(doing, Receiving, waiters, woken, freeCount);
      }
      forall t ensures t in woken <==> DoingOf(doing, t) == Woken(Receiving) {
        assert KnownAt(doing, Receiving, waiters, woken, t);
      }
    }
  }
}
