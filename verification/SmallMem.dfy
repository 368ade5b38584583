/** The small-memory heap of `src/mem.c`: blocks chained by offsets, a cursor to the lowest free
    block and first-fit search. Addresses are offsets from the heap start, so 0 serves as null:
    a payload never starts at 0. */
module SmallMem {
  import opened HeapMemory
  import opened Arithmetic
  import opened Tiling

  /** A free block that the search accepts. An exact fit that ends at the heap end `hi` is refused,
      because the bound of the search loop is strict. */
  predicate Serves(b: Block, want: nat, hdr: nat, hi: int) {
    !b.used && b.size >= want && !(b.size == want && End(b, hdr) == hi)
  }

  /** Index of the lowest block that serves the request, or the number of blocks if none does. */
  function FirstFit(s: seq<Block>, want: nat, hdr: nat, hi: int): (k: nat)
    ensures k <= |s| && (k < |s| ==> Serves(s[k], want, hdr, hi))
    ensures forall i :: 0 <= i < k ==> !Serves(s[i], want, hdr, hi)
  {
    if s == [] || Serves(s[0], want, hdr, hi) then 0 else 1 + FirstFit(s[1..], want, hdr, hi)
  }

  lemma {:induction false} FirstFitIs(s: seq<Block>, k: nat, want: nat, hdr: nat, hi: int)
    requires k <= |s| && (k < |s| ==> Serves(s[k], want, hdr, hi))
    requires forall i :: 0 <= i < k ==> !Serves(s[i], want, hdr, hi)
    ensures FirstFit(s, want, hdr, hi) == k
  {
    if k > 0 {
      FirstFitIs(s[1..], k - 1, want, hdr, hi);
    }
  }

  /** First fit is complete but for one case: rt_malloc turns down an in-range request exactly when
      every free block that could hold it is an exact fit that ends at the heap end. */
  lemma FirstFitComplete(s: seq<Block>, want: nat, hdr: nat, hi: int)
    ensures FirstFit(s, want, hdr, hi) == |s|
       <==> forall b :: b in s && !b.used && b.size >= want ==> b.size == want && End(b, hdr) == hi
  {
    var k := FirstFit(s, want, hdr, hi);
    if k < |s| {
      assert s[k] in s;
    } else {
      forall b | b in s && !b.used && b.size >= want ensures b.size == want && End(b, hdr) == hi {
        var i :| 0 <= i < |s| && s[i] == b;
        assert !Serves(s[i], want, hdr, hi);
      }
    }
  }

  lemma TakenSize(s: seq<Block>, k: nat, want: nat, hdr: nat, min: nat)
    requires k < |s| && want <= s[k].size
    ensures k < |Taken(s, k, want, hdr, min)|
    ensures Taken(s, k, want, hdr, min)[k].size == if s[k].size >= want + hdr + min then want else s[k].size
  {
  }

  lemma Swapped(lv: set<Block>, b: Block, c: Block)
    requires b in lv && c !in lv
    ensures lv + {c} - {b} == lv - {b} + {c} && c in lv - {b} + {c}
  {
  }

  class Heap {
    const hdr: nat          // SIZEOF_STRUCT_MEM
    const align: nat        // RT_ALIGN_SIZE
    const minSize: nat      // MIN_SIZE
    const minAligned: nat   // MIN_SIZE_ALIGNED
    const memSize: nat      // mem_size_aligned
    var next: map<int, int>
    var prev: map<int, int>
    var used: map<int, bool>
    var lfree: int
    var usedMem: int
    var maxMem: int
    var bytes: map<int, int>
    ghost var layout: seq<Block>

    ghost predicate Params() {
      && hdr > 0 && align > 0 && minAligned >= minSize && memSize >= minAligned > 0
      && Aligned(hdr, align) && Aligned(minAligned, align) && Aligned(memSize, align)
    }

    function HeapEnd(): int { memSize + hdr }

    /** Tiling, links and alignment, without the canonical form. */
    ghost predicate Shape() reads this {
      && Params()
      && layout != [] && Tiles(layout, hdr, 0, HeapEnd())
      && Linked(layout, hdr, HeapEnd(), next, prev, used) && 0 in prev && prev[0] == 0
      && HeapEnd() in next && next[HeapEnd()] == HeapEnd() && HeapEnd() in used && used[HeapEnd()]
      && Sized(layout, align)
    }

    ghost predicate Valid() reads this {
      && Shape() && NoTwoFree(layout)
      && lfree == LowestFree(layout, HeapEnd())
      && usedMem == UsedExtent(layout, hdr) <= maxMem
    }

    /** rt_system_heap_init, once the region is known to hold `memSize` bytes of payload. */
    constructor (hdr: nat, align: nat, minSize: nat, minAligned: nat, memSize: nat)
      requires hdr > 0 && align > 0 && minAligned >= minSize && memSize >= minAligned > 0
      requires Aligned(hdr, align) && Aligned(minAligned, align) && Aligned(memSize, align)
      ensures Valid() && layout == [Block(0, memSize, false)] && usedMem == 0
      ensures this.hdr == hdr && this.align == align && this.minSize == minSize
      ensures this.minAligned == minAligned && this.memSize == memSize
    {
      this.hdr, this.align, this.minSize, this.minAligned, this.memSize := hdr, align, minSize, minAligned, memSize;
      next := map[0 := memSize + hdr, memSize + hdr := memSize + hdr];
      prev := map[0 := 0, memSize + hdr := memSize + hdr];
      used := map[0 := false, memSize + hdr := true];
      bytes := map[];
      lfree := 0;
      usedMem, maxMem := 0, 0;
      layout := [Block(0, memSize, false)];
      assert 0 == 0 * align;
    }

    /** What the header of block `k` holds. */
    lemma BlockFacts(k: nat)
      requires Shape() && k < |layout|
      ensures LinkedAt(layout[k], hdr, HeapEnd(), next, prev, used)
      ensures 0 <= layout[k].addr && End(layout[k], hdr) <= HeapEnd()
    {
      assert layout[k] in layout;
      Apart(layout, layout[k], layout[k], hdr, 0, HeapEnd());
    }

    /** Cuts the block at `ptr` after `want` bytes, making the rest a free block. */
    method Split(ptr: int, want: nat, ghost k: nat)
      requires Shape() && k < |layout| && layout[k].addr == ptr
      requires 0 < want && want + hdr < layout[k].size && Aligned(want, align)
      modifies this`next, this`prev, this`used, this`bytes, this`layout
      ensures Shape()
      ensures layout == Cut(old(layout), k, want, hdr)
      ensures forall i :: !(ptr + hdr + want <= i < ptr + hdr + want + hdr) ==> SameByte(old(bytes), i, bytes, i)
    {
      hide Linked, Tiles, Sized, Aligned, SameByte;
      ghost var nx, pv, us, ly := next, prev, used, layout;
      BlockFacts(k);
      var ptr2 := ptr + hdr + want;
      CutAligned(ly, k, want, hdr, align, HeapEnd());
      CutTiles(ly, k, want, hdr, HeapEnd());
      bytes := Clobber(bytes, ptr2, hdr);
      LinkRest(ptr, ptr2);
      layout := Cut(ly, k, want, hdr);
      LinkedSplit(ly, k, want, hdr, HeapEnd(), HeapEnd(), nx, pv, us, next, prev, used);
    }

    /** The header at `ptr2` is written and linked in after the one at `ptr`. */
    method LinkRest(ptr: int, ptr2: int)
      requires ptr in next
      modifies this`next, this`prev, this`used
      ensures var after := old(next)[ptr];
        && next == old(next)[ptr2 := after][ptr := ptr2] && used == old(used)[ptr2 := false][ptr := true]
        && prev == if after != HeapEnd() then old(prev)[ptr2 := ptr][after := ptr2] else old(prev)[ptr2 := ptr]
    {
      var after := next[ptr];
      next, used, prev := next[ptr2 := after], used[ptr2 := false], prev[ptr2 := ptr];
      next, used := next[ptr := ptr2], used[ptr := true];
      if after != HeapEnd() {
        prev := prev[after := ptr2];
      }
    }

    /** Absorbs the free block after the free block at `at`. */
    method MergeNext(at: int, ghost k: nat)
      requires Shape() && k + 1 < |layout| && layout[k].addr == at
      requires !layout[k].used && !layout[k + 1].used
      modifies this`next, this`prev, this`layout
      ensures Shape() && layout == Merged(old(layout), k, hdr)
    {
      ghost var nx, pv, ly := next, prev, layout;
      TilesAt(ly, k, hdr, 0, HeapEnd());
      TilesAt(ly, k + 1, hdr, 0, HeapEnd());
      assert LinkedAt(ly[k], hdr, HeapEnd(), next, prev, used);
      assert LinkedAt(ly[k + 1], hdr, HeapEnd(), next, prev, used);
      hide Linked, Tiles, Sized, Aligned;
      var nmem := next[at];
      next := next[at := next[nmem]];
      prev := prev[next[nmem] := at];
      layout := Merged(ly, k, hdr);
      MergeTiles(ly, k, hdr, HeapEnd());
      LinkedMerge(ly, k, hdr, HeapEnd(), HeapEnd(), nx, pv, used);
    }

    lemma MergeFacts(k: nat)
      requires Shape() && k + 1 < |layout| && !layout[k].used && !layout[k + 1].used
      ensures |Merged(layout, k, hdr)| == |layout| - 1
      ensures forall i :: 0 <= i < k ==> Merged(layout, k, hdr)[i] == layout[i]
      ensures Merged(layout, k, hdr)[k].addr == layout[k].addr && !Merged(layout, k, hdr)[k].used
      ensures UsedExtent(Merged(layout, k, hdr), hdr) == UsedExtent(layout, hdr)
      ensures Live(Merged(layout, k, hdr)) == Live(layout)
      ensures LowestFree(Merged(layout, k, hdr), HeapEnd()) == LowestFree(layout, HeapEnd())
      ensures FreePairsIn(layout, {k - 1, k}) ==> FreePairsIn(Merged(layout, k, hdr), {k - 1})
      ensures FreePairsIn(layout, {k}) ==> NoTwoFree(Merged(layout, k, hdr))
    {
      hide Linked, Sized, Aligned, UsedExtent, Live, LowestFree, Tiles, NoTwoFree, FreePairsIn;
      MergeTiles(layout, k, hdr, HeapEnd());
      MergeLive(layout, k, hdr, HeapEnd());
      MergeLowest(layout, k, hdr, HeapEnd());
      if FreePairsIn(layout, {k}) || FreePairsIn(layout, {k - 1, k}) {
        PairsMore(layout, k);
        MergeHere(layout, k, hdr);
      }
    }

    /** The forward half of plug_holes. */
    method PlugForward(mem: int, ghost k: nat)
      requires Shape() && k < |layout| && layout[k].addr == mem && !layout[k].used
      requires FreePairsIn(layout, {k - 1, k})
      requires lfree == LowestFree(layout, HeapEnd())
      modifies this`next, this`prev, this`layout, this`lfree
      ensures Shape() && FreePairsIn(layout, {k - 1})
      ensures k < |layout| && layout[k].addr == mem && !layout[k].used
      ensures lfree == LowestFree(layout, HeapEnd())
      ensures UsedExtent(layout, hdr) == UsedExtent(old(layout), hdr)
      ensures Live(layout) == Live(old(layout))
    {
      TilesAt(layout, k, hdr, 0, HeapEnd());
      assert LinkedAt(layout[k], hdr, HeapEnd(), next, prev, used);
      assert k + 1 < |layout| ==> LinkedAt(layout[k + 1], hdr, HeapEnd(), next, prev, used);
      hide Tiles, Sized, Aligned, Merged, Linked;
      var nmem := next[mem];
      if mem != nmem && !used[nmem] && nmem != HeapEnd() {
        if lfree == nmem {
          lfree := mem;
        }
        LowestBelow(layout, k, hdr, 0, HeapEnd());
        MergeFacts(k);
        MergeNext(mem, k);
      }
    }

    /** The backward half of plug_holes. */
    method PlugBackward(mem: int, ghost k: nat)
      requires Shape() && k < |layout| && layout[k].addr == mem && !layout[k].used
      requires FreePairsIn(layout, {k - 1})
      requires lfree == LowestFree(layout, HeapEnd())
      modifies this`next, this`prev, this`layout, this`lfree
      ensures Shape() && NoTwoFree(layout)
      ensures lfree == LowestFree(layout, HeapEnd())
      ensures UsedExtent(layout, hdr) == UsedExtent(old(layout), hdr)
      ensures Live(layout) == Live(old(layout))
    {
      TilesAt(layout, k, hdr, 0, HeapEnd());
      assert k > 0 ==> LinkedAt(layout[k - 1], hdr, HeapEnd(), next, prev, used);
      assert k == 0 ==> mem == 0 && prev[0] == 0;
      hide Tiles, Sized, Aligned, Merged, Linked;
      var pmem := prev[mem];
      if pmem != mem && !used[pmem] {
        if lfree == mem {
          lfree := pmem;
        }
        LowestBelow(layout, k - 1, hdr, 0, HeapEnd());
        MergeFacts(k - 1);
        MergeNext(pmem, k - 1);
      }
    }

    /** plug_holes: merges the free block at `mem` with its free neighbours. */
    method PlugHoles(mem: int, ghost k: nat)
      requires Shape() && k < |layout| && layout[k].addr == mem && !layout[k].used
      requires FreePairsIn(layout, {k - 1, k})
      requires lfree == LowestFree(layout, HeapEnd())
      modifies this`next, this`prev, this`layout, this`lfree
      ensures Shape() && NoTwoFree(layout)
      ensures lfree == LowestFree(layout, HeapEnd())
      ensures UsedExtent(layout, hdr) == UsedExtent(old(layout), hdr)
      ensures Live(layout) == Live(old(layout))
    {
      PlugForward(mem, k);
      PlugBackward(mem, k);
    }

    /** rt_free */
    method Free(p: int)
      requires Valid() && (p == 0 || IsLive(layout, p, hdr))
      modifies this`next, this`prev, this`used, this`layout, this`lfree, this`usedMem
      ensures Valid()
      ensures Live(layout) == if p == 0 then old(Live(layout)) else old(Live(layout)) - {old(BlockAt(layout, p, hdr))}
      ensures p == 0 ==> layout == old(layout)
    {
      if p == 0 {
        return;
      }
      ghost var b := BlockAt(layout, p, hdr);
      assert b in layout && b.used && b.addr == p - hdr;
      ghost var k :| 0 <= k < |layout| && layout[k] == b;
      FreeBlock(p - hdr, k);
    }

    lemma FreedFacts(k: nat)
      requires Valid() && k < |layout| && layout[k].used
      ensures var t := Flip(layout, k, false);
        && |t| == |layout| && t[k] == layout[k].(used := false)
        && Tiles(t, hdr, 0, HeapEnd())
        && UsedExtent(t, hdr) == UsedExtent(layout, hdr) - hdr - layout[k].size
        && Live(t) == Live(layout) - {layout[k]}
        && LowestFree(t, HeapEnd())
           == (if layout[k].addr < LowestFree(layout, HeapEnd()) then layout[k].addr else LowestFree(layout, HeapEnd()))
        && Linked(t, hdr, HeapEnd(), next, prev, used[layout[k].addr := false])
        && Sized(t, align)
        && FreePairsIn(t, {k - 1, k})
    {
      FlipTiles(layout, k, false, hdr, HeapEnd());
      FlipMembers(layout, k, false, hdr, HeapEnd());
      LinkedFlip(layout, k, false, hdr, HeapEnd(), HeapEnd(), next, prev, used);
      LowestAfterFree(layout, k, hdr, 0, HeapEnd());
      assert UsedExtent([layout[k]], hdr) == hdr + layout[k].size;
    }

    /** rt_free for block `k`. */
    method FreeBlock(mem: int, ghost k: nat)
      requires Valid() && k < |layout| && layout[k].used && layout[k].addr == mem
      modifies this`next, this`prev, this`used, this`layout, this`lfree, this`usedMem
      ensures Valid() && Live(layout) == old(Live(layout)) - {old(layout[k])}
    {
      hide Tiles, Linked, Sized, Aligned, Flip, UsedExtent, Live, NoTwoFree, FreePairsIn;
      ghost var ly := layout;
      BlockFacts(k);
      FreedFacts(k);
      used := used[mem := false];
      if mem < lfree {
        lfree := mem;
      }
      usedMem := usedMem - (next[mem] - mem);
      layout := Flip(ly, k, false);
      PlugHoles(mem, k);
    }

    /** Moves the cursor up from a block that has just been taken. */
    method AdvanceLowest(ghost k: nat)
      requires Shape() && k < |layout| && lfree == layout[k].addr
      requires forall i :: 0 <= i < k ==> layout[i].used
      modifies this`lfree
      ensures lfree == LowestFree(layout, HeapEnd())
    {
      ghost var j := k;
      assert LinkedAt(layout[k], hdr, HeapEnd(), next, prev, used);
      while used[lfree] && lfree != HeapEnd()
        invariant j <= |layout| && lfree == if j < |layout| then layout[j].addr else HeapEnd()
        invariant forall i :: 0 <= i < j ==> layout[i].used
        invariant lfree in used
        decreases |layout| - j
      {
        TilesAt(layout, j, hdr, 0, HeapEnd());
        assert LinkedAt(layout[j], hdr, HeapEnd(), next, prev, used);
        lfree := next[lfree];
        j := j + 1;
        assert j < |layout| ==> LinkedAt(layout[j], hdr, HeapEnd(), next, prev, used);
      }
      LowestSkips(layout, j, HeapEnd());
      if j < |layout| {
        TilesAt(layout, j, hdr, 0, HeapEnd());
        assert LinkedAt(layout[j], hdr, HeapEnd(), next, prev, used);
        assert layout[j..][0] == layout[j];
      }
    }

    /** Payload bytes a request asks for, after alignment and the minimum. */
    function Want(size: nat): nat
      requires align > 0
    {
      if AlignUp(size, align) < minAligned then minAligned else AlignUp(size, align)
    }

    /** It is the least aligned size that holds the request, or the minimum. */
    lemma WantLeast(size: nat)
      requires align > 0
      ensures exists a: nat {:trigger Aligned(a, align)} ::
        && Aligned(a, align) && size <= a < size + align && Want(size) == Max(a, minAligned)
    {
      assert Aligned(AlignUp(size, align), align);
    }

    lemma TakenFacts(k: nat, want: nat)
      requires Valid() && k < |layout| && Aligned(want, align) && Serves(layout[k], want, hdr, HeapEnd()) && want > 0
      ensures var s, t := layout, Taken(layout, k, want, hdr, minAligned);
        && |t| >= |s| && (forall i :: 0 <= i < k ==> t[i] == s[i])
        && t[k].addr == s[k].addr && t[k].used && t[k].size >= want
        && Tiles(t, hdr, 0, HeapEnd()) && NoTwoFree(t)
        && UsedExtent(t, hdr) == UsedExtent(s, hdr) + hdr + t[k].size
        && Live(t) == Live(s) + {t[k]}
        && (t == Flip(s, k, true) ==> Linked(t, hdr, HeapEnd(), next, prev, used[s[k].addr := true]))
        && Sized(t, align)
    {
      var s, t := layout, Taken(layout, k, want, hdr, minAligned);
      FlipMembers(s, k, true, hdr, HeapEnd());
      LinkedFlip(s, k, true, hdr, HeapEnd(), HeapEnd(), next, prev, used);
      if s[k].size >= want + hdr + minAligned {
        CutTiles(s, k, want, hdr, HeapEnd());
        CutAligned(s, k, want, hdr, align, HeapEnd());
        CutLive(s, k, want, hdr, HeapEnd());
      } else {
        FlipTiles(s, k, true, hdr, HeapEnd());
        assert UsedExtent([s[k]], hdr) == 0;
      }
    }

    /** Marks the block at `ptr` used, cutting off the part that the request does not need. */
    method CarveBlock(ptr: int, want: nat, ghost k: nat)
      requires Valid() && k < |layout| && layout[k].addr == ptr && Aligned(want, align)
      requires Serves(layout[k], want, hdr, HeapEnd()) && want > 0
      modifies this`next, this`prev, this`used, this`bytes, this`layout, this`usedMem
      ensures Shape() && layout == Taken(old(layout), k, want, hdr, minAligned) && usedMem == UsedExtent(layout, hdr)
      ensures KeepsThose(old(bytes), bytes, old(Live(layout)), hdr)
    {
      ghost var ly, bs := layout, bytes;
      assert LinkedAt(ly[k], hdr, HeapEnd(), next, prev, used);
      TakenFacts(k, want);
      hide Tiles, Linked, Sized, Aligned, Cut, Flip, UsedExtent, Keeps, NoTwoFree;
      if next[ptr] - (ptr + hdr) >= want + hdr + minAligned {
        Split(ptr, want, k);
        usedMem := usedMem + (want + hdr);
        CutKeeps(ly, k, want, hdr, HeapEnd(), bs, bytes);
      } else {
        used := used[ptr := true];
        layout := Flip(ly, k, true);
        usedMem := usedMem + (next[ptr] - ptr);
        KeepsAll(bytes, hdr);
      }
    }

    /** The cursor stays put when another block is taken. */
    lemma TakenLowest(k: nat, want: nat)
      requires Valid() && k < |layout| && Serves(layout[k], want, hdr, HeapEnd()) && layout[k].addr != lfree
      ensures LowestFree(Taken(layout, k, want, hdr, minAligned), HeapEnd()) == lfree
    {
      var s, t := layout, Taken(layout, k, want, hdr, minAligned);
      var j := LowestFound(s, HeapEnd());
      assert j < k;
      assert forall i :: 0 <= i <= j ==> t[i] == s[i];
      LowestSkips(t, j, HeapEnd());
      assert t[j..][0] == t[j];
    }

    /** The tail of the first-fit loop, for the block at `ptr` that serves the request. */
    method Take(ptr: int, want: nat, ghost k: nat)
      requires Valid() && k < |layout| && layout[k].addr == ptr && Aligned(want, align)
      requires Serves(layout[k], want, hdr, HeapEnd()) && want > 0
      modifies this
      ensures Valid() && layout == Taken(old(layout), k, want, hdr, minAligned)
      ensures KeepsThose(old(bytes), bytes, old(Live(layout)), hdr)
      ensures maxMem == if old(maxMem) < usedMem then usedMem else old(maxMem)
    {
      hide Tiles, Linked, Sized, Aligned, Taken, UsedExtent, Keeps;
      ghost var ly := layout;
      TakenFacts(k, want);
      if ptr != lfree { TakenLowest(k, want); } else { LowestIsFirst(ly, k, hdr, 0, HeapEnd()); }
      CarveBlock(ptr, want, k);
      if maxMem < usedMem {
        maxMem := usedMem;
      }
      if ptr == lfree {
        AdvanceLowest(k);
      }
    }

    /** Blocks from the loop bound on are too small, except for the exact fit the loop refuses. */
    lemma NothingAbove(k: nat, want: nat)
      requires Shape() && k <= |layout| && want > 0
      requires k < |layout| ==> layout[k].addr >= memSize - want
      ensures forall i :: k <= i < |layout| ==> !Serves(layout[i], want, hdr, HeapEnd())
    {
      TilesOrdered(layout, hdr, 0, HeapEnd());
    }

    /** The search loop of rt_malloc: from the lowest free block to the first that serves. */
    method Search(want: nat) returns (ptr: int)
      requires Valid() && want > 0
      ensures var k := FirstFit(layout, want, hdr, HeapEnd());
        (ptr < memSize - want <==> k < |layout|) && (k < |layout| ==> ptr == layout[k].addr)
    {
      ptr := lfree;
      ghost var k := LowestFound(layout, HeapEnd());
      while ptr < memSize - want
        invariant 0 <= k <= |layout|
        invariant ptr == if k < |layout| then layout[k].addr else HeapEnd()
        invariant forall i :: 0 <= i < k ==> !Serves(layout[i], want, hdr, HeapEnd())
        decreases |layout| - k
      {
        TilesAt(layout, k, hdr, 0, HeapEnd());
        assert LinkedAt(layout[k], hdr, HeapEnd(), next, prev, used);
        if !used[ptr] && next[ptr] - (ptr + hdr) >= want {
          FirstFitIs(layout, k, want, hdr, HeapEnd());
          return;
        }
        ptr := next[ptr];
        k := k + 1;
      }
      NothingAbove(k, want);
      FirstFitIs(layout, |layout|, want, hdr, HeapEnd());
    }

    /** Whether rt_malloc hands out null for a non-zero request. */
    ghost predicate MallocFails(size: nat)
      requires align > 0
      reads this
    {
      || AlignUp(size, align) > memSize
      || forall b :: b in layout && !b.used && b.size >= Want(size) ==> b.size == Want(size) && End(b, hdr) == HeapEnd()
    }

    /** The block that first fit takes is the lowest that serves the request. */
    lemma FirstFitLowest(k: nat, want: nat)
      requires Valid() && k < |layout| && k == FirstFit(layout, want, hdr, HeapEnd())
      ensures forall c :: c in layout && !c.used && c.size >= want && (c.size > want || End(c, hdr) != HeapEnd()) ==>
        layout[k].addr <= c.addr
    {
      forall c | c in layout && Serves(c, want, hdr, HeapEnd()) ensures layout[k].addr <= c.addr {
        var i :| 0 <= i < |layout| && layout[i] == c;
        TilesOrdered(layout, hdr, 0, HeapEnd());
      }
    }

    /** rt_malloc. The lowest block that serves the request is taken. */
    method Malloc(size: nat) returns (p: int)
      requires Valid()
      modifies this
      ensures Valid()
      ensures var s, want := old(layout), Want(size);
        var k := FirstFit(s, want, hdr, HeapEnd());
        if size == 0 || AlignUp(size, align) > memSize || k == |s|
        then p == 0 && layout == s && bytes == old(bytes) && maxMem == old(maxMem)
        else p == s[k].addr + hdr && layout == Taken(s, k, want, hdr, minAligned)
             && maxMem == if old(maxMem) < usedMem then usedMem else old(maxMem)
      ensures p == 0 <==> size == 0 || old(MallocFails(size))
      ensures p == 0 ==> layout == old(layout) && bytes == old(bytes)
      ensures p != 0 ==> exists b {:trigger b in old(layout)} ::
        && b in old(layout) && !b.used && b.addr + hdr == p && b.size >= Want(size)
        && (b.size > Want(size) || End(b, hdr) != HeapEnd())
        && (forall c :: c in old(layout) && !c.used && c.size >= Want(size) ==>
              c.size > Want(size) || End(c, hdr) != HeapEnd() ==> b.addr <= c.addr)
        && IsLive(layout, p, hdr)
        && BlockAt(layout, p, hdr).size == if b.size >= Want(size) + hdr + minAligned then Want(size) else b.size
      ensures p != 0 ==>
        && IsLive(layout, p, hdr) && BlockAt(layout, p, hdr).size >= Want(size)
        && BlockAt(layout, p, hdr) !in old(Live(layout))
        && Live(layout) == old(Live(layout)) + {BlockAt(layout, p, hdr)}
      ensures KeepsThose(old(bytes), bytes, old(Live(layout)), hdr)
    {
      hide FirstFit, Taken, Keeps, UsedExtent, Tiles, Linked, NoTwoFree, Live;
      KeepsAll(bytes, hdr);
      if size == 0 {
        return 0;
      }
      var want := AlignUp(size, align);
      if want > memSize {
        return 0;
      }
      if want < minAligned {
        want := minAligned;
      }
      FirstFitComplete(layout, want, hdr, HeapEnd());
      var ptr := Search(want);
      ghost var k := FirstFit(layout, want, hdr, HeapEnd());
      if ptr < memSize - want {
        FirstFitLowest(k, want);
        assert layout[k] in layout;
        TakenSize(layout, k, want, hdr, minAligned);
        TilesAt(layout, k, hdr, 0, HeapEnd());
        TakenIsNew(layout, k, want, hdr, minAligned, 0, HeapEnd());
        Take(ptr, want, k);
        BlockAtUnique(layout, layout[k], hdr, 0, HeapEnd());
        p := ptr + hdr;
        assert BlockAt(layout, p, hdr) == layout[k];
        return p;
      }
      return 0;
    }

    /** Freeing what was just allocated gives back the very same layout, whatever was split or
        merged on the way. */
    method MallocThenFree(size: nat)
      requires Valid()
      modifies this
      ensures Valid() && layout == old(layout) && lfree == old(lfree) && usedMem == old(usedMem)
    {
      hide Live, Taken, Keeps;
      var p := Malloc(size);
      ghost var b := if p != 0 then {BlockAt(layout, p, hdr)} else {};
      assert Live(layout) - b == old(Live(layout));
      Free(p);
      CanonicalUnique(layout, old(layout), hdr, 0, HeapEnd());
    }

    lemma ShrunkFacts(k: nat, newsize: nat)
      requires Valid() && k < |layout| && layout[k].used && newsize + hdr <= layout[k].size
      ensures var s, t := layout, Cut(layout, k, newsize, hdr);
        var at, lf := s[k].addr + hdr + newsize, LowestFree(s, HeapEnd());
        && k + 1 < |t| && t[k + 1].addr == at && !t[k + 1].used
        && FreePairsIn(t, {k, k + 1})
        && UsedExtent(t, hdr) == UsedExtent(s, hdr) - (s[k].size - newsize)
        && Live(t) == Live(s) - {s[k]} + {Block(s[k].addr, newsize, true)}
        && LowestFree(t, HeapEnd()) == (if at < lf then at else lf)
    {
      CutTiles(layout, k, newsize, hdr, HeapEnd());
      ShrunkLive(layout, k, newsize, hdr, HeapEnd());
      ShrunkLowest(layout, k, newsize, hdr, HeapEnd());
      ShrunkPairs(layout, k, newsize, hdr);
    }

    /** The shrinking branch of rt_realloc: cuts the used block `k` and gives back the rest. */
    method Shrink(ptr: int, newsize: nat, ghost k: nat)
      requires Valid() && k < |layout| && layout[k].addr == ptr && layout[k].used
      requires 0 < newsize && newsize + hdr < layout[k].size && Aligned(newsize, align)
      modifies this`next, this`prev, this`used, this`layout, this`lfree, this`usedMem, this`bytes
      ensures Valid()
      ensures Live(layout) == old(Live(layout)) - {old(layout[k])} + {Block(ptr, newsize, true)}
      ensures KeepsThose(old(bytes), bytes, old(Live(layout)) - {old(layout[k])}, hdr)
      ensures Keeps(old(bytes), bytes, Block(ptr, newsize, true), hdr)
    {
      hide Tiles, Linked, Sized, Aligned, UsedExtent, NoTwoFree, Cut, Live, KeepsThose, Keeps, FreePairsIn;
      ghost var ly, bs := layout, bytes;
      ShrunkFacts(k, newsize);
      BlockFacts(k);
      usedMem := usedMem - (next[ptr] - ptr - hdr - newsize);
      var ptr2 := ptr + hdr + newsize;
      assert bytes == bs && ly[k].addr == ptr;
      Split(ptr, newsize, k);
      CutKeepsLive(ly, k, newsize, hdr, HeapEnd(), bs, bytes);
      if ptr2 < lfree {
        lfree := ptr2;
      }
      PlugHoles(ptr2, k + 1);
    }

    /** When rt_realloc leaves a live block of payload `size` where it is, for an aligned request `want`. */
    predicate InPlace(size: nat, want: nat) {
      size == want || want + hdr + minSize < size
    }

    /** Copies the payload at `p` to the block at `q` and frees the block at `p`. */
    method Relocate(p: int, q: int, n: nat, ghost b: Block, ghost c: Block)
      requires Valid() && b in Live(layout) && c in Live(layout) && b != c
      requires p == b.addr + hdr && q == c.addr + hdr && n <= b.size && n <= c.size
      modifies this`next, this`prev, this`used, this`layout, this`lfree, this`usedMem, this`bytes
      ensures Valid() && Live(layout) == old(Live(layout)) - {b}
      ensures KeepsThose(old(bytes), bytes, old(Live(layout)) - {b, c}, hdr)
      ensures CopiedRange(bytes, old(bytes), q, p, n)
    {
      ghost var lv, mid := Live(layout), bytes;
      KeepsAll(bytes, hdr);
      Apart(layout, b, b, hdr, 0, HeapEnd());
      Apart(layout, b, c, hdr, 0, HeapEnd());
      bytes := CopyBytes(bytes, q, p, n);
      RelocateKeeps(layout, b, c, n, hdr, 0, HeapEnd(), mid, bytes);
      BlockAtUnique(layout, b, hdr, 0, HeapEnd());
      hide Keeps, Live, CopiedRange, KeepsThose;
      assert p == b.addr + hdr && BlockAt(layout, p, hdr) == b && lv - {c} - {b} == lv - {b, c};
      Free(p);
    }

    /** The last part of rt_realloc: allocate, copy, free. */
    method Move(p: int, want: nat, size: nat) returns (q: int)
      requires Valid() && IsLive(layout, p, hdr) && BlockAt(layout, p, hdr).size == size && want > 0
      modifies this
      ensures Valid()
      ensures q == 0 <==> old(MallocFails(want))
      ensures q == 0 ==> layout == old(layout) && bytes == old(bytes)
      ensures q != 0 ==>
        && IsLive(layout, q, hdr) && BlockAt(layout, q, hdr).size >= want
        && BlockAt(layout, q, hdr) !in old(Live(layout))
        && Live(layout) == old(Live(layout)) - {old(BlockAt(layout, p, hdr))} + {BlockAt(layout, q, hdr)}
        && KeepsThose(old(bytes), bytes, old(Live(layout)) - {old(BlockAt(layout, p, hdr))}, hdr)
        && CopiedRange(bytes, old(bytes), q, p, Min(size, want))
    {
      hide Keeps, Live, CopiedRange, Taken, KeepsThose, Tiles, Linked, Sized, NoTwoFree, UsedExtent, MallocFails,
        FirstFit, Serves;
      ghost var b, lv, bs := BlockAt(layout, p, hdr), Live(layout), bytes;
      q := Malloc(want);
      if q != 0 {
        ghost var c, mid := BlockAt(layout, q, hdr), bytes;
        var n := if size < want then size else want;
        Relocate(p, q, n, b, c);
        MovedBytes(lv, b, c, n, bs, mid, bytes, hdr);
        Swapped(lv, b, c);
        BlockAtUnique(layout, c, hdr, 0, HeapEnd());
        assert q == c.addr + hdr && BlockAt(layout, q, hdr) == c;
      }
    }

    lemma LivePointer(p: int)
      requires Shape() && IsLive(layout, p, hdr)
      ensures hdr <= p < HeapEnd()
    {
      Apart(layout, BlockAt(layout, p, hdr), BlockAt(layout, p, hdr), hdr, 0, HeapEnd());
    }

    /** rt_realloc for a live block and an aligned, non-zero size. */
    method ReallocLive(p: int, want: nat) returns (q: int)
      requires Valid() && p != 0 && IsLive(layout, p, hdr) && 0 < want <= memSize && Aligned(want, align)
      modifies this
      ensures Valid() && Reallocated(old(layout), old(bytes), layout, bytes, hdr, p, old(BlockAt(layout, p, hdr)),
                                     want, q)
      ensures q == 0 <==> old(!InPlace(BlockAt(layout, p, hdr).size, want) && MallocFails(want))
      ensures old(InPlace(BlockAt(layout, p, hdr).size, want)) ==> q == p && BlockAt(layout, p, hdr).size == want
    {
      ghost var b, lv := BlockAt(layout, p, hdr), Live(layout);
      ghost var k :| 0 <= k < |layout| && layout[k] == b;
      assert LinkedAt(b, hdr, HeapEnd(), next, prev, used);
      AlignUpIdempotent(want, align);
      KeepsAll(bytes, hdr);
      var ptr := p - hdr;
      var size := next[ptr] - ptr - hdr;
      hide Keeps, CopiedRange, KeepsThose, Tiles, Linked;
      if size == want {
        assert lv - {b} + {b} == lv;
        ReallocatedInPlace(layout, bytes, layout, bytes, hdr, 0, HeapEnd(), b, b, want);
        return p;
      }
      if want + hdr + minSize < size {
        Shrink(ptr, want, k);
        ReallocatedInPlace(old(layout), old(bytes), layout, bytes, hdr, 0, HeapEnd(), b, Block(ptr, want, true), want);
        return p;
      }
      q := Move(p, want, size);
    }

    /** rt_realloc */
    method Realloc(p: int, newsize: nat) returns (q: int)
      requires Valid()
      requires p == 0 || IsLive(layout, p, hdr) || (newsize > 0 && !(0 <= p < HeapEnd()))
      modifies this
      ensures Valid()
      ensures newsize == 0 ==>
        && q == 0 && bytes == old(bytes)
        && Live(layout) == if p == 0 then old(Live(layout)) else old(Live(layout)) - {old(BlockAt(layout, p, hdr))}
      ensures newsize > 0 && !(0 <= p < HeapEnd()) ==>
        q == (if AlignUp(newsize, align) > memSize then 0 else p) && layout == old(layout) && bytes == old(bytes)
      ensures newsize > 0 && p == 0 ==>
        && (q == 0 <==> old(MallocFails(newsize)))
        && KeepsThose(old(bytes), bytes, old(Live(layout)), hdr)
        && if q == 0 then layout == old(layout) && bytes == old(bytes)
           else && IsLive(layout, q, hdr) && BlockAt(layout, q, hdr).size >= newsize
                && BlockAt(layout, q, hdr) !in old(Live(layout))
                && Live(layout) == old(Live(layout)) + {BlockAt(layout, q, hdr)}
      ensures newsize > 0 && p != 0 && old(IsLive(layout, p, hdr)) ==>
        var b, want := old(BlockAt(layout, p, hdr)), AlignUp(newsize, align);
        var stays := b.size == want || b.size > want + hdr + minSize;
        && (q == 0 <==> want > memSize || (!stays && old(MallocFails(newsize))))
        && (want <= memSize && stays ==> q == p && IsLive(layout, p, hdr) && BlockAt(layout, p, hdr).size == want)
        && Reallocated(old(layout), old(bytes), layout, bytes, hdr, p, b, newsize, q)
    {
      var want := AlignUp(newsize, align);
      ghost var b := if IsLive(layout, p, hdr) then BlockAt(layout, p, hdr) else Block(0, 0, true);
      AlignUpZero(newsize, align);
      AlignUpIdempotent(want, align);
      if IsLive(layout, p, hdr) { LivePointer(p); }
      hide Keeps, CopiedRange, KeepsThose, Tiles, Linked, Sized, Live, NoTwoFree, UsedExtent, Taken;
      if want > memSize {
        return 0;
      } else if want == 0 {
        Free(p);
        return 0;
      }
      if p == 0 {
        q := Malloc(want);
        return;
      }
      if p < 0 || p >= HeapEnd() {
        return p;
      }
      q := ReallocLive(p, want);
      ReallocatedSmaller(old(layout), old(bytes), layout, bytes, hdr, p, b, want, newsize, q);
    }
  }

  /** The exception is real: an empty heap cannot hand out all of its payload. */
  lemma WholeHeapRefused(h: Heap)
    requires h.Valid() && h.layout == [Block(0, h.memSize, false)]
    ensures AlignUp(h.memSize, h.align) == h.Want(h.memSize) == h.memSize && h.MallocFails(h.memSize)
  {
    AlignUpIdempotent(h.memSize, h.align);
  }
}
