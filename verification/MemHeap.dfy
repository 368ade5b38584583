/** The memory heap of `src/memheap.c`: an address-ordered circular list of blocks, an unordered
    circular free list threaded through the free blocks, and a count of the free payload bytes.
    Addresses are offsets from `start_addr`, so 0 serves as null for payload pointers. */
module MemHeap {
  import opened HeapMemory
  import opened Arithmetic
  import opened Ring
  import opened Seqs
  import opened Tiling

  const FREE_HEADER := -1   // address of `free_header`, outside the pool
  const MINI_ALLOC := 12    // RT_MEMHEAP_MINIALLOC
  const NO_STUB := -1       // the tail's `prev` is kept up to date, too

  /** Payload of the block at address `a`, if there is one. */
  function SizeAt(s: seq<Block>, a: int): nat {
    if s == [] then 0 else if s[0].addr == a then s[0].size else SizeAt(s[1..], a)
  }

  lemma {:induction false} SizeAtIs(s: seq<Block>, b: Block, hdr: nat, lo: int, hi: int)
    requires hdr > 0 && Tiles(s, hdr, lo, hi) && b in s
    ensures SizeAt(s, b.addr) == b.size
  {
    if b != s[0] {
      Apart(s, b, s[0], hdr, lo, hi);
      SizeAtIs(s[1..], b, hdr, End(s[0], hdr), hi);
    }
  }

  /** Index of the first entry of the free list whose block holds `want` bytes, or its length. */
  function FirstFree(frees: seq<int>, s: seq<Block>, want: nat): (j: nat)
    ensures j <= |frees| && (j < |frees| ==> SizeAt(s, frees[j]) >= want)
    ensures forall i :: 0 <= i < j ==> SizeAt(s, frees[i]) < want
  {
    if frees == [] || SizeAt(s, frees[0]) >= want then 0 else 1 + FirstFree(frees[1..], s, want)
  }

  lemma {:induction false} FirstFreeIs(frees: seq<int>, s: seq<Block>, want: nat, j: nat)
    requires j <= |frees| && (j < |frees| ==> SizeAt(s, frees[j]) >= want)
    requires forall i :: 0 <= i < j ==> SizeAt(s, frees[i]) < want
    ensures FirstFree(frees, s, want) == j
  {
    if j > 0 {
      FirstFreeIs(frees[1..], s, want, j - 1);
    }
  }

  /** A list without the values in `xs`. */
  function WithoutSet(s: seq<int>, xs: set<int>): seq<int> {
    if s == [] then [] else (if s[0] in xs then [] else [s[0]]) + WithoutSet(s[1..], xs)
  }

  lemma {:induction false} WithoutSetNone(s: seq<int>)
    ensures WithoutSet(s, {}) == s
  {
    if s != [] {
      WithoutSetNone(s[1..]);
    }
  }

  lemma {:induction false} WithoutSetAbsent(s: seq<int>, x: int)
    requires x !in s
    ensures WithoutSet(s, {x}) == s
  {
    if s != [] {
      WithoutSetAbsent(s[1..], x);
    }
  }

  lemma {:induction false} WithoutSetOne(s: seq<int>, x: int)
    requires NoDup(s)
    ensures WithoutSet(s, {x}) == Removed(s, x)
  {
    if s != [] {
      RestMembers(s);
      if s[0] == x {
        WithoutSetAbsent(s[1..], x);
      } else {
        WithoutSetOne(s[1..], x);
      }
    }
  }

  lemma FreesNoDup(h: int, s: seq<int>)
    requires NoDup([h] + s)
    ensures NoDup(s)
  {
    RestMembers([h] + s);
    assert ([h] + s)[1..] == s;
  }

  lemma TailRemoved(h: int, s: seq<int>, x: int)
    requires NoDup([h] + s) && x != h
    ensures NoDup(s) && Removed([h] + s, x) == [h] + Removed(s, x)
    ensures forall y :: y in Removed(s, x) <==> y in s && y != x
  {
    RestMembers([h] + s);
    assert ([h] + s)[1..] == s;
    RemovedMembers(s, x);
  }

  /** The address of the block after block `k`, if that block is free. */
  function FreeAfter(s: seq<Block>, k: nat): set<int> {
    if k + 1 < |s| && !s[k + 1].used then {s[k + 1].addr} else {}
  }

  lemma RightFree(s: seq<Block>, k: nat)
    requires k < |s| && s[k].used
    ensures FreeAfter(s, k) <= FreeAddrs(s) && FreeAfter(Flip(s, k, false), k) == FreeAfter(s, k)
  {
  }

  lemma UsedLive(s: seq<Block>, k: nat)
    requires k < |s| && s[k].used
    ensures s[k] in Live(s)
  {
  }

  lemma InUnion(b: Block, a: set<Block>, all: set<Block>)
    requires all == a + {b}
    ensures b in all
  {
  }

  lemma SetShuffle(a: set<int>, x: int, r: set<int>)
    requires x !in a && r <= a
    ensures a + {x} - {x} == a && a + {x} - r == a - r + {x} && r <= a + {x}
  {
  }

  lemma {:induction false} FreePayloadBound(s: seq<Block>)
    ensures forall b :: b in s && !b.used ==> b.size <= FreePayload(s)
  {
    if s != [] {
      FreePayloadBound(s[1..]);
      assert forall b :: b in s ==> b == s[0] || b in s[1..];
    }
  }

  class Heap {
    const hdr: nat        // RT_MEMHEAP_SIZE
    const align: nat      // RT_ALIGN_SIZE
    const poolSize: nat
    var next: map<int, int>
    var prev: map<int, int>
    var used: map<int, bool>
    var nextFree: map<int, int>
    var prevFree: map<int, int>
    var available: int
    var maxUsed: int
    var bytes: map<int, int>
    ghost var layout: seq<Block>
    ghost var frees: seq<int>   // the free list, front first

    /** Address of the tailer, a used block without payload. */
    function Tail(): int { poolSize - hdr }

    /** The block list: tiling, links in both directions, and the used tailer that closes the ring. */
    ghost predicate Shape() reads `next, `prev, `used, `layout {
      && hdr > 0 && align > 0 && poolSize >= 2 * hdr
      && layout != [] && Tiles(layout, hdr, 0, Tail())
      && Linked(layout, hdr, NO_STUB, next, prev, used)
      && Tail() in next && next[Tail()] == 0 && 0 in prev && prev[0] == Tail()
      && Tail() in used && used[Tail()]
    }

    /** The free list holds the addresses `a`, once each. */
    ghost predicate FreeList(a: set<int>) reads `nextFree, `prevFree, `frees {
      && IsRing([FREE_HEADER] + frees, nextFree, prevFree)
      && (forall x :: x in frees <==> x in a)
    }

    ghost predicate Consistent() reads `next, `prev, `used, `layout, `nextFree, `prevFree, `frees, `available {
      && Shape() && NoTwoFree(layout)
      && FreeList(FreeAddrs(layout))
      && available == FreePayload(layout)
    }

    /** The alignment divides the sizes that the heap is made of. */
    ghost predicate Aligning() { Aligned(MINI_ALLOC, align) && Aligned(hdr, align) && Aligned(poolSize, align) }

    ghost predicate AlignedBlocks(bs: set<Block>) { Aligning() ==> AllAligned(bs, align) }

    ghost predicate AlignedSize(want: nat) { Aligning() ==> Aligned(want, align) }

    ghost predicate Valid() reads this {
      Consistent() && maxUsed >= poolSize - available && AlignedBlocks(Live(layout))
    }

    /** What is handed out is aligned. */
    lemma PayloadAligned(p: int)
      requires Valid() && Aligning() && IsLive(layout, p, hdr)
      ensures Aligned(p, align) && Aligned(BlockAt(layout, p, hdr).size, align)
    {
      var b := BlockAt(layout, p, hdr);
      assert BlockAligned(b, align);
      AlignedSum(b.addr, hdr, align);
    }

    lemma AlignedAt(k: nat)
      requires Valid() && k < |layout|
      ensures Aligning() ==> BlockAligned(layout[k], align)
    {
      if Aligning() {
        hide Aligned, BlockAligned;
        AlignedSum(poolSize, hdr, align);
        FreeAligned(layout, k, hdr, align, Tail());
      }
    }

    lemma AlignedTaken(k: nat, want: nat)
      requires Valid() && k < |layout| && !layout[k].used && want <= layout[k].size && AlignedSize(want)
      ensures AlignedBlocks(Live(Taken(layout, k, want, hdr, MINI_ALLOC)))
    {
      TakenIsNew(layout, k, want, hdr, MINI_ALLOC, 0, Tail());
      AlignedAt(k);
    }

    lemma AlignedCut(k: nat, want: nat)
      requires Valid() && k < |layout| && AlignedSize(want)
      ensures AlignedBlocks(Live(layout) - {layout[k]} + {Block(layout[k].addr, want, true)})
    {
      AlignedAt(k);
    }

    /** Payload bytes a request asks for, after alignment and the minimum. */
    function Want(size: nat): nat
      requires align > 0
    {
      if AlignUp(size, align) < MINI_ALLOC then MINI_ALLOC else AlignUp(size, align)
    }

    /** It is the least aligned size that holds the request, or the minimum. */
    lemma WantLeast(size: nat)
      requires align > 0
      ensures exists a: nat {:trigger Aligned(a, align)} ::
        && Aligned(a, align) && size <= a < size + align && Want(size) == Max(a, MINI_ALLOC)
    {
      assert Aligned(AlignUp(size, align), align);
    }

    lemma AlignedWant(size: nat)
      requires align > 0
      ensures AlignedSize(Want(size))
    {
    }

    /** rt_memheap_init, for a pool that holds at least two headers. */
    constructor (hdr: nat, align: nat, poolSize: nat)
      requires hdr > 0 && align > 0 && poolSize >= 2 * hdr
      ensures Valid() && layout == [Block(0, poolSize - 2 * hdr, false)] && frees == [0]
      ensures available == poolSize - 2 * hdr && maxUsed == 2 * hdr
      ensures this.hdr == hdr && this.align == align && this.poolSize == poolSize
    {
      this.hdr, this.align, this.poolSize := hdr, align, poolSize;
      available, maxUsed := poolSize - 2 * hdr, 2 * hdr;
      next := map[0 := poolSize - hdr, poolSize - hdr := 0];
      prev := map[0 := poolSize - hdr, poolSize - hdr := 0];
      used := map[0 := false, poolSize - hdr := true];
      nextFree := map[FREE_HEADER := 0, 0 := FREE_HEADER];
      prevFree := map[FREE_HEADER := 0, 0 := FREE_HEADER];
      bytes := map[];
      layout := [Block(0, poolSize - 2 * hdr, false)];
      frees := [0];
    }

    /** Links `x` in at the front of the free list. */
    method FreeInsert(x: int, ghost a: set<int>)
      requires FreeList(a) && x !in a && x != FREE_HEADER
      modifies this`nextFree, this`prevFree, this`frees
      ensures frees == [x] + old(frees) && FreeList(a + {x})
    {
      ghost var r, nx, pv := [FREE_HEADER] + frees, nextFree, prevFree;
      assert LinkAt(r, 0, nextFree, prevFree);
      nextFree := nextFree[x := nextFree[FREE_HEADER]];
      prevFree := prevFree[x := FREE_HEADER];
      prevFree := prevFree[nextFree[FREE_HEADER] := x];
      nextFree := nextFree[FREE_HEADER := x];
      assert prevFree == pv[nx[FREE_HEADER] := x][x := FREE_HEADER];
      RingInsert(r, 0, x, nx, pv, nextFree, prevFree);
      frees := [x] + frees;
      assert InsertedAt(r, 1, x) == [FREE_HEADER] + frees;
    }

    /** Unlinks `x` from the free list. */
    method FreeRemove(x: int, ghost a: set<int>)
      requires FreeList(a) && x in a
      modifies this`nextFree, this`prevFree, this`frees
      ensures frees == Removed(old(frees), x) && FreeList(a - {x})
    {
      ghost var r, nx, pv, fs := [FREE_HEADER] + frees, nextFree, prevFree, frees;
      hide Removed;
      ghost var j :| 0 <= j < |frees| && frees[j] == x;
      assert r[j + 1] == x;
      assert LinkAt(r, j + 1, nextFree, prevFree) && LinkAt(r, j, nextFree, prevFree);
      prevFree := prevFree[nextFree[x] := prevFree[x]];
      nextFree := nextFree[prevFree[x] := nextFree[x]];
      RingRemove(r, j + 1, nx, pv, nextFree, prevFree);
      frees := Removed(fs, x);
      assert r[0] == FREE_HEADER;
      TailRemoved(FREE_HEADER, fs, x);
    }

    /** Unlinks `x` and links in `y` at the front. */
    method FreeReplace(x: int, y: int, ghost a: set<int>)
      requires FreeList(a) && x in a && y !in a && y != FREE_HEADER
      modifies this`nextFree, this`prevFree, this`frees
      ensures frees == [y] + Removed(old(frees), x) && FreeList(a - {x} + {y})
    {
      hide FreeList, Removed;
      FreeRemove(x, a);
      FreeInsert(y, a - {x});
    }

    lemma LinkOf(k: nat)
      requires Shape() && k < |layout|
      ensures LinkedAt(layout[k], hdr, NO_STUB, next, prev, used)
      ensures 0 <= layout[k].addr && End(layout[k], hdr) <= Tail()
      ensures if k + 1 < |layout| then layout[k + 1].addr == End(layout[k], hdr) else End(layout[k], hdr) == Tail()
    {
      Apart(layout, layout[k], layout[k], hdr, 0, Tail());
      TilesAt(layout, k, hdr, 0, Tail());
    }

    /** Cuts the block at `ptr` after `want` bytes: the front stays or becomes used and the rest is a
        free block in the block list, not yet in the free list. */
    method Split(ptr: int, want: nat, ghost k: nat)
      requires Shape() && k < |layout| && layout[k].addr == ptr && want + hdr <= layout[k].size
      modifies this`next, this`prev, this`used, this`bytes, this`layout
      ensures Shape() && layout == Cut(old(layout), k, want, hdr)
      ensures KeepsThose(old(bytes), bytes, old(Live(layout)) - {old(layout[k])}, hdr)
      ensures Keeps(old(bytes), bytes, Block(ptr, want, true), hdr)
    {
      hide Linked, Tiles, SameByte, KeepsThose, Keeps, Live;
      CutKeepsLive(layout, k, want, hdr, Tail(), bytes, Clobber(bytes, ptr + hdr + want, hdr));
      ghost var nx, pv, us, ly := next, prev, used, layout;
      LinkOf(k);
      CutTiles(ly, k, want, hdr, Tail());
      var newPtr := ptr + hdr + want;
      bytes := Clobber(bytes, newPtr, hdr);
      LinkRest(ptr, newPtr);
      layout := Cut(ly, k, want, hdr);
      LinkedSplit(ly, k, want, hdr, Tail(), NO_STUB, nx, pv, us, next, prev, used);
    }

    /** The header at `newPtr` is written and linked in after the one at `ptr`. */
    method LinkRest(ptr: int, newPtr: int)
      requires ptr in next
      modifies this`next, this`prev, this`used
      ensures var after := old(next)[ptr];
        && next == old(next)[newPtr := after][ptr := newPtr] && used == old(used)[newPtr := false][ptr := true]
        && prev == old(prev)[newPtr := ptr][after := newPtr]
    {
      var after := next[ptr];
      used, prev, next := used[newPtr := false], prev[newPtr := ptr], next[newPtr := after];
      prev := prev[after := newPtr];
      next, used := next[ptr := newPtr], used[ptr := true];
    }

    /** Unlinks the block after `at` from the block list, so that `at` extends over it. */
    method Absorb(at: int, ghost k: nat)
      requires Shape() && k + 1 < |layout| && layout[k].addr == at && !layout[k + 1].used
      modifies this`next, this`prev, this`layout
      ensures Shape() && layout == Merged(old(layout), k, hdr)
    {
      ghost var nx, pv, ly := next, prev, layout;
      TilesAt(ly, k, hdr, 0, Tail());
      TilesAt(ly, k + 1, hdr, 0, Tail());
      assert LinkedAt(ly[k], hdr, NO_STUB, next, prev, used);
      assert LinkedAt(ly[k + 1], hdr, NO_STUB, next, prev, used);
      hide Linked, Tiles;
      var item := next[at];
      prev := prev[next[item] := at];
      next := next[at := next[item]];
      layout := Merged(ly, k, hdr);
      MergeTiles(ly, k, hdr, Tail());
      LinkedMerge(ly, k, hdr, Tail(), NO_STUB, nx, pv, used);
    }

    ghost function FreeBlock(at: int): (b: Block)
      requires at in FreeAddrs(layout)
      reads this
      ensures b in layout && !b.used && b.addr == at
    {
      var b :| b in layout && !b.used && b.addr == at; b
    }

    /** The search loop of rt_memheap_alloc over the free list. */
    method Search(want: nat) returns (at: int, size: int)
      requires Valid() && want > 0
      ensures var j := FirstFree(frees, layout, want);
              if j < |frees| then at == frees[j] && at in FreeAddrs(layout) && size >= want
                && size == SizeAt(layout, at)
              else size < want
    {
      ghost var r := [FREE_HEADER] + frees;
      assert LinkAt(r, 0, nextFree, prevFree);
      size := 0;
      at := nextFree[FREE_HEADER];
      ghost var j := 0;
      while at != FREE_HEADER && size < want
        invariant 0 <= j <= |frees| && at == r[Succ(j, |r|)]
        invariant forall i :: 0 <= i < j ==> SizeAt(layout, frees[i]) < want
        invariant size >= want ==> j < |frees| && at == frees[j] && size == SizeAt(layout, at)
        decreases |frees| - j, want - size
      {
        ghost var b := FreeBlock(at);
        assert LinkedAt(b, hdr, NO_STUB, next, prev, used);
        SizeAtIs(layout, b, hdr, 0, Tail());
        size := next[at] - at - hdr;
        if size < want {
          assert LinkAt(r, j + 1, nextFree, prevFree);
          at := nextFree[at];
          j := j + 1;
        }
      }
      FirstFreeIs(frees, layout, want, j);
    }

    lemma PartFacts(k: nat, want: nat)
      requires Consistent() && k < |layout| && !layout[k].used && layout[k].size >= want + hdr + MINI_ALLOC
      ensures Cut(layout, k, want, hdr) == Taken(layout, k, want, hdr, MINI_ALLOC)
      ensures NoTwoFree(Cut(layout, k, want, hdr)) && layout[k] !in Live(layout)
      ensures FreePayload(Cut(layout, k, want, hdr)) == FreePayload(layout) - want - hdr
      ensures layout[k].addr in FreeAddrs(layout) && layout[k].addr + want + hdr !in FreeAddrs(layout)
      ensures layout[k].addr >= 0
      ensures FreeAddrs(Cut(layout, k, want, hdr))
           == FreeAddrs(layout) - {layout[k].addr} + {layout[k].addr + want + hdr}
    {
      Apart(layout, layout[k], layout[k], hdr, 0, Tail());
      CutTiles(layout, k, want, hdr, Tail());
      CutLive(layout, k, want, hdr, Tail());
      CutFrees(layout, k, want, hdr, Tail());
      NoBlockInside(layout, k, layout[k].addr + want + hdr, hdr, 0, Tail());
    }

    /** Allocates the front part of the free block at `at` and leaves the rest free. */
    method TakePart(at: int, want: nat, ghost k: nat)
      requires Consistent() && k < |layout| && layout[k].addr == at && !layout[k].used
      requires layout[k].size >= want + hdr + MINI_ALLOC
      modifies this`next, this`prev, this`used, this`layout, this`nextFree, this`prevFree, this`frees, this`available,
        this`bytes
      ensures Consistent() && layout == Taken(old(layout), k, want, hdr, MINI_ALLOC)
      ensures frees == [at + want + hdr] + Removed(old(frees), at)
      ensures KeepsThose(old(bytes), bytes, old(Live(layout)), hdr)
    {
      hide Shape, FreeList, NoTwoFree, FreePayload, Taken, Cut, Live, KeepsThose, SameByte, FreeAddrs, Removed;
      ghost var a := FreeAddrs(layout);
      PartFacts(k, want);
      assert Live(layout) - {layout[k]} == Live(layout);
      Split(at, want, k);
      FreeReplace(at, at + want + hdr, a);
      available := available - want - hdr;
    }

    lemma WholeFacts(k: nat)
      requires Consistent() && k < |layout| && !layout[k].used
      ensures Tiles(Flip(layout, k, true), hdr, 0, Tail()) && NoTwoFree(Flip(layout, k, true))
      ensures FreePayload(Flip(layout, k, true)) == FreePayload(layout) - layout[k].size
      ensures layout[k].addr in FreeAddrs(layout) && layout[k].addr >= 0
      ensures FreeAddrs(Flip(layout, k, true)) == FreeAddrs(layout) - {layout[k].addr}
      ensures Linked(Flip(layout, k, true), hdr, NO_STUB, next, prev, used[layout[k].addr := true])
    {
      Apart(layout, layout[k], layout[k], hdr, 0, Tail());
      FlipTiles(layout, k, true, hdr, Tail());
      FlipFrees(layout, k, true, hdr, Tail());
      LinkedFlip(layout, k, true, hdr, Tail(), NO_STUB, next, prev, used);
      assert FreePayload([layout[k]]) == layout[k].size;
    }

    /** Allocates the whole free block at `at`. */
    method TakeWhole(at: int, want: nat, ghost k: nat)
      requires Consistent() && k < |layout| && layout[k].addr == at && !layout[k].used
      requires want <= layout[k].size < want + hdr + MINI_ALLOC
      modifies this`used, this`layout, this`nextFree, this`prevFree, this`frees, this`available
      ensures Consistent() && layout == Taken(old(layout), k, want, hdr, MINI_ALLOC)
      ensures frees == Removed(old(frees), at)
    {
      ghost var a := FreeAddrs(layout);
      assert LinkedAt(layout[k], hdr, NO_STUB, next, prev, used);
      WholeFacts(k);
      assert Flip(layout, k, true) == Taken(layout, k, want, hdr, MINI_ALLOC);
      hide FreeList, NoTwoFree, FreePayload, Taken, FreeAddrs, Removed, Linked, Tiles;
      available := available - (next[at] - at - hdr);
      FreeRemove(at, a);
      used := used[at := true];
      layout := Flip(layout, k, true);
    }

    /** Takes the free block at `at`, cutting off what the request does not need. */
    method AllocAt(at: int, size: int, want: nat, ghost k: nat)
      requires Valid() && k < |layout| && layout[k].addr == at && !layout[k].used
      requires size == layout[k].size >= want && AlignedSize(want)
      modifies this
      ensures Valid() && layout == Taken(old(layout), k, want, hdr, MINI_ALLOC)
      ensures frees == (if size >= want + hdr + MINI_ALLOC then [at + want + hdr] else []) + Removed(old(frees), at)
      ensures maxUsed == Max(old(maxUsed), poolSize - available)
      ensures KeepsThose(old(bytes), bytes, old(Live(layout)), hdr)
    {
      KeepsAll(bytes, hdr);
      AlignedTaken(k, want);
      hide Shape, FreeList, NoTwoFree, FreePayload, Taken, KeepsThose, FreeAddrs, Removed, AlignedBlocks, AlignedSize;
      if size >= want + hdr + MINI_ALLOC {
        TakePart(at, want, k);
      } else {
        TakeWhole(at, want, k);
      }
      if poolSize - available > maxUsed {
        maxUsed := poolSize - available;
      }
    }

    /** When rt_memheap_alloc refuses: no free block holds the request, or the request is for all the free bytes
        there are, which the strict comparison with `available_size` turns away. */
    ghost predicate AllocFails(size: nat)
      requires align > 0
      reads `layout, `available
    {
      (forall b :: b in layout && !b.used ==> b.size < Want(size)) || available == Want(size)
    }

    /** The test of the byte count and the search of the free list refuse exactly then. */
    lemma AllocRefuses(size: nat)
      requires Valid()
      ensures Want(size) >= available || FirstFree(frees, layout, Want(size)) == |frees| <==> AllocFails(size)
    {
      var want := Want(size);
      FreePayloadBound(layout);
      var j := FirstFree(frees, layout, want);
      forall b | b in layout && !b.used ensures SizeAt(layout, b.addr) == b.size && b.addr in frees {
        SizeAtIs(layout, b, hdr, 0, Tail());
      }
      if j < |frees| {
        var b := FreeBlock(frees[j]);
        assert b.size >= want;
      }
    }

    /** rt_memheap_alloc. The first block of the free list that is large enough is taken; a request
        for all the free bytes there are is refused outright. */
    method Alloc(size: nat) returns (p: int)
      requires Valid()
      modifies this
      ensures Valid()
      ensures var s, want := old(layout), Want(size);
        var j := FirstFree(old(frees), s, want);
        if want >= old(available) || j == |old(frees)|
        then p == 0 && layout == s && frees == old(frees) && bytes == old(bytes) && maxUsed == old(maxUsed)
        else var at := old(frees)[j]; var k := BlockIndex(s, at);
          && k < |s| && s[k].addr == at && want <= s[k].size
          && p == at + hdr > 0 && layout == Taken(s, k, want, hdr, MINI_ALLOC)
          && frees == (if s[k].size >= want + hdr + MINI_ALLOC then [at + want + hdr] else []) + Removed(old(frees), at)
          && maxUsed == Max(old(maxUsed), poolSize - available)
      ensures p == 0 <==> old(AllocFails(size))
      ensures p == 0 ==> layout == old(layout) && bytes == old(bytes)
      ensures p != 0 ==>
        && IsLive(layout, p, hdr) && BlockAt(layout, p, hdr).size >= Want(size)
        && BlockAt(layout, p, hdr) !in old(Live(layout))
        && Live(layout) == old(Live(layout)) + {BlockAt(layout, p, hdr)}
      ensures KeepsThose(old(bytes), bytes, old(Live(layout)), hdr)
    {
      hide Tiles, Linked, Taken, KeepsThose, FreePayload, NoTwoFree, Live, FreeAddrs, FreeList, AllocFails;
      KeepsAll(bytes, hdr);
      var want := Want(size);
      AlignedWant(size);
      AllocRefuses(size);
      if want < available {
        var at, freeSize := Search(want);
        if freeSize >= want {
          ghost var b := FreeBlock(at);
          ghost var k :| 0 <= k < |layout| && layout[k] == b;
          SizeAtIs(layout, b, hdr, 0, Tail());
          BlockIndexIs(layout, k, hdr, 0, Tail());
          TakenIsNew(layout, k, want, hdr, MINI_ALLOC, 0, Tail());
          AllocAt(at, freeSize, want, k);
          p := at + hdr;
          BlockAtUnique(layout, layout[k], hdr, 0, Tail());
          assert BlockAt(layout, p, hdr) == layout[k];
          return p;
        }
      }
      return 0;
    }

    /** Clears the used flag of block `k` and counts its payload as free. */
    method MarkFree(at: int, ghost k: nat)
      requires Consistent() && k < |layout| && layout[k].addr == at && layout[k].used
      modifies this`used, this`layout, this`available
      ensures Shape() && old(available) <= available == FreePayload(layout) && layout == Flip(old(layout), k, false)
      ensures FreePairsIn(layout, {k - 1, k})
      ensures FreeAddrs(layout) == old(FreeAddrs(layout)) + {at} && at !in old(FreeAddrs(layout)) && at >= 0
      ensures Live(layout) == old(Live(layout)) - {old(layout[k])}
    {
      ghost var b := layout[k];
      Apart(layout, b, b, hdr, 0, Tail());
      assert LinkedAt(b, hdr, NO_STUB, next, prev, used);
      FlipTiles(layout, k, false, hdr, Tail());
      FlipFrees(layout, k, false, hdr, Tail());
      FlipLive(layout, k, false, hdr, Tail());
      LinkedFlip(layout, k, false, hdr, Tail(), NO_STUB, next, prev, used);
      assert FreePayload([b]) == 0;
      UsedIsNotFree(layout, b, hdr, 0, Tail());
      hide Tiles, Linked, FreePayload, Live, FreeAddrs;
      used := used[at := false];
      layout := Flip(layout, k, false);
      available := available + (next[at] - at - hdr);
    }

    lemma MergeFacts(k: nat)
      requires Shape() && k + 1 < |layout| && !layout[k].used && !layout[k + 1].used
      ensures var t := Merged(layout, k, hdr);
        && k < |t| && t[k].addr == layout[k].addr && !t[k].used
        && FreePayload(t) == FreePayload(layout) + hdr
        && Live(t) == Live(layout)
        && FreeAddrs(t) == FreeAddrs(layout) - {layout[k + 1].addr}
        && (FreePairsIn(layout, {k, k + 1}) ==> FreePairsIn(t, {k}))
        && (FreePairsIn(layout, {k}) ==> NoTwoFree(t))
    {
      hide Tiles, Linked, FreePayload, FreeAddrs, Live, FreePairsIn, NoTwoFree;
      MergeTiles(layout, k, hdr, Tail());
      MergeLive(layout, k, hdr, Tail());
      PairsMore(layout, k);
      if FreePairsIn(layout, {k, k + 1}) {
        MergeBefore(layout, k, hdr);
      }
    }

    /** The merge with the previous neighbour in rt_memheap_free. `h` is the header of the result. */
    method MergeLeft(at: int, ghost k: nat) returns (h: int, insert: bool, ghost i: nat)
      requires Shape() && available == FreePayload(layout)
      requires k < |layout| && layout[k].addr == at && !layout[k].used && FreePairsIn(layout, {k - 1, k})
      modifies this`next, this`prev, this`layout, this`available
      ensures Shape() && old(available) <= available == FreePayload(layout)
      ensures i < |layout| && FreeAfter(layout, i) == FreeAfter(old(layout), k)
      ensures layout[i].addr == h && !layout[i].used && FreePairsIn(layout, {i})
      ensures insert == (k == 0 || old(layout)[k - 1].used)
      ensures if insert then i == k && layout == old(layout)
        else i == k - 1 && layout == Merged(old(layout), k - 1, hdr)
      ensures FreeAddrs(layout) == if insert then old(FreeAddrs(layout)) else old(FreeAddrs(layout)) - {at}
      ensures Live(layout) == old(Live(layout))
    {
      TilesAt(layout, k, hdr, 0, Tail());
      assert k > 0 ==> LinkedAt(layout[k - 1], hdr, NO_STUB, next, prev, used);
      h, insert, i := at, true, k;
      if !used[prev[at]] {
        MergeFacts(k - 1);
        assert k + 1 < |layout| ==> Merged(layout, k - 1, hdr)[k] == layout[k + 1];
        hide Tiles, Linked, FreePayload, Live, FreeAddrs, Merged;
        available := available + hdr;
        h := prev[at];
        Absorb(h, k - 1);
        insert, i := false, k - 1;
      }
    }

    /** The merge with the next neighbour, which leaves the free list. */
    method MergeRight(h: int, ghost i: nat, ghost a: set<int>)
      requires Shape() && available == FreePayload(layout) && FreeList(a)
      requires i < |layout| && layout[i].addr == h && !layout[i].used && FreePairsIn(layout, {i})
      requires FreeAfter(layout, i) <= a
      modifies this`next, this`prev, this`layout, this`available, this`nextFree, this`prevFree, this`frees
      ensures Shape() && NoTwoFree(layout) && old(available) <= available == FreePayload(layout)
      ensures Live(layout) == old(Live(layout))
      ensures var right := FreeAfter(old(layout), i);
        && FreeAddrs(layout) == old(FreeAddrs(layout)) - right && FreeList(a - right)
        && frees == WithoutSet(old(frees), right)
    {
      if FreeAfter(layout, i) == {} {
        assert a - {} == a && FreeAddrs(layout) - {} == FreeAddrs(layout);
        WithoutSetNone(frees);
      }
      TilesAt(layout, i, hdr, 0, Tail());
      assert LinkedAt(layout[i], hdr, NO_STUB, next, prev, used);
      assert i + 1 < |layout| ==> LinkedAt(layout[i + 1], hdr, NO_STUB, next, prev, used);
      if !used[next[h]] {
        MergeFacts(i);
        hide Tiles, Linked, FreePayload, Live, FreeAddrs, Merged, FreeList, Removed;
        available := available + hdr;
        var item := next[h];
        Absorb(h, i);
        ghost var fs := frees;
        FreesNoDup(FREE_HEADER, fs);
        FreeRemove(item, a);
        WithoutSetOne(fs, item);
      }
    }

    /** What the free list becomes when block `k` of `s` is freed. */
    function FreesAfter(s: seq<Block>, k: nat, fs: seq<int>): seq<int>
      requires k < |s|
    {
      (if k > 0 && !s[k - 1].used then [] else [s[k].addr]) + WithoutSet(fs, FreeAfter(s, k))
    }

    /** The critical section of rt_memheap_free, for the used block at `at`. */
    method FreeAt(at: int, ghost k: nat)
      requires Valid() && k < |layout| && layout[k].addr == at && layout[k].used
      modifies this`next, this`prev, this`used, this`layout, this`available, this`nextFree, this`prevFree, this`frees
      ensures Valid()
      ensures Live(layout) == old(Live(layout)) - {old(layout[k])}
      ensures frees == FreesAfter(old(layout), k, old(frees))
    {
      hide Tiles, Linked, FreePayload, Live, FreeAddrs, Merged;
      hide FreeList, WithoutSet, NoTwoFree, FreePairsIn, Shape;
      ghost var a, right := FreeAddrs(layout), FreeAfter(layout, k);
      RightFree(layout, k);
      MarkFree(at, k);
      var h, insert, i := MergeLeft(at, k);
      SetShuffle(a, at, right);
      MergeRight(h, i, a);
      if insert {
        FreeInsert(h, a - right);
      }
    }

    /** rt_memheap_free. The freed block joins its free neighbours; it enters the free list, at the
        front, unless the block before it was free and stands there already. */
    method Free(p: int)
      requires Valid() && (p == 0 || IsLive(layout, p, hdr))
      modifies this`next, this`prev, this`used, this`layout, this`available, this`nextFree, this`prevFree, this`frees
      ensures Valid()
      ensures p == 0 ==> layout == old(layout) && frees == old(frees)
      ensures p != 0 ==>
        var s, k := old(layout), BlockIndex(old(layout), p - hdr);
        && Live(layout) == Live(s) - {BlockAt(s, p, hdr)}
        && k < |s| && frees == FreesAfter(s, k, old(frees))
    {
      if p == 0 {
        return;
      }
      ghost var b := BlockAt(layout, p, hdr);
      ghost var k :| 0 <= k < |layout| && layout[k] == b;
      BlockIndexIs(layout, k, hdr, 0, Tail());
      assert layout[k].addr == p - hdr && layout[k].used;
      hide Tiles, Linked, FreePayload, FreeAddrs, FreeList, NoTwoFree, Shape, FreesAfter, Live;
      FreeAt(p - hdr, k);
    }

    /** The layout after the used block `k` is extended into the free block after it. */
    function Grown(s: seq<Block>, k: nat, want: nat): seq<Block>
      requires k + 1 < |s| && want <= s[k].size + s[k + 1].size
    {
      Cut(Merged(s, k, hdr), k, want, hdr)
    }

    lemma UsedIsNew(s: seq<Block>, m: seq<Block>, k: nat, hdr: nat, hi: int)
      requires hdr > 0 && k + 1 < |s| && s[k].used && !s[k + 1].used && Tiles(s, hdr, 0, hi) && m == Merged(s, k, hdr)
      ensures m[k] !in Live(s) - {s[k]}
    {
      forall b | b in Live(s) && b != s[k] ensures b != m[k] {
        Apart(s, b, s[k], hdr, 0, hi);
      }
    }

    lemma GrownNoTwoFree(k: nat, want: nat)
      requires k + 1 < |layout| && NoTwoFree(layout) && !layout[k + 1].used
        && want <= layout[k].size + layout[k + 1].size
      ensures NoTwoFree(Grown(layout, k, want))
    {
      var s, t := layout, Grown(layout, k, want);
      assert forall i :: 0 <= i < k ==> t[i] == s[i];
      assert forall i :: k + 1 < i < |t| ==> t[i] == s[i];
    }

    lemma GrownFacts(k: nat, want: nat)
      requires Shape() && NoTwoFree(layout) && k + 1 < |layout| && layout[k].used && !layout[k + 1].used
      requires layout[k].size < want && want + MINI_ALLOC < layout[k].size + layout[k + 1].size
      ensures k < |Merged(layout, k, hdr)| && Merged(layout, k, hdr)[k].addr == layout[k].addr
      ensures want + hdr <= Merged(layout, k, hdr)[k].size
      ensures NoTwoFree(Grown(layout, k, want))
      ensures FreePayload(Grown(layout, k, want)) == FreePayload(layout) - (want - layout[k].size)
      ensures Live(Merged(layout, k, hdr)) - {Merged(layout, k, hdr)[k]} == Live(layout) - {layout[k]}
      ensures Live(Grown(layout, k, want)) == Live(layout) - {layout[k]} + {Block(layout[k].addr, want, true)}
    {
      var s, m := layout, Merged(layout, k, hdr);
      MergeTiles(s, k, hdr, Tail());
      MergeLive(s, k, hdr, Tail());
      UsedIsNew(s, m, k, hdr, Tail());
      assert Live(m) - {m[k]} == Live(s) - {s[k]};
      CutTiles(m, k, want, hdr, Tail());
      ShrunkLive(m, k, want, hdr, Tail());
      GrownNoTwoFree(k, want);
    }

    lemma WithoutAbsent(a: set<int>, x: int, y: int, z: int)
      requires x !in a
      ensures a - {y} - {x} + {z} == a - {y} + {z}
    {
    }

    lemma GrownFrees(k: nat, want: nat)
      requires Shape() && NoTwoFree(layout) && k + 1 < |layout| && layout[k].used && !layout[k + 1].used
      requires layout[k].size < want && want + MINI_ALLOC < layout[k].size + layout[k + 1].size
      ensures layout[k + 1].addr in FreeAddrs(layout)
      ensures layout[k].addr + hdr + want !in FreeAddrs(layout) && layout[k].addr >= 0
      ensures FreeAddrs(Grown(layout, k, want))
           == FreeAddrs(layout) - {layout[k + 1].addr} + {layout[k].addr + hdr + want}
    {
      var s, m := layout, Merged(layout, k, hdr);
      TilesAt(s, k, hdr, 0, Tail());
      MergeTiles(s, k, hdr, Tail());
      MergeLive(s, k, hdr, Tail());
      UsedIsNotFree(s, s[k], hdr, 0, Tail());
      CutFrees(m, k, want, hdr, Tail());
      NoBlockInside(s, k + 1, s[k].addr + hdr + want, hdr, 0, Tail());
      assert s[k + 1] in s;
      hide FreeAddrs, Tiles, Linked;
      WithoutAbsent(FreeAddrs(s), s[k].addr, s[k + 1].addr, s[k].addr + hdr + want);
    }

    /** Block list part of the growing branch of rt_memheap_realloc: the free block after block `k`
        is unlinked and a smaller one built further up. */
    method GrowBlocks(at: int, want: nat, ghost k: nat)
      requires Shape() && NoTwoFree(layout) && k + 1 < |layout| && layout[k].addr == at && layout[k].used
        && !layout[k + 1].used
      requires layout[k].size < want && want + MINI_ALLOC < layout[k].size + layout[k + 1].size
      modifies this`next, this`prev, this`used, this`layout, this`bytes
      ensures Shape() && layout == Grown(old(layout), k, want)
      ensures KeepsThose(old(bytes), bytes, old(Live(layout)) - {old(layout[k])}, hdr)
      ensures Keeps(old(bytes), bytes, old(layout[k]), hdr)
    {
      hide Tiles, Linked, FreePayload, Live, FreeAddrs, Merged, Cut, FreeList, NoTwoFree, Shape, KeepsThose, Keeps;
      ghost var b, bs := layout[k], bytes;
      GrownFacts(k, want);
      Absorb(at, k);
      Split(at, want, k);
      KeepsPrefix(bs, bytes, b, Block(at, want, true), hdr);
    }

    /** The links of the growing branch, unlinked before the new header is built. */
    method GrowLinks(at: int, want: nat, ghost k: nat)
      requires Shape() && NoTwoFree(layout) && FreeList(FreeAddrs(layout))
      requires k + 1 < |layout| && layout[k].addr == at && layout[k].used && !layout[k + 1].used
      requires layout[k].size < want && want + MINI_ALLOC < layout[k].size + layout[k + 1].size
      modifies this`next, this`prev, this`used, this`layout, this`bytes, this`nextFree, this`prevFree, this`frees
      ensures Shape() && NoTwoFree(layout) && FreeList(FreeAddrs(layout)) && layout == Grown(old(layout), k, want)
      ensures frees == [at + hdr + want] + Removed(old(frees), old(layout[k + 1].addr))
      ensures KeepsThose(old(bytes), bytes, old(Live(layout)) - {old(layout[k])}, hdr)
      ensures Keeps(old(bytes), bytes, old(layout[k]), hdr)
    {
      hide Tiles, Linked, FreePayload, Live, FreeAddrs, Merged, Cut, Grown, FreeList, Removed, NoTwoFree, Shape,
        KeepsThose, Keeps;
      ghost var a := FreeAddrs(layout);
      LinkOf(k);
      GrownFacts(k, want);
      GrownFrees(k, want);
      var item := next[at];
      FreeRemove(item, a);
      GrowBlocks(at, want, k);
      FreeInsert(at + hdr + want, a - {item});
    }

    /** The growing branch of rt_memheap_realloc: the free block after block `k` gives up its front. */
    method Grow(at: int, want: nat, ghost k: nat)
      requires Valid() && k + 1 < |layout| && layout[k].addr == at && layout[k].used && !layout[k + 1].used
      requires layout[k].size < want && want + MINI_ALLOC < layout[k].size + layout[k + 1].size
      requires AlignedSize(want)
      modifies this
      ensures Valid() && layout == Grown(old(layout), k, want)
      ensures Live(layout) == old(Live(layout)) - {old(layout[k])} + {Block(at, want, true)}
      ensures frees == [at + hdr + want] + Removed(old(frees), old(layout[k + 1].addr))
      ensures maxUsed == Max(old(maxUsed), poolSize - available)
      ensures KeepsThose(old(bytes), bytes, old(Live(layout)) - {old(layout[k])}, hdr)
      ensures Keeps(old(bytes), bytes, old(layout[k]), hdr)
    {
      GrownFacts(k, want);
      AlignedCut(k, want);
      hide Live, Grown, Removed, Consistent, KeepsThose, Keeps, AlignedBlocks, AlignedSize;
      LinkOf(k);
      var oldSize := next[at] - at - hdr;
      available := available - (want - oldSize);
      if poolSize - available > maxUsed {
        maxUsed := poolSize - available;
      }
      GrowLinks(at, want, k);
    }

    /** The layout after the used block `k` is cut back to `want` bytes. */
    function Shrunk(s: seq<Block>, k: nat, want: nat): seq<Block>
      requires k < |s| && want + hdr <= s[k].size
    {
      var t := Cut(s, k, want, hdr);
      if k + 1 < |s| && !s[k + 1].used then Merged(t, k + 1, hdr) else t
    }

    lemma ShrunkShape(k: nat, want: nat)
      requires Consistent() && k < |layout| && layout[k].used && want + hdr <= layout[k].size
      ensures NoTwoFree(Shrunk(layout, k, want))
      ensures Live(Shrunk(layout, k, want)) == Live(layout) - {layout[k]} + {Block(layout[k].addr, want, true)}
    {
      hide Tiles, Linked, Live, FreeAddrs, FreePayload, FreeList, Merged, FreePairsIn, NoTwoFree;
      var s, t := layout, Cut(layout, k, want, hdr);
      CutTiles(s, k, want, hdr, Tail());
      ShrunkLive(s, k, want, hdr, Tail());
      ShrunkPairs(s, k, want, hdr);
      CutAt(s, k, want, hdr);
      if k + 1 < |s| && !s[k + 1].used {
        MergeLive(t, k + 1, hdr, Tail());
        PairsMore(t, k + 1);
        MergeHere(t, k + 1, hdr);
      }
    }

    lemma ShrunkBytes(k: nat, want: nat)
      requires Consistent() && k < |layout| && layout[k].used && want + hdr <= layout[k].size
      ensures k + 1 < |Shrunk(layout, k, want)| && Shrunk(layout, k, want)[k + 1].addr == layout[k].addr + hdr + want
      ensures Shrunk(layout, k, want)[k + 1].size
        >= if k + 1 < |layout| && !layout[k + 1].used then layout[k + 1].size else 0
      ensures FreePayload(Shrunk(layout, k, want)) == FreePayload(layout) + Shrunk(layout, k, want)[k + 1].size
                - if k + 1 < |layout| && !layout[k + 1].used then layout[k + 1].size else 0
    {
      var t := Cut(layout, k, want, hdr);
      CutTiles(layout, k, want, hdr, Tail());
      CutAt(layout, k, want, hdr);
      if k + 1 < |layout| && !layout[k + 1].used {
        MergeTiles(t, k + 1, hdr, Tail());
      }
    }

    lemma ShrunkFrees(k: nat, want: nat)
      requires Consistent() && k < |layout| && layout[k].used && want + hdr <= layout[k].size
      ensures layout[k].addr + hdr + want !in FreeAddrs(layout) && layout[k].addr >= 0
      ensures FreeAfter(layout, k) <= FreeAddrs(layout)
      ensures FreeAddrs(Shrunk(layout, k, want)) == FreeAddrs(layout) - FreeAfter(layout, k)
        + {layout[k].addr + hdr + want}
    {
      var s, t := layout, Cut(layout, k, want, hdr);
      TilesAt(s, k, hdr, 0, Tail());
      CutTiles(s, k, want, hdr, Tail());
      UsedIsNotFree(s, s[k], hdr, 0, Tail());
      CutFrees(s, k, want, hdr, Tail());
      NoBlockInside(s, k, s[k].addr + hdr + want, hdr, 0, Tail());
      assert k + 1 < |s| ==> t[k + 2] == s[k + 1];
      if k + 1 < |s| && !s[k + 1].used {
        MergeLive(t, k + 1, hdr, Tail());
      }
    }

    /** The cut of the shrinking branch, merged with the free block after it. */
    method ShrinkBlocks(at: int, want: nat, ghost k: nat, ghost a: set<int>)
      requires Consistent() && k < |layout| && layout[k].addr == at && layout[k].used && want + hdr <= layout[k].size
      requires a == FreeAddrs(layout)
      modifies this`next, this`prev, this`used, this`layout, this`available, this`nextFree, this`prevFree, this`frees,
        this`bytes
      ensures Shape() && layout == Shrunk(old(layout), k, want) && FreeList(a - FreeAfter(old(layout), k))
      ensures frees == WithoutSet(old(frees), FreeAfter(old(layout), k))
      ensures available == old(available)
        - if k + 1 < old(|layout|) && !old(layout)[k + 1].used then old(layout)[k + 1].size else 0
      ensures KeepsThose(old(bytes), bytes, old(Live(layout)) - {old(layout[k])}, hdr)
      ensures Keeps(old(bytes), bytes, Block(at, want, true), hdr)
    {
      hide Tiles, FreePayload, Live, FreeAddrs, FreeList, WithoutSet, NoTwoFree, KeepsThose, Keeps, Linked, Cut, Shape;
      ShrunkFrees(k, want);
      CutAt(layout, k, want, hdr);
      Split(at, want, k);
      DropRight(at + hdr + want, k + 1, a);
    }

    /** The shrinking branch of rt_memheap_realloc. */
    method Shrink(at: int, want: nat, ghost k: nat)
      requires Valid() && k < |layout| && layout[k].addr == at && layout[k].used && want + hdr <= layout[k].size
      requires AlignedSize(want)
      modifies this`next, this`prev, this`used, this`layout, this`available, this`nextFree, this`prevFree, this`frees,
        this`bytes
      ensures Valid() && layout == Shrunk(old(layout), k, want)
      ensures Live(layout) == old(Live(layout)) - {old(layout[k])} + {Block(at, want, true)}
      ensures frees == [at + hdr + want] + WithoutSet(old(frees), FreeAfter(old(layout), k))
      ensures KeepsThose(old(bytes), bytes, old(Live(layout)) - {old(layout[k])}, hdr)
      ensures Keeps(old(bytes), bytes, Block(at, want, true), hdr)
    {
      hide Tiles, FreePayload, Live, FreeAddrs, FreeList, WithoutSet, NoTwoFree, KeepsThose, Keeps, Linked, Cut,
        Shrunk, FreeAfter;
      ghost var s, a := layout, FreeAddrs(layout);
      AlignedCut(k, want);
      ShrunkShape(k, want);
      ShrunkBytes(k, want);
      ShrunkFrees(k, want);
      var item := at + hdr + want;
      ShrinkBlocks(at, want, k, a);
      FreeInsert(item, a - FreeAfter(s, k));
      assert layout[k + 1] in layout && LinkedAt(layout[k + 1], hdr, NO_STUB, next, prev, used) by { LinkOf(k + 1); }
      available := available + (next[item] - item - hdr);
    }

    /** Merges the new free block at `item` with a free successor, whose bytes leave the account. */
    method DropRight(item: int, ghost i: nat, ghost a: set<int>)
      requires Shape() && FreeList(a) && i < |layout| && layout[i].addr == item && !layout[i].used
      requires FreeAfter(layout, i) <= a
      modifies this`next, this`prev, this`layout, this`available, this`nextFree, this`prevFree, this`frees
      ensures Shape() && FreeList(a - FreeAfter(old(layout), i))
      ensures frees == WithoutSet(old(frees), FreeAfter(old(layout), i))
      ensures if i + 1 < old(|layout|) && !old(layout)[i + 1].used
              then layout == Merged(old(layout), i, hdr) && available == old(available) - old(layout)[i + 1].size
              else layout == old(layout) && available == old(available)
    {
      TilesAt(layout, i, hdr, 0, Tail());
      assert LinkedAt(layout[i], hdr, NO_STUB, next, prev, used);
      assert i + 1 < |layout| ==> LinkedAt(layout[i + 1], hdr, NO_STUB, next, prev, used);
      ghost var fs := frees;
      if FreeAfter(layout, i) == {} {
        assert a - {} == a;
        WithoutSetNone(fs);
      }
      if !used[next[item]] {
        hide Tiles, Linked, FreePayload, Merged, FreeList, Removed;
        var succ := next[item];
        available := available - (next[succ] - succ - hdr);
        Absorb(item, i);
        FreesNoDup(FREE_HEADER, fs);
        FreeRemove(succ, a);
        WithoutSetOne(fs, succ);
      }
    }

    /** Copies the payload of `b` to the block `c` and frees `b`. */
    method Relocate(p: int, q: int, n: nat, ghost b: Block, ghost c: Block)
      requires Valid() && b in Live(layout) && c in Live(layout) && b != c
      requires p == b.addr + hdr && q == c.addr + hdr && n <= b.size && n <= c.size
      modifies this`next, this`prev, this`used, this`layout, this`available, this`nextFree, this`prevFree, this`frees,
        this`bytes
      ensures Valid() && Live(layout) == old(Live(layout)) - {b}
      ensures KeepsThose(old(bytes), bytes, old(Live(layout)) - {b, c}, hdr)
      ensures CopiedRange(bytes, old(bytes), q, p, n)
    {
      ghost var bs := bytes;
      Apart(layout, b, b, hdr, 0, Tail());
      Apart(layout, b, c, hdr, 0, Tail());
      BlockAtUnique(layout, b, hdr, 0, Tail());
      bytes := CopyBytes(bytes, q, p, n);
      RelocateKeeps(layout, b, c, n, hdr, 0, Tail(), bs, bytes);
      hide Keeps, Live, CopiedRange, KeepsThose, Tiles, Linked, FreePayload, FreeAddrs, FreeList, FreesAfter, NoTwoFree;
      Free(p);
    }

    lemma KeptLive(c: Block)
      requires Shape() && c in Live(layout)
      ensures IsLive(layout, c.addr + hdr, hdr) && BlockAt(layout, c.addr + hdr, hdr) == c
    {
      BlockAtUnique(layout, c, hdr, 0, Tail());
    }

    /** The branch of rt_memheap_realloc that allocates, copies and frees. */
    method Move(p: int, want: nat, size: nat) returns (q: int)
      requires Valid() && IsLive(layout, p, hdr) && BlockAt(layout, p, hdr).size == size
      modifies this
      ensures Valid()
      ensures q == 0 <==> old(AllocFails(want))
      ensures Reallocated(old(layout), old(bytes), layout, bytes, hdr, p, old(BlockAt(layout, p, hdr)), want, q)
    {
      hide Keeps, Live, CopiedRange, Taken, KeepsThose, Tiles, Linked, FreePayload, FreeAddrs, FreeList, NoTwoFree;
      ghost var b, lv, bs := BlockAt(layout, p, hdr), Live(layout), bytes;
      q := Alloc(want);
      if q != 0 {
        ghost var c, mid := BlockAt(layout, q, hdr), bytes;
        var n := Min(size, want);
        Relocate(p, q, n, b, c);
        MovedBytes(lv, b, c, n, bs, mid, bytes, hdr);
        assert Live(layout) == lv - {b} + {c};
        KeptLive(c);
        assert BlockAt(layout, q, hdr) == c;
      }
    }

    /** The bytes right after block `b` belong to a free block that is large enough to extend `b` to `want` bytes. */
    ghost predicate CanGrow(s: seq<Block>, b: Block, want: nat) {
      exists c :: c in s && !c.used && c.addr == End(b, hdr) && b.size + c.size > want + MINI_ALLOC
    }

    /** The test of the next block in the list says so. */
    lemma CanGrowNext(k: nat, want: nat)
      requires Shape() && k < |layout|
      ensures CanGrow(layout, layout[k], want) <==>
        k + 1 < |layout| && !layout[k + 1].used && layout[k].size + layout[k + 1].size > want + MINI_ALLOC
    {
      hide Tiles, Linked;
      TilesAt(layout, k, hdr, 0, Tail());
      if CanGrow(layout, layout[k], want) {
        var c :| c in layout && !c.used && c.addr == End(layout[k], hdr)
          && layout[k].size + c.size > want + MINI_ALLOC;
        var j :| 0 <= j < |layout| && layout[j] == c;
        TilesAt(layout, j, hdr, 0, Tail());
        BlockIndexIs(layout, j, hdr, 0, Tail());
        if k + 1 < |layout| { BlockIndexIs(layout, k + 1, hdr, 0, Tail()); }
      }
      if k + 1 < |layout| { assert layout[k + 1] in layout; }
    }

    /** rt_memheap_realloc for a live block that is too small. */
    method ReallocLarger(p: int, want: nat, ghost k: nat) returns (q: int)
      requires Valid() && k < |layout| && layout[k].used && layout[k].addr + hdr == p && want > layout[k].size
      requires AlignedSize(want)
      modifies this
      ensures Valid()
      ensures Reallocated(old(layout), old(bytes), layout, bytes, hdr, p, old(layout[k]), want, q)
      ensures q == 0 <==> old(!CanGrow(layout, layout[k], want) && AllocFails(want))
      ensures old(CanGrow(layout, layout[k], want)) ==> q == p && BlockAt(layout, p, hdr).size == want
    {
      hide Keeps, CopiedRange, KeepsThose, Tiles, Linked, NoTwoFree, FreePayload, FreeAddrs, FreeList, Grown, Live,
        CanGrow, AllocFails;
      CanGrowNext(k, want);
      ghost var b, s, bs := layout[k], layout, bytes;
      UsedLive(layout, k);
      KeptLive(b);
      LinkOf(k);
      if k + 1 < |layout| { LinkOf(k + 1); }
      var at := p - hdr;
      var item, oldSize := next[at], next[at] - at - hdr;
      if !used[item] {
        var nextSize := next[item] - item - hdr;
        if nextSize + oldSize > want + MINI_ALLOC {
          Grow(at, want, k);
          InUnion(Block(at, want, true), Live(s) - {b}, Live(layout));
          ReallocatedInPlace(s, bs, layout, bytes, hdr, 0, Tail(), b, Block(at, want, true), want);
          KeptLive(Block(at, want, true));
          return p;
        }
      }
      q := Move(p, want, oldSize);
    }

    /** When a live block cannot be brought to `want` bytes: it is too small, it cannot grow in
        place, and an allocation of the new size fails. */
    ghost predicate ReallocFails(b: Block, want: nat)
      requires align > 0
      reads this
    {
      want > b.size && !CanGrow(layout, b, want) && AllocFails(want)
    }

    /** When the block stays where it is. */
    ghost predicate InPlace(b: Block, want: nat) reads `layout { want <= b.size || CanGrow(layout, b, want) }

    /** The size of a block that stays: the rest is cut off if it can be a block. */
    function SizeInPlace(size: nat, want: nat): nat {
      if want <= size <= want + hdr + MINI_ALLOC then size else want
    }

    /** rt_memheap_realloc for a live block and a size that is already rounded up. */
    method ReallocLive(p: int, want: nat) returns (q: int)
      requires Valid() && IsLive(layout, p, hdr)
      requires AlignedSize(want)
      modifies this
      ensures Valid()
      ensures Reallocated(old(layout), old(bytes), layout, bytes, hdr, p, old(BlockAt(layout, p, hdr)), want, q)
      ensures q == 0 <==> old(ReallocFails(BlockAt(layout, p, hdr), want))
      ensures old(InPlace(BlockAt(layout, p, hdr), want)) ==>
        q == p && BlockAt(layout, p, hdr).size == SizeInPlace(old(BlockAt(layout, p, hdr)).size, want)
    {
      hide Keeps, CopiedRange, KeepsThose, Tiles, Linked, NoTwoFree, FreePayload, FreeAddrs, FreeList, Shrunk, CanGrow,
        AllocFails;
      ghost var b, lv, s, bs := BlockAt(layout, p, hdr), Live(layout), layout, bytes;
      ghost var k :| 0 <= k < |layout| && layout[k] == b;
      TilesAt(layout, k, hdr, 0, Tail());
      BlockIndexIs(layout, k, hdr, 0, Tail());
      LinkOf(k);
      KeepsAll(bytes, hdr);
      var at := p - hdr;
      var oldSize := next[at] - at - hdr;
      if want > oldSize {
        q := ReallocLarger(p, want, k);
        return;
      }
      if want + hdr + MINI_ALLOC >= oldSize {
        assert lv - {b} + {b} == lv;
        ReallocatedInPlace(s, bs, layout, bytes, hdr, 0, Tail(), b, b, want);
        return p;
      }
      Shrink(at, want, k);
      ReallocatedInPlace(s, bs, layout, bytes, hdr, 0, Tail(), b, Block(at, want, true), want);
      InUnion(Block(at, want, true), Live(s) - {b}, Live(layout));
      KeptLive(Block(at, want, true));
      return p;
    }

    /** rt_memheap_realloc. The size is rounded up before the allocator rounds it up again. */
    method Realloc(p: int, newsize: nat) returns (q: int)
      requires Valid() && (p == 0 || IsLive(layout, p, hdr))
      modifies this
      ensures Valid()
      ensures newsize == 0 ==> q == 0 && bytes == old(bytes)
      ensures newsize == 0 && p == 0 ==> layout == old(layout) && frees == old(frees)
      ensures newsize == 0 && p != 0 ==> Live(layout) == old(Live(layout)) - {old(BlockAt(layout, p, hdr))}
      ensures newsize > 0 && p == 0 ==>
        && (q == 0 <==> old(AllocFails(Want(newsize))))
        && KeepsThose(old(bytes), bytes, old(Live(layout)), hdr)
        && if q == 0 then layout == old(layout) && frees == old(frees) && bytes == old(bytes)
           else && IsLive(layout, q, hdr) && BlockAt(layout, q, hdr).size >= newsize
                && BlockAt(layout, q, hdr) !in old(Live(layout))
                && Live(layout) == old(Live(layout)) + {BlockAt(layout, q, hdr)}
      ensures newsize > 0 && p != 0 ==>
        var b, want := old(BlockAt(layout, p, hdr)), Want(newsize);
        var grows := exists c ::
          && c in old(layout) && !c.used && c.addr == End(b, hdr) && b.size + c.size > want + MINI_ALLOC;
        && (q == 0 <==> want > b.size && !grows && old(AllocFails(want)))
        && (want <= b.size || grows ==>
              && q == p && IsLive(layout, p, hdr)
              && BlockAt(layout, p, hdr).size == if want <= b.size <= want + hdr + MINI_ALLOC then b.size else want)
        && Reallocated(old(layout), old(bytes), layout, bytes, hdr, p, b, newsize, q)
    {
      hide Keeps, CopiedRange, KeepsThose, Tiles, Linked, Live, Taken, NoTwoFree, FreePayload, FreeAddrs, FreeList,
        FreesAfter;
      if newsize == 0 {
        Free(p);
        return 0;
      }
      var want := Want(newsize);
      AlignedWant(newsize);
      if p == 0 {
        q := Alloc(want);
        return;
      }
      ghost var b := BlockAt(layout, p, hdr);
      q := ReallocLive(p, want);
      ReallocatedSmaller(old(layout), old(bytes), layout, bytes, hdr, p, b, want, newsize, q);
    }

    /** Freeing what was just allocated gives back the very same block list and byte count. */
    method AllocThenFree(size: nat)
      requires Valid()
      modifies this
      ensures Valid() && layout == old(layout) && available == old(available)
      ensures forall x :: x in frees <==> x in old(frees)
    {
      var p := Alloc(size);
      ghost var b := if p != 0 then {BlockAt(layout, p, hdr)} else {};
      assert Live(layout) - b == old(Live(layout)) by { hide Live, Taken; }
      Free(p);
      CanonicalUnique(layout, old(layout), hdr, 0, Tail());
    }
  }

  /** The refusal is real: a fresh pool has one block that could hold all of its free bytes, and turns down
      every request for them. */
  lemma WholePoolRefused(h: Heap, size: nat)
    requires h.Valid() && h.layout == [Block(0, h.poolSize - 2 * h.hdr, false)] && h.frees == [0]
    requires h.Want(size) == h.poolSize - 2 * h.hdr
    ensures h.layout[0].size >= h.Want(size) && FirstFree(h.frees, h.layout, h.Want(size)) < |h.frees|
    ensures h.AllocFails(size)
  {
    assert h.layout[1..] == [] && FreePayload(h.layout) == h.layout[0].size;
  }

  /** The alignment has to divide the minimum: otherwise a request for nothing in a fresh pool leaves a free block
      whose payload is not aligned. */
  lemma RestMisaligned(h: Heap)
    requires h.Valid() && h.layout == [Block(0, h.poolSize - 2 * h.hdr, false)]
    requires h.poolSize >= 3 * h.hdr + 2 * MINI_ALLOC && Aligned(h.hdr, h.align) && !Aligned(MINI_ALLOC, h.align)
    ensures h.Want(0) == MINI_ALLOC
    ensures var t := Taken(h.layout, 0, MINI_ALLOC, h.hdr, MINI_ALLOC);
      |t| == 2 && !t[1].used && !Aligned(t[1].addr + h.hdr, h.align)
  {
    AlignUpZero(0, h.align);
    var p := h.hdr + MINI_ALLOC + h.hdr;
    if Aligned(p, h.align) {
      AlignedSum(p, h.hdr, h.align);
      AlignedSum(p - h.hdr, h.hdr, h.align);
    }
  }
}
