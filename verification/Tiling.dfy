/** Boundary-tagged heaps, seen as values.
    Both system heaps (`src/mem.c` and `src/memheap.c`) cut a region into blocks, each a
    header of `hdr` bytes followed by a payload. A layout is the sequence of those blocks in
    address order, without the used stub that closes the region. */
module Tiling {
  datatype Block = Block(addr: int, size: nat, used: bool)

  /** First address after the block, which is the address of the next header. */
  function End(b: Block, hdr: nat): int { b.addr + hdr + b.size }

  /** The blocks lie end to end from `lo` to `hi`, with no gap and no overlap. */
  predicate Tiles(s: seq<Block>, hdr: nat, lo: int, hi: int) {
    if s == [] then lo == hi
    else s[0].addr == lo && Tiles(s[1..], hdr, End(s[0], hdr), hi)
  }

  predicate NoTwoFree(s: seq<Block>) {
    forall i, j :: 0 <= i < |s| && 0 <= j < |s| && j == i + 1 ==> s[i].used || s[j].used
  }

  /** A layout in which free space is always fully merged. */
  predicate Canonical(s: seq<Block>, hdr: nat, lo: int, hi: int) {
    Tiles(s, hdr, lo, hi) && NoTwoFree(s)
  }

  /** The allocated blocks. */
  function Live(s: seq<Block>): set<Block> { set b | b in s && b.used }

  /** Where the free blocks are. */
  function FreeAddrs(s: seq<Block>): set<int> { set b | b in s && !b.used :: b.addr }

  /** Total payload of the free blocks. */
  function FreePayload(s: seq<Block>): nat {
    if s == [] then 0 else (if s[0].used then 0 else s[0].size) + FreePayload(s[1..])
  }

  /** Total extent, headers included, of the allocated blocks. */
  function UsedExtent(s: seq<Block>, hdr: nat): nat {
    if s == [] then 0 else (if s[0].used then hdr + s[0].size else 0) + UsedExtent(s[1..], hdr)
  }

  function FreeCount(s: seq<Block>): nat {
    if s == [] then 0 else (if s[0].used then 0 else 1) + FreeCount(s[1..])
  }

  /** Where a tiling that starts with the blocks `a` must go on. */
  function Seam(b: seq<Block>, hi: int): int { if b == [] then hi else b[0].addr }

  lemma {:induction false} TilesConcat(a: seq<Block>, b: seq<Block>, hdr: nat, lo: int, hi: int)
    ensures Tiles(a + b, hdr, lo, hi) <==> Tiles(a, hdr, lo, Seam(b, hi)) && Tiles(b, hdr, Seam(b, hi), hi)
  {
    if a == [] {
      assert a + b == b;
    } else {
      assert (a + b)[1..] == a[1..] + b;
      TilesConcat(a[1..], b, hdr, End(a[0], hdr), hi);
    }
  }

  lemma {:induction false} SumsConcat(a: seq<Block>, b: seq<Block>, hdr: nat)
    ensures FreePayload(a + b) == FreePayload(a) + FreePayload(b)
    ensures UsedExtent(a + b, hdr) == UsedExtent(a, hdr) + UsedExtent(b, hdr)
  {
    if a == [] {
      assert a + b == b;
    } else {
      assert (a + b)[1..] == a[1..] + b;
      SumsConcat(a[1..], b, hdr);
    }
  }

  /** Blocks stay inside the region and a later block starts after the earlier one ends. */
  lemma {:induction false} TilesOrdered(s: seq<Block>, hdr: nat, lo: int, hi: int)
    requires Tiles(s, hdr, lo, hi)
    ensures lo <= hi
    ensures forall i :: 0 <= i < |s| ==> lo <= s[i].addr && End(s[i], hdr) <= hi
    ensures forall i, j :: 0 <= i < j < |s| ==> End(s[i], hdr) <= s[j].addr
    ensures forall i, j :: 0 <= i < |s| && 0 <= j < |s| && j == i + 1 ==> s[j].addr == End(s[i], hdr)
    ensures |s| > 0 ==> s[0].addr == lo && End(s[|s| - 1], hdr) == hi
  {
    if s != [] {
      TilesOrdered(s[1..], hdr, End(s[0], hdr), hi);
      var t := s[1..];
      assert forall i :: 0 < i < |s| ==> s[i] == t[i - 1];
    }
  }

  /** Bytes are conserved: every byte of the region is a header, live payload or free payload. */
  lemma {:induction false} Conservation(s: seq<Block>, hdr: nat, lo: int, hi: int)
    requires Tiles(s, hdr, lo, hi)
    ensures hi - lo == UsedExtent(s, hdr) + FreePayload(s) + hdr * FreeCount(s)
  {
    if s != [] {
      Conservation(s[1..], hdr, End(s[0], hdr), hi);
    }
  }

  lemma {:induction false} SameHead(s: seq<Block>, t: seq<Block>, hdr: nat, lo: int, hi: int)
    requires hdr > 0 && s != [] && t != []
    requires Canonical(s, hdr, lo, hi) && Canonical(t, hdr, lo, hi)
    requires Live(s) == Live(t)
    ensures s[0] == t[0]
  {
    TilesOrdered(s, hdr, lo, hi);
    TilesOrdered(t, hdr, lo, hi);
    if s[0].used {
      assert s[0] in Live(t);
    } else if t[0].used {
      assert t[0] in Live(s);
    } else {
      if |s| > 1 { assert s[1] in Live(t); }
      if |t| > 1 { assert t[1] in Live(s); }
    }
  }

  lemma {:induction false} LiveTail(s: seq<Block>, hdr: nat, lo: int, hi: int)
    requires hdr > 0 && s != [] && Canonical(s, hdr, lo, hi)
    ensures Live(s[1..]) == Live(s) - {s[0]}
    ensures Canonical(s[1..], hdr, End(s[0], hdr), hi)
  {
    TilesOrdered(s, hdr, lo, hi);
    var t := s[1..];
    assert forall i :: 0 < i < |s| ==> s[i] == t[i - 1];
    forall b ensures b in Live(t) <==> b in Live(s) - {s[0]} {
      if b in Live(s) - {s[0]} {
        var i :| 0 <= i < |s| && s[i] == b;
        assert t[i - 1] == b;
      }
    }
  }

  /** A canonical layout is determined by its live blocks alone, so two histories that leave the
      same blocks allocated leave the same heap. */
  lemma {:induction false} CanonicalUnique(s: seq<Block>, t: seq<Block>, hdr: nat, lo: int, hi: int)
    requires hdr > 0
    requires Canonical(s, hdr, lo, hi) && Canonical(t, hdr, lo, hi)
    requires Live(s) == Live(t)
    ensures s == t
    decreases |s|
  {
    TilesOrdered(s, hdr, lo, hi);
    TilesOrdered(t, hdr, lo, hi);
    if s != [] && t != [] {
      SameHead(s, t, hdr, lo, hi);
      LiveTail(s, hdr, lo, hi);
      LiveTail(t, hdr, lo, hi);
      CanonicalUnique(s[1..], t[1..], hdr, End(s[0], hdr), hi);
      assert s == [s[0]] + s[1..] && t == [t[0]] + t[1..];
    }
  }

  lemma {:induction false} LiveConcat(a: seq<Block>, b: seq<Block>)
    ensures Live(a + b) == Live(a) + Live(b)
  {
  }

  /** Replacing the blocks `m` by blocks `n` over the same extent leaves a tiling. */
  lemma {:induction false} Splice(a: seq<Block>, m: seq<Block>, n: seq<Block>, c: seq<Block>, hdr: nat, lo: int,
                                  hi: int)
    requires m != [] && n != [] && Tiles(a + m + c, hdr, lo, hi)
    requires Tiles(n, hdr, m[0].addr, Seam(c, hi))
    ensures Tiles(a + n + c, hdr, lo, hi)
  {
    var mc, nc, mid := m + c, n + c, m[0].addr;
    assert a + m + c == a + mc && a + n + c == a + nc;
    assert Seam(mc, hi) == mid && Seam(nc, hi) == mid;
    assert Tiles(c, hdr, Seam(c, hi), hi) by {
      TilesConcat(a, mc, hdr, lo, hi);
      TilesConcat(m, c, hdr, mid, hi);
    }
    assert Tiles(nc, hdr, mid, hi) by { TilesConcat(n, c, hdr, mid, hi); }
    assert Tiles(a, hdr, lo, mid) by { TilesConcat(a, mc, hdr, lo, hi); }
    TilesConcat(a, nc, hdr, lo, hi);
  }

  /** Byte counts and live blocks of a layout cut in three. */
  lemma {:induction false} Parts(a: seq<Block>, m: seq<Block>, c: seq<Block>, hdr: nat)
    ensures FreePayload(a + m + c) == FreePayload(a) + FreePayload(m) + FreePayload(c)
    ensures UsedExtent(a + m + c, hdr) == UsedExtent(a, hdr) + UsedExtent(m, hdr) + UsedExtent(c, hdr)
    ensures Live(a + m + c) == Live(a) + Live(m) + Live(c)
  {
    SumsConcat(a + m, c, hdr);
    SumsConcat(a, m, hdr);
    LiveConcat(a + m, c);
    LiveConcat(a, m);
  }

  /** The lowest free block of the layout, or `hi` when everything is allocated. */
  function LowestFree(s: seq<Block>, hi: int): int {
    if s == [] then hi else if !s[0].used then s[0].addr else LowestFree(s[1..], hi)
  }

  /** Used blocks at the front do not matter for the lowest free block. */
  lemma {:induction false} LowestSkips(s: seq<Block>, k: nat, hi: int)
    requires k <= |s| && forall i :: 0 <= i < k ==> s[i].used
    ensures LowestFree(s, hi) == if k == |s| then hi else LowestFree(s[k..], hi)
    decreases k
  {
    if k > 0 {
      LowestSkips(s[1..], k - 1, hi);
      assert s[1..][k - 1..] == s[k..];
    } else if s != [] {
      assert s[0..] == s;
    }
  }

  /** `LowestFree` is the address of the first free block, and everything before it is used. */
  lemma {:induction false} LowestFound(s: seq<Block>, hi: int) returns (k: nat)
    ensures k <= |s| && forall i :: 0 <= i < k ==> s[i].used
    ensures k < |s| ==> !s[k].used
    ensures LowestFree(s, hi) == if k == |s| then hi else s[k].addr
  {
    if s == [] || !s[0].used {
      k := 0;
    } else {
      var j := LowestFound(s[1..], hi);
      k := j + 1;
      assert forall i :: 0 < i < |s| ==> s[i] == s[1..][i - 1];
    }
  }

  /** Blocks after the first free one do not matter for the lowest free block. */
  lemma {:induction false} LowestCut(a: seq<Block>, x: seq<Block>, y: seq<Block>, hi: int)
    requires x != [] && y != [] && !x[0].used && !y[0].used && x[0].addr == y[0].addr
    ensures LowestFree(a + x, hi) == LowestFree(a + y, hi)
  {
    if a == [] {
      assert a + x == x && a + y == y;
    } else {
      assert (a + x)[1..] == a[1..] + x && (a + y)[1..] == a[1..] + y;
      LowestCut(a[1..], x, y, hi);
    }
  }

  /** Freeing a block lowers the cursor to it exactly when it lies below the cursor. */
  lemma {:induction false} LowestAfterFree(s: seq<Block>, k: nat, hdr: nat, lo: int, hi: int)
    requires hdr > 0 && Tiles(s, hdr, lo, hi) && k < |s| && s[k].used
    ensures LowestFree(s[k := s[k].(used := false)], hi)
         == if s[k].addr < LowestFree(s, hi) then s[k].addr else LowestFree(s, hi)
  {
    var t := s[k := s[k].(used := false)];
    TilesOrdered(s, hdr, lo, hi);
    var j := LowestFound(s, hi);
    if k < j {
      LowestSkips(t, k, hi);
    } else {
      LowestSkips(t, j, hi);
    }
  }

  /** Distinct blocks of a tiling do not overlap. */
  lemma Apart(s: seq<Block>, b: Block, c: Block, hdr: nat, lo: int, hi: int)
    requires Tiles(s, hdr, lo, hi) && b in s && c in s
    ensures lo <= b.addr && End(b, hdr) <= hi
    ensures b == c || End(b, hdr) <= c.addr || End(c, hdr) <= b.addr
  {
    TilesOrdered(s, hdr, lo, hi);
  }

  /** Where block `k` lies and what follows it. */
  lemma TilesAt(s: seq<Block>, k: nat, hdr: nat, lo: int, hi: int)
    requires Tiles(s, hdr, lo, hi) && k < |s|
    ensures lo <= s[k].addr && End(s[k], hdr) <= hi && (k == 0 ==> s[k].addr == lo)
    ensures End(s[k], hdr) == if k + 1 < |s| then s[k + 1].addr else hi
    ensures k > 0 ==> End(s[k - 1], hdr) == s[k].addr
  {
    TilesOrdered(s, hdr, lo, hi);
  }

  lemma TilesOne(m: Block, hdr: nat)
    ensures Tiles([m], hdr, m.addr, End(m, hdr))
    ensures FreePayload([m]) == (if m.used then 0 else m.size)
      && UsedExtent([m], hdr) == if m.used then hdr + m.size else 0
  {
    assert [m][1..] == [];
  }

  /** Two blocks end to end. */
  lemma TilesPair(x: Block, y: Block, hdr: nat)
    requires y.addr == End(x, hdr)
    ensures Tiles([x, y], hdr, x.addr, End(y, hdr))
    ensures var free, used := if x.used then 0 else x.size, if x.used then hdr + x.size else 0;
      && FreePayload([x, y]) == free + (if y.used then 0 else y.size)
      && UsedExtent([x, y], hdr) == used + if y.used then hdr + y.size else 0
  {
    TilesOne(y, hdr);
    assert [x, y][1..] == [y];
  }

  lemma RecutMembers(s: seq<Block>, i: nat, j: nat, n: seq<Block>, hdr: nat, lo: int, hi: int)
    requires hdr > 0 && i < j <= |s| && Tiles(s, hdr, lo, hi)
    ensures forall b :: b in s[..i] + n + s[j..] <==>
                        (b in s && !(s[i].addr <= b.addr < End(s[j - 1], hdr))) || b in n
  {
    hide Tiles;
    TilesOrdered(s, hdr, lo, hi);
    forall b ensures b in s[..i] + n + s[j..] <==> (b in s && !(s[i].addr <= b.addr < End(s[j - 1], hdr))) || b in n {
      if b in s && !(s[i].addr <= b.addr < End(s[j - 1], hdr)) {
        var p :| 0 <= p < |s| && s[p] == b;
        if p < i { assert b == s[..i][p]; } else { assert p >= j; assert b == s[j..][p - j]; }
      }
    }
  }

  /** Replacing the blocks `s[i..j]` by blocks `n` over the same extent. */
  lemma Recut(s: seq<Block>, i: nat, j: nat, n: seq<Block>, hdr: nat, lo: int, hi: int)
    requires hdr > 0 && i < j <= |s| && Tiles(s, hdr, lo, hi)
    requires n != [] && Tiles(n, hdr, s[i].addr, End(s[j - 1], hdr))
    ensures var t := s[..i] + n + s[j..];
      && Tiles(t, hdr, lo, hi)
      && (forall b :: b in t <==> (b in s && !(s[i].addr <= b.addr < End(s[j - 1], hdr))) || b in n)
      && FreePayload(t) == FreePayload(s) - FreePayload(s[i..j]) + FreePayload(n)
      && UsedExtent(t, hdr) == UsedExtent(s, hdr) - UsedExtent(s[i..j], hdr) + UsedExtent(n, hdr)
  {
    hide Tiles, UsedExtent, FreePayload;
    TilesOrdered(s, hdr, lo, hi);
    assert s == s[..i] + s[i..j] + s[j..];
    assert s[j..] != [] ==> s[j..][0] == s[j];
    Splice(s[..i], s[i..j], n, s[j..], hdr, lo, hi);
    Parts(s[..i], s[i..j], s[j..], hdr);
    Parts(s[..i], n, s[j..], hdr);
    RecutMembers(s, i, j, n, hdr, lo, hi);
  }

  lemma LowestBelow(s: seq<Block>, k: nat, hdr: nat, lo: int, hi: int)
    requires Tiles(s, hdr, lo, hi) && k < |s| && !s[k].used
    ensures LowestFree(s, hi) <= s[k].addr
  {
    TilesOrdered(s, hdr, lo, hi);
    var j := LowestFound(s, hi);
  }

  lemma LowestIsFirst(s: seq<Block>, k: nat, hdr: nat, lo: int, hi: int)
    requires hdr > 0 && Tiles(s, hdr, lo, hi) && k < |s| && s[k].addr == LowestFree(s, hi)
    ensures forall i :: 0 <= i < k ==> s[i].used
  {
    TilesOrdered(s, hdr, lo, hi);
    var j := LowestFound(s, hi);
  }

  /** The layout after block `k` is cut in two behind `want` payload bytes: the front part is
      used and the rest is free. */
  function Cut(s: seq<Block>, k: nat, want: nat, hdr: nat): seq<Block>
    requires k < |s| && want + hdr <= s[k].size
  {
    s[..k] + [Block(s[k].addr, want, true), Block(s[k].addr + hdr + want, s[k].size - want - hdr, false)] + s[k + 1..]
  }

  lemma CutTiles(s: seq<Block>, k: nat, want: nat, hdr: nat, hi: int)
    requires hdr > 0 && k < |s| && Tiles(s, hdr, 0, hi) && want + hdr <= s[k].size
    ensures Tiles(Cut(s, k, want, hdr), hdr, 0, hi)
    ensures UsedExtent(Cut(s, k, want, hdr), hdr)
         == UsedExtent(s, hdr) + hdr + want - if s[k].used then hdr + s[k].size else 0
    ensures FreePayload(Cut(s, k, want, hdr))
         == FreePayload(s) + s[k].size - want - hdr - if s[k].used then 0 else s[k].size
  {
    var x, y := Block(s[k].addr, want, true), Block(s[k].addr + hdr + want, s[k].size - want - hdr, false);
    TilesPair(x, y, hdr);
    Recut(s, k, k + 1, [x, y], hdr, 0, hi);
  }

  /** A free block that is cut into a used and a free one has used neighbours. */
  lemma CutPairs(s: seq<Block>, k: nat, want: nat, hdr: nat)
    requires k < |s| && want + hdr <= s[k].size && NoTwoFree(s) && !s[k].used
    ensures NoTwoFree(Cut(s, k, want, hdr))
  {
    var t := Cut(s, k, want, hdr);
    assert forall i :: 0 <= i < k ==> t[i] == s[i];
    assert forall i :: k + 1 < i < |t| ==> t[i] == s[i - 1];
    if k + 1 < |s| { assert s[k + 1].used; }
  }

  lemma CutAt(s: seq<Block>, k: nat, want: nat, hdr: nat)
    requires k < |s| && want + hdr <= s[k].size
    ensures var t := Cut(s, k, want, hdr);
      && |t| == |s| + 1 && t[k] == Block(s[k].addr, want, true)
        && t[k + 1] == Block(s[k].addr + hdr + want, s[k].size - want - hdr, false)
      && (k + 1 < |s| ==> t[k + 2] == s[k + 1])
  {
  }

  lemma CutLive(s: seq<Block>, k: nat, want: nat, hdr: nat, hi: int)
    requires hdr > 0 && k < |s| && Tiles(s, hdr, 0, hi) && want + hdr <= s[k].size
    requires NoTwoFree(s) && !s[k].used
    ensures Live(Cut(s, k, want, hdr)) == Live(s) + {Cut(s, k, want, hdr)[k]}
    ensures NoTwoFree(Cut(s, k, want, hdr))
  {
    hide Tiles, NoTwoFree;
    var x, y := Block(s[k].addr, want, true), Block(s[k].addr + hdr + want, s[k].size - want - hdr, false);
    var t := Cut(s, k, want, hdr);
    CutAt(s, k, want, hdr);
    CutPairs(s, k, want, hdr);
    RecutMembers(s, k, k + 1, [x, y], hdr, 0, hi);
    forall b ensures b in Live(t) <==> b in Live(s) + {x} {
      if b in Live(s) { Apart(s, b, s[k], hdr, 0, hi); }
    }
  }

  lemma ShrunkLive(s: seq<Block>, k: nat, want: nat, hdr: nat, hi: int)
    requires hdr > 0 && k < |s| && Tiles(s, hdr, 0, hi) && want + hdr <= s[k].size && s[k].used
    ensures Live(Cut(s, k, want, hdr)) == Live(s) - {s[k]} + {Block(s[k].addr, want, true)}
  {
    var t := Cut(s, k, want, hdr);
    RecutMembers(s, k, k + 1, [t[k], t[k + 1]], hdr, 0, hi);
    forall b | b in s && b != s[k] ensures b in t {
      Apart(s, b, s[k], hdr, 0, hi);
    }
  }

  /** The only neighbouring free blocks are those whose left index is in `ps`. */
  ghost predicate FreePairsIn(s: seq<Block>, ps: set<int>) {
    forall i, j :: 0 <= i < |s| && 0 <= j < |s| && j == i + 1 ==> s[i].used || s[j].used || i in ps
  }

  lemma ShrunkPairs(s: seq<Block>, k: nat, want: nat, hdr: nat)
    requires k < |s| && want + hdr <= s[k].size && s[k].used && NoTwoFree(s)
    ensures FreePairsIn(Cut(s, k, want, hdr), {k, k + 1}) && FreePairsIn(Cut(s, k, want, hdr), {k + 1})
    ensures k + 1 == |s| || s[k + 1].used ==> NoTwoFree(Cut(s, k, want, hdr))
  {
    var t := Cut(s, k, want, hdr);
    assert forall i :: 0 <= i < k ==> t[i] == s[i];
    assert forall i :: k + 1 < i < |t| ==> t[i] == s[i - 1];
  }

  lemma ShrunkLowest(s: seq<Block>, k: nat, want: nat, hdr: nat, hi: int)
    requires hdr > 0 && k < |s| && Tiles(s, hdr, 0, hi) && want + hdr <= s[k].size && s[k].used
    ensures var at, lf := s[k].addr + hdr + want, LowestFree(s, hi);
            LowestFree(Cut(s, k, want, hdr), hi) == if at < lf then at else lf
  {
    var t := Cut(s, k, want, hdr);
    assert forall i :: 0 <= i < k ==> t[i] == s[i];
    var j := LowestFound(s, hi);
    TilesOrdered(s, hdr, 0, hi);
    if j < k {
      LowestSkips(t, j, hi);
      assert t[j..][0] == t[j];
    } else {
      LowestSkips(t, k + 1, hi);
      assert t[k + 1..][0] == t[k + 1];
    }
  }

  /** Block `k` extended over the free block after it. */
  function Merged(s: seq<Block>, k: nat, hdr: nat): seq<Block>
    requires k + 1 < |s|
  {
    s[..k] + [Block(s[k].addr, s[k].size + hdr + s[k + 1].size, s[k].used)] + s[k + 2..]
  }

  lemma MergeTiles(s: seq<Block>, k: nat, hdr: nat, hi: int)
    requires hdr > 0 && k + 1 < |s| && Tiles(s, hdr, 0, hi) && !s[k + 1].used
    ensures Tiles(Merged(s, k, hdr), hdr, 0, hi)
    ensures UsedExtent(Merged(s, k, hdr), hdr) == UsedExtent(s, hdr) + if s[k].used then hdr + s[k + 1].size else 0
    ensures FreePayload(Merged(s, k, hdr)) + (if s[k].used then s[k + 1].size else 0)
         == FreePayload(s) + if s[k].used then 0 else hdr
  {
    hide Tiles, UsedExtent, FreePayload;
    var m := Block(s[k].addr, s[k].size + hdr + s[k + 1].size, s[k].used);
    TilesAt(s, k, hdr, 0, hi);
    assert s[k..k + 2] == [s[k], s[k + 1]];
    TilesPair(s[k], s[k + 1], hdr);
    TilesOne(m, hdr);
    Recut(s, k, k + 2, [m], hdr, 0, hi);
  }

  lemma MergeLowest(s: seq<Block>, k: nat, hdr: nat, hi: int)
    requires k + 1 < |s| && !s[k].used && !s[k + 1].used
    ensures LowestFree(Merged(s, k, hdr), hi) == LowestFree(s, hi)
  {
    var c := [Merged(s, k, hdr)[k]] + s[k + 2..];
    assert s == s[..k] + s[k..] && Merged(s, k, hdr) == s[..k] + c;
    LowestCut(s[..k], s[k..], c, hi);
  }

  lemma MergeLive(s: seq<Block>, k: nat, hdr: nat, hi: int)
    requires hdr > 0 && k + 1 < |s| && Tiles(s, hdr, 0, hi) && !s[k + 1].used
    ensures Live(Merged(s, k, hdr)) == if s[k].used then Live(s) - {s[k]} + {Merged(s, k, hdr)[k]} else Live(s)
    ensures FreeAddrs(Merged(s, k, hdr)) == FreeAddrs(s) - {s[k + 1].addr}
  {
    var m := Block(s[k].addr, s[k].size + hdr + s[k + 1].size, s[k].used);
    TilesAt(s, k, hdr, 0, hi);
    RecutMembers(s, k, k + 2, [m], hdr, 0, hi);
    forall b | b in s && b != s[k] && b != s[k + 1] ensures b in Merged(s, k, hdr) && b.addr != s[k + 1].addr {
      Apart(s, b, s[k], hdr, 0, hi);
      Apart(s, b, s[k + 1], hdr, 0, hi);
    }
    assert m in Merged(s, k, hdr) && s[k + 1].addr != m.addr;
    assert forall b :: b in Merged(s, k, hdr) ==> b == m || (b in s && b != s[k] && b != s[k + 1]);
  }

  /** Where free neighbours can be left after blocks `k` and `k + 1` are merged. */
  lemma MergePairs(s: seq<Block>, k: nat, ps: set<int>, hdr: nat)
    requires k + 1 < |s| && !s[k].used && !s[k + 1].used && FreePairsIn(s, ps) && ps <= {k - 1, k, k + 1}
    ensures FreePairsIn(Merged(s, k, hdr), (if k - 1 in ps then {k - 1} else {})
                        + (if k + 1 in ps then {k as int} else {}))
  {
    var t := Merged(s, k, hdr);
    assert forall i :: 0 <= i < k ==> t[i] == s[i];
    assert forall i :: k < i < |t| ==> t[i] == s[i + 1];
    if k + 2 < |s| && k + 1 !in ps { assert s[k + 2].used; }
    if k > 0 && k - 1 !in ps { assert s[k - 1].used; }
  }

  lemma PairsMore(s: seq<Block>, k: nat)
    ensures FreePairsIn(s, {k}) ==> FreePairsIn(s, {k - 1, k}) && FreePairsIn(s, {k, k + 1})
  {
  }

  /** Merging at the only place, or at the second of the only two places, where neighbours may be free. */
  lemma MergeHere(s: seq<Block>, k: nat, hdr: nat)
    requires k + 1 < |s| && !s[k].used && !s[k + 1].used && FreePairsIn(s, {k - 1, k})
    ensures FreePairsIn(Merged(s, k, hdr), {k - 1})
    ensures FreePairsIn(s, {k}) ==> NoTwoFree(Merged(s, k, hdr))
  {
    MergePairs(s, k, {k - 1, k}, hdr);
    if FreePairsIn(s, {k}) {
      MergePairs(s, k, {k}, hdr);
    }
  }

  /** Merging at the first of the only two places where neighbours may be free. */
  lemma MergeBefore(s: seq<Block>, k: nat, hdr: nat)
    requires k + 1 < |s| && !s[k].used && !s[k + 1].used && FreePairsIn(s, {k, k + 1})
    ensures FreePairsIn(Merged(s, k, hdr), {k})
    ensures FreePairsIn(s, {k}) ==> NoTwoFree(Merged(s, k, hdr))
  {
    MergePairs(s, k, {k, k + 1}, hdr);
    if FreePairsIn(s, {k}) {
      MergePairs(s, k, {k}, hdr);
    }
  }

  /** Block `k` with its state changed. */
  function Flip(s: seq<Block>, k: nat, u: bool): seq<Block>
    requires k < |s|
  {
    s[k := s[k].(used := u)]
  }

  lemma FlipTiles(s: seq<Block>, k: nat, u: bool, hdr: nat, hi: int)
    requires hdr > 0 && k < |s| && Tiles(s, hdr, 0, hi)
    ensures Tiles(Flip(s, k, u), hdr, 0, hi)
    ensures UsedExtent(Flip(s, k, u), hdr)
         == UsedExtent(s, hdr) - UsedExtent([s[k]], hdr) + if u then hdr + s[k].size else 0
    ensures FreePayload(Flip(s, k, u)) == FreePayload(s) - FreePayload([s[k]]) + if u then 0 else s[k].size
  {
    var n := s[k].(used := u);
    assert s[k..k + 1] == [s[k]] && Flip(s, k, u) == s[..k] + [n] + s[k + 1..];
    assert Tiles([n], hdr, s[k].addr, End(s[k], hdr));
    Recut(s, k, k + 1, [n], hdr, 0, hi);
  }

  lemma FlipMembers(s: seq<Block>, k: nat, u: bool, hdr: nat, hi: int)
    requires hdr > 0 && k < |s| && Tiles(s, hdr, 0, hi)
    ensures forall b :: b in Flip(s, k, u) <==> (b in s && b != s[k]) || b == s[k].(used := u)
  {
    var n := s[k].(used := u);
    assert Flip(s, k, u) == s[..k] + [n] + s[k + 1..];
    RecutMembers(s, k, k + 1, [n], hdr, 0, hi);
    forall b | b in s && b != s[k] ensures b in Flip(s, k, u) {
      Apart(s, b, s[k], hdr, 0, hi);
    }
  }

  lemma CutFrees(s: seq<Block>, k: nat, want: nat, hdr: nat, hi: int)
    requires hdr > 0 && k < |s| && Tiles(s, hdr, 0, hi) && want + hdr <= s[k].size
    ensures FreeAddrs(Cut(s, k, want, hdr)) == FreeAddrs(s) - {s[k].addr} + {s[k].addr + hdr + want}
  {
    var t := Cut(s, k, want, hdr);
    RecutMembers(s, k, k + 1, [t[k], t[k + 1]], hdr, 0, hi);
    forall b | b in s && b != s[k] ensures b in t && b.addr != s[k].addr {
      Apart(s, b, s[k], hdr, 0, hi);
    }
    assert t[k + 1] in t;
    assert forall b :: b in t ==> b == t[k] || b == t[k + 1] || (b in s && b != s[k]);
  }

  lemma FlipFrees(s: seq<Block>, k: nat, u: bool, hdr: nat, hi: int)
    requires hdr > 0 && k < |s| && Tiles(s, hdr, 0, hi)
    ensures FreeAddrs(Flip(s, k, u)) == FreeAddrs(s) - {s[k].addr} + if u then {} else {s[k].addr}
  {
    var t := Flip(s, k, u);
    FlipMembers(s, k, u, hdr, hi);
    forall b | b in s && b != s[k] ensures b in t && b.addr != s[k].addr {
      Apart(s, b, s[k], hdr, 0, hi);
    }
    assert t[k] in t;
    assert forall b :: b in t ==> b == t[k] || (b in s && b != s[k]);
  }

  /** What serving a request of `want` bytes from block `k` leaves: the block is cut if the rest
      can hold a header and `min` bytes, and taken whole otherwise. */
  function Taken(s: seq<Block>, k: nat, want: nat, hdr: nat, min: nat): seq<Block>
    requires k < |s| && want <= s[k].size
  {
    if s[k].size >= want + hdr + min then Cut(s, k, want, hdr) else Flip(s, k, true)
  }

  lemma FlipLive(s: seq<Block>, k: nat, u: bool, hdr: nat, hi: int)
    requires hdr > 0 && k < |s| && Tiles(s, hdr, 0, hi)
    ensures Live(Flip(s, k, u)) == Live(s) - {s[k]} + if u then {Flip(s, k, u)[k]} else {}
  {
    FlipMembers(s, k, u, hdr, hi);
  }

  lemma NoBlockInside(s: seq<Block>, k: nat, x: int, hdr: nat, lo: int, hi: int)
    requires hdr > 0 && k < |s| && Tiles(s, hdr, lo, hi) && s[k].addr < x < End(s[k], hdr)
    ensures forall b :: b in s ==> b.addr != x
  {
    forall b | b in s ensures b.addr != x {
      Apart(s, b, s[k], hdr, lo, hi);
    }
  }

  /** `p` points at the payload of an allocated block. */
  ghost predicate IsLive(s: seq<Block>, p: int, hdr: nat) { exists b :: b in Live(s) && b.addr + hdr == p }

  /** The block that the pointer `p` was handed out for. */
  ghost function BlockAt(s: seq<Block>, p: int, hdr: nat): (b: Block)
    requires IsLive(s, p, hdr)
    ensures b in Live(s) && b.addr + hdr == p
  {
    var b :| b in Live(s) && b.addr + hdr == p; b
  }

  /** Live blocks have different addresses, so a pointer names one block. */
  lemma BlockAtUnique(s: seq<Block>, b: Block, hdr: nat, lo: int, hi: int)
    requires hdr > 0 && Tiles(s, hdr, lo, hi) && b in Live(s)
    ensures IsLive(s, b.addr + hdr, hdr) && BlockAt(s, b.addr + hdr, hdr) == b
  {
    assert IsLive(s, b.addr + hdr, hdr);
    Apart(s, b, BlockAt(s, b.addr + hdr, hdr), hdr, lo, hi);
  }

  /** Index of the block at address `a`, or the number of blocks. */
  function BlockIndex(s: seq<Block>, a: int): nat {
    if s == [] || s[0].addr == a then 0 else 1 + BlockIndex(s[1..], a)
  }

  lemma {:induction false} BlockIndexIs(s: seq<Block>, k: nat, hdr: nat, lo: int, hi: int)
    requires hdr > 0 && Tiles(s, hdr, lo, hi) && k < |s|
    ensures BlockIndex(s, s[k].addr) == k
  {
    if k > 0 {
      TilesOrdered(s, hdr, lo, hi);
      BlockIndexIs(s[1..], k - 1, hdr, End(s[0], hdr), hi);
    }
  }

  /** Serving a request adds one live block, which no earlier pointer named. */
  lemma TakenIsNew(s: seq<Block>, k: nat, want: nat, hdr: nat, min: nat, lo: int, hi: int)
    requires hdr > 0 && lo == 0 && Tiles(s, hdr, lo, hi) && NoTwoFree(s)
    requires k < |s| && !s[k].used && want <= s[k].size
    ensures var t := Taken(s, k, want, hdr, min);
      && k < |t| && t[k].addr == s[k].addr >= 0 && t[k].size >= want && t[k] in Live(t)
      && t[k] !in Live(s) && Live(t) == Live(s) + {t[k]}
  {
    var x := Taken(s, k, want, hdr, min)[k];
    if s[k].size >= want + hdr + min {
      CutLive(s, k, want, hdr, hi);
    } else {
      FlipLive(s, k, true, hdr, hi);
    }
    forall b | b in Live(s) ensures b != x {
      Apart(s, b, s[k], hdr, lo, hi);
    }
    Apart(s, s[k], s[k], hdr, lo, hi);
  }

  lemma UsedIsNotFree(s: seq<Block>, b: Block, hdr: nat, lo: int, hi: int)
    requires hdr > 0 && Tiles(s, hdr, lo, hi) && b in Live(s)
    ensures b.addr !in FreeAddrs(s)
  {
    forall c | c in s && !c.used ensures c.addr != b.addr {
      Apart(s, b, c, hdr, lo, hi);
    }
  }
}
