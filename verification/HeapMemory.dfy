/** What a boundary-tagged heap keeps in memory: block headers, held as one map per header field,
    and payload bytes. */
module HeapMemory {
  import opened Arithmetic
  import opened Tiling

  /** Byte `i` reads the same in both memories, including "never written". */
  predicate SameByte(m: map<int, int>, i: int, n: map<int, int>, j: int) {
    (i in m <==> j in n) && (i in m ==> m[i] == n[j])
  }

  /** Byte `i` of a range copied from `src` to `dst`. */
  predicate Copied(m: map<int, int>, n: map<int, int>, dst: int, src: int, i: int) {
    SameByte(m, i, n, i - dst + src)
  }

  /** The `len` bytes from `dst` on in `m` are those from `src` on in `n`. */
  predicate CopiedRange(m: map<int, int>, n: map<int, int>, dst: int, src: int, len: nat) {
    forall i :: dst <= i < dst + len ==> Copied(m, n, dst, src, i)
  }

  /** The payload of `b` reads the same in both memories. */
  predicate Keeps(m: map<int, int>, n: map<int, int>, b: Block, hdr: nat) {
    forall i :: b.addr + hdr <= i < End(b, hdr) ==> SameByte(m, i, n, i)
  }

  /** The payloads of all the blocks `bs` read the same. */
  ghost predicate KeepsThose(m: map<int, int>, n: map<int, int>, bs: set<Block>, hdr: nat) {
    forall b :: b in bs ==> Keeps(m, n, b, hdr)
  }

  lemma KeepsPrefix(m: map<int, int>, n: map<int, int>, b: Block, c: Block, hdr: nat)
    requires Keeps(m, n, c, hdr) && b.addr == c.addr && b.size <= c.size
    ensures Keeps(m, n, b, hdr)
  {
  }

  lemma CopiedShorter(m: map<int, int>, n: map<int, int>, dst: int, src: int, len: nat, short: nat)
    requires CopiedRange(m, n, dst, src, len) && short <= len
    ensures CopiedRange(m, n, dst, src, short)
  {
  }

  lemma KeepsIsCopy(m: map<int, int>, n: map<int, int>, b: Block, hdr: nat)
    requires Keeps(m, n, b, hdr)
    ensures CopiedRange(n, m, b.addr + hdr, b.addr + hdr, b.size)
  {
    var p := b.addr + hdr;
    forall i | p <= i < p + b.size ensures Copied(n, m, p, p, i) {
      assert SameByte(m, i, n, i);
    }
  }

  /** Copying a payload that was kept up to then copies its original bytes. */
  lemma CopiedFrom(bs: map<int, int>, mid: map<int, int>, after: map<int, int>, b: Block, hdr: nat, q: int, n: nat)
    requires Keeps(bs, mid, b, hdr) && n <= b.size && CopiedRange(after, mid, q, b.addr + hdr, n)
    ensures CopiedRange(after, bs, q, b.addr + hdr, n)
  {
    var p := b.addr + hdr;
    forall i | q <= i < q + n ensures Copied(after, bs, q, p, i) {
      assert Copied(after, mid, q, p, i);
      assert SameByte(bs, i - q + p, mid, i - q + p);
    }
  }

  /** A copy made after a step that kept the live payloads. */
  lemma MovedBytes(lv: set<Block>, b: Block, c: Block, n: nat,
                   bs: map<int, int>, mid: map<int, int>, after: map<int, int>, hdr: nat)
    requires b in lv && c !in lv && n <= b.size && KeepsThose(bs, mid, lv, hdr)
    requires KeepsThose(mid, after, lv + {c} - {b, c}, hdr)
    requires CopiedRange(after, mid, c.addr + hdr, b.addr + hdr, n)
    ensures KeepsThose(bs, after, lv - {b}, hdr) && CopiedRange(after, bs, c.addr + hdr, b.addr + hdr, n)
  {
    CopiedFrom(bs, mid, after, b, hdr, c.addr + hdr, n);
    forall x | x in lv - {b} ensures Keeps(bs, after, x, hdr) {
      assert Keeps(bs, mid, x, hdr) && Keeps(mid, after, x, hdr);
      forall i | x.addr + hdr <= i < End(x, hdr) ensures SameByte(bs, i, after, i) {
        assert SameByte(bs, i, mid, i) && SameByte(mid, i, after, i);
      }
    }
  }

  lemma KeepsAll(m: map<int, int>, hdr: nat)
    ensures forall b :: Keeps(m, m, b, hdr)
    ensures forall bs :: KeepsThose(m, m, bs, hdr)
  {
  }

  /** Storing a header overwrites whatever bytes were there. */
  function Clobber(m: map<int, int>, at: int, len: nat): (r: map<int, int>)
    ensures forall i :: !(at <= i < at + len) ==> SameByte(m, i, r, i)
  {
    map i | i in m && !(at <= i < at + len) :: m[i]
  }

  /** Headers are aligned and no block is empty. */
  ghost predicate Sized(s: seq<Block>, a: nat) { forall b :: b in s ==> Aligned(b.addr, a) && b.size > 0 }

  ghost predicate BlockAligned(b: Block, a: nat) { Aligned(b.addr, a) && Aligned(b.size, a) }

  ghost predicate AllAligned(bs: set<Block>, a: nat) { forall b :: b in bs ==> BlockAligned(b, a) }

  lemma EndAligned(b: Block, hdr: nat, a: nat)
    requires BlockAligned(b, a) && Aligned(hdr, a)
    ensures Aligned(End(b, hdr), a)
  {
    AlignedSum(b.addr, hdr, a);
    AlignedSum(b.addr + hdr, b.size, a);
  }

  /** Free blocks begin and end where a live block or the heap does, so they are aligned if the live ones are. */
  lemma FreeAligned(s: seq<Block>, k: nat, hdr: nat, a: nat, hi: int)
    requires hdr > 0 && Canonical(s, hdr, 0, hi) && k < |s| && AllAligned(Live(s), a)
    requires Aligned(hdr, a) && Aligned(hi, a)
    ensures BlockAligned(s[k], a)
  {
    TilesAt(s, k, hdr, 0, hi);
    if !s[k].used {
      assert 0 == 0 * a;
      if k > 0 { assert s[k - 1] in Live(s); EndAligned(s[k - 1], hdr, a); }
      if k + 1 < |s| { assert s[k + 1] in Live(s) && BlockAligned(s[k + 1], a); }
      AlignedSum(End(s[k], hdr), s[k].addr, a);
      AlignedSum(End(s[k], hdr) - s[k].addr, hdr, a);
    } else {
      assert s[k] in Live(s);
    }
  }

  /** The header of `b` holds its extent and state, and the header after it points back. The end
      stub at `hi` is the exception: its `prev` is never read and not kept up to date. */
  predicate LinkedAt(b: Block, hdr: nat, stub: int, next: map<int, int>, prev: map<int, int>, used: map<int, bool>) {
    && b.addr in next && next[b.addr] == End(b, hdr)
    && b.addr in used && used[b.addr] == b.used
    && (End(b, hdr) != stub ==> End(b, hdr) in prev && prev[End(b, hdr)] == b.addr)
  }

  ghost predicate Linked(s: seq<Block>, hdr: nat, stub: int,
                         next: map<int, int>, prev: map<int, int>, used: map<int, bool>) {
    forall b :: b in s ==> LinkedAt(b, hdr, stub, next, prev, used)
  }

  /** Relinking around a cut: the stores of `Split` describe the cut layout. */
  lemma LinkedSplit(s: seq<Block>, k: nat, want: nat, hdr: nat, hi: int, stub: int,
                    next: map<int, int>, prev: map<int, int>, used: map<int, bool>,
                    next': map<int, int>, prev': map<int, int>, used': map<int, bool>)
    requires hdr > 0 && k < |s| && Tiles(s, hdr, 0, hi) && Linked(s, hdr, stub, next, prev, used)
    requires want + hdr <= s[k].size
    requires var x, y, z := s[k].addr, s[k].addr + hdr + want, End(s[k], hdr);
      && next' == next[y := z][x := y]
      && used' == used[y := false][x := true]
      && prev' == if z != stub then prev[y := x][z := y] else prev[y := x]
    ensures Linked(Cut(s, k, want, hdr), hdr, stub, next', prev', used')
  {
    var x, y := Block(s[k].addr, want, true), Block(s[k].addr + hdr + want, s[k].size - want - hdr, false);
    RecutMembers(s, k, k + 1, [x, y], hdr, 0, hi);
    Apart(s, s[k], s[k], hdr, 0, hi);
    forall b | b in Cut(s, k, want, hdr) ensures LinkedAt(b, hdr, stub, next', prev', used') {
      if b != x && b != y {
        Apart(s, b, s[k], hdr, 0, hi);
      }
    }
  }

  /** The header of the remainder lies inside block `k`, clear of every other payload and of the
      payload kept in front of it. */
  lemma CutKeeps(s: seq<Block>, k: nat, want: nat, hdr: nat, hi: int, m: map<int, int>, n: map<int, int>)
    requires hdr > 0 && k < |s| && Tiles(s, hdr, 0, hi) && want + hdr <= s[k].size
    requires forall i :: !(s[k].addr + hdr + want <= i < s[k].addr + hdr + want + hdr) ==> SameByte(m, i, n, i)
    ensures forall b :: b in s && b != s[k] ==> Keeps(m, n, b, hdr)
  {
    forall b | b in s && b != s[k] ensures Keeps(m, n, b, hdr) {
      Apart(s, b, s[k], hdr, 0, hi);
    }
  }

  lemma LinkedMerge(s: seq<Block>, k: nat, hdr: nat, hi: int, stub: int,
                    next: map<int, int>, prev: map<int, int>, used: map<int, bool>)
    requires hdr > 0 && k + 1 < |s| && Tiles(s, hdr, 0, hi) && Linked(s, hdr, stub, next, prev, used)
    ensures Linked(Merged(s, k, hdr), hdr, stub, next[s[k].addr := End(s[k + 1], hdr)],
                   prev[End(s[k + 1], hdr) := s[k].addr], used)
  {
    var m := Merged(s, k, hdr)[k];
    TilesAt(s, k, hdr, 0, hi);
    RecutMembers(s, k, k + 2, [m], hdr, 0, hi);
    assert LinkedAt(s[k], hdr, stub, next, prev, used);
    forall b | b in Merged(s, k, hdr)
      ensures LinkedAt(b, hdr, stub, next[m.addr := End(m, hdr)], prev[End(m, hdr) := m.addr], used)
    {
      if b != m {
        assert LinkedAt(b, hdr, stub, next, prev, used);
        Apart(s, b, s[k], hdr, 0, hi);
        Apart(s, b, s[k + 1], hdr, 0, hi);
      }
    }
  }

  lemma LinkedFlip(s: seq<Block>, k: nat, u: bool, hdr: nat, hi: int, stub: int,
                   next: map<int, int>, prev: map<int, int>, used: map<int, bool>)
    requires hdr > 0 && k < |s| && Tiles(s, hdr, 0, hi) && Linked(s, hdr, stub, next, prev, used)
    ensures Linked(Flip(s, k, u), hdr, stub, next, prev, used[s[k].addr := u])
  {
    FlipMembers(s, k, u, hdr, hi);
    assert LinkedAt(s[k], hdr, stub, next, prev, used);
    forall b | b in Flip(s, k, u) ensures LinkedAt(b, hdr, stub, next, prev, used[s[k].addr := u]) {
      if b.addr != s[k].addr {
        assert b in s;
      } else if b in s {
        Apart(s, b, s[k], hdr, 0, hi);
      }
    }
  }

  lemma CutAligned(s: seq<Block>, k: nat, want: nat, hdr: nat, a: nat, hi: int)
    requires hdr > 0 && k < |s| && Tiles(s, hdr, 0, hi) && 0 < want && want + hdr < s[k].size
    requires Aligned(want, a) && Aligned(hdr, a) && Sized(s, a)
    ensures Sized(Cut(s, k, want, hdr), a)
  {
    AlignedSum(s[k].addr, hdr, a);
    AlignedSum(s[k].addr + hdr, want, a);
  }

  /** rt_memcpy, for ranges that do not overlap. */
  method CopyBytes(m: map<int, int>, dst: int, src: int, n: nat) returns (r: map<int, int>)
    requires dst + n <= src || src + n <= dst
    ensures CopiedRange(r, m, dst, src, n)
    ensures forall i :: !(dst <= i < dst + n) ==> SameByte(r, i, m, i)
  {
    r := m;
    for k := 0 to n
      invariant forall i :: dst <= i < dst + k ==> Copied(r, m, dst, src, i)
      invariant forall i :: !(dst <= i < dst + k) ==> SameByte(r, i, m, i)
    {
      ghost var was := r;
      assert SameByte(was, src + k, m, src + k);
      if src + k in r {
        r := r[dst + k := r[src + k]];
      } else {
        r := r - {dst + k};
      }
      forall i | dst <= i < dst + k ensures Copied(r, m, dst, src, i) {
        assert Copied(was, m, dst, src, i);
      }
      forall i | !(dst <= i < dst + k + 1) ensures SameByte(r, i, m, i) {
        assert SameByte(was, i, m, i);
      }
    }
  }

  lemma CutKeepsLive(s: seq<Block>, k: nat, want: nat, hdr: nat, hi: int, m: map<int, int>, n: map<int, int>)
    requires hdr > 0 && k < |s| && Tiles(s, hdr, 0, hi) && want + hdr <= s[k].size
    requires forall i :: !(s[k].addr + hdr + want <= i < s[k].addr + hdr + want + hdr) ==> SameByte(m, i, n, i)
    ensures KeepsThose(m, n, Live(s) - {s[k]}, hdr)
    ensures Keeps(m, n, Block(s[k].addr, want, true), hdr)
    ensures !s[k].used ==> Live(s) - {s[k]} == Live(s)
  {
    CutKeeps(s, k, want, hdr, hi, m, n);
  }

  /** Copying from one live block to another changes no other live payload. */
  lemma RelocateKeeps(s: seq<Block>, b: Block, c: Block, n: nat, hdr: nat, lo: int, hi: int,
                      before: map<int, int>, after: map<int, int>)
    requires hdr > 0 && Tiles(s, hdr, lo, hi) && b in Live(s) && c in Live(s) && n <= c.size
    requires forall i :: !(c.addr + hdr <= i < c.addr + hdr + n) ==> SameByte(after, i, before, i)
    ensures KeepsThose(before, after, Live(s) - {b, c}, hdr)
  {
    forall x | x in Live(s) - {b, c} ensures Keeps(before, after, x, hdr) {
      Apart(s, x, c, hdr, lo, hi);
      forall i | x.addr + hdr <= i < End(x, hdr) ensures SameByte(before, i, after, i) {
        assert SameByte(after, i, before, i);
      }
    }
  }

  /** What reallocating the live block `b` at `p` to `newsize` bytes promises, from layout `s` and
      bytes `m` to layout `t` and bytes `n`: a null result leaves everything as it was; otherwise
      `b` is exchanged for a large enough block at `q` that holds the old contents, up to the
      smaller of the two sizes, and no other live payload has changed. */
  ghost predicate Reallocated(s: seq<Block>, m: map<int, int>, t: seq<Block>, n: map<int, int>, hdr: nat,
                              p: int, b: Block, newsize: nat, q: int) {
    if q == 0 then t == s && n == m
    else
      && IsLive(t, q, hdr) && BlockAt(t, q, hdr).size >= newsize
      && Live(t) == Live(s) - {b} + {BlockAt(t, q, hdr)}
      && KeepsThose(m, n, Live(s) - {b}, hdr)
      && CopiedRange(n, m, q, p, Min(b.size, newsize))
  }

  lemma ReallocatedSmaller(s: seq<Block>, m: map<int, int>, t: seq<Block>, n: map<int, int>, hdr: nat,
                           p: int, b: Block, newsize: nat, smaller: nat, q: int)
    requires Reallocated(s, m, t, n, hdr, p, b, newsize, q) && smaller <= newsize
    ensures Reallocated(s, m, t, n, hdr, p, b, smaller, q)
  {
    if q != 0 {
      CopiedShorter(n, m, q, p, Min(b.size, newsize), Min(b.size, smaller));
    }
  }

  lemma ReallocatedInPlace(s: seq<Block>, m: map<int, int>, t: seq<Block>, n: map<int, int>, hdr: nat,
                           lo: int, hi: int, b: Block, c: Block, newsize: nat)
    requires hdr > 0 && lo == 0 && Tiles(t, hdr, lo, hi) && c.addr == b.addr && c.size >= newsize && c in Live(t)
    requires Live(t) == Live(s) - {b} + {c} && KeepsThose(m, n, Live(s) - {b}, hdr)
    requires Keeps(m, n, if b.size < c.size then b else c, hdr)
    ensures Reallocated(s, m, t, n, hdr, b.addr + hdr, b, newsize, b.addr + hdr)
  {
    BlockAtUnique(t, c, hdr, lo, hi);
    Apart(t, c, c, hdr, lo, hi);
    KeepsIsCopy(m, n, if b.size < c.size then b else c, hdr);
    CopiedShorter(n, m, b.addr + hdr, b.addr + hdr, Min(b.size, c.size), Min(b.size, newsize));
  }
}
