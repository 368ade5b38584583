/** One zone of the slab allocator of `src/slab.c`: its header, its chunks, and the size classes. */
module Zones {
  import opened Arithmetic
  import opened Seqs

  /** RT_MM_PAGE_SIZE */
  const PAGE: nat := 4096

  datatype Ptr = Ptr(addr: nat)

  /** The zone that starts at a page. */
  datatype Zid = Zid(page: nat)

  /* Size classes. */

  /** zoneindex: the chunk size for a request, and the index of its size class. */
  function ChunkSize(n: nat): nat
    requires 0 < n < 16384
  {
    if n < 128 then AlignUp(n, 8)
    else if n < 256 then AlignUp(n, 16)
    else if n < 512 then AlignUp(n, 32)
    else if n < 1024 then AlignUp(n, 64)
    else if n < 2048 then AlignUp(n, 128)
    else if n < 4096 then AlignUp(n, 256)
    else if n < 8192 then AlignUp(n, 512)
    else AlignUp(n, 1024)
  }

  function ZoneIndex(n: nat): nat
    requires 0 < n < 16384
  {
    var c := ChunkSize(n);
    if n < 128 then c / 8 - 1
    else if n < 256 then c / 16 + 7
    else if n < 512 then c / 32 + 15
    else if n < 1024 then c / 64 + 23
    else if n < 2048 then c / 128 + 31
    else if n < 4096 then c / 256 + 39
    else if n < 8192 then c / 512 + 47
    else c / 1024 + 55
  }

  /** The chunk size of each class. */
  function SizeOfClass(k: nat): nat
    requires k < 72
  {
    if k < 16 then 8 * (k + 1)
    else if k < 24 then 16 * (k - 7)
    else if k < 32 then 32 * (k - 15)
    else if k < 40 then 64 * (k - 23)
    else if k < 48 then 128 * (k - 31)
    else if k < 56 then 256 * (k - 39)
    else if k < 64 then 512 * (k - 47)
    else 1024 * (k - 55)
  }

  lemma SizesGrow(k: nat, l: nat)
    requires k < l < 72
    ensures SizeOfClass(k) < SizeOfClass(l)
  {
  }

  /** The classes: multiples of 8 up to 128, and then eight steps from each size to its double. */
  lemma ClassesDouble(k: nat)
    requires k < 72
    ensures k < 16 ==> SizeOfClass(k) == 8 * (k + 1)
    ensures k >= 15 ==> SizeOfClass(k) == 2 * SizeOfClass(k - 8)
  {
  }

  /** AlignUp to `a` in terms of the number of steps. */
  lemma Steps(n: nat, a: nat)
    requires n > 0 && a > 0
    ensures var q := (n + a - 1) / a; AlignUp(n, a) == q * a && AlignUp(n, a) / a == q && (q - 1) * a < n <= q * a
  {
    var q := (n + a - 1) / a;
    DivModIs(q * a, q, 0, a);
    assert n + a - 1 == q * a + (n + a - 1) % a;
    assert (q - 1) * a == q * a - a;
  }

  /** Rounding up to `a` does not pass a multiple of `a`, and gives a multiple of 8 when `a` is one. */
  lemma RoundedTo(n: nat, a: nat, k: nat, m: nat)
    requires 0 < n <= k * a && a == 8 * m > 0
    ensures AlignUp(n, a) <= k * a && AlignUp(n, a) % 8 == 0
  {
    hide AlignUp;
    Steps(n, a);
    var q := (n + a - 1) / a;
    if q > k {
      MulLe(k, q - 1, a);
    }
    MulLe(q, k, a);
    assert q * a == q * m * 8;
    DivModIs(q * m * 8, q * m, 0, 8);
  }

  lemma ChunkFits(n: nat)
    requires 0 < n < 16384
    ensures n <= ChunkSize(n) <= 16384 && ChunkSize(n) % 8 == 0 && ChunkSize(n) >= 8
    ensures n >= 128 ==> 8 * (ChunkSize(n) - n) < n
    ensures n < 8192 ==> ChunkSize(n) <= 8192
  {
    hide AlignUp;
    if n < 128 { RoundedTo(n, 8, 16, 1); }
    else if n < 256 { RoundedTo(n, 16, 16, 2); }
    else if n < 512 { RoundedTo(n, 32, 16, 4); }
    else if n < 1024 { RoundedTo(n, 64, 16, 8); }
    else if n < 2048 { RoundedTo(n, 128, 16, 16); }
    else if n < 4096 { RoundedTo(n, 256, 16, 32); }
    else if n < 8192 { RoundedTo(n, 512, 16, 64); }
    else { RoundedTo(n, 1024, 16, 128); }
  }

  lemma SmallClassAt(n: nat)
    requires 0 < n < 1024
    ensures ZoneIndex(n) < 72 && ChunkSize(n) == SizeOfClass(ZoneIndex(n)) >= n
    ensures ZoneIndex(n) > 0 ==> SizeOfClass(ZoneIndex(n) - 1) < n
  {
    hide AlignUp;
    if n < 128 { Steps(n, 8); }
    else if n < 256 { Steps(n, 16); }
    else if n < 512 { Steps(n, 32); }
    else { Steps(n, 64); }
  }

  lemma LargeClassAt(n: nat)
    requires 1024 <= n < 16384
    ensures ZoneIndex(n) < 72 && ChunkSize(n) == SizeOfClass(ZoneIndex(n)) >= n
    ensures SizeOfClass(ZoneIndex(n) - 1) < n
  {
    hide AlignUp;
    if n < 2048 { Steps(n, 128); }
    else if n < 4096 { Steps(n, 256); }
    else if n < 8192 { Steps(n, 512); }
    else { Steps(n, 1024); }
  }

  lemma ClassAt(n: nat)
    requires 0 < n < 16384
    ensures ZoneIndex(n) < 72 && ChunkSize(n) == SizeOfClass(ZoneIndex(n)) >= n
    ensures ZoneIndex(n) > 0 ==> SizeOfClass(ZoneIndex(n) - 1) < n
  {
    hide ChunkSize, ZoneIndex, SizeOfClass;
    if n < 1024 { SmallClassAt(n); } else { LargeClassAt(n); }
  }

  /** zoneindex picks the smallest class whose chunks are large enough. */
  lemma SmallestClass(n: nat)
    requires 0 < n < 16384
    ensures ZoneIndex(n) < 72 && ChunkSize(n) == SizeOfClass(ZoneIndex(n)) >= n
    ensures forall k: nat :: k < ZoneIndex(n) ==> SizeOfClass(k) < n
  {
    hide ChunkSize, ZoneIndex, SizeOfClass;
    ClassAt(n);
    var i := ZoneIndex(n);
    forall k: nat | k < i ensures SizeOfClass(k) < n {
      if k < i - 1 { SizesGrow(k, i - 1); }
    }
  }

  /** Two requests are in one class exactly when they get the same chunk size, and larger requests
      never get smaller chunks. */
  lemma ClassesMatch(n: nat, m: nat)
    requires 0 < n <= m < 16384
    ensures ZoneIndex(n) == ZoneIndex(m) <==> ChunkSize(n) == ChunkSize(m)
    ensures ChunkSize(n) <= ChunkSize(m)
  {
    hide ChunkSize, ZoneIndex, SizeOfClass;
    SmallestClass(n);
    SmallestClass(m);
    if ZoneIndex(n) < ZoneIndex(m) {
      SizesGrow(ZoneIndex(n), ZoneIndex(m));
    }
  }

  /* The chunks of a zone. */

  /** struct slab_zone, without its list link; `free` is the chain from z_freechunk on. */
  datatype Zone = Zone(nfree: int, nmax: int, base: nat, uindex: int, chunk: nat, index: nat, free: seq<Ptr>)

  /** The chunk with number `i`. */
  function At(z: Zone, i: nat): Ptr { Ptr(z.base + i * z.chunk) }

  predicate IsChunk(z: Zone, p: Ptr)
    requires z.chunk > 0
  {
    p.addr >= z.base && (p.addr - z.base) % z.chunk == 0
  }

  function Number(z: Zone, p: Ptr): int
    requires z.chunk > 0
  {
    (p.addr - z.base) / z.chunk
  }

  /** Chunks up to `uindex` have been handed out at some time; those on the free chain are back. */
  predicate IsLive(z: Zone, p: Ptr) { z.chunk > 0 && IsChunk(z, p) && Number(z, p) <= z.uindex && p !in z.free }

  /** The header of the zone `id` is in order. The first clause is the count that rt_malloc relies on
      when it pops the free chain. */
  ghost predicate ZoneOk(z: Zone, id: Zid, zoneSize: nat, hdr: nat) {
    && z.nfree == (z.nmax - 1 - z.uindex) + |z.free|
    && 0 <= z.uindex < z.nmax && z.nmax >= 3
    && z.index < 72 && z.chunk == SizeOfClass(z.index)
    && id.page * PAGE + hdr <= z.base && z.base + z.nmax * z.chunk <= id.page * PAGE + zoneSize
    && NoDup(z.free)
    && forall p :: p in z.free ==> IsChunk(z, p) && Number(z, p) <= z.uindex
  }

  lemma NumberAt(z: Zone, i: nat)
    requires z.chunk > 0
    ensures IsChunk(z, At(z, i)) && Number(z, At(z, i)) == i
  {
    DivModIs(i * z.chunk, i, 0, z.chunk);
  }

  lemma AtNumber(z: Zone, p: Ptr)
    requires z.chunk > 0 && IsChunk(z, p)
    ensures Number(z, p) >= 0 && p == At(z, Number(z, p))
  {
  }

  lemma ChunkPositive(z: Zone, id: Zid, zoneSize: nat, hdr: nat)
    requires ZoneOk(z, id, zoneSize, hdr)
    ensures z.chunk >= 8
  {
  }

  /** Every live chunk lies inside the zone and past its header. */
  lemma LiveInside(z: Zone, id: Zid, zoneSize: nat, hdr: nat, p: Ptr)
    requires ZoneOk(z, id, zoneSize, hdr) && IsLive(z, p)
    ensures id.page * PAGE + hdr <= p.addr && p.addr + z.chunk <= id.page * PAGE + zoneSize
  {
    hide SizeOfClass, NoDup;
    AtNumber(z, p);
    MulLe(Number(z, p) + 1, z.nmax, z.chunk);
  }

  /** Live chunks of a zone are disjoint. */
  lemma LiveDisjoint(z: Zone, p: Ptr, q: Ptr)
    requires IsLive(z, p) && IsLive(z, q) && p != q
    ensures p.addr + z.chunk <= q.addr || q.addr + z.chunk <= p.addr
  {
    AtNumber(z, p);
    AtNumber(z, q);
    var i, j := Number(z, p), Number(z, q);
    if i < j {
      MulLe(i + 1, j, z.chunk);
    } else {
      MulLe(j + 1, i, z.chunk);
    }
  }

  /** Taking a chunk in rt_malloc: memory that was never used comes first, then the free chain. */
  function TakeChunk(z: Zone): (r: (Zone, Ptr))
    requires z.uindex + 1 >= 0 && (z.uindex + 1 == z.nmax ==> z.free != [])
  {
    if z.uindex + 1 != z.nmax then (z.(nfree := z.nfree - 1, uindex := z.uindex + 1), At(z, z.uindex + 1))
    else (z.(nfree := z.nfree - 1, free := z.free[1..]), z.free[0])
  }

  /** A zone that says it has a free chunk has one. */
  lemma NeverEmpty(z: Zone, id: Zid, zoneSize: nat, hdr: nat)
    requires ZoneOk(z, id, zoneSize, hdr) && z.nfree > 0
    ensures z.uindex + 1 >= 0 && (z.uindex + 1 == z.nmax ==> z.free != [])
  {
  }

  lemma TakeFresh(z: Zone)
    requires z.chunk > 0 && z.uindex >= 0 && forall p :: p in z.free ==> IsChunk(z, p) && Number(z, p) <= z.uindex
    ensures var w, p := z.(nfree := z.nfree - 1, uindex := z.uindex + 1), At(z, z.uindex + 1);
      !IsLive(z, p) && forall q :: IsLive(w, q) <==> IsLive(z, q) || q == p
  {
    var w, p := z.(nfree := z.nfree - 1, uindex := z.uindex + 1), At(z, z.uindex + 1);
    NumberAt(z, z.uindex + 1);
    forall q ensures IsLive(w, q) <==> IsLive(z, q) || q == p {
      if IsChunk(z, q) && Number(z, q) == z.uindex + 1 {
        AtNumber(z, q);
      }
    }
  }

  lemma TakeFreed(z: Zone)
    requires z.chunk > 0 && z.free != [] && NoDup(z.free)
    requires forall p :: p in z.free ==> IsChunk(z, p) && Number(z, p) <= z.uindex
    ensures var w, p := z.(nfree := z.nfree - 1, free := z.free[1..]), z.free[0];
      && !IsLive(z, p) && NoDup(w.free) && (forall q :: q in w.free ==> q in z.free)
      && forall q :: IsLive(w, q) <==> IsLive(z, q) || q == p
  {
    var f := z.free;
    assert f == [f[0]] + f[1..];
    assert f[0] in f;
    assert forall q :: q in f <==> q == f[0] || q in f[1..];
  }

  lemma TakeChunkOk(z: Zone, id: Zid, zoneSize: nat, hdr: nat)
    requires ZoneOk(z, id, zoneSize, hdr) && z.nfree > 0
    requires z.uindex + 1 >= 0 && (z.uindex + 1 == z.nmax ==> z.free != [])
    ensures var (w, p) := TakeChunk(z);
      && ZoneOk(w, id, zoneSize, hdr) && w.index == z.index && w.chunk == z.chunk && w.nfree == z.nfree - 1
      && !IsLive(z, p) && forall q :: IsLive(w, q) <==> IsLive(z, q) || q == p
  {
    hide SizeOfClass;
    ChunkPositive(z, id, zoneSize, hdr);
    if z.uindex + 1 != z.nmax {
      TakeFresh(z);
    } else {
      TakeFreed(z);
    }
  }

  /** rt_free of a live chunk. */
  function PutChunk(z: Zone, p: Ptr): Zone { z.(nfree := z.nfree + 1, free := [p] + z.free) }

  lemma PutChunkOk(z: Zone, id: Zid, zoneSize: nat, hdr: nat, p: Ptr)
    requires ZoneOk(z, id, zoneSize, hdr) && IsLive(z, p)
    ensures ZoneOk(PutChunk(z, p), id, zoneSize, hdr)
    ensures forall q :: IsLive(PutChunk(z, p), q) <==> IsLive(z, q) && q != p
  {
    hide SizeOfClass;
    var f := [p] + z.free;
    assert forall q :: q in f <==> q == p || q in z.free;
  }

  /* A zone whose free count is full has no live chunk. */

  lemma {:induction false} Pigeon(s: seq<int>, n: nat, k: int)
    requires NoDup(s) && forall i :: 0 <= i < |s| ==> 0 <= s[i] < n
    ensures |s| <= n
    ensures |s| == n && 0 <= k < n ==> exists i :: 0 <= i < |s| && s[i] == k
  {
    if s != [] {
      assert 0 <= s[0] < n;
    }
    if n == 0 {
    } else if exists i :: 0 <= i < |s| && s[i] == n - 1 {
      var i :| 0 <= i < |s| && s[i] == n - 1;
      var t := s[..i] + s[i + 1..];
      assert forall j :: 0 <= j < |t| ==> t[j] == s[if j < i then j else j + 1];
      Pigeon(t, n - 1, k);
      if |s| == n && 0 <= k < n - 1 {
        var j :| 0 <= j < |t| && t[j] == k;
        assert s[if j < i then j else j + 1] == k;
      }
    } else {
      Pigeon(s, n - 1, k);
    }
  }

  function Numbers(z: Zone): (s: seq<int>)
    requires z.chunk > 0
    ensures |s| == |z.free| && forall i :: 0 <= i < |s| ==> s[i] == Number(z, z.free[i])
  {
    seq(|z.free|, i requires 0 <= i < |z.free| => Number(z, z.free[i]))
  }

  lemma NumbersNoDup(z: Zone, id: Zid, zoneSize: nat, hdr: nat)
    requires ZoneOk(z, id, zoneSize, hdr)
    ensures z.chunk > 0 && NoDup(Numbers(z))
    ensures forall i :: 0 <= i < |z.free| ==> 0 <= Numbers(z)[i] < z.uindex + 1 && z.free[i] == At(z, Numbers(z)[i])
  {
    ChunkPositive(z, id, zoneSize, hdr);
    hide SizeOfClass;
    forall i | 0 <= i < |z.free| ensures 0 <= Numbers(z)[i] <= z.uindex && z.free[i] == At(z, Numbers(z)[i]) {
      assert z.free[i] in z.free;
      AtNumber(z, z.free[i]);
    }
  }

  lemma FreeChainBound(z: Zone, id: Zid, zoneSize: nat, hdr: nat)
    requires ZoneOk(z, id, zoneSize, hdr)
    ensures 0 <= z.nfree <= z.nmax
  {
    NumbersNoDup(z, id, zoneSize, hdr);
    Pigeon(Numbers(z), z.uindex + 1, 0);
  }

  lemma FullIsUnused(z: Zone, id: Zid, zoneSize: nat, hdr: nat, p: Ptr)
    requires ZoneOk(z, id, zoneSize, hdr) && z.nfree == z.nmax
    ensures !IsLive(z, p)
  {
    NumbersNoDup(z, id, zoneSize, hdr);
    hide SizeOfClass;
    if IsChunk(z, p) && Number(z, p) <= z.uindex {
      AtNumber(z, p);
      var s := Numbers(z);
      Pigeon(s, z.uindex + 1, Number(z, p));
      var i :| 0 <= i < |s| && s[i] == Number(z, p);
      assert z.free[i] == p;
    }
  }

  /* Laying out a new zone. */

  /** Chunk sizes that are powers of two. */
  predicate IsPowerOfTwo(c: nat) { c == 1 || (c > 0 && c % 2 == 0 && IsPowerOfTwo(c / 2)) }

  /** Offset of the chunks in a zone: aligned to the chunk size when that is a power of two. */
  function Offset(c: nat, hdr: nat): nat
    requires c > 0
  {
    if IsPowerOfTwo(c) then AlignUp(hdr, c) else AlignUp(hdr, 8)
  }

  function NewZone(id: Zid, n: nat, zoneSize: nat, hdr: nat): Zone
    requires 0 < n < 16384
  {
    var c := ChunkSize(n);
    var off := Offset(c, hdr);
    var nmax := (zoneSize - off) / c;
    Zone(nmax - 1, nmax, id.page * PAGE + off, 0, c, ZoneIndex(n), [])
  }

  lemma OneStep(n: nat, c: nat)
    requires 0 < n <= c
    ensures AlignUp(n, c) == c
  {
    var x := n + c - 1;
    assert x / c == 1 by { assert x == 1 * c + (n - 1); DivModIs(x, 1, n - 1, c); }
  }

  lemma OffsetFits(c: nat, hdr: nat)
    requires 0 < hdr <= 128 && c >= 8
    ensures hdr <= Offset(c, hdr)
    ensures if c >= 128 then Offset(c, hdr) <= c else Offset(c, hdr) <= 255
  {
    hide IsPowerOfTwo, AlignUp;
    Steps(hdr, 8);
    if c >= 128 {
      OneStep(hdr, c);
    }
  }

  lemma RoomForThree(c: nat, off: nat, zoneSize: nat)
    requires 8 <= c && 4 * c <= zoneSize && 32768 <= zoneSize && off <= zoneSize
    requires if c >= 128 then off <= c else off <= 255
    ensures (zoneSize - off) / c >= 3 && (zoneSize - off) / c * c <= zoneSize - off
  {
    var room := zoneSize - off;
    assert room >= 3 * c;
    var q := room / c;
    assert room == q * c + room % c;
    if q < 3 {
      MulLe(q + 1, 3, c);
    }
  }

  /** The zone sizes rt_system_heap_init chooses from leave room for at least three chunks, so a new zone
      still has free chunks after its first one has been handed out. */
  lemma NewZoneOk(id: Zid, n: nat, zoneSize: nat, hdr: nat)
    requires 0 < n < 16384 && 4 * n < zoneSize && (zoneSize == 32768 || zoneSize == 65536 || zoneSize == 131072)
    requires 0 < hdr <= 128
    ensures var z := NewZone(id, n, zoneSize, hdr);
      ZoneOk(z, id, zoneSize, hdr) && z.nfree > 0 && forall p :: IsLive(z, p) <==> p == At(z, 0)
  {
    var c := ChunkSize(n);
    var z := NewZone(id, n, zoneSize, hdr);
    ChunkFits(n);
    SmallestClass(n);
    OffsetFits(c, hdr);
    RoomForThree(c, Offset(c, hdr), zoneSize);
    hide SizeOfClass, ChunkSize, ZoneIndex, Offset;
    NumberAt(z, 0);
    forall p ensures IsLive(z, p) <==> p == At(z, 0) {
      if IsChunk(z, p) { AtNumber(z, p); }
    }
  }

  lemma MostThatFit(room: nat, c: nat)
    requires c > 0
    ensures (room / c + 1) * c > room
  {
    assert room == room / c * c + room % c;
  }

  /** A new zone has as many chunks as fit behind its header, from the first place on that is aligned. */
  lemma NewZoneFull(id: Zid, n: nat, zoneSize: nat, hdr: nat)
    requires 0 < n < 16384 && 0 < hdr <= 128 && Offset(ChunkSize(n), hdr) <= zoneSize
    ensures var z, c := NewZone(id, n, zoneSize, hdr), ChunkSize(n);
      && z.chunk == c && z.base + (z.nmax + 1) * c > id.page * PAGE + zoneSize
      && id.page * PAGE + hdr <= z.base < id.page * PAGE + hdr + if IsPowerOfTwo(c) then c else 8
  {
    hide ChunkSize, IsPowerOfTwo;
    ChunkFits(n);
    MostThatFit(zoneSize - Offset(ChunkSize(n), hdr), ChunkSize(n));
  }

  lemma PageIsPower()
    ensures IsPowerOfTwo(PAGE)
  {
    assert IsPowerOfTwo(32);
    assert IsPowerOfTwo(1024);
  }

  lemma MultipleAligned(i: nat, c: nat)
    ensures Aligned(i * c, c)
  {
  }

  lemma PagesAligned(p: nat, c: nat)
    requires Aligned(PAGE, c)
    ensures Aligned(p * PAGE, c)
  {
    var k: int :| PAGE == k * c;
    assert p * PAGE == p * k * c;
  }

  /** A power of two divides every larger one. */
  lemma {:induction false} PowersDivide(c: nat, m: nat)
    requires IsPowerOfTwo(c) && IsPowerOfTwo(m) && c <= m
    ensures Aligned(m, c)
  {
    if c == 1 {
      assert m == m * c;
    } else {
      PowersDivide(c / 2, m / 2);
      var k: int :| m / 2 == k * (c / 2);
      assert m == k * c;
    }
  }

  /** Chunks of a power-of-two size are aligned to that size when it is at most a page, and otherwise
      exactly when their zone is aligned to it. */
  lemma PowersAligned(id: Zid, n: nat, zoneSize: nat, hdr: nat, i: nat)
    requires 0 < n < 16384 && IsPowerOfTwo(ChunkSize(n))
    ensures var c := ChunkSize(n);
      Aligned(At(NewZone(id, n, zoneSize, hdr), i).addr, c) <==> c <= PAGE || Aligned(id.page * PAGE, c)
  {
    hide IsPowerOfTwo, ChunkSize, AlignUp, Aligned;
    var c := ChunkSize(n);
    var p := At(NewZone(id, n, zoneSize, hdr), i);
    MultipleAligned(i, c);
    AlignedSum(Offset(c, hdr), i * c, c);
    assert p.addr - id.page * PAGE == Offset(c, hdr) + i * c;
    if c <= PAGE {
      PageIsPower();
      PowersDivide(c, PAGE);
      PagesAligned(id.page, c);
    }
    if Aligned(id.page * PAGE, c) {
      AlignedSum(id.page * PAGE, Offset(c, hdr) + i * c, c);
    } else if Aligned(p.addr, c) {
      AlignedSum(p.addr, Offset(c, hdr) + i * c, c);
    }
  }

  lemma OnePageMisaligned()
    ensures !Aligned(1 * PAGE, 8192)
  {
    forall k: int ensures PAGE != k * 8192 {
    }
  }

  lemma TwoPagesPower()
    ensures IsPowerOfTwo(8192)
  {
    PageIsPower();
  }

  /** The alignment is missing in a zone that starts at an odd page, for chunks of two pages. */
  lemma TwoPagesMisaligned(zoneSize: nat, hdr: nat, i: nat)
    ensures ChunkSize(8192) == 8192 && !Aligned(At(NewZone(Zid(1), 8192, zoneSize, hdr), i).addr, 8192)
  {
    assert ChunkSize(8192) == 8192;
    TwoPagesPower();
    OnePageMisaligned();
    hide IsPowerOfTwo, Aligned, ChunkSize;
    PowersAligned(Zid(1), 8192, zoneSize, hdr, i);
  }
}
