/** The slab allocator of `src/slab.c`: zones of equal chunks and large blocks on top of the page
    allocator, with a table that tells for every page what it belongs to. */
module Slab {
  import opened Options
  import opened HeapMemory
  import opened Arithmetic
  import opened Zones
  import opened ZoneLists
  import Pages
  import opened Seqs

  /** What a page belongs to. */
  datatype Owner = NoOne | Table | InZone(z: Zid) | InLarge(first: nat)

  /** struct memusage: the offset of the page in its zone, or the number of pages of a large block. */
  datatype Usage = Usage(kind: Kind, size: nat)
  datatype Kind = FreePage | Small | Large

  /** The heap from page `start` on; `owner` and `usage` have an entry for every page. */
  datatype Heap = Heap(start: nat, zonePages: nat, hdr: nat, owner: seq<Owner>, usage: seq<Usage>,
                       zones: map<Zid, Zone>)

  predicate InHeap(h: Heap, p: nat) { h.start <= p < h.start + |h.owner| }

  function OwnerOf(h: Heap, p: nat): Owner { if InHeap(h, p) then h.owner[p - h.start] else NoOne }

  function UsageOf(h: Heap, p: nat): Usage {
    if h.start <= p < h.start + |h.usage| then h.usage[p - h.start] else Usage(FreePage, 0)
  }

  predicate Owns(h: Heap, o: Owner, p: nat, n: nat) {
    forall q :: p <= q < p + n ==> InHeap(h, q) && OwnerOf(h, q) == o
  }

  ghost predicate ZoneAt(h: Heap, z: Zid)
    requires z in h.zones
  {
    ZoneOk(h.zones[z], z, h.zonePages * PAGE, h.hdr) && Owns(h, InZone(z), z.page, h.zonePages)
  }

  predicate LargeAt(h: Heap, b: nat) {
    UsageOf(h, b).kind.Large? && UsageOf(h, b).size > 0 && Owns(h, InLarge(b), b, UsageOf(h, b).size)
  }

  ghost predicate PageOk(h: Heap, p: nat) {
    match OwnerOf(h, p)
    case InZone(z) => z in h.zones && z.page <= p < z.page + h.zonePages && UsageOf(h, p) == Usage(Small, p - z.page)
    case InLarge(b) => LargeAt(h, b) && b <= p < b + UsageOf(h, b).size
    case _ => true
  }

  ghost predicate HeapOk(h: Heap) {
    && |h.usage| == |h.owner| && h.zonePages > 0 && 0 < h.hdr
    && (forall p: nat :: PageOk(h, p))
    && (forall z :: z in h.zones ==> ZoneAt(h, z))
  }

  /** The blocks that have been handed out. */
  predicate Live(h: Heap, q: Ptr) {
    match OwnerOf(h, q.addr / PAGE)
    case InZone(z) => z in h.zones && IsLive(h.zones[z], q)
    case InLarge(b) => q.addr == b * PAGE
    case _ => false
  }

  function SizeAt(h: Heap, q: Ptr): nat {
    match OwnerOf(h, q.addr / PAGE)
    case InZone(z) => if z in h.zones then h.zones[z].chunk else 0
    case InLarge(b) => UsageOf(h, b).size * PAGE
    case _ => 0
  }

  lemma PageOf(a: nat, p: nat, n: nat)
    requires p * PAGE <= a < (p + n) * PAGE
    ensures p <= a / PAGE < p + n
  {
  }

  lemma PageStart(b: nat)
    ensures b * PAGE / PAGE == b
  {
  }

  /** Every byte of a live block is on a page with the owner of the block. */
  lemma BlockBytes(h: Heap, q: Ptr, a: nat)
    requires HeapOk(h) && Live(h, q) && q.addr <= a < q.addr + SizeAt(h, q)
    ensures OwnerOf(h, a / PAGE) == OwnerOf(h, q.addr / PAGE)
  {
    var p := q.addr / PAGE;
    assert PageOk(h, p);
    hide ZoneOk;
    match OwnerOf(h, p)
    case InZone(z) =>
      assert ZoneAt(h, z);
      LiveInside(h.zones[z], z, h.zonePages * PAGE, h.hdr, q);
      PageOf(a, z.page, h.zonePages);
    case InLarge(b) =>
      PageOf(a, b, UsageOf(h, b).size);
    case _ =>
  }

  lemma SizePositive(h: Heap, q: Ptr)
    requires HeapOk(h) && Live(h, q)
    ensures SizeAt(h, q) > 0
  {
    assert PageOk(h, q.addr / PAGE);
  }

  /** Live blocks do not overlap. */
  lemma BlocksDisjoint(h: Heap, q: Ptr, r: Ptr)
    requires HeapOk(h) && Live(h, q) && Live(h, r) && q != r
    ensures q.addr + SizeAt(h, q) <= r.addr || r.addr + SizeAt(h, r) <= q.addr
  {
    hide HeapOk;
    if q.addr < r.addr + SizeAt(h, r) && r.addr < q.addr + SizeAt(h, q) {
      var a := if q.addr < r.addr then r.addr else q.addr;
      SizePositive(h, q);
      SizePositive(h, r);
      BlockBytes(h, q, a);
      BlockBytes(h, r, a);
      match OwnerOf(h, a / PAGE)
      case InZone(z) => LiveDisjoint(h.zones[z], q, r);
      case _ =>
    }
  }

  /** The page table finds the zone of every live chunk, and the size of every large block. */
  lemma Lookup(h: Heap, q: Ptr)
    requires HeapOk(h) && Live(h, q)
    ensures InHeap(h, q.addr / PAGE)
    ensures var p := q.addr / PAGE;
      var u := UsageOf(h, p);
      match OwnerOf(h, p)
      case InZone(z) => u.kind == Small && u.size <= p && z == Zid(p - u.size) && z in h.zones && IsLive(h.zones[z], q)
      case InLarge(b) => u.kind == Large && b == p && q.addr == p * PAGE && SizeAt(h, q) == u.size * PAGE && u.size > 0
      case _ => false
  {
    assert PageOk(h, q.addr / PAGE);
    hide ZoneAt;
    match OwnerOf(h, q.addr / PAGE)
    case InZone(z) =>
    case InLarge(b) => PageStart(b);
    case _ =>
  }

  /** Between `h` and `k`, nothing changes about the live blocks other than `p`. */
  ghost predicate OthersSame(h: Heap, k: Heap, p: Ptr) {
    forall q :: q != p ==> (Live(k, q) <==> Live(h, q)) && (Live(h, q) ==> SizeAt(k, q) == SizeAt(h, q))
  }

  ghost predicate Allocated(h: Heap, k: Heap, p: Ptr) { !Live(h, p) && Live(k, p) && OthersSame(h, k, p) }

  ghost predicate Released(h: Heap, k: Heap, p: Ptr) { Live(h, p) && !Live(k, p) && OthersSame(h, k, p) }

  /* Framing: what does not change about pages and zones when others change. */

  predicate SameShape(h: Heap, k: Heap) {
    && k.start == h.start && |k.owner| == |h.owner| && |k.usage| == |h.usage| && k.zonePages == h.zonePages
      && k.hdr == h.hdr
  }

  ghost predicate KeepsOwner(h: Heap, k: Heap, o: Owner) { forall x: nat :: OwnerOf(h, x) == o ==> OwnerOf(k, x) == o }

  lemma OwnsFrame(h: Heap, k: Heap, o: Owner, p: nat, n: nat)
    requires SameShape(h, k) && Owns(h, o, p, n) && KeepsOwner(h, k, o)
    ensures Owns(k, o, p, n)
  {
    forall q | p <= q < p + n ensures InHeap(k, q) && OwnerOf(k, q) == o {
      assert OwnerOf(h, q) == o;
    }
  }

  lemma PageKept(h: Heap, k: Heap, x: nat)
    requires PageOk(h, x) && SameShape(h, k) && OwnerOf(k, x) == OwnerOf(h, x) && UsageOf(k, x) == UsageOf(h, x)
    requires match OwnerOf(h, x)
      case InZone(z) => z in k.zones
      case InLarge(b) => UsageOf(k, b) == UsageOf(h, b) && KeepsOwner(h, k, InLarge(b))
      case _ => true
    ensures PageOk(k, x)
  {
    hide Owns, KeepsOwner;
    match OwnerOf(h, x)
    case InLarge(b) => OwnsFrame(h, k, InLarge(b), b, UsageOf(h, b).size);
    case _ =>
  }

  lemma ZoneKept(h: Heap, k: Heap, y: Zid)
    requires y in h.zones && ZoneAt(h, y) && SameShape(h, k) && y in k.zones && k.zones[y] == h.zones[y]
    requires KeepsOwner(h, k, InZone(y))
    ensures ZoneAt(k, y)
  {
    hide Owns, KeepsOwner, ZoneOk;
    OwnsFrame(h, k, InZone(y), y.page, h.zonePages);
  }

  /** The first page of a large block belongs to it. */
  lemma FirstOwned(h: Heap, x: nat)
    requires HeapOk(h) && OwnerOf(h, x).InLarge?
    ensures OwnerOf(h, OwnerOf(h, x).first) == OwnerOf(h, x)
  {
    assert PageOk(h, x);
    hide ZoneAt;
  }

  lemma ZoneUpdatedOk(h: Heap, z: Zid, w: Zone)
    requires HeapOk(h) && z in h.zones && ZoneOk(w, z, h.zonePages * PAGE, h.hdr)
    ensures HeapOk(h.(zones := h.zones[z := w]))
    ensures forall x: nat :: z.page <= x < z.page + h.zonePages ==> OwnerOf(h, x) == InZone(z)
  {
    hide ZoneOk;
    var k := h.(zones := h.zones[z := w]);
    assert ZoneAt(h, z);
    forall x: nat ensures PageOk(k, x) {
      assert PageOk(h, x);
      PageKept(h, k, x);
    }
    forall y | y in k.zones ensures ZoneAt(k, y) {
      if y != z {
        assert ZoneAt(h, y);
        ZoneKept(h, k, y);
      } else {
        OwnsFrame(h, k, InZone(z), z.page, h.zonePages);
      }
    }
  }

  predicate RangeIn(h: Heap, p: nat, n: nat) { h.start <= p && p + n <= h.start + |h.owner| && |h.usage| == |h.owner| }

  lemma ZoneKnown(h: Heap, z: Zid)
    requires HeapOk(h) && z in h.zones
    ensures ZoneOk(h.zones[z], z, h.zonePages * PAGE, h.hdr) && Owns(h, InZone(z), z.page, h.zonePages)
    ensures RangeIn(h, z.page, h.zonePages)
  {
    assert ZoneAt(h, z);
    assert InHeap(h, z.page) && InHeap(h, z.page + h.zonePages - 1);
  }

  /** The header of zone `z` changes to `w`, and with it at most the state of the chunk `p`. */
  lemma ZoneUpdated(h: Heap, z: Zid, w: Zone, p: Ptr)
    requires HeapOk(h) && z in h.zones && ZoneOk(w, z, h.zonePages * PAGE, h.hdr)
    requires forall q :: q != p ==>
      (IsLive(w, q) <==> IsLive(h.zones[z], q)) && (IsLive(w, q) ==> w.chunk == h.zones[z].chunk)
    requires IsLive(w, p) || IsLive(h.zones[z], p)
    ensures var k := h.(zones := h.zones[z := w]);
      && HeapOk(k) && OthersSame(h, k, p)
      && (Live(k, p) <==> IsLive(w, p)) && (Live(h, p) <==> IsLive(h.zones[z], p)) && SizeAt(k, p) == w.chunk
  {
    hide ZoneOk, IsLive, HeapOk;
    var k := h.(zones := h.zones[z := w]);
    ZoneUpdatedOk(h, z, w);
    ZoneKnown(h, z);
    var y := if IsLive(w, p) then w else h.zones[z];
    LiveInside(y, z, h.zonePages * PAGE, h.hdr, p);
    ChunkPositive(y, z, h.zonePages * PAGE, h.hdr);
    PageOf(p.addr, z.page, h.zonePages);
    assert OwnerOf(h, p.addr / PAGE) == InZone(z);
  }

  /** A range of a table gets one value. */
  function Marked<T>(s: seq<T>, lo: nat, n: nat, v: T): (r: seq<T>)
    requires lo + n <= |s|
    ensures |r| == |s| && forall i :: 0 <= i < |s| ==> r[i] == if lo <= i < lo + n then v else s[i]
  {
    s[..lo] + seq(n, _ => v) + s[lo + n..]
  }

  /** The usage table after the pages of a zone have got their offsets. */
  function MarkedZone(s: seq<Usage>, lo: nat, n: nat): (r: seq<Usage>)
    requires lo + n <= |s|
    ensures |r| == |s| && forall i :: 0 <= i < |s| ==> r[i] == if lo <= i < lo + n then Usage(Small, i - lo) else s[i]
  {
    s[..lo] + seq(n, (i: nat) => Usage(Small, i)) + s[lo + n..]
  }

  function WithZone(h: Heap, z: Zid, w: Zone): Heap
    requires RangeIn(h, z.page, h.zonePages)
  {
    h.(owner := Marked(h.owner, z.page - h.start, h.zonePages, InZone(z)),
       usage := MarkedZone(h.usage, z.page - h.start, h.zonePages), zones := h.zones[z := w])
  }

  lemma ZoneIsNew(h: Heap, z: Zid)
    requires HeapOk(h) && Owns(h, NoOne, z.page, h.zonePages)
    ensures z !in h.zones
  {
    hide ZoneOk;
    assert OwnerOf(h, z.page) == NoOne;
    assert z in h.zones ==> ZoneAt(h, z);
  }

  lemma ZoneAddedOk(h: Heap, z: Zid, w: Zone)
    requires HeapOk(h) && RangeIn(h, z.page, h.zonePages) && Owns(h, NoOne, z.page, h.zonePages)
    requires ZoneOk(w, z, h.zonePages * PAGE, h.hdr)
    ensures HeapOk(WithZone(h, z, w)) && z !in h.zones
    ensures forall x: nat ::
      OwnerOf(WithZone(h, z, w), x) == if z.page <= x < z.page + h.zonePages then InZone(z) else OwnerOf(h, x)
    ensures forall x: nat :: OwnerOf(h, x).InLarge? ==>
      UsageOf(WithZone(h, z, w), OwnerOf(h, x).first) == UsageOf(h, OwnerOf(h, x).first)
  {
    hide ZoneOk;
    ZoneIsNew(h, z);
    var k := WithZone(h, z, w);
    forall x: nat
      ensures OwnerOf(k, x) == if z.page <= x < z.page + h.zonePages then InZone(z) else OwnerOf(h, x)
      ensures z.page <= x < z.page + h.zonePages ==> OwnerOf(h, x) == NoOne && UsageOf(k, x) == Usage(Small, x - z.page)
      ensures !(z.page <= x < z.page + h.zonePages) ==> UsageOf(k, x) == UsageOf(h, x)
    {
    }
    forall x: nat | OwnerOf(h, x).InLarge? ensures UsageOf(k, OwnerOf(h, x).first) == UsageOf(h, OwnerOf(h, x).first) {
      FirstOwned(h, x);
    }
    forall x: nat ensures PageOk(k, x) {
      assert PageOk(h, x);
      if OwnerOf(h, x).InLarge? { FirstOwned(h, x); }
      if !(z.page <= x < z.page + h.zonePages) { PageKept(h, k, x); }
    }
    forall y | y in k.zones ensures ZoneAt(k, y) {
      if y != z {
        assert ZoneAt(h, y);
        ZoneKept(h, k, y);
      } else {
        assert forall x :: z.page <= x < z.page + h.zonePages ==> InHeap(k, x) && OwnerOf(k, x) == InZone(z);
      }
    }
  }

  /** Free pages become a zone. */
  lemma ZoneAdded(h: Heap, z: Zid, w: Zone, p: Ptr)
    requires HeapOk(h) && RangeIn(h, z.page, h.zonePages) && Owns(h, NoOne, z.page, h.zonePages)
    requires ZoneOk(w, z, h.zonePages * PAGE, h.hdr) && forall q :: IsLive(w, q) <==> q == p
    ensures HeapOk(WithZone(h, z, w)) && Allocated(h, WithZone(h, z, w), p) && SizeAt(WithZone(h, z, w), p) == w.chunk
  {
    var k := WithZone(h, z, w);
    hide ZoneOk, IsLive;
    ZoneAddedOk(h, z, w);
    LiveInside(w, z, h.zonePages * PAGE, h.hdr, p);
    PageOf(p.addr, z.page, h.zonePages);
    forall q: Ptr | q != p ensures (Live(k, q) <==> Live(h, q)) && (Live(h, q) ==> SizeAt(k, q) == SizeAt(h, q)) {
      assert PageOk(h, q.addr / PAGE);
    }
  }

  function WithoutZone(h: Heap, z: Zid): Heap
    requires RangeIn(h, z.page, h.zonePages)
  {
    h.(owner := Marked(h.owner, z.page - h.start, h.zonePages, NoOne),
       usage := Marked(h.usage, z.page - h.start, h.zonePages, Usage(FreePage, 0)), zones := h.zones - {z})
  }

  lemma ZoneRemovedOk(h: Heap, z: Zid)
    requires HeapOk(h) && z in h.zones && RangeIn(h, z.page, h.zonePages)
    ensures HeapOk(WithoutZone(h, z))
    ensures forall x: nat ::
      OwnerOf(WithoutZone(h, z), x) == if OwnerOf(h, x) == InZone(z) then NoOne else OwnerOf(h, x)
    ensures forall x: nat :: z.page <= x < z.page + h.zonePages <==> OwnerOf(h, x) == InZone(z)
    ensures forall x: nat :: OwnerOf(h, x) != InZone(z) ==> UsageOf(WithoutZone(h, z), x) == UsageOf(h, x)
  {
    hide ZoneOk;
    var k := WithoutZone(h, z);
    assert ZoneAt(h, z);
    forall x: nat
      ensures z.page <= x < z.page + h.zonePages <==> OwnerOf(h, x) == InZone(z)
      ensures OwnerOf(k, x) == if OwnerOf(h, x) == InZone(z) then NoOne else OwnerOf(h, x)
      ensures OwnerOf(h, x) != InZone(z) ==> UsageOf(k, x) == UsageOf(h, x)
    {
      assert PageOk(h, x);
    }
    forall x: nat ensures PageOk(k, x) {
      assert PageOk(h, x);
      if OwnerOf(h, x).InLarge? { FirstOwned(h, x); }
      if OwnerOf(h, x) != InZone(z) { PageKept(h, k, x); }
    }
    forall y | y in k.zones ensures ZoneAt(k, y) {
      assert ZoneAt(h, y);
      ZoneKept(h, k, y);
    }
  }

  /** A zone without live chunks gives up its pages. */
  lemma ZoneRemoved(h: Heap, z: Zid)
    requires HeapOk(h) && z in h.zones && RangeIn(h, z.page, h.zonePages) && forall q :: !IsLive(h.zones[z], q)
    ensures HeapOk(WithoutZone(h, z)) && Owns(WithoutZone(h, z), NoOne, z.page, h.zonePages)
    ensures forall q ::
      (Live(WithoutZone(h, z), q) <==> Live(h, q)) && (Live(h, q) ==> SizeAt(WithoutZone(h, z), q) == SizeAt(h, q))
  {
    hide HeapOk, IsLive;
    ZoneRemovedOk(h, z);
    var k := WithoutZone(h, z);
    forall q ensures (Live(k, q) <==> Live(h, q)) && (Live(h, q) ==> SizeAt(k, q) == SizeAt(h, q)) {
      if OwnerOf(h, q.addr / PAGE).InLarge? { FirstOwned(h, q.addr / PAGE); }
    }
  }

  function WithLarge(h: Heap, b: nat, n: nat): Heap
    requires RangeIn(h, b, n) && n > 0
  {
    h.(owner := Marked(h.owner, b - h.start, n, InLarge(b)), usage := h.usage[b - h.start := Usage(Large, n)])
  }

  lemma LargePage(k: Heap, b: nat, n: nat, x: nat)
    requires b <= x < b + n && OwnerOf(k, x) == InLarge(b) && UsageOf(k, b) == Usage(Large, n)
    requires Owns(k, InLarge(b), b, n)
    ensures PageOk(k, x)
  {
  }

  lemma OwnerZone(h: Heap, x: nat)
    requires PageOk(h, x)
    ensures OwnerOf(h, x).InZone? ==> OwnerOf(h, x).z in h.zones
  {
  }

  lemma LargeTables(h: Heap, b: nat, n: nat)
    requires HeapOk(h) && RangeIn(h, b, n) && n > 0 && Owns(h, NoOne, b, n)
    ensures SameShape(h, WithLarge(h, b, n)) && Owns(WithLarge(h, b, n), InLarge(b), b, n)
    ensures forall x: nat :: OwnerOf(WithLarge(h, b, n), x) == if b <= x < b + n then InLarge(b) else OwnerOf(h, x)
    ensures forall x: nat :: OwnerOf(h, x) != NoOne ==> UsageOf(WithLarge(h, b, n), x) == UsageOf(h, x)
    ensures UsageOf(WithLarge(h, b, n), b) == Usage(Large, n)
  {
    hide ZoneOk, PageOk, ZoneAt;
    assert OwnerOf(h, b) == NoOne;
  }

  lemma LargeAddedOk(h: Heap, b: nat, n: nat)
    requires HeapOk(h) && RangeIn(h, b, n) && n > 0 && Owns(h, NoOne, b, n)
    ensures HeapOk(WithLarge(h, b, n))
    ensures forall x: nat :: OwnerOf(WithLarge(h, b, n), x) == if b <= x < b + n then InLarge(b) else OwnerOf(h, x)
    ensures forall x: nat :: OwnerOf(h, x) != NoOne ==> UsageOf(WithLarge(h, b, n), x) == UsageOf(h, x)
    ensures UsageOf(WithLarge(h, b, n), b) == Usage(Large, n)
  {
    hide ZoneOk, PageOk, ZoneAt, Marked;
    LargeTables(h, b, n);
    var k := WithLarge(h, b, n);
    assert OwnerOf(h, b) == NoOne;
    forall x: nat ensures PageOk(k, x) {
      assert PageOk(h, x);
      if b <= x < b + n {
        LargePage(k, b, n, x);
      } else {
        if OwnerOf(h, x).InLarge? { FirstOwned(h, x); }
        OwnerZone(h, x);
        PageKept(h, k, x);
      }
    }
    forall y | y in k.zones ensures ZoneAt(k, y) {
      assert ZoneAt(h, y);
      ZoneKept(h, k, y);
    }
  }

  /** Free pages become a large block. */
  lemma LargeAdded(h: Heap, b: nat, n: nat)
    requires HeapOk(h) && RangeIn(h, b, n) && n > 0 && Owns(h, NoOne, b, n)
    ensures HeapOk(WithLarge(h, b, n)) && Allocated(h, WithLarge(h, b, n), Ptr(b * PAGE))
    ensures SizeAt(WithLarge(h, b, n), Ptr(b * PAGE)) == n * PAGE
  {
    hide HeapOk, IsLive;
    var k, p := WithLarge(h, b, n), Ptr(b * PAGE);
    PageStart(b);
    LargeAddedOk(h, b, n);
    assert OwnerOf(h, b) == NoOne;
    forall q | q != p ensures (Live(k, q) <==> Live(h, q)) && (Live(h, q) ==> SizeAt(k, q) == SizeAt(h, q)) {
      if OwnerOf(h, q.addr / PAGE).InLarge? { FirstOwned(h, q.addr / PAGE); }
    }
  }

  function WithoutLarge(h: Heap, b: nat, n: nat): Heap
    requires RangeIn(h, b, n) && n > 0
  {
    h.(owner := Marked(h.owner, b - h.start, n, NoOne), usage := h.usage[b - h.start := Usage(Large, 0)])
  }

  lemma LargeRange(h: Heap, b: nat)
    requires LargeAt(h, b) && |h.usage| == |h.owner|
    ensures RangeIn(h, b, UsageOf(h, b).size)
  {
    assert InHeap(h, b) && InHeap(h, b + UsageOf(h, b).size - 1);
  }

  lemma LargeRemovedOk(h: Heap, b: nat)
    requires HeapOk(h) && OwnerOf(h, b) == InLarge(b)
    ensures UsageOf(h, b).size > 0 && RangeIn(h, b, UsageOf(h, b).size)
    ensures forall x: nat :: b <= x < b + UsageOf(h, b).size <==> OwnerOf(h, x) == InLarge(b)
    ensures var k := WithoutLarge(h, b, UsageOf(h, b).size);
      && HeapOk(k)
      && (forall x: nat :: OwnerOf(k, x) == if OwnerOf(h, x) == InLarge(b) then NoOne else OwnerOf(h, x))
      && (forall x: nat :: x != b ==> UsageOf(k, x) == UsageOf(h, x))
  {
    hide ZoneOk;
    assert PageOk(h, b);
    LargeRange(h, b);
    var k := WithoutLarge(h, b, UsageOf(h, b).size);
    forall x: nat
      ensures b <= x < b + UsageOf(h, b).size <==> OwnerOf(h, x) == InLarge(b)
      ensures OwnerOf(k, x) == if OwnerOf(h, x) == InLarge(b) then NoOne else OwnerOf(h, x)
      ensures x != b ==> UsageOf(k, x) == UsageOf(h, x)
    {
      assert PageOk(h, x);
    }
    forall x: nat ensures PageOk(k, x) {
      assert PageOk(h, x);
      if OwnerOf(h, x).InLarge? { FirstOwned(h, x); }
      if OwnerOf(h, x) != InLarge(b) { PageKept(h, k, x); }
    }
    forall y | y in k.zones ensures ZoneAt(k, y) {
      assert ZoneAt(h, y);
      ZoneKept(h, k, y);
    }
  }

  /** A large block gives up its pages. */
  lemma LargeRemoved(h: Heap, b: nat)
    requires HeapOk(h) && Live(h, Ptr(b * PAGE)) && OwnerOf(h, b) == InLarge(b)
    ensures UsageOf(h, b).size > 0 && RangeIn(h, b, UsageOf(h, b).size)
    ensures var k := WithoutLarge(h, b, UsageOf(h, b).size);
      HeapOk(k) && Released(h, k, Ptr(b * PAGE)) && Owns(k, NoOne, b, UsageOf(h, b).size)
  {
    hide HeapOk, IsLive;
    PageStart(b);
    LargeRemovedOk(h, b);
    var k, p := WithoutLarge(h, b, UsageOf(h, b).size), Ptr(b * PAGE);
    forall q | q != p ensures (Live(k, q) <==> Live(h, q)) && (Live(h, q) ==> SizeAt(k, q) == SizeAt(h, q)) {
      if OwnerOf(h, q.addr / PAGE).InLarge? { FirstOwned(h, q.addr / PAGE); }
    }
  }

  /* What the page allocator has is what nobody owns. */

  ghost predicate PagesMatch(h: Heap, runs: seq<Pages.Run>) {
    forall p: nat :: Pages.IsFree(runs, p) <==> InHeap(h, p) && OwnerOf(h, p) == NoOne
  }

  lemma FreePagesUnowned(h: Heap, runs: seq<Pages.Run>, b: nat, n: nat)
    requires PagesMatch(h, runs) && Pages.AllFree(runs, b, n) && n > 0 && |h.usage| == |h.owner|
    ensures RangeIn(h, b, n) && Owns(h, NoOne, b, n)
  {
    assert Pages.IsFree(runs, b) && Pages.IsFree(runs, b + n - 1);
  }

  lemma OwnedPagesNotFree(h: Heap, runs: seq<Pages.Run>, b: nat, n: nat, o: Owner)
    requires PagesMatch(h, runs) && Owns(h, o, b, n) && o != NoOne
    ensures Pages.NoneFree(runs, b, n)
  {
    forall q | b <= q < b + n ensures !Pages.IsFree(runs, q) {
      assert OwnerOf(h, q) == o;
    }
  }

  /* Bytes. */

  ghost predicate SameBytes(m: map<int, int>, n: map<int, int>, at: int, len: nat) {
    forall i :: at <= i < at + len ==> SameByte(m, i, n, i)
  }

  /** The live blocks of `h` other than `p` have the same bytes in both memories. */
  ghost predicate KeepsBlocks(h: Heap, m: map<int, int>, n: map<int, int>, p: Ptr) {
    forall q :: Live(h, q) && q != p ==> SameBytes(m, n, q.addr, SizeAt(h, q))
  }

  /** The page allocator keeps its links in the free pages, so nothing is known of their bytes. */
  function Unlinked(m: map<int, int>, runs: seq<Pages.Run>): map<int, int> {
    map a | a in m && a >= 0 && !Pages.IsFree(runs, a / PAGE) :: m[a]
  }

  lemma UnlinkedKeeps(h: Heap, k: Heap, runs: seq<Pages.Run>, m: map<int, int>, p: Ptr)
    requires HeapOk(h) && HeapOk(k) && OthersSame(h, k, p) && PagesMatch(k, runs)
    ensures KeepsBlocks(h, m, Unlinked(m, runs), p)
  {
    hide HeapOk;
    forall q | Live(h, q) && q != p ensures SameBytes(m, Unlinked(m, runs), q.addr, SizeAt(h, q)) {
      forall i | q.addr <= i < q.addr + SizeAt(h, q) ensures SameByte(m, i, Unlinked(m, runs), i) {
        BlockBytes(k, q, i);
      }
    }
  }

  /** Writing in pages with an owner that has no live block changes no live block. */
  lemma ClobberKeeps(h: Heap, m: map<int, int>, at: nat, len: nat, p: Ptr, o: Owner)
    requires HeapOk(h) && forall a :: at <= a < at + len ==> OwnerOf(h, a / PAGE) == o
    requires forall q :: Live(h, q) ==> OwnerOf(h, q.addr / PAGE) != o
    ensures KeepsBlocks(h, m, Clobber(m, at, len), p)
  {
    hide HeapOk, Clobber;
    var n := Clobber(m, at, len);
    forall q | Live(h, q) ensures SameBytes(m, n, q.addr, SizeAt(h, q)) {
      forall i | q.addr <= i < q.addr + SizeAt(h, q) ensures SameByte(m, i, n, i) {
        BlockBytes(h, q, i);
      }
    }
  }

  /** Writing inside one live block changes no other. */
  lemma ClobberBlockKeeps(h: Heap, m: map<int, int>, p: Ptr, len: nat)
    requires HeapOk(h) && Live(h, p) && len <= SizeAt(h, p)
    ensures KeepsBlocks(h, m, Clobber(m, p.addr, len), p)
  {
    hide HeapOk, Clobber, Live, SizeAt;
    var n := Clobber(m, p.addr, len);
    forall q | Live(h, q) && q != p ensures SameBytes(m, n, q.addr, SizeAt(h, q)) {
      BlocksDisjoint(h, q, p);
    }
  }

  lemma KeepsTwice(h: Heap, k: Heap, m: map<int, int>, n: map<int, int>, o: map<int, int>, p: Ptr)
    requires KeepsBlocks(h, m, n, p) && KeepsBlocks(k, n, o, p) && OthersSame(h, k, p)
    ensures KeepsBlocks(h, m, o, p)
  {
    hide Live, SizeAt;
    forall q | Live(h, q) && q != p ensures SameBytes(m, o, q.addr, SizeAt(h, q)) {
      assert SameBytes(m, n, q.addr, SizeAt(h, q)) && SameBytes(n, o, q.addr, SizeAt(k, q));
      forall i | q.addr <= i < q.addr + SizeAt(h, q) ensures SameByte(m, i, o, i) {
        assert SameByte(m, i, n, i) && SameByte(n, i, o, i);
      }
    }
  }

  /** There are no `n` free pages in a row. */
  ghost predicate NoRun(runs: seq<Pages.Run>, n: nat) { forall b: nat :: !Pages.AllFree(runs, b, n) }

  /** The largest zone that is smaller than a 1024th of the heap, or the smallest one. */
  function ZoneSize(limsize: nat): nat {
    if 65536 >= limsize / 1024 then 32768 else if 131072 >= limsize / 1024 then 65536 else 131072
  }

  /** The pages that the usage table takes, with four bytes for each page. */
  function TablePages(npages: nat): nat { AlignUp(npages * 4, PAGE) / PAGE }

  /** The loop of rt_system_heap_init that chooses the zone size. */
  method ChooseZoneSize(limsize: nat) returns (zoneSize: nat)
    ensures zoneSize == ZoneSize(limsize)
  {
    zoneSize := 32768;
    while zoneSize < 131072 && zoneSize * 2 < limsize / 1024
      invariant zoneSize == 32768 || (zoneSize == 65536 && 65536 < limsize / 1024)
        || (zoneSize == 131072 && 131072 < limsize / 1024)
      decreases 131072 - zoneSize
    {
      zoneSize := zoneSize * 2;
    }
  }

  lemma NoLists()
    ensures ListsOk(map[], seq(72, _ => []), [])
  {
    var lists: seq<seq<Zid>> := seq(72, _ => []);
    forall z: Zid ensures Listed(map[], lists, [], z) {
    }
  }

  lemma EmptyHeap(h: Heap, runs: seq<Pages.Run>)
    requires |h.usage| == |h.owner| && h.zonePages > 0 && h.hdr > 0 && h.zones == map[]
    requires forall i :: 0 <= i < |h.owner| ==> h.owner[i] == NoOne
    requires forall p: nat :: Pages.IsFree(runs, p) <==> h.start <= p < h.start + |h.owner|
    ensures HeapOk(h) && PagesMatch(h, runs) && forall q :: !Live(h, q)
  {
  }

  lemma TableFits(npages: nat)
    requires npages > 0
    ensures 0 < AlignUp(npages * 4, PAGE) / PAGE <= npages
  {
    Steps(npages * 4, PAGE);
  }

  function WithTable(h: Heap, b: nat, n: nat): Heap
    requires RangeIn(h, b, n)
  {
    h.(owner := Marked(h.owner, b - h.start, n, Table))
  }

  lemma TableOwners(h: Heap, b: nat, n: nat)
    requires RangeIn(h, b, n)
    ensures SameShape(h, WithTable(h, b, n)) && WithTable(h, b, n).zones == h.zones
    ensures forall x: nat :: OwnerOf(WithTable(h, b, n), x) == if b <= x < b + n then Table else OwnerOf(h, x)
    ensures forall x: nat :: UsageOf(WithTable(h, b, n), x) == UsageOf(h, x)
  {
  }

  lemma TableAdded(h: Heap, runs: seq<Pages.Run>, runs': seq<Pages.Run>, b: nat, n: nat)
    requires HeapOk(h) && PagesMatch(h, runs) && Pages.AllFree(runs, b, n) && n > 0 && h.zones == map[]
      && forall q :: !Live(h, q)
    requires forall p: nat :: Pages.IsFree(runs', p) <==> Pages.IsFree(runs, p) && !(b <= p < b + n)
    ensures RangeIn(h, b, n) && HeapOk(WithTable(h, b, n)) && PagesMatch(WithTable(h, b, n), runs')
    ensures forall q :: !Live(WithTable(h, b, n), q)
  {
    FreePagesUnowned(h, runs, b, n);
    hide PageOk, Marked;
    TableOwners(h, b, n);
    var k := WithTable(h, b, n);
    forall x: nat ensures PageOk(k, x) {
      assert PageOk(h, x);
      if OwnerOf(h, x).InLarge? { FirstOwned(h, x); }
      if !(b <= x < b + n) { PageKept(h, k, x); }
    }
    forall q ensures !Live(k, q) {
      assert !Live(h, q);
    }
  }

  lemma HeapShape(h: Heap)
    requires HeapOk(h)
    ensures |h.usage| == |h.owner| && h.zonePages > 0 && 0 < h.hdr
  {
  }

  lemma LargeTaken(h: Heap, runs: seq<Pages.Run>, runs': seq<Pages.Run>, b: nat, n: nat, m: map<int, int>)
    requires HeapOk(h) && PagesMatch(h, runs) && Pages.AllFree(runs, b, n) && n > 0
    requires forall p: nat :: Pages.IsFree(runs', p) <==> Pages.IsFree(runs, p) && !(b <= p < b + n)
    ensures RangeIn(h, b, n)
    ensures var k, p := WithLarge(h, b, n), Ptr(b * PAGE);
      && HeapOk(k) && Allocated(h, k, p) && PagesMatch(k, runs') && SizeAt(k, p) == n * PAGE
      && KeepsBlocks(h, m, Unlinked(m, runs'), p)
  {
    HeapShape(h);
    FreePagesUnowned(h, runs, b, n);
    LargeAdded(h, b, n);
    hide HeapOk, Live, SizeAt;
    UnlinkedKeeps(h, WithLarge(h, b, n), runs', m, Ptr(b * PAGE));
  }

  lemma KeepsSelf(h: Heap, m: map<int, int>, p: Ptr)
    ensures KeepsBlocks(h, m, m, p)
  {
  }

  lemma SameOwners(h: Heap, k: Heap, runs: seq<Pages.Run>)
    requires PagesMatch(h, runs) && k.owner == h.owner && k.start == h.start
    ensures PagesMatch(k, runs)
  {
  }

  lemma ZoneTaken(h: Heap, lists: seq<seq<Zid>>, parked: seq<Zid>, runs: seq<Pages.Run>, zi: nat)
    requires HeapOk(h) && ListsOk(h.zones, lists, parked) && PagesMatch(h, runs) && zi < 72 && |lists| == 72
      && lists[zi] != []
    ensures lists[zi][0] in h.zones
    ensures var z := lists[zi][0];
      h.zones[z].uindex + 1 >= 0 && (h.zones[z].uindex + 1 == h.zones[z].nmax ==> h.zones[z].free != [])
    ensures var z := lists[zi][0];
      var (w, p) := TakeChunk(h.zones[z]);
      var k := h.(zones := h.zones[z := w]);
      && HeapOk(k) && Allocated(h, k, p) && SizeAt(k, p) == SizeOfClass(zi) && PagesMatch(k, runs)
      && ListsOk(k.zones, if w.nfree == 0 then lists[zi := lists[zi][1..]] else lists, parked)
  {
    hide HeapOk, ListsOk, PagesMatch, IsLive, SizeOfClass;
    var z := lists[zi][0];
    ListedAt(h.zones, lists, parked, z);
    assert z in lists[zi];
    ZoneKnown(h, z);
    NeverEmpty(h.zones[z], z, h.zonePages * PAGE, h.hdr);
    TakeChunkOk(h.zones[z], z, h.zonePages * PAGE, h.hdr);
    var (w, p) := TakeChunk(h.zones[z]);
    ZoneUpdated(h, z, w, p);
    Taken(h.zones, lists, parked, zi, w);
    SameOwners(h, h.(zones := h.zones[z := w]), runs);
  }

  /** A new header is written where no live block is. */
  lemma HeaderKeeps(h: Heap, m: map<int, int>, z: Zid, p: Ptr, o: Owner)
    requires HeapOk(h) && 0 < h.hdr <= 128 && OwnerOf(h, z.page) == o
    requires forall q :: Live(h, q) ==> OwnerOf(h, q.addr / PAGE) != o
    ensures KeepsBlocks(h, m, Clobber(m, z.page * PAGE, h.hdr), p)
  {
    hide HeapOk, Live, KeepsBlocks, Clobber;
    forall a | z.page * PAGE <= a < z.page * PAGE + h.hdr ensures OwnerOf(h, a / PAGE) == o {
      PageOf(a, z.page, 1);
    }
    ClobberKeeps(h, m, z.page * PAGE, h.hdr, p, o);
  }

  lemma ZoneReused(h: Heap, lists: seq<seq<Zid>>, parked: seq<Zid>, runs: seq<Pages.Run>, n: nat, m: map<int, int>)
    requires HeapOk(h) && ListsOk(h.zones, lists, parked) && PagesMatch(h, runs) && parked != [] && h.hdr <= 128
    requires 0 < n < Min(h.zonePages * PAGE / 4, 16384) && (h.zonePages == 8 || h.zonePages == 16 || h.zonePages == 32)
    ensures |lists| == 72 && ZoneIndex(n) < 72
    ensures var z := parked[0];
      var w := NewZone(z, n, h.zonePages * PAGE, h.hdr);
      var k, p := h.(zones := h.zones[z := w]), At(w, 0);
      && HeapOk(k) && Allocated(h, k, p) && SizeAt(k, p) == ChunkSize(n) && PagesMatch(k, runs)
      && ListsOk(k.zones, lists[ZoneIndex(n) := [z] + lists[ZoneIndex(n)]], parked[1..])
      && KeepsBlocks(h, m, Clobber(m, z.page * PAGE, h.hdr), p)
  {
    hide HeapOk, ListsOk, PagesMatch, IsLive, SizeOfClass, ChunkSize, ZoneIndex, Offset, Clobber, KeepsBlocks;
    var z := parked[0];
    var w := NewZone(z, n, h.zonePages * PAGE, h.hdr);
    SmallestClass(n);
    HeapShape(h);
    NewZoneOk(z, n, h.zonePages * PAGE, h.hdr);
    Unparked(h.zones, lists, parked, w);
    ZoneKnown(h, z);
    forall q ensures !IsLive(h.zones[z], q) {
      FullIsUnused(h.zones[z], z, h.zonePages * PAGE, h.hdr, q);
    }
    ZoneUpdated(h, z, w, At(w, 0));
    SameOwners(h, h.(zones := h.zones[z := w]), runs);
    assert OwnerOf(h, z.page) == InZone(z);
    HeaderKeeps(h, m, z, At(w, 0), InZone(z));
  }

  lemma KeepsAgain(h: Heap, m: map<int, int>, n: map<int, int>, o: map<int, int>, p: Ptr)
    requires KeepsBlocks(h, m, n, p) && KeepsBlocks(h, n, o, p)
    ensures KeepsBlocks(h, m, o, p)
  {
    hide Live, SizeAt;
    KeepsTwice(h, h, m, n, o, p);
  }

  lemma ZoneTakenFromPages(h: Heap, lists: seq<seq<Zid>>, parked: seq<Zid>, runs: seq<Pages.Run>, runs': seq<Pages.Run>,
                           z: Zid, n: nat, m: map<int, int>)
    requires HeapOk(h) && ListsOk(h.zones, lists, parked) && PagesMatch(h, runs) && h.hdr <= 128
    requires 0 < n < Min(h.zonePages * PAGE / 4, 16384) && (h.zonePages == 8 || h.zonePages == 16 || h.zonePages == 32)
    requires Pages.AllFree(runs, z.page, h.zonePages)
    requires forall p: nat :: Pages.IsFree(runs', p) <==> Pages.IsFree(runs, p) && !(z.page <= p < z.page + h.zonePages)
    ensures |lists| == 72 && ZoneIndex(n) < 72 && RangeIn(h, z.page, h.zonePages)
    ensures var w := NewZone(z, n, h.zonePages * PAGE, h.hdr);
      var k, p := WithZone(h, z, w), At(w, 0);
      && HeapOk(k) && Allocated(h, k, p) && SizeAt(k, p) == ChunkSize(n) && PagesMatch(k, runs')
      && ListsOk(k.zones, lists[ZoneIndex(n) := [z] + lists[ZoneIndex(n)]], parked)
      && KeepsBlocks(h, m, Clobber(Unlinked(m, runs'), z.page * PAGE, h.hdr), p)
  {
    hide HeapOk, ListsOk, IsLive, SizeOfClass, ChunkSize, ZoneIndex, Offset, Clobber, KeepsBlocks, Unlinked;
    HeapShape(h);
    FreePagesUnowned(h, runs, z.page, h.zonePages);
    var w := NewZone(z, n, h.zonePages * PAGE, h.hdr);
    var k, p := WithZone(h, z, w), At(w, 0);
    SmallestClass(n);
    NewZoneOk(z, n, h.zonePages * PAGE, h.hdr);
    ZoneAdded(h, z, w, p);
    ZoneAddedOk(h, z, w);
    Added(h.zones, lists, parked, z, w);
    UnlinkedKeeps(h, k, runs', m, p);
    assert OwnerOf(h, z.page) == NoOne;
    HeaderKeeps(h, Unlinked(m, runs'), z, p, NoOne);
    KeepsAgain(h, m, Unlinked(m, runs'), Clobber(Unlinked(m, runs'), z.page * PAGE, h.hdr), p);
  }

  lemma LargeGiven(h: Heap, runs: seq<Pages.Run>, b: nat)
    requires HeapOk(h) && PagesMatch(h, runs) && Live(h, Ptr(b * PAGE)) && OwnerOf(h, b) == InLarge(b)
    ensures |h.usage| == |h.owner| && InHeap(h, b)
    ensures UsageOf(h, b).kind == Large && UsageOf(h, b).size > 0 && RangeIn(h, b, UsageOf(h, b).size)
    ensures Pages.NoneFree(runs, b, UsageOf(h, b).size)
    ensures SizeAt(h, Ptr(b * PAGE)) / PAGE == UsageOf(h, b).size
  {
    assert PageOk(h, b);
    LargeRange(h, b);
    PageStart(b);
    PageStart(UsageOf(h, b).size);
    OwnedPagesNotFree(h, runs, b, UsageOf(h, b).size, InLarge(b));
  }

  lemma LargeUnlinked(h: Heap, runs: seq<Pages.Run>, runs': seq<Pages.Run>, b: nat, n: nat, m: map<int, int>)
    requires HeapOk(h) && PagesMatch(h, runs) && Live(h, Ptr(b * PAGE)) && OwnerOf(h, b) == InLarge(b)
      && n == UsageOf(h, b).size
    requires forall p: nat :: Pages.IsFree(runs', p) <==> Pages.IsFree(runs, p) || b <= p < b + n
    ensures RangeIn(h, b, n) && n > 0
    ensures var k, p := WithoutLarge(h, b, n), Ptr(b * PAGE);
      HeapOk(k) && Released(h, k, p) && PagesMatch(k, runs') && KeepsBlocks(h, m, Unlinked(m, runs'), p)
  {
    hide HeapOk, Live, SizeAt, KeepsBlocks, Unlinked;
    LargeRemoved(h, b);
    UnlinkedKeeps(h, WithoutLarge(h, b, n), runs', m, Ptr(b * PAGE));
  }

  lemma NfreeBound(w: Zone, z: Zid, zoneSize: nat, hdr: nat)
    requires ZoneOk(w, z, zoneSize, hdr)
    ensures 0 <= w.nfree <= w.nmax
  {
    FreeChainBound(w, z, zoneSize, hdr);
  }

  /** A zone with a live chunk is not entirely free. */
  lemma NotParked(w: Zone, z: Zid, zoneSize: nat, hdr: nat, p: Ptr)
    requires ZoneOk(w, z, zoneSize, hdr) && IsLive(w, p)
    ensures 0 <= w.nfree < w.nmax
  {
    if w.nfree == w.nmax {
      FullIsUnused(w, z, zoneSize, hdr, p);
    }
    NfreeBound(w, z, zoneSize, hdr);
  }

  lemma ChunkReturned(h: Heap, lists: seq<seq<Zid>>, parked: seq<Zid>, runs: seq<Pages.Run>, z: Zid, p: Ptr,
                      m: map<int, int>)
    requires HeapOk(h) && ListsOk(h.zones, lists, parked) && PagesMatch(h, runs) && z in h.zones
      && IsLive(h.zones[z], p)
    ensures |lists| == 72 && h.zones[z].index < 72 && z !in parked
    ensures var w := PutChunk(h.zones[z], p);
      var k := h.(zones := h.zones[z := w]);
      && HeapOk(k) && Released(h, k, p) && PagesMatch(k, runs) && w.nfree > 0
      && ListsOk(k.zones, if h.zones[z].nfree == 0 then lists[w.index := [z] + lists[w.index]] else lists, parked)
      && KeepsBlocks(h, m, Clobber(m, p.addr, 8), p)
  {
    hide HeapOk, ListsOk, PagesMatch, Live, SizeAt, KeepsBlocks, Clobber, IsLive, SizeOfClass;
    var w := PutChunk(h.zones[z], p);
    ZoneKnown(h, z);
    ChunkPositive(h.zones[z], z, h.zonePages * PAGE, h.hdr);
    ListedAt(h.zones, lists, parked, z);
    NotParked(h.zones[z], z, h.zonePages * PAGE, h.hdr, p);
    PutChunkOk(h.zones[z], z, h.zonePages * PAGE, h.hdr, p);
    Returned(h.zones, lists, parked, z, w);
    ZoneUpdated(h, z, w, p);
    SameOwners(h, h.(zones := h.zones[z := w]), runs);
    ZoneUpdated(h, z, h.zones[z], p);
    assert h.zones[z := h.zones[z]] == h.zones;
    ClobberBlockKeeps(h, m, p, 8);
  }

  lemma ZoneGiven(h: Heap, lists: seq<seq<Zid>>, parked: seq<Zid>, runs: seq<Pages.Run>)
    requires HeapOk(h) && ListsOk(h.zones, lists, parked) && PagesMatch(h, runs) && parked != []
    ensures parked[0] in h.zones && ListsOk(h.zones - {parked[0]}, lists, parked[1..])
    ensures forall q :: !IsLive(h.zones[parked[0]], q)
    ensures RangeIn(h, parked[0].page, h.zonePages) && Pages.NoneFree(runs, parked[0].page, h.zonePages)
      && h.zonePages > 0
  {
    hide HeapOk, ListsOk, IsLive, PagesMatch, SizeOfClass;
    var z := parked[0];
    Dropped(h.zones, lists, parked);
    ZoneKnown(h, z);
    HeapShape(h);
    OwnedPagesNotFree(h, runs, z.page, h.zonePages, InZone(z));
    forall q ensures !IsLive(h.zones[z], q) {
      FullIsUnused(h.zones[z], z, h.zonePages * PAGE, h.hdr, q);
    }
  }

  lemma ZoneUnlinked(h: Heap, runs: seq<Pages.Run>, runs': seq<Pages.Run>, z: Zid, m: map<int, int>)
    requires HeapOk(h) && PagesMatch(h, runs) && z in h.zones && forall q :: !IsLive(h.zones[z], q)
    requires forall p: nat :: Pages.IsFree(runs', p) <==> Pages.IsFree(runs, p) || z.page <= p < z.page + h.zonePages
    ensures RangeIn(h, z.page, h.zonePages)
    ensures HeapOk(WithoutZone(h, z)) && PagesMatch(WithoutZone(h, z), runs')
    ensures forall q ::
      (Live(WithoutZone(h, z), q) <==> Live(h, q)) && (Live(h, q) ==> SizeAt(WithoutZone(h, z), q) == SizeAt(h, q))
    ensures forall p :: KeepsBlocks(h, m, Unlinked(m, runs'), p)
  {
    hide HeapOk, IsLive, KeepsBlocks, Unlinked, ZoneOk;
    ZoneKnown(h, z);
    ZoneRemoved(h, z);
    hide Live, SizeAt;
    forall p ensures KeepsBlocks(h, m, Unlinked(m, runs'), p) {
      UnlinkedKeeps(h, WithoutZone(h, z), runs', m, p);
    }
  }

  lemma ReleasedStill(h: Heap, k: Heap, l: Heap, m: map<int, int>, n: map<int, int>, o: map<int, int>, p: Ptr)
    requires Released(h, k, p) && KeepsBlocks(h, m, n, p) && KeepsBlocks(k, n, o, p)
    requires forall q :: (Live(l, q) <==> Live(k, q)) && (Live(l, q) ==> SizeAt(l, q) == SizeAt(k, q))
    ensures Released(h, l, p) && KeepsBlocks(h, m, o, p)
  {
    hide Live, SizeAt;
    KeepsTwice(h, k, m, n, o, p);
  }

  /** What rt_realloc of `p` promises when it returns the block `q`: it is large enough and begins with the
      contents of `p`, up to the smaller of the two sizes; `p` is gone unless it is `q` itself; and no other
      live block has changed. */
  ghost predicate Moved(h: Heap, k: Heap, m: map<int, int>, n: map<int, int>, p: Ptr, q: Ptr, size: nat) {
    && Live(k, q) && SizeAt(k, q) >= size
    && CopiedRange(n, m, q.addr, p.addr, Min(SizeAt(h, p), size))
    && (q != p ==> !Live(h, q) && !Live(k, p))
    && forall x :: x != p && x != q ==>
         && (Live(k, x) <==> Live(h, x))
         && (Live(h, x) ==> SizeAt(k, x) == SizeAt(h, x) && SameBytes(m, n, x.addr, SizeAt(h, x)))
  }

  /** The request of rt_realloc after zoneindex has rounded it. */
  function Rounded(size: nat): nat
    requires size > 0
  {
    if size < 16384 then ChunkSize(size) else size
  }

  lemma RoundedFits(size: nat)
    requires size > 0
    ensures Rounded(size) >= size
  {
    if size < 16384 { SmallestClass(size); }
  }

  lemma StaysPut(h: Heap, m: map<int, int>, p: Ptr, size: nat)
    requires Live(h, p) && SizeAt(h, p) >= size
    ensures Moved(h, h, m, m, p, p, size)
  {
    hide Live, SizeAt;
    forall i | p.addr <= i < p.addr + Min(SizeAt(h, p), size) ensures Copied(m, m, p.addr, p.addr, i) {
    }
  }

  lemma MovedSmaller(h: Heap, k: Heap, m: map<int, int>, n: map<int, int>, p: Ptr, q: Ptr, size: nat, smaller: nat)
    requires Moved(h, k, m, n, p, q, size) && smaller <= size
    ensures Moved(h, k, m, n, p, q, smaller)
  {
    hide Live, SizeAt, SameBytes;
    CopiedShorter(n, m, q.addr, p.addr, Min(SizeAt(h, p), size), Min(SizeAt(h, p), smaller));
  }

  lemma NewBlock(h: Heap, k: Heap, p: Ptr, q: Ptr)
    requires Live(h, p) && Allocated(h, k, q)
    ensures p != q && Live(k, p) && Live(k, q) && SizeAt(k, p) == SizeAt(h, p)
  {
    hide Live, SizeAt;
  }

  /** Allocating `q`, copying into it, and freeing `p`. */
  lemma MovedSteps(h: Heap, h1: Heap, k: Heap, m: map<int, int>, m1: map<int, int>, m2: map<int, int>,
                   n: map<int, int>, p: Ptr, q: Ptr, size: nat)
    requires Live(h, p) && Allocated(h, h1, q) && Released(h1, k, p) && HeapOk(h1) && SizeAt(h1, q) >= size
    requires KeepsBlocks(h, m, m1, q) && KeepsBlocks(h1, m2, n, p)
    requires CopiedRange(m2, m1, q.addr, p.addr, Min(size, SizeAt(h, p)))
    requires forall i :: !(q.addr <= i < q.addr + Min(size, SizeAt(h, p))) ==> SameByte(m2, i, m1, i)
    ensures Moved(h, k, m, n, p, q, size)
  {
    hide Live, SizeAt, HeapOk;
    NewBlock(h, h1, p, q);
    var len := Min(SizeAt(h, p), size);
    assert SameBytes(m, m1, p.addr, SizeAt(h, p));
    assert SameBytes(m2, n, q.addr, SizeAt(h1, q));
    forall i | q.addr <= i < q.addr + len ensures Copied(n, m, q.addr, p.addr, i) {
      assert Copied(m2, m1, q.addr, p.addr, i) && SameByte(m2, i, n, i);
      assert SameByte(m, i - q.addr + p.addr, m1, i - q.addr + p.addr);
    }
    forall x | x != p && x != q && Live(h, x) ensures SameBytes(m, n, x.addr, SizeAt(h, x)) {
      BlocksDisjoint(h1, x, q);
      assert SameBytes(m, m1, x.addr, SizeAt(h, x)) && SameBytes(m2, n, x.addr, SizeAt(h1, x));
      forall i | x.addr <= i < x.addr + SizeAt(h, x) ensures SameByte(m, i, n, i) {
        assert SameByte(m, i, m1, i) && SameByte(m2, i, n, i);
        assert SameByte(m2, i, m1, i);
      }
    }
  }

  /** Everything that changes in the allocator. */
  datatype State = State(
    heap: Heap,
    mem: map<int, int>,
    lists: seq<seq<Zid>>,
    parked: seq<Zid>,
    zoneFreeCnt: int,
    runs: seq<Pages.Run>)

  class Slab {
    const start: nat                  // heap_start / RT_MM_PAGE_SIZE
    const zonePages: nat              // zone_page_cnt
    const hdr: nat                    // sizeof(slab_zone)
    const pages: Pages.PageList
    var usage: seq<Usage>             // memusage
    var zones: map<Zid, Zone>         // the zone headers
    var lists: seq<seq<Zid>>          // zone_array
    var parked: seq<Zid>              // zone_free
    var zoneFreeCnt: int
    var mem: map<int, int>
    ghost var owner: seq<Owner>

    ghost function H(): Heap reads `usage, `zones, `owner { Heap(start, zonePages, hdr, owner, usage, zones) }

    ghost function S(): State
      reads `usage, `zones, `owner, `mem, `lists, `parked, `zoneFreeCnt, pages
    {
      State(H(), mem, lists, parked, zoneFreeCnt, pages.runs)
    }

    /** zone_limit */
    function ZoneLimit(): nat { Min(zonePages * PAGE / 4, 16384) }

    /** Whether rt_malloc hands out null: a request below a quarter of a zone and 16 KiB needs a zone of its class, a
        parked zone or the pages for a zone, and any other one its own pages. */
    ghost predicate MallocFails(size: nat) reads `lists, `parked, pages {
      || size == 0
      || if size < zonePages * PAGE / 4 && size < 16384
         then ZoneIndex(size) < |lists| && lists[ZoneIndex(size)] == [] && parked == [] && NoRun(pages.runs, zonePages)
         else NoRun(pages.runs, (size + PAGE - 1) / PAGE)
    }

    /** Whether rt_realloc hands out null for the live block at `p` and a size that is not 0. */
    ghost predicate ReallocFails(p: Ptr, size: nat)
      requires size > 0
      reads `usage, `owner, `zones, `lists, `parked, pages
    {
      if OwnerOf(H(), p.addr / PAGE).InLarge? then MallocFails(size)
      else var rounded := if size < 16384 then ChunkSize(size) else size;
        SizeAt(H(), p) != rounded && MallocFails(rounded)
    }

    ghost predicate Valid() reads this, pages {
      && pages.Valid() && HeapOk(H()) && ListsOk(zones, lists, parked) && PagesMatch(H(), pages.runs)
      && zoneFreeCnt == |parked| <= 2
      && (zonePages == 8 || zonePages == 16 || zonePages == 32) && hdr <= 128
    }

    /** rt_system_heap_init for the pages from `start` on; `unset` is what the usage table happens to
        hold. */
    constructor (start: nat, npages: nat, hdr: nat, unset: seq<Usage>)
      requires npages > 0 && 0 < hdr <= 128 && |unset| == npages
      ensures Valid() && fresh(pages) && this.start == start && |owner| == npages && this.hdr == hdr
      ensures zonePages * PAGE == ZoneSize(npages * PAGE)
      ensures forall p: nat :: Pages.IsFree(pages.runs, p) <==> start + TablePages(npages) <= p < start + npages
      ensures (forall q :: !Live(H(), q)) && zones == map[] && parked == [] && lists == seq(72, _ => [])
    {
      var zoneSize := ChooseZoneSize(npages * PAGE);
      var ps := new Pages.PageList(start, npages);
      this.start, this.hdr, usage, pages := start, hdr, unset, ps;
      zonePages := zoneSize / PAGE;
      zones, lists, parked, zoneFreeCnt := map[], seq(72, _ => []), [], 0;
      mem := map[];
      owner := seq(npages, _ => NoOne);
      new;
      hide HeapOk, PagesMatch, Live, Aligned, AlignUp, Pages.Freed, Pages.Canonical, ListsOk, TablePages;
      EmptyHeap(H(), pages.runs);
      NoLists();
      PlaceTable(npages);
    }

    /** The usage table gets the first pages. */
    method PlaceTable(npages: nat)
      requires pages.Valid() && HeapOk(H()) && PagesMatch(H(), pages.runs) && |owner| == npages > 0 && zones == map[]
      requires (forall p: nat :: Pages.IsFree(pages.runs, p) <==> start <= p < start + npages)
        && forall q :: !Live(H(), q)
      modifies `owner, pages
      ensures pages.Valid() && HeapOk(H()) && PagesMatch(H(), pages.runs) && |owner| == npages
      ensures forall p: nat :: Pages.IsFree(pages.runs, p) <==> start + TablePages(npages) <= p < start + npages
      ensures forall q :: !Live(H(), q)
    {
      hide HeapOk, PagesMatch, Live, Aligned, AlignUp, Pages.Freed, Pages.Canonical, Marked;
      var n := AlignUp(npages * 4, PAGE) / PAGE;
      TableFits(npages);
      assert Pages.AllFree(pages.runs, start, n);
      ghost var h, runs := H(), pages.runs;
      var b := pages.Alloc(n);
      assert Pages.AllFree(runs, b.value, n) && Pages.IsFree(runs, b.value);
      TableAdded(h, runs, pages.runs, b.value, n);
      owner := Marked(owner, b.value - start, n, Table);
    }

    /** The part of rt_malloc for large requests. */
    method LargeAlloc(size: nat) returns (p: Option<Ptr>)
      requires Valid() && size > 0
      modifies `usage, `owner, `mem, pages
      ensures Valid()
      ensures p.None? ==> S() == old(S())
      ensures p.None? <==> NoRun(old(pages.runs), (size + PAGE - 1) / PAGE)
      ensures p.Some? ==>
        && Pages.Taken(old(pages.runs), p.value.addr / PAGE, (size + PAGE - 1) / PAGE, pages.runs)
        && OwnerOf(H(), p.value.addr / PAGE) == InLarge(p.value.addr / PAGE)
        && SizeAt(H(), p.value) == (size + PAGE - 1) / PAGE * PAGE
        && Allocated(old(H()), H(), p.value) && SizeAt(H(), p.value) >= size
        && KeepsBlocks(old(H()), old(mem), mem, p.value)
    {
      hide HeapOk, ListsOk, PagesMatch, Live, SizeAt, KeepsBlocks, Unlinked, Aligned, AlignUp, Allocated;
      Steps(size, PAGE);
      var n := AlignUp(size, PAGE) / PAGE;
      ghost var h, runs := H(), pages.runs;
      var b := pages.Alloc(n);
      if b.None? {
        return None;
      }
      LargeTaken(h, runs, pages.runs, b.value, n, mem);
      usage := usage[b.value - start := Usage(Large, n)];
      owner := Marked(owner, b.value - start, n, InLarge(b.value));
      mem := Unlinked(mem, pages.runs);
      assert H() == WithLarge(h, b.value, n);
      return Some(Ptr(b.value * PAGE));
    }

    /** The part of rt_malloc that takes a chunk from the first zone of class `zi`. */
    method FromZone(zi: nat) returns (p: Ptr)
      requires Valid() && zi < 72 && lists[zi] != []
      modifies `zones, `lists
      ensures Valid()
      ensures Allocated(old(H()), H(), p) && SizeAt(H(), p) == SizeOfClass(zi)
      ensures var z := old(lists[zi][0]);
        && z in old(zones) && zones.Keys == old(zones.Keys)
        && (forall y :: y in zones && y != z ==> zones[y] == old(zones[y]))
        && lists == old(lists)[zi := if old(zones)[z].nfree == 1 then old(lists[zi])[1..] else old(lists[zi])]
    {
      hide HeapOk, ListsOk, PagesMatch, Live, SizeAt, Allocated, SizeOfClass;
      SizeIs(zones, lists, parked);
      ZoneTaken(H(), lists, parked, pages.runs, zi);
      var z := lists[zi][0];
      var header := zones[z];
      header := header.(nfree := header.nfree - 1);
      if header.nfree == 0 {
        lists := lists[zi := lists[zi][1..]];
      }
      if header.uindex + 1 != header.nmax {
        header := header.(uindex := header.uindex + 1);
        p := At(header, header.uindex);
      } else {
        p := header.free[0];
        header := header.(free := header.free[1..]);
      }
      zones := zones[z := header];
    }

    /** The header of the zone `id` is written for requests of `n` bytes, and its first chunk is taken. */
    method LayOut(id: Zid, n: nat) returns (p: Ptr)
      requires 0 < n < 16384 && ZoneIndex(n) < |lists|
      modifies `zones, `lists, `mem
      ensures var w := NewZone(id, n, zonePages * PAGE, hdr);
        && p == At(w, 0) && zones == old(zones)[id := w] && mem == Clobber(old(mem), id.page * PAGE, hdr)
        && lists == old(lists)[ZoneIndex(n) := [id] + old(lists[ZoneIndex(n)])]
    {
      mem := Clobber(mem, id.page * PAGE, hdr);
      var w := NewZone(id, n, zonePages * PAGE, hdr);
      zones := zones[id := w];
      lists := lists[ZoneIndex(n) := [id] + lists[ZoneIndex(n)]];
      return At(w, 0);
    }

    /** The part of rt_malloc that reuses the first parked zone for requests of `n` bytes. */
    method FromParked(n: nat) returns (p: Ptr)
      requires Valid() && 0 < n < ZoneLimit() && parked != []
      modifies `zones, `lists, `parked, `zoneFreeCnt, `mem
      ensures Valid() && Allocated(old(H()), H(), p) && SizeAt(H(), p) == ChunkSize(n)
      ensures KeepsBlocks(old(H()), old(mem), mem, p)
      ensures ZoneIndex(n) < |old(lists)| && zones.Keys == old(zones.Keys) && parked == old(parked)[1..]
      ensures lists == old(lists)[ZoneIndex(n) := [old(parked)[0]] + old(lists[ZoneIndex(n)])]
    {
      hide HeapOk, ListsOk, PagesMatch, Live, SizeAt, Allocated, SizeOfClass, ChunkSize, ZoneIndex, NewZone,
        KeepsBlocks, Clobber, Unlinked, IsLive, ZoneOk;
      ZoneReused(H(), lists, parked, pages.runs, n, mem);
      var id := parked[0];
      ListedAt(zones, lists, parked, id);
      parked := parked[1..];
      zoneFreeCnt := zoneFreeCnt - 1;
      p := LayOut(id, n);
    }

    /** The part of rt_malloc that lays out new pages as a zone for requests of `n` bytes. */
    method FromPages(n: nat) returns (p: Option<Ptr>, ghost id: Zid)
      requires Valid() && 0 < n < ZoneLimit()
      modifies `zones, `lists, `usage, `owner, `mem, pages
      ensures Valid()
      ensures p.None? ==> S() == old(S())
      ensures p.None? <==> NoRun(old(pages.runs), zonePages)
      ensures p.Some? ==> Allocated(old(H()), H(), p.value) && SizeAt(H(), p.value) == ChunkSize(n)
      ensures p.Some? ==> KeepsBlocks(old(H()), old(mem), mem, p.value)
      ensures p.Some? ==>
        && ZoneIndex(n) < |old(lists)| && lists == old(lists)[ZoneIndex(n) := [id] + old(lists[ZoneIndex(n)])]
        && zones.Keys == old(zones.Keys) + {id} && Pages.Taken(old(pages.runs), id.page, zonePages, pages.runs)
    {
      hide HeapOk, ListsOk, PagesMatch, Live, SizeAt, Allocated, SizeOfClass, ChunkSize, ZoneIndex, NewZone,
        KeepsBlocks, Clobber, Unlinked, IsLive, ZoneOk, MarkedZone, Marked;
      ghost var h, runs := H(), pages.runs;
      id := Zid(0);
      var b := pages.Alloc(zonePages);
      if b.None? {
        return None, id;
      }
      var z := Zid(b.value);
      id := z;
      ZoneTakenFromPages(h, lists, parked, runs, pages.runs, z, n, mem);
      MarkPages(b.value);
      owner := Marked(owner, b.value - start, zonePages, InZone(z));
      mem := Unlinked(mem, pages.runs);
      var q := LayOut(z, n);
      assert H() == WithZone(h, z, NewZone(z, n, zonePages * PAGE, hdr));
      p := Some(q);
    }

    /** The part of rt_malloc that needs another zone, a parked one if there is one. */
    method FromNewZone(n: nat) returns (p: Option<Ptr>, ghost id: Zid)
      requires Valid() && 0 < n < ZoneLimit()
      modifies `zones, `lists, `parked, `zoneFreeCnt, `usage, `owner, `mem, pages
      ensures Valid()
      ensures p.None? ==> S() == old(S())
      ensures p.None? <==> old(parked) == [] && NoRun(old(pages.runs), zonePages)
      ensures p.Some? ==> Allocated(old(H()), H(), p.value) && SizeAt(H(), p.value) == ChunkSize(n)
      ensures p.Some? ==> KeepsBlocks(old(H()), old(mem), mem, p.value)
      ensures p.Some? ==>
        && ZoneIndex(n) < |old(lists)| && lists == old(lists)[ZoneIndex(n) := [id] + old(lists[ZoneIndex(n)])]
        && if old(parked) != []
           then id == old(parked)[0] && parked == old(parked)[1..] && pages.runs == old(pages.runs)
                && zones.Keys == old(zones.Keys)
           else parked == [] && zones.Keys == old(zones.Keys) + {id}
                && Pages.Taken(old(pages.runs), id.page, zonePages, pages.runs)
    {
      hide HeapOk, ListsOk, PagesMatch, Live, SizeAt, Allocated, ChunkSize, ZoneIndex, KeepsBlocks;
      if parked != [] {
        id := parked[0];
        var q := FromParked(n);
        p := Some(q);
      } else {
        p, id := FromPages(n);
      }
    }

    /** The loop that enters the pages of a zone into the usage table. */
    method MarkPages(b: nat)
      requires start <= b && b - start + zonePages <= |usage|
      modifies `usage
      ensures usage == MarkedZone(old(usage), b - start, zonePages)
    {
      var off := 0;
      while off < zonePages
        invariant 0 <= off <= zonePages && |usage| == |old(usage)|
        invariant forall i :: 0 <= i < |usage| ==>
          usage[i] == if b - start <= i < b - start + off then Usage(Small, i - (b - start)) else old(usage)[i]
      {
        usage := usage[b - start + off := Usage(Small, off)];
        off := off + 1;
      }
    }

    /** rt_malloc. The block that is returned is new, large enough and apart from all other live blocks,
        which keep their contents. It fails exactly when there are not enough pages in a row and, for a
        small request, also no zone of its class with a free chunk and no parked zone. */
    method Malloc(size: nat) returns (p: Option<Ptr>)
      requires Valid()
      modifies `zones, `lists, `parked, `zoneFreeCnt, `usage, `owner, `mem, pages
      ensures Valid()
      ensures p.None? ==> S() == old(S())
      ensures p.None? <==> old(MallocFails(size))
      ensures p.Some? ==> Allocated(old(H()), H(), p.value) && SizeAt(H(), p.value) >= size > 0
      ensures p.Some? ==> KeepsBlocks(old(H()), old(mem), mem, p.value)
      ensures p.Some? && size < zonePages * PAGE / 4 && size < 16384 ==>
        var k := ZoneIndex(size);
        && k < |old(lists)| && SizeAt(H(), p.value) == ChunkSize(size)
        && if old(lists[k]) != [] then
             var z := old(lists[k][0]);
             && z in old(zones) && zones.Keys == old(zones.Keys)
             && parked == old(parked) && pages.runs == old(pages.runs)
             && lists == old(lists)[k := if old(zones)[z].nfree == 1 then old(lists[k])[1..] else old(lists[k])]
           else if old(parked) != [] then
             && parked == old(parked)[1..] && pages.runs == old(pages.runs) && zones.Keys == old(zones.Keys)
             && lists == old(lists)[k := [old(parked)[0]]]
           else
             && parked == [] && exists z: Zid {:trigger Pages.Taken(old(pages.runs), z.page, zonePages, pages.runs)} ::
               && lists == old(lists)[k := [z]] && zones.Keys == old(zones.Keys) + {z}
               && Pages.Taken(old(pages.runs), z.page, zonePages, pages.runs)
      ensures p.Some? && !(size < zonePages * PAGE / 4 && size < 16384) ==>
        && lists == old(lists) && parked == old(parked) && zones == old(zones)
        && Pages.Taken(old(pages.runs), p.value.addr / PAGE, (size + PAGE - 1) / PAGE, pages.runs)
        && SizeAt(H(), p.value) == (size + PAGE - 1) / PAGE * PAGE
    {
      hide HeapOk, ListsOk, PagesMatch, Live, SizeAt, Allocated, SizeOfClass, ChunkSize, ZoneIndex, KeepsBlocks,
        Unlinked, AlignUp, Pages.AllFree;
      if size == 0 {
        return None;
      }
      if size >= ZoneLimit() {
        p := LargeAlloc(size);
        return;
      }
      SmallestClass(size);
      var zi := ZoneIndex(size);
      SizeIs(zones, lists, parked);
      if lists[zi] != [] {
        var q := FromZone(zi);
        KeepsSelf(old(H()), mem, q);
        return Some(q);
      }
      ghost var z;
      p, z := FromNewZone(size);
      assert [z] + [] == [z];
    }

    /** The part of rt_free for large blocks. */
    method FreeLarge(b: nat)
      requires Valid() && Live(H(), Ptr(b * PAGE)) && OwnerOf(H(), b) == InLarge(b)
      modifies `usage, `owner, `mem, pages
      ensures Valid()
      ensures Released(old(H()), H(), Ptr(b * PAGE)) && KeepsBlocks(old(H()), old(mem), mem, Ptr(b * PAGE))
      ensures Pages.Freed(old(pages.runs), b, SizeAt(old(H()), Ptr(b * PAGE)) / PAGE, pages.runs)
    {
      hide HeapOk, ListsOk, PagesMatch, Live, KeepsBlocks, Unlinked, Released;
      ghost var h, runs := H(), pages.runs;
      LargeGiven(h, runs, b);
      var size := usage[b - start].size;
      usage := usage[b - start := usage[b - start].(size := 0)];
      pages.Free(b, size);
      owner := Marked(owner, b - start, size, NoOne);
      assert H() == WithoutLarge(h, b, size);
      LargeUnlinked(h, runs, pages.runs, b, size, mem);
      mem := Unlinked(mem, pages.runs);
    }

    /** The part of rt_free that puts a chunk back on the free chain of its zone and the zone back on
        its list. */
    method ReturnChunk(z: Zid, p: Ptr)
      requires Valid() && z in zones && IsLive(zones[z], p)
      modifies `zones, `lists, `mem
      ensures Valid() && zones.Keys == old(zones.Keys) && z in zones && zones[z].nfree > 0 && zones[z].index < 72
      ensures z !in parked && z in lists[zones[z].index]
      ensures zones == old(zones)[z := PutChunk(old(zones[z]), p)]
      ensures var c, n := old(zones[z]).index, old(zones[z]).nfree;
        lists == old(lists)[c := if n == 0 then [z] + old(lists[c]) else old(lists[c])]
      ensures Released(old(H()), H(), p) && KeepsBlocks(old(H()), old(mem), mem, p)
    {
      hide HeapOk, ListsOk, PagesMatch, Live, KeepsBlocks, Released, IsLive, Clobber;
      ChunkReturned(H(), lists, parked, pages.runs, z, p, mem);
      var header := zones[z];
      mem := Clobber(mem, p.addr, 8);
      header := header.(free := [p] + header.free);
      header := header.(nfree := header.nfree + 1);
      if header.nfree - 1 == 0 {
        lists := lists[header.index := [z] + lists[header.index]];
      }
      zones := zones[z := header];
      ListedAt(zones, lists, parked, z);
    }

    /** The part of rt_free that moves an entirely free zone to the parked zones. */
    method Park(z: Zid)
      requires Valid() && z in zones && zones[z].nfree == zones[z].nmax && zones[z].index < 72
        && z in lists[zones[z].index]
      modifies `lists, `parked, `zoneFreeCnt
      ensures ListsOk(zones, lists, parked) && parked == [z] + old(parked) && zoneFreeCnt == |parked|
      ensures lists == old(lists)[zones[z].index := Removed(old(lists[zones[z].index]), z)]
    {
      hide HeapOk, ListsOk, PagesMatch, Removed;
      SizeIs(zones, lists, parked);
      ListedAt(zones, lists, parked, z);
      var c := zones[z].index;
      var k := 0;
      while lists[c][k] != z
        invariant 0 <= k < |lists[c]| && z in lists[c][k..]
        decreases |lists[c]| - k
      {
        k := k + 1;
      }
      Parked(zones, lists, parked, c, k);
      RemovedIs(lists[c], k);
      lists := lists[c := lists[c][..k] + lists[c][k + 1..]];
      parked := [z] + parked;
      zoneFreeCnt := zoneFreeCnt + 1;
    }

    /** The part of rt_free that gives the pages of the first parked zone back. */
    method ReleaseZone()
      requires pages.Valid() && HeapOk(H()) && ListsOk(zones, lists, parked) && PagesMatch(H(), pages.runs)
        && parked != []
      modifies `usage, `owner, `zones, `parked, `zoneFreeCnt, `mem, pages
      ensures pages.Valid() && HeapOk(H()) && ListsOk(zones, lists, parked) && PagesMatch(H(), pages.runs)
      ensures zoneFreeCnt == old(zoneFreeCnt) - 1 && parked == old(parked)[1..]
      ensures zones == old(zones) - {old(parked)[0]}
      ensures Pages.Freed(old(pages.runs), old(parked)[0].page, zonePages, pages.runs)
      ensures forall q ::
        (Live(H(), q) <==> Live(old(H()), q)) && (Live(H(), q) ==> SizeAt(H(), q) == SizeAt(old(H()), q))
      ensures forall p :: KeepsBlocks(old(H()), old(mem), mem, p)
    {
      hide HeapOk, ListsOk, PagesMatch, Live, SizeAt, KeepsBlocks, Unlinked;
      ghost var h, runs := H(), pages.runs;
      var z := parked[0];
      ZoneGiven(h, lists, parked, runs);
      ClearPages(z.page);
      pages.Free(z.page, zonePages);
      parked := parked[1..];
      zoneFreeCnt := zoneFreeCnt - 1;
      zones := zones - {z};
      owner := Marked(owner, z.page - start, zonePages, NoOne);
      assert H() == WithoutZone(h, z);
      ZoneUnlinked(h, runs, pages.runs, z, mem);
      mem := Unlinked(mem, pages.runs);
    }

    /** The loop that clears the pages of a zone in the usage table. */
    method ClearPages(b: nat)
      requires start <= b && b - start + zonePages <= |usage|
      modifies `usage
      ensures usage == Marked(old(usage), b - start, zonePages, Usage(FreePage, 0))
    {
      var i := 0;
      while i < zonePages
        invariant 0 <= i <= zonePages && |usage| == |old(usage)|
        invariant forall j :: 0 <= j < |usage| ==>
          usage[j] == if b - start <= j < b - start + i then Usage(FreePage, 0) else old(usage)[j]
      {
        usage := usage[b - start + i := Usage(FreePage, 0)];
        i := i + 1;
      }
    }

    lemma HasOther(l: seq<Zid>, z: Zid)
      requires z in l && NoDup(l)
      ensures l != [z] <==> exists y :: y in l && y != z
    {
      if l != [z] {
        assert |l| > 1 && l[0] != l[1];
        assert l[0] in l && l[1] in l;
      }
    }

    /** The part of rt_free for the chunk `p` of the zone `z`. */
    method FreeChunk(z: Zid, p: Ptr)
      requires Valid() && z in zones && IsLive(zones[z], p)
      modifies `zones, `lists, `parked, `zoneFreeCnt, `usage, `owner, `mem, pages
      ensures Valid()
      ensures Released(old(H()), H(), p) && KeepsBlocks(old(H()), old(mem), mem, p)
      ensures old(zones[z]).index < |old(lists)|
        && var w, c := old(zones[z]), old(zones[z]).index;
           var l := if w.nfree == 0 then [z] + old(lists)[c] else old(lists)[c];
           if w.nfree + 1 == w.nmax && exists y :: y in old(lists)[c] && y != z then
             && lists == old(lists)[c := Removed(l, z)]
             && if old(zoneFreeCnt) < 2
                then parked == [z] + old(parked) && zones == old(zones)[z := PutChunk(w, p)]
                     && pages.runs == old(pages.runs)
                else parked == old(parked) && zones == old(zones) - {z}
                     && Pages.Freed(old(pages.runs), z.page, zonePages, pages.runs)
           else
             && lists == old(lists)[c := l] && parked == old(parked) && pages.runs == old(pages.runs)
             && zones == old(zones)[z := PutChunk(w, p)]
    {
      hide HeapOk, ListsOk, PagesMatch, Live, KeepsBlocks, Released, IsLive, Removed, Pages.Freed;
      SizeIs(zones, lists, parked);
      ghost var w, c := zones[z], zones[z].index;
      ReturnChunk(z, p);
      ghost var l := lists[c];
      SizeIs(zones, lists, parked);
      ListedAt(zones, lists, parked, z);
      HasOther(l, z);
      var others := lists[zones[z].index] != [z];
      if zones[z].nfree == zones[z].nmax && others {
        Park(z);
        if zoneFreeCnt > 2 {
          ghost var h, m := H(), mem;
          ReleaseZone();
          ReleasedStill(old(H()), h, H(), old(mem), m, mem, p);
        }
      }
    }

    /** rt_free of a live block: exactly that block goes, all others keep their sizes and contents. A zone that
        becomes entirely free is parked if its class has another zone to allocate from; with two zones parked
        already, its pages are given back. */
    method Free(ptr: Option<Ptr>)
      requires Valid() && (ptr.Some? ==> Live(H(), ptr.value))
      modifies `zones, `lists, `parked, `zoneFreeCnt, `usage, `owner, `mem, pages
      ensures Valid() && zoneFreeCnt <= 2
      ensures ptr.None? ==> H() == old(H()) && mem == old(mem)
      ensures ptr.Some? ==> Released(old(H()), H(), ptr.value) && KeepsBlocks(old(H()), old(mem), mem, ptr.value)
      ensures ptr.Some? && OwnerOf(old(H()), ptr.value.addr / PAGE).InLarge? ==>
        && zones == old(zones) && lists == old(lists) && parked == old(parked)
        && Pages.Freed(old(pages.runs), ptr.value.addr / PAGE, SizeAt(old(H()), ptr.value) / PAGE, pages.runs)
      ensures ptr.Some? && OwnerOf(old(H()), ptr.value.addr / PAGE).InZone? ==>
        var z := OwnerOf(old(H()), ptr.value.addr / PAGE).z;
        && z in old(zones) && old(zones[z]).index < |old(lists)|
        && var w, c := old(zones[z]), old(zones[z]).index;
           var l := if w.nfree == 0 then [z] + old(lists)[c] else old(lists)[c];
           if w.nfree + 1 == w.nmax && exists y :: y in old(lists)[c] && y != z then
             && lists == old(lists)[c := Removed(l, z)]
             && if old(zoneFreeCnt) < 2
                then parked == [z] + old(parked) && zones == old(zones)[z := PutChunk(w, ptr.value)]
                     && pages.runs == old(pages.runs)
                else parked == old(parked) && zones == old(zones) - {z}
                     && Pages.Freed(old(pages.runs), z.page, zonePages, pages.runs)
           else
             && lists == old(lists)[c := l] && parked == old(parked) && pages.runs == old(pages.runs)
             && zones == old(zones)[z := PutChunk(w, ptr.value)]
    {
      hide HeapOk, ListsOk, PagesMatch, Live, KeepsBlocks, Released, IsLive, Removed, Pages.Freed, PutChunk;
      if ptr.None? {
        return;
      }
      var p := ptr.value;
      Lookup(H(), p);
      var kup := usage[p.addr / PAGE - start];
      if kup.kind == Large {
        FreeLarge(p.addr / PAGE);
        return;
      }
      var z := Zid(p.addr / PAGE - kup.size);
      FreeChunk(z, p);
    }

    /** The common end of rt_realloc: a new block gets the first bytes of the old one, which is freed. */
    method Move(p: Ptr, size: nat, osize: nat) returns (q: Option<Ptr>)
      requires Valid() && Live(H(), p) && size > 0 && osize == SizeAt(H(), p)
      modifies `zones, `lists, `parked, `zoneFreeCnt, `usage, `owner, `mem, pages
      ensures Valid()
      ensures q.None? <==> old(MallocFails(size))
      ensures q.None? ==> S() == old(S())
      ensures q.Some? ==> q.value != p && Moved(old(H()), H(), old(mem), mem, p, q.value, size)
    {
      hide HeapOk, ListsOk, PagesMatch, Live, SizeAt, KeepsBlocks, Allocated, Released, Moved, CopiedRange, MallocFails;
      ghost var h, m := H(), mem;
      q := Malloc(size);
      if q.None? {
        return;
      }
      ghost var h1, m1 := H(), mem;
      NewBlock(h, h1, p, q.value);
      BlocksDisjoint(h1, p, q.value);
      mem := CopyBytes(mem, q.value.addr, p.addr, Min(size, osize));
      ghost var m2 := mem;
      Free(Some(p));
      MovedSteps(h, h1, H(), m, m1, m2, mem, p, q.value, size);
    }

    /** rt_realloc. A null result for a non-zero size leaves the old block as it was. */
    method Realloc(ptr: Option<Ptr>, size: nat) returns (q: Option<Ptr>)
      requires Valid() && (ptr.Some? ==> Live(H(), ptr.value))
      modifies `zones, `lists, `parked, `zoneFreeCnt, `usage, `owner, `mem, pages
      ensures Valid()
      ensures q.None? <==> if ptr.None? then old(MallocFails(size)) else size == 0 || old(ReallocFails(ptr.value, size))
      ensures ptr.None? && q.Some? ==> Allocated(old(H()), H(), q.value) && SizeAt(H(), q.value) >= size
      ensures ptr.None? && q.Some? ==> KeepsBlocks(old(H()), old(mem), mem, q.value)
      ensures ptr.Some? && size == 0 ==> q.None? && Released(old(H()), H(), ptr.value)
      ensures ptr.Some? && size == 0 ==> KeepsBlocks(old(H()), old(mem), mem, ptr.value)
      ensures q.None? && (ptr.None? || size != 0) ==> S() == old(S())
      ensures ptr.Some? && q.Some? ==> Moved(old(H()), H(), old(mem), mem, ptr.value, q.value, size)
      ensures ptr.Some? && size != 0 && q.Some? ==>
        (q == ptr <==> OwnerOf(old(H()), ptr.value.addr / PAGE).InZone?
                       && SizeAt(old(H()), ptr.value) == if size < 16384 then ChunkSize(size) else size)
      ensures ptr.Some? && q == ptr ==> S() == old(S())
    {
      hide HeapOk, ListsOk, PagesMatch, Live, KeepsBlocks, Allocated, Released, Moved, ChunkSize, IsLive, MallocFails;
      if ptr.None? {
        q := Malloc(size);
        return;
      }
      if size == 0 {
        Free(ptr);
        return None;
      }
      var p := ptr.value;
      Lookup(H(), p);
      var kup := usage[p.addr / PAGE - start];
      if kup.kind == Large {
        q := Move(p, size, kup.size * PAGE);
        return;
      }
      var z := Zid(p.addr / PAGE - kup.size);
      var rounded := Rounded(size);
      RoundedFits(size);
      if zones[z].chunk == rounded {
        StaysPut(H(), mem, p, size);
        return ptr;
      }
      q := Move(p, rounded, zones[z].chunk);
      if q.Some? {
        MovedSmaller(old(H()), H(), old(mem), mem, p, q.value, rounded, size);
      }
    }
  }
}
