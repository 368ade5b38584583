/** The page allocator of `src/slab.c`: a list of runs of free pages. Pages are numbered; the page
    number stands for the address divided by RT_MM_PAGE_SIZE. */
module Pages {
  import opened Options

  /** struct rt_page_head */
  datatype Run = Run(first: nat, count: nat)

  function EndOf(r: Run): nat { r.first + r.count }

  predicate InRun(r: Run, p: nat) { r.first <= p < EndOf(r) }

  /** Sorted and disjoint, with a gap between one run and the next: every run is as long as can be. */
  predicate Canonical(rs: seq<Run>) {
    rs != [] ==>
      && rs[0].count > 0 && (|rs| > 1 ==> EndOf(rs[0]) < rs[1].first)
      && Canonical(rs[1..])
  }

  /** Page `p` is in one of the runs. */
  predicate IsFree(rs: seq<Run>, p: nat) { rs != [] && (InRun(rs[0], p) || IsFree(rs[1..], p)) }

  predicate AllFree(rs: seq<Run>, p: nat, n: nat) { forall q :: p <= q < p + n ==> IsFree(rs, q) }

  predicate NoneFree(rs: seq<Run>, p: nat, n: nat) { forall q :: p <= q < p + n ==> !IsFree(rs, q) }

  function PageCount(rs: seq<Run>): nat { if rs == [] then 0 else rs[0].count + PageCount(rs[1..]) }

  /** Pages of later runs come after the first run and a gap. */
  lemma {:induction false} LaterPages(rs: seq<Run>, p: nat)
    requires Canonical(rs) && rs != [] && IsFree(rs[1..], p)
    ensures p > EndOf(rs[0])
  {
    if !InRun(rs[1], p) {
      LaterPages(rs[1..], p);
    }
  }

  lemma FirstFree(rs: seq<Run>)
    requires Canonical(rs) && rs != []
    ensures IsFree(rs, rs[0].first) && !IsFree(rs, EndOf(rs[0])) && AllFree(rs, rs[0].first, rs[0].count)
    ensures forall p: nat :: IsFree(rs, p) ==> p >= rs[0].first
  {
    if IsFree(rs[1..], EndOf(rs[0])) {
      LaterPages(rs, EndOf(rs[0]));
    }
    forall p: nat | IsFree(rs, p) ensures p >= rs[0].first {
      if !InRun(rs[0], p) {
        LaterPages(rs, p);
      }
    }
  }

  /** The list is determined by the set of free pages. */
  lemma {:induction false} CanonicalUnique(rs: seq<Run>, qs: seq<Run>)
    requires Canonical(rs) && Canonical(qs)
    requires forall p: nat :: IsFree(rs, p) <==> IsFree(qs, p)
    ensures rs == qs
  {
    if rs == [] {
      if qs != [] {
        FirstFree(qs);
      }
    } else {
      FirstFree(rs);
      assert qs != [];
      FirstFree(qs);
      var r, q := rs[0], qs[0];
      assert r.first == q.first;
      assert IsFree(rs, EndOf(r)) <==> IsFree(qs, EndOf(r));
      assert IsFree(rs, EndOf(q)) <==> IsFree(qs, EndOf(q));
      forall p: nat ensures IsFree(rs[1..], p) <==> IsFree(qs[1..], p) {
        if IsFree(rs[1..], p) { LaterPages(rs, p); }
        if IsFree(qs[1..], p) { LaterPages(qs, p); }
        assert IsFree(rs, p) <==> IsFree(qs, p);
      }
      CanonicalUnique(rs[1..], qs[1..]);
      assert rs == [r] + rs[1..] && qs == [q] + qs[1..];
    }
  }

  /* Editing one run in place. */

  lemma {:induction false} SplitFree(a: seq<Run>, b: seq<Run>, p: nat)
    ensures IsFree(a + b, p) <==> IsFree(a, p) || IsFree(b, p)
  {
    if a == [] {
      assert a + b == b;
    } else {
      assert (a + b)[1..] == a[1..] + b;
      SplitFree(a[1..], b, p);
    }
  }

  lemma {:induction false} SplitCount(a: seq<Run>, b: seq<Run>)
    ensures PageCount(a + b) == PageCount(a) + PageCount(b)
  {
    if a == [] {
      assert a + b == b;
    } else {
      assert (a + b)[1..] == a[1..] + b;
      SplitCount(a[1..], b);
    }
  }

  /** `a` may be followed by `b`. */
  predicate Joins(a: seq<Run>, b: seq<Run>) { a != [] && b != [] ==> EndOf(a[|a| - 1]) < b[0].first }

  lemma {:induction false} SplitCanonical(a: seq<Run>, b: seq<Run>)
    ensures Canonical(a + b) <==> Canonical(a) && Canonical(b) && Joins(a, b)
  {
    if a == [] {
      assert a + b == b;
    } else {
      assert (a + b)[1..] == a[1..] + b;
      SplitCanonical(a[1..], b);
    }
  }

  /** Replacing the runs `mid` between `a` and `c` by the runs `new_`. */
  lemma Replace(a: seq<Run>, mid: seq<Run>, c: seq<Run>, new_: seq<Run>)
    requires Canonical(a + mid + c) && Canonical(new_)
    requires Joins(a, new_) && Joins(new_, c) && (new_ == [] ==> Joins(a, c))
    ensures Canonical(a + new_ + c)
    ensures forall p: nat :: IsFree(a + new_ + c, p) <==> IsFree(a, p) || IsFree(new_, p) || IsFree(c, p)
    ensures forall p: nat :: IsFree(a + mid + c, p) <==> IsFree(a, p) || IsFree(mid, p) || IsFree(c, p)
    ensures PageCount(a + new_ + c) - PageCount(new_) == PageCount(a + mid + c) - PageCount(mid)
  {
    forall p: nat
      ensures IsFree(a + new_ + c, p) <==> IsFree(a, p) || IsFree(new_, p) || IsFree(c, p)
      ensures IsFree(a + mid + c, p) <==> IsFree(a, p) || IsFree(mid, p) || IsFree(c, p)
    {
      SplitFree(a, new_, p); SplitFree(a + new_, c, p);
      SplitFree(a, mid, p); SplitFree(a + mid, c, p);
    }
    SplitCount(a, new_); SplitCount(a + new_, c);
    SplitCount(a, mid); SplitCount(a + mid, c);
    SplitCanonical(a, mid); SplitCanonical(a + mid, c);
    SplitCanonical(a, new_); SplitCanonical(a + new_, c);
  }

  lemma {:induction false} EndsBefore(a: seq<Run>, p: nat)
    requires Canonical(a) && IsFree(a, p)
    ensures p < EndOf(a[|a| - 1])
  {
    if IsFree(a[1..], p) {
      EndsBefore(a[1..], p);
    } else if |a| > 1 {
      LaterPages(a, a[1].first);
      FirstFree(a[1..]);
      EndsBefore(a[1..], a[1].first);
    }
  }

  lemma {:induction false} BeforeAndAfter(a: seq<Run>, r: Run, c: seq<Run>, p: nat)
    requires Canonical(a + [r] + c)
    ensures IsFree(a, p) ==> p < r.first
    ensures IsFree(c, p) ==> p > EndOf(r)
  {
    SplitCanonical(a, [r]);
    SplitCanonical(a + [r], c);
    if IsFree(c, p) {
      assert ([r] + c)[1..] == c;
      assert a + ([r] + c) == a + [r] + c;
      SplitCanonical(a, [r] + c);
      LaterPages([r] + c, p);
    }
    if IsFree(a, p) {
      EndsBefore(a, p);
    }
  }

  lemma RunMembers(r: Run)
    ensures forall p: nat :: IsFree([r], p) <==> InRun(r, p)
    ensures PageCount([r]) == r.count
    ensures Canonical([r]) <==> r.count > 0
  {
  }

  lemma NoRuns()
    ensures Canonical([]) && PageCount([]) == 0 && forall p: nat :: !IsFree([], p)
  {
  }

  /** The runs `rs` after `n` pages have been cut off the front of run `i`. */
  function Cut(rs: seq<Run>, i: nat, n: nat): seq<Run>
    requires i < |rs| && n <= rs[i].count
  {
    rs[..i] + (if n < rs[i].count then [Run(rs[i].first + n, rs[i].count - n)] else []) + rs[i + 1..]
  }

  /** The pages of a run are in no other run. */
  lemma RunApart(a: seq<Run>, r: Run, c: seq<Run>, n: nat)
    requires Canonical(a + [r] + c) && n <= r.count
    ensures forall p: nat :: r.first <= p < r.first + n ==> !IsFree(a, p) && !IsFree(c, p) && IsFree([r], p)
  {
    hide Canonical, IsFree;
    RunMembers(r);
    forall p: nat | r.first <= p < r.first + n ensures !IsFree(a, p) && !IsFree(c, p) {
      BeforeAndAfter(a, r, c, p);
    }
  }

  /** What is left of a run after its first `n` pages. */
  lemma RestOfRun(r: Run, n: nat, rest: seq<Run>)
    requires 0 < n <= r.count && rest == if n < r.count then [Run(r.first + n, r.count - n)] else []
    ensures Canonical(rest) && PageCount(rest) + n == PageCount([r])
    ensures forall p: nat :: IsFree(rest, p) <==> IsFree([r], p) && !(r.first <= p < r.first + n)
  {
    hide Canonical, IsFree, PageCount;
    RunMembers(r);
    if n < r.count { RunMembers(rest[0]); } else { NoRuns(); }
  }

  /** Replacing runs by runs that lack the `n` pages from `p` on. */
  lemma ReplaceTaken(a: seq<Run>, mid: seq<Run>, c: seq<Run>, new_: seq<Run>, p: nat, n: nat)
    requires Canonical(a + mid + c) && Canonical(new_) && Joins(a, new_) && Joins(new_, c)
      && (new_ == [] ==> Joins(a, c))
    requires PageCount(new_) + n == PageCount(mid)
    requires forall q: nat :: IsFree(new_, q) <==> IsFree(mid, q) && !(p <= q < p + n)
    requires forall q: nat :: p <= q < p + n ==> !IsFree(a, q) && !IsFree(c, q) && IsFree(mid, q)
    ensures Canonical(a + new_ + c) && PageCount(a + new_ + c) + n == PageCount(a + mid + c)
    ensures AllFree(a + mid + c, p, n)
    ensures forall q: nat :: IsFree(a + new_ + c, q) <==> IsFree(a + mid + c, q) && !(p <= q < p + n)
  {
    hide Canonical, IsFree, PageCount, Joins;
    Replace(a, mid, c, new_);
  }

  lemma JoinsAcross(a: seq<Run>, r: Run, c: seq<Run>)
    requires Canonical(a + [r] + c)
    ensures Joins(a, c) && Joins(a, [r]) && Joins([r], c) && r.count > 0
  {
    SplitCanonical(a, [r]); SplitCanonical(a + [r], c);
    assert (a + [r])[|a|] == r;
    RunMembers(r);
  }

  lemma CutPages(rs: seq<Run>, i: nat, n: nat)
    requires Canonical(rs) && i < |rs| && 0 < n <= rs[i].count
    ensures Canonical(Cut(rs, i, n)) && PageCount(Cut(rs, i, n)) + n == PageCount(rs)
    ensures AllFree(rs, rs[i].first, n)
    ensures forall p: nat :: IsFree(Cut(rs, i, n), p) <==> IsFree(rs, p) && !(rs[i].first <= p < rs[i].first + n)
  {
    hide Canonical, IsFree, PageCount, AllFree;
    var a, r, c := rs[..i], rs[i], rs[i + 1..];
    var rest := if n < r.count then [Run(r.first + n, r.count - n)] else [];
    assert rs == a + [r] + c;
    JoinsAcross(a, r, c);
    RestOfRun(r, n, rest);
    RunApart(a, r, c, n);
    ReplaceTaken(a, [r], c, rest, r.first, n);
  }

  /** Free pages come in maximal runs: `n` free pages in a row lie in one run. */
  lemma {:induction false} InOneRun(rs: seq<Run>, p: nat, n: nat)
    requires Canonical(rs) && n > 0 && AllFree(rs, p, n)
    ensures exists i :: 0 <= i < |rs| && rs[i].count >= n && rs[i].first <= p && p + n <= EndOf(rs[i])
  {
    assert IsFree(rs, p);
    FirstFree(rs);
    if !InRun(rs[0], p) {
      forall q | p <= q < p + n ensures IsFree(rs[1..], q) {
        assert IsFree(rs, q);
        LaterPages(rs, p);
      }
      InOneRun(rs[1..], p, n);
      var i :| 0 <= i < |rs[1..]| && rs[1..][i].count >= n && rs[1..][i].first <= p && p + n <= EndOf(rs[1..][i]);
      assert rs[i + 1] == rs[1..][i];
    }
  }

  /** `qs` is the list `rs` without the `n` pages from `p` on, the lowest that are free in a row. */
  ghost predicate Taken(rs: seq<Run>, p: nat, n: nat, qs: seq<Run>) {
    && AllFree(rs, p, n) && (forall q: nat :: AllFree(rs, q, n) ==> p <= q)
    && forall q: nat :: IsFree(qs, q) <==> IsFree(rs, q) && !(p <= q < p + n)
  }

  /** `qs` is the list `rs` with the `n` pages from `p` on made free. */
  ghost predicate Freed(rs: seq<Run>, p: nat, n: nat, qs: seq<Run>) {
    && Canonical(qs) && PageCount(qs) == PageCount(rs) + n
    && forall q: nat :: IsFree(qs, q) <==> IsFree(rs, q) || p <= q < p + n
  }

  lemma RunsAt(rs: seq<Run>, i: nat)
    requires Canonical(rs) && i < |rs|
    ensures rs[i].count > 0 && AllFree(rs, rs[i].first, rs[i].count)
    ensures i + 1 < |rs| ==> EndOf(rs[i]) < rs[i + 1].first
    ensures i > 0 ==> EndOf(rs[i - 1]) < rs[i].first
  {
    var a, r, c := rs[..i], rs[i], rs[i + 1..];
    assert rs == a + [r] + c;
    JoinsAcross(a, r, c);
    forall q | r.first <= q < EndOf(r) ensures IsFree(rs, q) {
      SplitFree(a, [r], q); SplitFree(a + [r], c, q);
    }
  }

  lemma {:induction false} RunsOrder(rs: seq<Run>, i: nat, j: nat)
    requires Canonical(rs) && i < j < |rs|
    ensures rs[i].first < rs[j].first
    decreases j
  {
    RunsAt(rs, j);
    RunsAt(rs, j - 1);
    if i < j - 1 {
      RunsOrder(rs, i, j - 1);
    }
  }

  /** The first run that is long enough begins where the first `n` free pages in a row do. */
  lemma FirstFits(rs: seq<Run>, i: nat, n: nat)
    requires Canonical(rs) && i < |rs| && rs[i].count >= n > 0 && forall j :: 0 <= j < i ==> rs[j].count < n
    ensures forall p: nat :: AllFree(rs, p, n) ==> rs[i].first <= p
  {
    forall p: nat | AllFree(rs, p, n) ensures rs[i].first <= p {
      InOneRun(rs, p, n);
      var j :| 0 <= j < |rs| && rs[j].count >= n && rs[j].first <= p && p + n <= EndOf(rs[j]);
      if i < j { RunsOrder(rs, i, j); }
    }
  }

  /** The run that ends where the freed pages begin takes them, and also the next run if it now
      touches it. */
  function Grown(rs: seq<Run>, i: nat, n: nat): seq<Run>
    requires i < |rs|
  {
    var r := Run(rs[i].first, rs[i].count + n);
    if i + 1 < |rs| && EndOf(r) == rs[i + 1].first then rs[..i] + [Run(r.first, r.count + rs[i + 1].count)]
      + rs[i + 2..]
    else rs[..i] + [r] + rs[i + 1..]
  }

  lemma TwoRuns(b: Run, d: Run)
    ensures forall p: nat :: IsFree([b, d], p) <==> InRun(b, p) || InRun(d, p)
    ensures PageCount([b, d]) == b.count + d.count
  {
    assert [b, d] == [b] + [d];
    SplitCount([b], [d]);
    RunMembers(b);
    RunMembers(d);
    forall p: nat ensures IsFree([b, d], p) <==> InRun(b, p) || InRun(d, p) {
      SplitFree([b], [d], p);
    }
  }

  /** Replacing runs by runs that have the `n` pages from `p` on in addition. */
  lemma ReplaceFreed(a: seq<Run>, mid: seq<Run>, c: seq<Run>, new_: seq<Run>, p: nat, n: nat)
    requires Canonical(a + mid + c) && Canonical(new_) && new_ != [] && Joins(a, new_) && Joins(new_, c)
    requires PageCount(new_) == PageCount(mid) + n
    requires forall q: nat :: IsFree(new_, q) <==> IsFree(mid, q) || p <= q < p + n
    ensures Freed(a + mid + c, p, n, a + new_ + c)
  {
    hide Canonical, IsFree, PageCount, Joins;
    Replace(a, mid, c, new_);
  }

  lemma GrownAlone(rs: seq<Run>, i: nat, n: nat)
    requires Canonical(rs) && i < |rs| && (i + 1 < |rs| ==> EndOf(rs[i]) + n < rs[i + 1].first)
    ensures Freed(rs, EndOf(rs[i]), n, rs[..i] + [Run(rs[i].first, rs[i].count + n)] + rs[i + 1..])
  {
    hide Canonical, IsFree, PageCount, Freed;
    var a, b, c := rs[..i], rs[i], rs[i + 1..];
    var r := Run(b.first, b.count + n);
    assert rs == a + [b] + c;
    JoinsAcross(a, b, c);
    RunMembers(b);
    RunMembers(r);
    ReplaceFreed(a, [b], c, [r], EndOf(b), n);
  }

  /** Two runs and the pages between them are one run. */
  lemma WholeRun(b: Run, d: Run, n: nat)
    requires EndOf(b) + n == d.first && b.count > 0
    ensures var whole := Run(b.first, b.count + n + d.count);
      && Canonical([whole]) && PageCount([whole]) == PageCount([b, d]) + n
      && forall q: nat :: IsFree([whole], q) <==> IsFree([b, d], q) || EndOf(b) <= q < EndOf(b) + n
  {
    hide Canonical, IsFree, PageCount;
    TwoRuns(b, d);
    RunMembers(Run(b.first, b.count + n + d.count));
  }

  lemma FourParts(rs: seq<Run>, i: nat)
    requires i + 1 < |rs|
    ensures rs == rs[..i] + [rs[i], rs[i + 1]] + rs[i + 2..]
  {
  }

  /** One run can take the place of two. */
  lemma TwoPieces(rs: seq<Run>, i: nat, whole: Run)
    requires Canonical(rs) && i + 1 < |rs| && whole.first == rs[i].first && EndOf(whole) == EndOf(rs[i + 1])
    ensures var a, b, d, e := rs[..i], rs[i], rs[i + 1], rs[i + 2..];
      rs == a + [b, d] + e && Joins(a, [whole]) && Joins([whole], e) && b.count > 0
  {
    hide Canonical, IsFree, AllFree;
    RunsAt(rs, i);
    RunsAt(rs, i + 1);
    FourParts(rs, i);
  }

  lemma GrownJoins(rs: seq<Run>, i: nat, n: nat)
    requires Canonical(rs) && i + 1 < |rs| && EndOf(rs[i]) + n == rs[i + 1].first
    ensures Freed(rs, EndOf(rs[i]), n, Grown(rs, i, n))
  {
    hide Canonical, IsFree, PageCount, Freed, Joins;
    var a, b, d, e := rs[..i], rs[i], rs[i + 1], rs[i + 2..];
    var whole := Run(b.first, b.count + n + d.count);
    TwoPieces(rs, i, whole);
    WholeRun(b, d, n);
    ReplaceFreed(a, [b, d], e, [whole], EndOf(b), n);
  }

  lemma GrownFreed(rs: seq<Run>, i: nat, n: nat)
    requires Canonical(rs) && i < |rs| && NoneFree(rs, EndOf(rs[i]), n)
    ensures Freed(rs, EndOf(rs[i]), n, Grown(rs, i, n))
  {
    hide Canonical, IsFree, PageCount, Freed;
    if i + 1 < |rs| {
      RunsAt(rs, i + 1);
      assert IsFree(rs, rs[i + 1].first);
      RunsAt(rs, i);
    }
    if i + 1 < |rs| && EndOf(rs[i]) + n == rs[i + 1].first {
      GrownJoins(rs, i, n);
    } else {
      GrownAlone(rs, i, n);
    }
  }

  lemma PrependedFreed(rs: seq<Run>, i: nat, p: nat, n: nat)
    requires Canonical(rs) && i < |rs| && rs[i].first == p + n && (i > 0 ==> EndOf(rs[i - 1]) < p)
    ensures Freed(rs, p, n, rs[..i] + [Run(p, n + rs[i].count)] + rs[i + 1..])
  {
    hide Canonical, IsFree, PageCount, Freed;
    var a, b, c := rs[..i], rs[i], rs[i + 1..];
    var r := Run(p, n + b.count);
    assert rs == a + [b] + c;
    JoinsAcross(a, b, c);
    RunMembers(b);
    RunMembers(r);
    ReplaceFreed(a, [b], c, [r], p, n);
  }

  lemma InsertedFreed(rs: seq<Run>, i: nat, p: nat, n: nat)
    requires Canonical(rs) && i <= |rs| && n > 0 && (i > 0 ==> EndOf(rs[i - 1]) < p)
      && (i < |rs| ==> p + n < rs[i].first)
    ensures Freed(rs, p, n, rs[..i] + [Run(p, n)] + rs[i..])
  {
    hide Canonical, IsFree, PageCount, Freed;
    var a, c := rs[..i], rs[i..];
    assert rs == a + [] + c;
    RunMembers(Run(p, n));
    NoRuns();
    ReplaceFreed(a, [], c, [Run(p, n)], p, n);
  }

  class PageList {
    var runs: seq<Run>                // rt_page_list

    ghost predicate Valid() reads this { Canonical(runs) }

    /** rt_page_init */
    constructor (addr: nat, npages: nat)
      requires npages > 0
      ensures Valid() && PageCount(runs) == npages
      ensures forall p: nat :: IsFree(runs, p) <==> addr <= p < addr + npages
    {
      runs := [];
      new;
      Free(addr, npages);
    }

    /** rt_page_alloc: first fit, which gives the lowest address there is. It fails exactly when no `npages` free
        pages are in a row. */
    method Alloc(npages: nat) returns (b: Option<nat>)
      requires Valid()
      modifies this
      ensures Valid()
      ensures b.None? <==> npages == 0 || forall p: nat :: !AllFree(old(runs), p, npages)
      ensures b.None? ==> runs == old(runs)
      ensures b.Some? ==> AllFree(old(runs), b.value, npages) && PageCount(runs) + npages == PageCount(old(runs))
      ensures b.Some? ==> forall p: nat :: AllFree(old(runs), p, npages) ==> b.value <= p
      ensures b.Some? ==>
        forall p: nat :: IsFree(runs, p) <==> IsFree(old(runs), p) && !(b.value <= p < b.value + npages)
    {
      if npages == 0 {
        return None;
      }
      var i := 0;
      while i < |runs|
        invariant 0 <= i <= |runs| && runs == old(runs)
        invariant forall j :: 0 <= j < i ==> runs[j].count < npages
      {
        var r := runs[i];
        if r.count >= npages {
          CutPages(runs, i, npages);
          FirstFits(runs, i, npages);
          runs := Cut(runs, i, npages);
          return Some(r.first);
        }
        i := i + 1;
      }
      forall p: nat ensures !AllFree(runs, p, npages) {
        if AllFree(runs, p, npages) {
          InOneRun(runs, p, npages);
        }
      }
      return None;
    }

    /** rt_page_free: the pages join the runs they touch on either side. */
    method Free(addr: nat, npages: nat)
      requires Valid() && npages > 0 && NoneFree(runs, addr, npages)
      modifies this
      ensures Valid() && Freed(old(runs), addr, npages, runs)
    {
      var i := 0;
      while i < |runs|
        invariant 0 <= i <= |runs| && runs == old(runs)
        invariant i > 0 ==> EndOf(runs[i - 1]) < addr
      {
        var b := runs[i];
        RunsAt(runs, i);
        if EndOf(b) == addr {
          GrownFreed(runs, i, npages);
          runs := Grown(runs, i, npages);
          return;
        }
        if b.first == addr + npages {
          PrependedFreed(runs, i, addr, npages);
          runs := runs[..i] + [Run(addr, npages + b.count)] + runs[i + 1..];
          return;
        }
        if b.first > addr + npages {
          break;
        }
        assert b.first < addr && EndOf(b) <= addr by {
          assert IsFree(runs, b.first) && !IsFree(runs, addr);
        }
        i := i + 1;
      }
      InsertedFreed(runs, i, addr, npages);
      runs := runs[..i] + [Run(addr, npages)] + runs[i..];
    }

    /** Freeing the run just allocated restores the identical list. */
    method AllocThenFree(npages: nat)
      requires Valid()
      modifies this
      ensures runs == old(runs)
    {
      var b := Alloc(npages);
      if b.Some? {
        Free(b.value, npages);
        CanonicalUnique(runs, old(runs));
      }
    }
  }
}
