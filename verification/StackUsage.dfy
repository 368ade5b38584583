/** The worst-case stack analysis of `tools/WCS.py`: calls are resolved to functions, and a depth-first search
    with memory finds the stack use of every function. */
module StackUsage {
  import opened Options
  import opened Seqs

  datatype Name = Name(id: nat)

  /** A function of the call graph, and a translation unit. */
  datatype Fn = Fn(id: nat)
  datatype Unit = Unit(id: nat)

  datatype Entry = Entry(tu: Unit, calls: seq<Name>, ptrCall: bool, local: nat, manual: bool)

  datatype Graph = Graph(entries: map<Fn, Entry>, globals: map<Name, Fn>, locals: map<Name, map<Unit, Fn>>)

  datatype Wcs = Unbounded | Bytes(n: nat)

  /** Every name leads to an entry, and manual entries have no calls. */
  ghost predicate GraphOk(g: Graph) {
    && (forall n :: n in g.globals ==> g.globals[n] in g.entries)
    && (forall n, u :: n in g.locals && u in g.locals[n] ==> g.locals[n][u] in g.entries)
    && forall f :: f in g.entries && g.entries[f].manual ==> g.entries[f].calls == [] && !g.entries[f].ptrCall
  }

  /** find_fxn */
  function Find(g: Graph, tu: Unit, name: Name): Option<Fn> {
    if name in g.globals then Some(g.globals[name])
    else if name in g.locals && tu in g.locals[name] then Some(g.locals[name][tu])
    else None
  }

  /** The functions that a list of names leads to, and the names that lead nowhere. */
  function Resolved(g: Graph, tu: Unit, names: seq<Name>): seq<Fn> {
    if names == [] then []
    else
      var r := Find(g, tu, names[0]);
      (if r.Some? then [r.value] else []) + Resolved(g, tu, names[1..])
  }

  function Calls(g: Graph, f: Fn): seq<Fn> {
    if f in g.entries then Resolved(g, g.entries[f].tu, g.entries[f].calls) else []
  }

  ghost predicate Unresolved(g: Graph, f: Fn, name: Name) {
    f in g.entries && name in g.entries[f].calls && Find(g, g.entries[f].tu, name).None?
  }

  function LocalOf(g: Graph, f: Fn): nat { if f in g.entries then g.entries[f].local else 0 }

  /** Where names lead: to the global function of that name and otherwise to the static one in the same unit. */
  lemma {:induction false} ResolvedByTables(g: Graph, tu: Unit, names: seq<Name>, c: Fn)
    ensures c in Resolved(g, tu, names) <==> exists n ::
      && n in names
      && if n in g.globals then g.globals[n] == c else n in g.locals && tu in g.locals[n] && g.locals[n][tu] == c
  {
    if names != [] {
      ResolvedByTables(g, tu, names[1..], c);
      assert names == [names[0]] + names[1..];
    }
  }

  /** A function calls exactly those that its names lead to, and a name that leads nowhere is in neither table. */
  lemma CallsByTables(g: Graph, f: Fn)
    requires f in g.entries
    ensures forall c :: c in Calls(g, f) <==> exists n ::
      && n in g.entries[f].calls
      && if n in g.globals then g.globals[n] == c
         else n in g.locals && g.entries[f].tu in g.locals[n] && g.locals[n][g.entries[f].tu] == c
    ensures forall n :: Unresolved(g, f, n) <==>
      && n in g.entries[f].calls && n !in g.globals
      && (n in g.locals ==> g.entries[f].tu !in g.locals[n])
  {
    forall c ensures c in Calls(g, f) <==> exists n ::
      && n in g.entries[f].calls
      && if n in g.globals then g.globals[n] == c
         else n in g.locals && g.entries[f].tu in g.locals[n] && g.locals[n][g.entries[f].tu] == c
    {
      ResolvedByTables(g, g.entries[f].tu, g.entries[f].calls, c);
    }
  }

  lemma {:induction false} ResolvedKnown(g: Graph, tu: Unit, names: seq<Name>)
    requires GraphOk(g)
    ensures forall c :: c in Resolved(g, tu, names) ==> c in g.entries
  {
    if names != [] {
      ResolvedKnown(g, tu, names[1..]);
    }
  }

  /* What the analysis should find. */

  /** A chain of calls. */
  ghost predicate IsPath(g: Graph, p: seq<Fn>) {
    && p != [] && (forall i :: 0 <= i < |p| ==> p[i] in g.entries)
    && forall i :: 0 < i < |p| ==> p[i] in Calls(g, p[i - 1])
  }

  ghost predicate PathFrom(g: Graph, f: Fn, p: seq<Fn>) { IsPath(g, p) && p[0] == f }

  function Weight(g: Graph, p: seq<Fn>): nat { if p == [] then 0 else LocalOf(g, p[0]) + Weight(g, p[1..]) }

  /** The weight of a chain is made up of the stack use of its functions. */
  lemma {:induction false} WeightParts(g: Graph, p: seq<Fn>, q: seq<Fn>)
    ensures Weight(g, p + q) == Weight(g, p) + Weight(g, q)
    ensures forall f :: f in g.entries ==> Weight(g, [f]) == g.entries[f].local
  {
    if p == [] {
      assert p + q == q;
    } else {
      assert (p + q)[1..] == p[1..] + q;
      WeightParts(g, p[1..], q);
    }
  }

  /** A chain of calls that ends in a call through a pointer, or comes back to a function. */
  ghost predicate Endless(g: Graph, p: seq<Fn>) {
    && IsPath(g, p)
    && (g.entries[p[|p| - 1]].ptrCall || !NoDup(p))
  }

  ghost predicate CanBeEndless(g: Graph, f: Fn) { exists p :: Endless(g, p) && p[0] == f }

  lemma PathCons(g: Graph, f: Fn, p: seq<Fn>)
    requires f in g.entries && IsPath(g, p) && p[0] in Calls(g, f)
    ensures IsPath(g, [f] + p)
  {
    var q := [f] + p;
    forall i | 0 < i < |q| ensures q[i] in Calls(g, q[i - 1]) {
      if i > 1 {
        assert p[i - 1] in Calls(g, p[i - 2]);
      }
    }
  }

  lemma EndlessCons(g: Graph, f: Fn, c: Fn)
    requires f in g.entries && c in Calls(g, f) && CanBeEndless(g, c)
    ensures CanBeEndless(g, f)
  {
    var p :| Endless(g, p) && p[0] == c;
    var q := [f] + p;
    assert q[1..] == p && q[|q| - 1] == p[|p| - 1];
    PathCons(g, f, p);
    if !NoDup(p) {
      var i, j :| 0 <= i < j < |p| && p[i] == p[j];
      assert q[i + 1] == q[j + 1];
    }
    assert Endless(g, q);
  }

  lemma PathSnoc(g: Graph, p: seq<Fn>, f: Fn, c: Fn)
    requires IsPath(g, p + [f]) && c in Calls(g, f) && c in g.entries
    ensures IsPath(g, p + [f] + [c])
  {
    var q, r := p + [f], p + [f] + [c];
    forall i | 0 < i < |r| ensures r[i] in Calls(g, r[i - 1]) {
      if i < |q| {
        assert q[i] in Calls(g, q[i - 1]);
      }
    }
  }

  /** A function that is called again while it is being analysed can be endless. */
  lemma RecursionEndless(g: Graph, parents: seq<Fn>, f: Fn)
    requires IsPath(g, parents + [f]) && f in parents
    ensures CanBeEndless(g, f)
  {
    var k :| 0 <= k < |parents| && parents[k] == f;
    var q := parents + [f];
    var p := q[k..];
    forall i | 0 < i < |p| ensures p[i] in Calls(g, p[i - 1]) {
      assert q[k + i] in Calls(g, q[k + i - 1]);
    }
    assert p[0] == p[|p| - 1];
    assert Endless(g, p);
  }

  /* What the analysis has found so far. */

  type Found = map<Fn, Wcs>

  type Names = map<Fn, set<Name>>

  /** `rank` gives the order in which the bounded functions were finished. */
  type Ranks = map<Fn, nat>

  ghost predicate Finished(wcs: Found, f: Fn) { f in wcs && wcs[f].Bytes? }

  ghost predicate CalleeOk(g: Graph, wcs: Found, rank: Ranks, f: Fn, c: Fn)
    requires Finished(wcs, f)
  {
    Finished(wcs, c) && c in rank && f in rank && rank[c] < rank[f] && LocalOf(g, f) + wcs[c].n <= wcs[f].n
  }

  ghost predicate Largest(g: Graph, wcs: Found, f: Fn, c: Fn)
    requires Finished(wcs, f)
  {
    Finished(wcs, c) && wcs[f].n == LocalOf(g, f) + wcs[c].n
  }

  ghost predicate Has(names: Names, c: Fn, s: Name) { c in names && s in names[c] }

  /** A bounded function calls only bounded functions that were finished before it, and its stack use is its
      own and the largest of theirs. */
  ghost predicate BoundedOk(g: Graph, wcs: Found, rank: Ranks, names: Names, f: Fn)
    requires Finished(wcs, f)
  {
    && f in g.entries && !g.entries[f].ptrCall && f in rank && f in names
    && (forall c :: c in Calls(g, f) ==> CalleeOk(g, wcs, rank, f, c))
    && (wcs[f].n == LocalOf(g, f) || exists c :: c in Calls(g, f) && Largest(g, wcs, f, c))
    && (forall s :: s in names[f] <==> Unresolved(g, f, s) || exists c :: c in Calls(g, f) && Has(names, c, s))
  }

  ghost predicate Inv(g: Graph, wcs: Found, rank: Ranks, time: nat, names: Names) {
    && GraphOk(g) && names.Keys == g.entries.Keys
    && (forall f :: f in wcs ==> f in g.entries)
    && (forall f :: f in wcs && wcs[f].Unbounded? ==> CanBeEndless(g, f))
    && (forall f :: Finished(wcs, f) ==> BoundedOk(g, wcs, rank, names, f))
    && (forall f :: f in rank ==> rank[f] < time)
  }

  lemma PathTail(g: Graph, p: seq<Fn>)
    requires IsPath(g, p) && |p| > 1
    ensures IsPath(g, p[1..])
  {
    forall i | 0 < i < |p[1..]| ensures p[1..][i] in Calls(g, p[1..][i - 1]) {
      assert p[i + 1] in Calls(g, p[i]);
    }
  }

  /** On every chain of calls from a bounded function, the functions are bounded and were finished in the
      reverse order, so that no function comes twice. */
  lemma {:induction false} PathBounded(g: Graph, wcs: Found, rank: Ranks, time: nat, names: Names, p: seq<Fn>)
    requires Inv(g, wcs, rank, time, names) && IsPath(g, p) && Finished(wcs, p[0])
    ensures forall i :: 0 <= i < |p| ==> Finished(wcs, p[i]) && p[i] in rank && (i > 0 ==> rank[p[i]] < rank[p[0]])
    ensures NoDup(p) && !g.entries[p[|p| - 1]].ptrCall
    ensures Weight(g, p) <= wcs[p[0]].n
    decreases p
  {
    assert BoundedOk(g, wcs, rank, names, p[0]);
    if |p| > 1 {
      assert p[1] in Calls(g, p[0]);
      assert CalleeOk(g, wcs, rank, p[0], p[1]);
      PathTail(g, p);
      PathBounded(g, wcs, rank, time, names, p[1..]);
      assert p == [p[0]] + p[1..];
      forall i | 1 <= i < |p| ensures Finished(wcs, p[i]) && p[i] in rank && rank[p[i]] < rank[p[0]] {
        assert p[i] == p[1..][i - 1];
      }
    } else {
      assert p[1..] == [];
    }
  }

  /** There is a chain of calls that uses all of the stack found. */
  lemma {:induction false} PathAttained(g: Graph, wcs: Found, rank: Ranks, time: nat, names: Names, f: Fn)
    returns (p: seq<Fn>)
    requires Inv(g, wcs, rank, time, names) && Finished(wcs, f)
    ensures PathFrom(g, f, p) && Weight(g, p) == wcs[f].n
    decreases if f in rank then rank[f] else 0
  {
    assert BoundedOk(g, wcs, rank, names, f);
    if wcs[f].n == LocalOf(g, f) {
      p := [f];
      assert p[1..] == [];
    } else {
      var c :| c in Calls(g, f) && Largest(g, wcs, f, c);
      assert CalleeOk(g, wcs, rank, f, c);
      var q := PathAttained(g, wcs, rank, time, names, c);
      PathCons(g, f, q);
      p := [f] + q;
      assert p[1..] == q;
    }
  }

  /** The names reported for a bounded function are those that some function it can reach does not resolve. */
  lemma {:induction false} NamesReached(g: Graph, wcs: Found, rank: Ranks, time: nat, names: Names, f: Fn, s: Name)
    requires Inv(g, wcs, rank, time, names) && Finished(wcs, f)
    ensures f in names
    ensures s in names[f] <==> exists p :: PathFrom(g, f, p) && Unresolved(g, p[|p| - 1], s)
    decreases if f in rank then rank[f] else 0
  {
    assert BoundedOk(g, wcs, rank, names, f);
    if s in names[f] {
      if Unresolved(g, f, s) {
        assert PathFrom(g, f, [f]) && [f][|[f]| - 1] == f;
      } else {
        var c :| c in Calls(g, f) && Has(names, c, s);
        assert CalleeOk(g, wcs, rank, f, c);
        NamesReached(g, wcs, rank, time, names, c, s);
        var q :| PathFrom(g, c, q) && Unresolved(g, q[|q| - 1], s);
        PathCons(g, f, q);
        assert PathFrom(g, f, [f] + q) && ([f] + q)[|[f] + q| - 1] == q[|q| - 1];
      }
    }
    if exists p :: PathFrom(g, f, p) && Unresolved(g, p[|p| - 1], s) {
      var p :| PathFrom(g, f, p) && Unresolved(g, p[|p| - 1], s);
      if |p| > 1 {
        assert p[1] in Calls(g, f);
        assert CalleeOk(g, wcs, rank, f, p[1]);
        PathTail(g, p);
        NamesReached(g, wcs, rank, time, names, p[1], s);
        assert PathFrom(g, p[1], p[1..]) && p[1..][|p[1..]| - 1] == p[|p| - 1];
        assert Has(names, p[1], s);
      }
    }
  }

  /** What the analysis reports: a function is unbounded exactly when a cycle or a call through a pointer can be
      reached from it, and otherwise its stack use is the largest on any chain of calls. */
  lemma Correct(g: Graph, wcs: Found, rank: Ranks, time: nat, names: Names, f: Fn)
    requires Inv(g, wcs, rank, time, names) && f in wcs
    ensures wcs[f].Unbounded? <==> CanBeEndless(g, f)
    ensures wcs[f].Bytes? ==> forall p :: PathFrom(g, f, p) ==> Weight(g, p) <= wcs[f].n
    ensures wcs[f].Bytes? ==> exists p :: PathFrom(g, f, p) && Weight(g, p) == wcs[f].n
  {
    hide Weight, NoDup;
    if wcs[f].Bytes? {
      forall p | PathFrom(g, f, p) ensures Weight(g, p) <= wcs[f].n && !Endless(g, p) {
        PathBounded(g, wcs, rank, time, names, p);
      }
      var _ := PathAttained(g, wcs, rank, time, names, f);
    }
  }

  /* Steps of the search. */

  ghost predicate SameNames(names: Names, names': Names, x: Fn) { x in names && x in names' && names[x] == names'[x] }

  /** What a step of the search keeps: what has been finished, and the functions under analysis. */
  ghost predicate Keeps(parents: seq<Fn>, wcs: Found, names: Names, wcs': Found, names': Names) {
    && (forall x :: x in wcs ==> x in wcs')
    && (forall x :: Finished(wcs, x) ==> Finished(wcs', x) && wcs'[x] == wcs[x] && SameNames(names, names', x))
    && (forall x :: x in parents ==> (Finished(wcs', x) <==> Finished(wcs, x)) && SameNames(names, names', x))
  }

  lemma KeepsTwice(parents: seq<Fn>, wcs: Found, names: Names, wcs1: Found, names1: Names, wcs2: Found, names2: Names)
    requires Keeps(parents, wcs, names, wcs1, names1) && Keeps(parents, wcs1, names1, wcs2, names2)
    ensures Keeps(parents, wcs, names, wcs2, names2)
  {
  }

  lemma KeepsFewer(parents: seq<Fn>, f: Fn, wcs: Found, names: Names, wcs': Found, names': Names)
    requires Keeps(parents + [f], wcs, names, wcs', names')
    ensures Keeps(parents, wcs, names, wcs', names')
    ensures Finished(wcs', f) <==> Finished(wcs, f)
    ensures SameNames(names, names', f)
  {
    assert forall x :: x in parents ==> x in parents + [f];
    assert f in parents + [f];
  }

  ghost predicate OwnNames(g: Graph, names: Names, x: Fn) {
    x in names && forall s :: s in names[x] <==> Unresolved(g, x, s)
  }

  /** Functions that have not been looked at have their own unresolved names. */
  ghost predicate Fresh(g: Graph, wcs: Found, names: Names, parents: seq<Fn>) {
    forall x :: x in g.entries && x !in wcs && x !in parents ==> OwnNames(g, names, x)
  }

  /** What is known about a bounded function depends only on itself and the bounded functions that it calls. */
  lemma StillOk(g: Graph, wcs: Found, rank: Ranks, names: Names, wcs': Found, rank': Ranks, names': Names, x: Fn)
    requires Finished(wcs, x) && BoundedOk(g, wcs, rank, names, x)
    requires forall y :: Finished(wcs, y) ==> Finished(wcs', y) && wcs'[y] == wcs[y] && SameNames(names, names', y)
    requires forall y :: Finished(wcs, y) && y in rank ==> y in rank' && rank'[y] == rank[y]
    ensures BoundedOk(g, wcs', rank', names', x)
  {
    forall c | c in Calls(g, x) ensures CalleeOk(g, wcs', rank', x, c) {
      assert CalleeOk(g, wcs, rank, x, c);
    }
    if wcs[x].n != LocalOf(g, x) {
      var c :| c in Calls(g, x) && Largest(g, wcs, x, c);
      assert Largest(g, wcs', x, c);
    }
    forall s ensures s in names'[x] <==> Unresolved(g, x, s) || exists c :: c in Calls(g, x) && Has(names', c, s) {
      forall c | c in Calls(g, x) ensures Has(names', c, s) <==> Has(names, c, s) {
        assert CalleeOk(g, wcs, rank, x, c);
      }
    }
  }

  lemma AddUnbounded(g: Graph, wcs: Found, rank: Ranks, time: nat, names: Names, f: Fn)
    requires Inv(g, wcs, rank, time, names) && f in g.entries && CanBeEndless(g, f) && !Finished(wcs, f)
    ensures Inv(g, wcs[f := Unbounded], rank, time, names)
  {
    var wcs' := wcs[f := Unbounded];
    forall x | Finished(wcs', x) ensures BoundedOk(g, wcs', rank, names, x) {
      assert BoundedOk(g, wcs, rank, names, x);
      StillOk(g, wcs, rank, names, wcs', rank, names, x);
    }
  }

  lemma AddBounded(g: Graph, wcs: Found, rank: Ranks, time: nat, names: Names, f: Fn, n: nat)
    requires Inv(g, wcs, rank, time, names) && f in g.entries && !g.entries[f].ptrCall && !Finished(wcs, f)
    requires forall c :: c in Calls(g, f) ==> Finished(wcs, c) && LocalOf(g, f) + wcs[c].n <= n
    requires n == LocalOf(g, f) || exists c :: c in Calls(g, f) && Finished(wcs, c) && n == LocalOf(g, f) + wcs[c].n
    requires forall s :: s in names[f] <==> Unresolved(g, f, s) || exists c :: c in Calls(g, f) && Has(names, c, s)
    ensures Inv(g, wcs[f := Bytes(n)], rank[f := time], time + 1, names)
  {
    var wcs', rank' := wcs[f := Bytes(n)], rank[f := time];
    forall x | Finished(wcs', x) ensures BoundedOk(g, wcs', rank', names, x) {
      if x != f {
        assert BoundedOk(g, wcs, rank, names, x);
        StillOk(g, wcs, rank, names, wcs', rank', names, x);
      } else {
        forall c | c in Calls(g, f) ensures CalleeOk(g, wcs', rank', f, c) {
          assert BoundedOk(g, wcs, rank, names, c);
        }
        if n != LocalOf(g, f) {
          var c :| c in Calls(g, f) && Finished(wcs, c) && n == LocalOf(g, f) + wcs[c].n;
          assert Largest(g, wcs', f, c);
        }
      }
    }
  }

  lemma AddNames(g: Graph, wcs: Found, rank: Ranks, time: nat, names: Names, f: Fn, s: set<Name>)
    requires Inv(g, wcs, rank, time, names) && f in g.entries && !Finished(wcs, f)
    ensures Inv(g, wcs, rank, time, names[f := s])
  {
    var names' := names[f := s];
    forall x | Finished(wcs, x) ensures BoundedOk(g, wcs, rank, names', x) {
      assert BoundedOk(g, wcs, rank, names, x);
      StillOk(g, wcs, rank, names, wcs, rank, names', x);
    }
  }

  lemma ParentsBound(parents: seq<Fn>, all: set<Fn>)
    requires NoDup(parents) && forall x :: x in parents ==> x in all
    ensures |parents| <= |all|
  {
    ElementsSize(parents);
    SubsetSize(Elements(parents), all);
  }

  /** The loop of calc_wcs over the calls of `f`: the first `i` are done. */
  ghost predicate Scanned(g: Graph, wcs: Found, names: Names, f: Fn, i: nat, callMax: nat) {
    var cs := Calls(g, f);
    && i <= |cs| && f in names
    && (forall j :: 0 <= j < i ==> Finished(wcs, cs[j]) && wcs[cs[j]].n <= callMax && cs[j] in names)
    && (callMax == 0 || exists j :: 0 <= j < i && Finished(wcs, cs[j]) && wcs[cs[j]].n == callMax)
    && (forall s :: s in names[f] <==> Unresolved(g, f, s) || exists j :: 0 <= j < i && Has(names, cs[j], s))
  }

  lemma ScannedNone(g: Graph, wcs: Found, names: Names, f: Fn)
    requires OwnNames(g, names, f)
    ensures Scanned(g, wcs, names, f, 0, 0)
  {
  }

  lemma ScannedKept(g: Graph, wcs: Found, names: Names, f: Fn, i: nat, callMax: nat, wcs': Found, names': Names)
    requires Scanned(g, wcs, names, f, i, callMax) && SameNames(names, names', f)
    requires forall y :: Finished(wcs, y) ==> Finished(wcs', y) && wcs'[y] == wcs[y] && SameNames(names, names', y)
    ensures Scanned(g, wcs', names', f, i, callMax)
  {
    var cs := Calls(g, f);
    forall s ensures s in names'[f] <==> Unresolved(g, f, s) || exists j :: 0 <= j < i && Has(names', cs[j], s) {
      forall j | 0 <= j < i ensures Has(names', cs[j], s) <==> Has(names, cs[j], s) {
        assert Finished(wcs, cs[j]);
      }
    }
  }

  lemma ScannedNext(g: Graph, wcs: Found, names: Names, f: Fn, i: nat, callMax: nat)
    requires Scanned(g, wcs, names, f, i, callMax) && i < |Calls(g, f)|
    requires var c := Calls(g, f)[i]; Finished(wcs, c) && c in names && c != f
    requires !Finished(wcs, f)
    ensures var c := Calls(g, f)[i];
      Scanned(g, wcs, names[f := names[f] + names[c]], f, i + 1, if callMax < wcs[c].n then wcs[c].n else callMax)
  {
    var cs := Calls(g, f);
    var c := cs[i];
    var names' := names[f := names[f] + names[c]];
    var m := if callMax < wcs[c].n then wcs[c].n else callMax;
    if m != 0 && m != wcs[c].n {
      var j :| 0 <= j < i && Finished(wcs, cs[j]) && wcs[cs[j]].n == callMax;
      assert j < i + 1;
    } else if m == wcs[c].n {
      assert 0 <= i < i + 1;
    }
    forall s ensures s in names'[f] <==> Unresolved(g, f, s) || exists j :: 0 <= j < i + 1 && Has(names', cs[j], s) {
      forall j | 0 <= j < i + 1 ensures Has(names', cs[j], s) <==> Has(names, cs[j], s) {
        assert Finished(wcs, cs[j]);
      }
      if s in names[c] { assert Has(names, cs[i], s); }
    }
  }

  lemma ScannedAll(g: Graph, wcs: Found, names: Names, f: Fn, callMax: nat)
    requires Scanned(g, wcs, names, f, |Calls(g, f)|, callMax)
    ensures var n := callMax + LocalOf(g, f);
      && (forall c :: c in Calls(g, f) ==> Finished(wcs, c) && LocalOf(g, f) + wcs[c].n <= n)
      && (n == LocalOf(g, f) || exists c :: c in Calls(g, f) && Finished(wcs, c) && n == LocalOf(g, f) + wcs[c].n)
      && f in names
      && forall s :: s in names[f] <==> Unresolved(g, f, s) || exists c :: c in Calls(g, f) && Has(names, c, s)
  {
    var cs := Calls(g, f);
    if callMax != 0 {
      var j :| 0 <= j < |cs| && Finished(wcs, cs[j]) && wcs[cs[j]].n == callMax;
      assert cs[j] in cs;
    }
    forall s ensures s in names[f] <==> Unresolved(g, f, s) || exists c :: c in Calls(g, f) && Has(names, c, s) {
      if exists j :: 0 <= j < |cs| && Has(names, cs[j], s) {
        var j :| 0 <= j < |cs| && Has(names, cs[j], s);
        assert cs[j] in cs;
      }
    }
  }

  lemma {:induction false} ResolvedAppend(g: Graph, tu: Unit, names: seq<Name>, n: Name)
    ensures Resolved(g, tu, names + [n]) == Resolved(g, tu, names)
      + if Find(g, tu, n).Some? then [Find(g, tu, n).value] else []
  {
    hide Find;
    if names == [] {
      assert names + [n] == [n] && [n][1..] == [];
    } else {
      assert (names + [n])[1..] == names[1..] + [n];
      ResolvedAppend(g, tu, names[1..], n);
    }
  }

  lemma ManualOk(g: Graph, wcs: Found, rank: Ranks, names: Names)
    requires GraphOk(g) && names.Keys == g.entries.Keys && forall f :: f in g.entries ==> OwnNames(g, names, f)
    requires forall f :: f in wcs <==> f in g.entries && g.entries[f].manual
    requires forall f :: f in wcs ==> wcs[f] == Bytes(g.entries[f].local)
    requires forall f :: f in rank <==> f in wcs
    requires forall f :: f in rank ==> rank[f] == 0
    ensures Inv(g, wcs, rank, 1, names) && Fresh(g, wcs, names, [])
  {
    forall f | Finished(wcs, f) ensures BoundedOk(g, wcs, rank, names, f) {
      assert OwnNames(g, names, f);
    }
  }

  lemma InPath(g: Graph, parents: seq<Fn>, f: Fn)
    requires IsPath(g, parents + [f])
    ensures f in g.entries && forall x :: x in parents ==> x in g.entries
  {
    var p := parents + [f];
    assert p[|parents|] == f;
    forall x | x in parents ensures x in g.entries {
      var i :| 0 <= i < |parents| && parents[i] == x;
      assert p[i] == x;
    }
  }

  lemma KeepsSelf(g: Graph, parents: seq<Fn>, wcs: Found, rank: Ranks, time: nat, names: Names)
    requires Inv(g, wcs, rank, time, names) && forall x :: x in parents ==> x in g.entries
    ensures Keeps(parents, wcs, names, wcs, names)
  {
    forall x | Finished(wcs, x) ensures SameNames(names, names, x) {
      assert BoundedOk(g, wcs, rank, names, x);
    }
  }

  lemma PointerEndless(g: Graph, f: Fn)
    requires f in g.entries && g.entries[f].ptrCall
    ensures CanBeEndless(g, f)
  {
    assert Endless(g, [f]);
  }

  lemma MarkKeeps(g: Graph, parents: seq<Fn>, wcs: Found, rank: Ranks, time: nat, names: Names, f: Fn)
    requires Inv(g, wcs, rank, time, names) && !Finished(wcs, f)
    requires Fresh(g, wcs, names, parents)
    ensures (forall x :: x in parents ==> x in g.entries) ==> Keeps(parents, wcs, names, wcs[f := Unbounded], names)
    ensures Fresh(g, wcs[f := Unbounded], names, parents)
  {
    forall x | Finished(wcs, x) ensures SameNames(names, names, x) {
      assert BoundedOk(g, wcs, rank, names, x);
    }
  }

  lemma SearchStart(g: Graph, parents: seq<Fn>, wcs: Found, rank: Ranks, time: nat, names: Names, f: Fn)
    requires Inv(g, wcs, rank, time, names) && Fresh(g, wcs, names, parents) && f in g.entries && f !in parents
      && f !in wcs
    requires NoDup(parents) && forall x :: x in parents ==> x in g.entries && !Finished(wcs, x)
    ensures Fresh(g, wcs, names, parents + [f]) && Scanned(g, wcs, names, f, 0, 0) && !Finished(wcs, f)
    ensures NoDup(parents + [f]) && forall x :: x in parents + [f] ==> x in g.entries && !Finished(wcs, x)
    ensures Keeps(parents, wcs, names, wcs, names)
  {
    SnocMembers(f, parents);
    KeepsSelf(g, parents, wcs, rank, time, names);
    assert OwnNames(g, names, f);
    ScannedNone(g, wcs, names, f);
    hide Inv, Keeps, Scanned;
  }

  lemma CalleeKnown(g: Graph, wcs: Found, rank: Ranks, time: nat, names: Names, f: Fn, i: nat)
    requires Inv(g, wcs, rank, time, names) && f in g.entries && i < |Calls(g, f)|
    ensures Calls(g, f)[i] in g.entries && Calls(g, f)[i] in Calls(g, f)
  {
    ResolvedKnown(g, g.entries[f].tu, g.entries[f].calls);
  }

  lemma AfterCallee(g: Graph, parents: seq<Fn>, f: Fn, w0: Found, n0: Names, w1: Found, n1: Names, w2: Found,
                    n2: Names, i: nat, callMax: nat)
    requires Keeps(parents, w0, n0, w1, n1) && Keeps(parents + [f], w1, n1, w2, n2) && Scanned(g, w1, n1, f, i, callMax)
    requires !Finished(w1, f) && forall x :: x in parents + [f] ==> !Finished(w1, x)
    ensures Keeps(parents, w0, n0, w2, n2) && Scanned(g, w2, n2, f, i, callMax) && !Finished(w2, f)
    ensures forall x :: x in parents + [f] ==> !Finished(w2, x)
  {
    KeepsFewer(parents, f, w1, n1, w2, n2);
    KeepsTwice(parents, w0, n0, w1, n1, w2, n2);
    ScannedKept(g, w1, n1, f, i, callMax, w2, n2);
  }

  lemma KnownEndless(g: Graph, wcs: Found, rank: Ranks, time: nat, names: Names, c: Fn)
    requires Inv(g, wcs, rank, time, names) && c in wcs && wcs[c].Unbounded?
    ensures CanBeEndless(g, c)
  {
  }

  lemma LeaveUnbounded(g: Graph, parents: seq<Fn>, w0: Found, n0: Names, w1: Found, wcs: Found, names: Names, f: Fn)
    requires f in wcs && Fresh(g, wcs, names, parents + [f])
    requires Keeps(parents, w0, n0, w1, names) && Keeps(parents + [f], w1, names, wcs, names)
    ensures Fresh(g, wcs, names, parents) && Keeps(parents, w0, n0, wcs, names)
  {
    KeepsFewer(parents, f, w1, names, wcs, names);
    KeepsTwice(parents, w0, n0, w1, names, wcs, names);
    forall x | x in g.entries && x !in wcs && x !in parents ensures OwnNames(g, names, x) {
      assert x !in parents + [f];
    }
  }

  lemma CalleeFinished(g: Graph, wcs: Found, rank: Ranks, time: nat, names: Names, c: Fn, f: Fn)
    requires Inv(g, wcs, rank, time, names) && c in wcs && wcs[c].Bytes? && !Finished(wcs, f)
    ensures Finished(wcs, c) && c in names && c != f
  {
    assert BoundedOk(g, wcs, rank, names, c);
  }

  lemma GrowNames(g: Graph, parents: seq<Fn>, w0: Found, n0: Names, wcs: Found, rank: Ranks, time: nat, names: Names,
                  f: Fn, c: Fn)
    requires Inv(g, wcs, rank, time, names) && f in g.entries && !Finished(wcs, f) && f in names && c in names
    requires Fresh(g, wcs, names, parents + [f]) && Keeps(parents, w0, n0, wcs, names) && f !in parents
    requires !Finished(w0, f)
    ensures Inv(g, wcs, rank, time, names[f := names[f] + names[c]])
    ensures Fresh(g, wcs, names[f := names[f] + names[c]], parents + [f])
    ensures Keeps(parents, w0, n0, wcs, names[f := names[f] + names[c]])
  {
    AddNames(g, wcs, rank, time, names, f, names[f] + names[c]);
    var names' := names[f := names[f] + names[c]];
    forall x | x in g.entries && x !in wcs && x !in parents + [f] ensures OwnNames(g, names', x) {
      assert x != f;
      assert OwnNames(g, names, x);
    }
    hide Inv;
  }

  lemma LeaveBounded(g: Graph, parents: seq<Fn>, w0: Found, n0: Names, wcs: Found, names: Names, f: Fn, n: nat)
    requires Fresh(g, wcs, names, parents + [f]) && Keeps(parents, w0, n0, wcs, names) && f !in parents
      && !Finished(w0, f)
    ensures Fresh(g, wcs[f := Bytes(n)], names, parents)
    ensures Keeps(parents, w0, n0, wcs[f := Bytes(n)], names)
  {
    forall x | x in g.entries && x !in wcs[f := Bytes(n)] && x !in parents ensures OwnNames(g, names, x) {
      assert x !in parents + [f];
    }
  }

  lemma KeepsKnown(parents: seq<Fn>, wcs: Found, names: Names, wcs': Found, names': Names)
    requires Keeps(parents, wcs, names, wcs', names')
    ensures forall x :: x in wcs ==> x in wcs'
  {
  }

  lemma AllCorrect(g: Graph, wcs: Found, rank: Ranks, time: nat, names: Names)
    requires Inv(g, wcs, rank, time, names)
    ensures forall f :: f in wcs ==> f in g.entries
    ensures forall f :: f in wcs ==> (wcs[f].Unbounded? <==> CanBeEndless(g, f))
    ensures forall f, p :: f in wcs && wcs[f].Bytes? && PathFrom(g, f, p) ==> Weight(g, p) <= wcs[f].n
    ensures forall f :: f in wcs && wcs[f].Bytes? ==> exists p :: PathFrom(g, f, p) && Weight(g, p) == wcs[f].n
    ensures forall f, s :: f in wcs && wcs[f].Bytes? ==>
      (Has(names, f, s) <==> exists p :: PathFrom(g, f, p) && Unresolved(g, p[|p| - 1], s))
  {
    assert forall f :: f in wcs ==> f in g.entries;
    hide Inv, CanBeEndless, PathFrom, Weight, Unresolved;
    forall f | f in wcs
      ensures wcs[f].Unbounded? <==> CanBeEndless(g, f)
      ensures wcs[f].Bytes? ==> forall p :: PathFrom(g, f, p) ==> Weight(g, p) <= wcs[f].n
      ensures wcs[f].Bytes? ==> exists p :: PathFrom(g, f, p) && Weight(g, p) == wcs[f].n
    {
      Correct(g, wcs, rank, time, names, f);
    }
    forall f, s | f in wcs && wcs[f].Bytes?
      ensures Has(names, f, s) <==> exists p :: PathFrom(g, f, p) && Unresolved(g, p[|p| - 1], s)
    {
      NamesReached(g, wcs, rank, time, names, f, s);
    }
  }

  /** The dictionaries that the script fills in: `r_calls`, `unresolved_calls` and `wcs` of the functions. */
  class Analysis {
    const graph: Graph
    var rCalls: map<Fn, seq<Fn>>
    var unresolved: Names
    var wcs: Found
    ghost var rank: Ranks
    ghost var time: nat

    ghost predicate CallsKnown() reads `rCalls {
      forall f :: f in graph.entries ==> f in rCalls && rCalls[f] == Calls(graph, f)
    }

    /** What the search keeps; `parents` are the functions under analysis. */
    ghost predicate Searching(parents: seq<Fn>) reads this {
      && Inv(graph, wcs, rank, time, unresolved) && Fresh(graph, wcs, unresolved, parents)
      && CallsKnown()
    }

    /** The graph with manual entries, whose stack use is given; then resolve_all_calls. */
    constructor (graph: Graph)
      requires GraphOk(graph)
      ensures Searching([]) && this.graph == graph
      ensures forall f :: f in wcs <==> f in graph.entries && graph.entries[f].manual
      ensures forall f :: f in wcs ==> wcs[f] == Bytes(graph.entries[f].local)
    {
      this.graph := graph;
      rCalls, unresolved := map[], map[];
      wcs := map f | f in graph.entries && graph.entries[f].manual :: Bytes(graph.entries[f].local);
      rank, time := map f | f in graph.entries && graph.entries[f].manual :: 0, 1;
      new;
      ResolveAll();
      ManualOk(graph, wcs, rank, unresolved);
    }

    /** resolve_all_calls */
    method ResolveAll()
      requires rCalls == map[] && unresolved == map[]
      modifies `rCalls, `unresolved
      ensures CallsKnown() && unresolved.Keys == graph.entries.Keys
      ensures forall f :: f in graph.entries ==> OwnNames(graph, unresolved, f)
    {
      hide Resolved, Find, Unresolved;
      var todo := graph.entries.Keys;
      while todo != {}
        invariant todo <= graph.entries.Keys
        invariant forall f :: f in unresolved <==> f in graph.entries && f !in todo
        invariant forall f :: f in graph.entries && f !in todo ==> f in rCalls && rCalls[f] == Calls(graph, f)
        invariant forall f :: f in graph.entries && f !in todo ==> OwnNames(graph, unresolved, f)
      {
        var f :| f in todo;
        todo := todo - {f};
        var calls, names := ResolveCalls(f);
        rCalls := rCalls[f := calls];
        unresolved := unresolved[f := names];
      }
    }

    /** resolve_calls */
    method ResolveCalls(f: Fn) returns (calls: seq<Fn>, names: set<Name>)
      requires f in graph.entries
      ensures calls == Calls(graph, f)
      ensures forall s :: s in names <==> Unresolved(graph, f, s)
      ensures forall c :: c in calls <==> exists n ::
        && n in graph.entries[f].calls
        && if n in graph.globals then graph.globals[n] == c
           else n in graph.locals && graph.entries[f].tu in graph.locals[n]
                && graph.locals[n][graph.entries[f].tu] == c
      ensures forall n :: n in names <==>
        && n in graph.entries[f].calls && n !in graph.globals
        && (n in graph.locals ==> graph.entries[f].tu !in graph.locals[n])
    {
      hide Find;
      var e := graph.entries[f];
      calls, names := [], {};
      var i := 0;
      while i < |e.calls|
        invariant 0 <= i <= |e.calls| && calls == Resolved(graph, e.tu, e.calls[..i])
        invariant forall s :: s in names <==> s in e.calls[..i] && Find(graph, e.tu, s).None?
      {
        var call := e.calls[i];
        assert e.calls[..i + 1] == e.calls[..i] + [call];
        ResolvedAppend(graph, e.tu, e.calls[..i], call);
        var r := Find(graph, e.tu, call);
        if r.Some? {
          calls := calls + [r.value];
        } else {
          names := names + {call};
        }
        i := i + 1;
      }
      assert e.calls[..|e.calls|] == e.calls;
      CallsByTables(graph, f);
    }

    /** calc_wcs */
    method CalcWcs(f: Fn, parents: seq<Fn>)
      requires Searching(parents) && NoDup(parents) && IsPath(graph, parents + [f])
      requires forall x :: x in parents ==> !Finished(wcs, x)
      modifies `wcs, `unresolved, `rank, `time
      ensures Searching(parents) && f in wcs
      ensures Keeps(parents, old(wcs), old(unresolved), wcs, unresolved)
      decreases |graph.entries| - |parents|, 1
    {
      hide Inv, Fresh, Keeps, IsPath, Scanned, CanBeEndless;
      InPath(graph, parents, f);
      KeepsSelf(graph, parents, wcs, rank, time, unresolved);
      if f in wcs {
        return;
      }
      if graph.entries[f].ptrCall {
        PointerEndless(graph, f);
        MarkUnbounded(f, parents);
        return;
      }
      if f in parents {
        RecursionEndless(graph, parents, f);
        MarkUnbounded(f, parents);
        return;
      }
      Search(f, parents);
    }

    /** The assignment of 'unbounded'. */
    method MarkUnbounded(f: Fn, ghost parents: seq<Fn>)
      requires Searching(parents) && f in graph.entries && CanBeEndless(graph, f) && !Finished(wcs, f)
      requires forall x :: x in parents ==> x in graph.entries
      modifies `wcs
      ensures Searching(parents) && wcs == old(wcs)[f := Unbounded]
      ensures Keeps(parents, old(wcs), unresolved, wcs, unresolved)
    {
      hide Inv, Fresh, Keeps, CanBeEndless;
      AddUnbounded(graph, wcs, rank, time, unresolved, f);
      MarkKeeps(graph, parents, wcs, rank, time, unresolved, f);
      wcs := wcs[f := Unbounded];
    }

    /** The part of calc_wcs after the checks: the loop over the calls. */
    method Search(f: Fn, parents: seq<Fn>)
      requires Searching(parents) && NoDup(parents) && IsPath(graph, parents + [f]) && f in graph.entries
      requires f !in parents && f !in wcs && !graph.entries[f].ptrCall
      requires forall x :: x in parents ==> x in graph.entries && !Finished(wcs, x)
      modifies `wcs, `unresolved, `rank, `time
      ensures Searching(parents) && f in wcs
      ensures Keeps(parents, old(wcs), old(unresolved), wcs, unresolved)
      decreases |graph.entries| - |parents|, 0
    {
      hide Inv, Fresh, Keeps, IsPath, Scanned, CanBeEndless, Finished, NoDup, BoundedOk, OwnNames;
      ghost var w0, n0 := wcs, unresolved;
      var inner := parents + [f];
      SearchStart(graph, parents, wcs, rank, time, unresolved, f);
      ParentsBound(inner, graph.entries.Keys);
      var callMax: nat := 0;
      var i: nat := 0;
      while i < |rCalls[f]|
        invariant 0 <= i <= |rCalls[f]| && Searching(inner) && Scanned(graph, wcs, unresolved, f, i, callMax)
        invariant !Finished(wcs, f) && forall x :: x in inner ==> !Finished(wcs, x)
        invariant Keeps(parents, w0, n0, wcs, unresolved)
        invariant forall x :: x in inner ==> x in graph.entries
        modifies `wcs, `unresolved, `rank, `time
        decreases |rCalls[f]| - i
      {
        var c := rCalls[f][i];
        CalleeKnown(graph, wcs, rank, time, unresolved, f, i);
        PathSnoc(graph, parents, f, c);
        ghost var w1, n1 := wcs, unresolved;
        CalcWcs(c, inner);
        AfterCallee(graph, parents, f, w0, n0, w1, n1, wcs, unresolved, i, callMax);
        if wcs[c].Unbounded? {
          KnownEndless(graph, wcs, rank, time, unresolved, c);
          EndlessCons(graph, f, c);
          ghost var w2 := wcs;
          MarkUnbounded(f, inner);
          LeaveUnbounded(graph, parents, w0, n0, w2, wcs, unresolved, f);
          return;
        }
        CalleeFinished(graph, wcs, rank, time, unresolved, c, f);
        ScannedNext(graph, wcs, unresolved, f, i, callMax);
        if wcs[c].n > callMax {
          callMax := wcs[c].n;
        }
        GrowNames(graph, parents, w0, n0, wcs, rank, time, unresolved, f, c);
        unresolved := unresolved[f := unresolved[f] + unresolved[c]];
        i := i + 1;
      }
      ScannedAll(graph, wcs, unresolved, f, callMax);
      AddBounded(graph, wcs, rank, time, unresolved, f, callMax + LocalOf(graph, f));
      LeaveBounded(graph, parents, w0, n0, wcs, unresolved, f, callMax + LocalOf(graph, f));
      wcs := wcs[f := Bytes(callMax + graph.entries[f].local)];
      rank, time := rank[f := time], time + 1;
    }

    /** calc_all_wcs: every function gets a result, and it is the right one. */
    method CalcAll()
      requires Searching([])
      modifies `wcs, `unresolved, `rank, `time
      ensures Searching([])
      ensures forall f :: f in wcs <==> f in graph.entries
      ensures forall f :: f in wcs ==> (wcs[f].Unbounded? <==> CanBeEndless(graph, f))
      ensures forall f, p :: f in wcs && wcs[f].Bytes? && PathFrom(graph, f, p) ==> Weight(graph, p) <= wcs[f].n
      ensures forall f :: f in wcs && wcs[f].Bytes? ==>
        exists p :: PathFrom(graph, f, p) && Weight(graph, p) == wcs[f].n
      ensures forall f, s :: f in wcs && wcs[f].Bytes? ==>
        (Has(unresolved, f, s) <==> exists p :: PathFrom(graph, f, p) && Unresolved(graph, p[|p| - 1], s))
    {
      hide Inv, Fresh, Keeps, CanBeEndless, PathFrom, Weight;
      var todo := graph.entries.Keys;
      while todo != {}
        invariant Searching([]) && todo <= graph.entries.Keys
        invariant forall f :: f in graph.entries && f !in todo ==> f in wcs
      {
        var f :| f in todo;
        todo := todo - {f};
        ghost var w, n := wcs, unresolved;
        assert [] + [f] == [f];
        CalcWcs(f, []);
        KeepsKnown([], w, n, wcs, unresolved);
      }
      AllCorrect(graph, wcs, rank, time, unresolved);
    }
  }
}
