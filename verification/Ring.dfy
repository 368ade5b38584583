/** Circular doubly linked lists, as in `include/rtservice.h` and in the free list of
    `src/memheap.c`. Node addresses are integers; `next` and `prev` are the link fields. */
module Ring {
  import opened Seqs

  function Succ(i: nat, n: nat): nat { if i + 1 < n then i + 1 else 0 }

  /** Node `i` and its successor point at each other. */
  predicate LinkAt(r: seq<int>, i: nat, next: map<int, int>, prev: map<int, int>)
    requires i < |r|
  {
    var s := r[Succ(i, |r|)];
    r[i] in next && next[r[i]] == s && s in prev && prev[s] == r[i]
  }

  /** Following `next` from `r[0]` visits exactly the nodes of `r`, in order, and comes back;
      `prev` is the inverse of `next`. `r[0]` is usually the list head. */
  ghost predicate IsRing(r: seq<int>, next: map<int, int>, prev: map<int, int>) {
    |r| > 0 && NoDup(r) && forall i :: 0 <= i < |r| ==> LinkAt(r, i, next, prev)
  }

  function Pred(i: nat, n: nat): nat
    requires i < n
  {
    if i > 0 then i - 1 else n - 1
  }

  lemma InsertedPlaces(r: seq<int>, k: nat, x: int)
    requires k < |r| && NoDup(r) && x !in r
    ensures var t := InsertedAt(r, k + 1, x);
      && NoDup(t) && |t| == |r| + 1
      && forall i :: 0 <= i <= |r| ==> t[i] == if i <= k then r[i] else if i == k + 1 then x else r[i - 1]
  {
    InsertedMembers(r, k + 1, x);
  }

  lemma RingInsert(r: seq<int>, k: nat, x: int, next: map<int, int>, prev: map<int, int>,
                   next': map<int, int>, prev': map<int, int>)
    requires IsRing(r, next, prev) && k < |r| && x !in r && r[k] in next
    requires next' == next[x := next[r[k]]][r[k] := x]
    requires prev' == prev[next[r[k]] := x][x := r[k]]
    ensures IsRing(InsertedAt(r, k + 1, x), next', prev')
  {
    var t := InsertedAt(r, k + 1, x);
    InsertedPlaces(r, k, x);
    assert LinkAt(r, k, next, prev);
    forall i | 0 <= i < |t| ensures LinkAt(t, i, next', prev') {
      if i < k {
        assert LinkAt(r, i, next, prev);
      } else if i > k + 1 {
        assert LinkAt(r, i - 1, next, prev);
      }
    }
  }

  lemma RemovedPlaces(r: seq<int>, k: nat, t: seq<int>)
    requires k < |r| && NoDup(r) && t == Removed(r, r[k])
    ensures NoDup(t) && |t| == |r| - 1
    ensures forall i {:trigger t[i]} :: 0 <= i < |t| ==> t[i] == r[if i < k then i else i + 1]
  {
    hide Removed;
    RemovedIs(r, k);
    WithoutAt(r, k);
    assert t == r[..k] + r[k + 1..];
  }

  /** The nodes that become neighbours, or stay so, when node `k` is unlinked. */
  lemma RemovedLink(r: seq<int>, k: nat, j: nat, q: nat, next: map<int, int>, prev: map<int, int>,
                    next': map<int, int>, prev': map<int, int>)
    requires NoDup(r) && k < |r| && j < |r| && q < |r| && j != k && q != k
    requires q == if Succ(j, |r|) == k then Succ(k, |r|) else Succ(j, |r|)
    requires LinkAt(r, j, next, prev) && LinkAt(r, k, next, prev) && LinkAt(r, Pred(k, |r|), next, prev)
    requires r[k] in prev && r[k] in next
    requires next' == next[prev[r[k]] := next[r[k]]] || next' == next[prev[r[k]] := next[r[k]]][r[k] := r[k]]
    requires prev' == prev[next[r[k]] := prev[r[k]]] || prev' == prev[next[r[k]] := prev[r[k]]][r[k] := r[k]]
    ensures r[j] in next' && next'[r[j]] == r[q] && r[q] in prev' && prev'[r[q]] == r[j]
  {
    var n := |r|;
    var p, u := Pred(k, n), Succ(k, n);
    assert prev[r[k]] == r[p] && next[r[k]] == r[u];
    assert j == p <==> Succ(j, n) == k;
  }

  lemma RingRemove(r: seq<int>, k: nat, next: map<int, int>, prev: map<int, int>,
                   next': map<int, int>, prev': map<int, int>)
    requires IsRing(r, next, prev) && k < |r| && |r| > 1
    requires r[k] in prev && r[k] in next
    requires next' == next[prev[r[k]] := next[r[k]]] || next' == next[prev[r[k]] := next[r[k]]][r[k] := r[k]]
    requires prev' == prev[next[r[k]] := prev[r[k]]] || prev' == prev[next[r[k]] := prev[r[k]]][r[k] := r[k]]
    ensures IsRing(Removed(r, r[k]), next', prev')
  {
    var t := Removed(r, r[k]);
    hide Removed;
    RemovedPlaces(r, k, t);
    assert LinkAt(r, k, next, prev);
    assert LinkAt(r, Pred(k, |r|), next, prev);
    forall i | 0 <= i < |t| ensures LinkAt(t, i, next', prev') {
      var j := if i < k then i else i + 1;
      var s := Succ(i, |t|);
      var q := if s < k then s else s + 1;
      assert LinkAt(r, j, next, prev) && t[i] == r[j] && t[s] == r[q];
      RemovedLink(r, k, j, q, next, prev, next', prev');
    }
  }

  /** The links of all nodes but those in `r` are the same. */
  ghost predicate Outside(r: seq<int>, links: map<int, int>, links': map<int, int>) {
    forall x :: x !in r ==> (x in links' <==> x in links) && (x in links ==> links'[x] == links[x])
  }

  /** The list operations of `include/rtservice.h`. */
  class Lists {
    var next: map<int, int>
    var prev: map<int, int>

    /** rt_list_insert_after */
    method InsertAfter(l: int, n: int, ghost r: seq<int>, ghost k: nat)
      requires IsRing(r, next, prev) && k < |r| && r[k] == l && n !in r
      modifies this
      ensures IsRing(InsertedAt(r, k + 1, n), next, prev)
      ensures Outside(r + [n], old(next), next) && Outside(r + [n], old(prev), prev)
    {
      ghost var nx, pv := next, prev;
      assert LinkAt(r, k, next, prev);
      prev := prev[next[l] := n];
      next := next[n := next[l]];
      next := next[l := n];
      prev := prev[n := l];
      RingInsert(r, k, n, nx, pv, next, prev);
    }

    /** rt_list_insert_before, which appends when `l` is the list head. */
    method InsertBefore(l: int, n: int, ghost r: seq<int>, ghost k: nat)
      requires IsRing(r, next, prev) && k < |r| && r[k] == l && n !in r
      modifies this
      ensures IsRing(InsertedAt(r, Pred(k, |r|) + 1, n), next, prev)
      ensures Outside(r + [n], old(next), next) && Outside(r + [n], old(prev), prev)
    {
      ghost var nx, pv := next, prev;
      assert LinkAt(r, Pred(k, |r|), next, prev);
      var p := prev[l];
      next := next[p := n];
      prev := prev[n := p];
      prev := prev[l := n];
      next := next[n := l];
      RingInsert(r, Pred(k, |r|), n, nx, pv, next, prev);
    }

    /** rt_list_remove; the node is left as a list of its own, so removing it again is harmless. */
    method Remove(n: int, ghost r: seq<int>, ghost k: nat)
      requires IsRing(r, next, prev) && k < |r| && r[k] == n
      modifies this
      ensures |r| > 1 ==> IsRing(Removed(r, n), next, prev)
      ensures IsRing([n], next, prev)
      ensures |r| == 1 ==> next == old(next) && prev == old(prev)
      ensures Outside(r, old(next), next) && Outside(r, old(prev), prev)
    {
      ghost var nx, pv := next, prev;
      assert LinkAt(r, k, next, prev);
      assert LinkAt(r, Pred(k, |r|), next, prev);
      var s, p := next[n], prev[n];
      prev := prev[s := p];
      next := next[p := s];
      next, prev := next[n := n], prev[n := n];
      if |r| > 1 {
        RingRemove(r, k, nx, pv, next, prev);
      }
    }

    /** rt_list_isempty */
    method IsEmpty(l: int, ghost r: seq<int>) returns (empty: bool)
      requires IsRing(r, next, prev) && r[0] == l
      ensures empty <==> |r| == 1
    {
      assert LinkAt(r, 0, next, prev);
      empty := next[l] == l;
    }
  }
}
