/** Lists without repetition, and removal of one element. */
module Seqs {
  ghost predicate NoDup<T(!new)>(s: seq<T>) { forall i, j :: 0 <= i < j < |s| ==> s[i] != s[j] }

  /** The list without its first occurrence of `t`. */
  function Removed<T(==)>(s: seq<T>, t: T): seq<T> {
    if s == [] then [] else if s[0] == t then s[1..] else [s[0]] + Removed(s[1..], t)
  }

  function InsertedAt<T>(s: seq<T>, k: nat, t: T): seq<T>
    requires k <= |s|
  {
    s[..k] + [t] + s[k..]
  }

  lemma {:induction false} RemovedSplit<T>(a: seq<T>, t: T, b: seq<T>)
    requires t !in a
    ensures Removed(a + [t] + b, t) == a + b
  {
    if a == [] {
      assert a + [t] + b == [t] + b;
    } else {
      assert (a + [t] + b)[1..] == a[1..] + [t] + b;
      RemovedSplit(a[1..], t, b);
    }
  }

  /** Removing the element at place `k` of a list without repetition. */
  lemma RemovedIs<T(!new)>(s: seq<T>, k: nat)
    requires NoDup(s) && k < |s|
    ensures Removed(s, s[k]) == s[..k] + s[k + 1..]
  {
    assert s == s[..k] + [s[k]] + s[k + 1..];
    RemovedSplit(s[..k], s[k], s[k + 1..]);
  }

  lemma {:induction false} FirstPlace<T>(s: seq<T>, t: T) returns (k: nat)
    requires t in s
    ensures k < |s| && s[k] == t && t !in s[..k]
  {
    if s[0] == t {
      k := 0;
    } else {
      var rest := s[1..];
      assert s == [s[0]] + rest;
      k := FirstPlace(rest, t);
      assert s[..k + 1] == [s[0]] + rest[..k];
      k := k + 1;
    }
  }

  lemma {:induction false} RemovedAbsent<T>(s: seq<T>, t: T)
    requires t !in s
    ensures Removed(s, t) == s
  {
    if s != [] {
      RemovedAbsent(s[1..], t);
    }
  }

  /** Removing an element keeps the others in their order: places `i` and `j` come from places `p` and `q`. */
  lemma RemovedOrder<T(!new)>(s: seq<T>, t: T, i: nat, j: nat) returns (p: nat, q: nat)
    requires i < j < |Removed(s, t)|
    ensures p < q < |s| && Removed(s, t)[i] == s[p] && Removed(s, t)[j] == s[q]
  {
    if t in s {
      var k := FirstPlace(s, t);
      var a, b := s[..k], s[k + 1..];
      assert s == a + [t] + b;
      RemovedSplit(a, t, b);
      p, q := if i < k then i else i + 1, if j < k then j else j + 1;
    } else {
      RemovedAbsent(s, t);
      p, q := i, j;
    }
  }

  lemma {:induction false} SplitMembers<T(!new)>(a: seq<T>, t: T, b: seq<T>)
    requires NoDup(a + [t] + b)
    ensures NoDup(a + b) && t !in a && t !in b
    ensures forall x :: x in a + b <==> x in a + [t] + b && x != t
  {
    var s := a + [t] + b;
    assert s[|a|] == t;
    forall i | 0 <= i < |a| ensures a[i] != t { assert s[i] == a[i]; }
    forall i | 0 <= i < |b| ensures b[i] != t { assert s[|a| + 1 + i] == b[i]; }
    forall i, j | 0 <= i < j < |a + b| ensures (a + b)[i] != (a + b)[j] {
      assert (a + b)[i] == s[if i < |a| then i else i + 1];
      assert (a + b)[j] == s[if j < |a| then j else j + 1];
    }
  }

  lemma {:induction false} RemovedMembers<T(!new)>(s: seq<T>, t: T)
    requires NoDup(s)
    ensures NoDup(Removed(s, t)) && forall x :: x in Removed(s, t) <==> x in s && x != t
  {
    if t in s {
      var k :| 0 <= k < |s| && s[k] == t;
      var a, b := s[..k], s[k + 1..];
      assert s == a + [t] + b;
      SplitMembers(a, t, b);
      RemovedSplit(a, t, b);
    } else {
      RemovedAbsent(s, t);
    }
  }

  lemma {:induction false} InsertedMembers<T(!new)>(s: seq<T>, k: nat, t: T)
    requires NoDup(s) && t !in s && k <= |s|
    ensures NoDup(InsertedAt(s, k, t)) && forall x :: x in InsertedAt(s, k, t) <==> x in s || x == t
  {
    var r := InsertedAt(s, k, t);
    assert s == s[..k] + s[k..];
    forall i, j | 0 <= i < j < |r| ensures r[i] != r[j] {
      assert i < k ==> r[i] == s[i];
      assert j > k ==> r[j] == s[j - 1];
      assert i > k ==> r[i] == s[i - 1];
      assert j < k ==> r[j] == s[j];
    }
  }

  lemma InsertedIndex<T>(s: seq<T>, k: nat, t: T, i: nat)
    requires k <= |s| && i <= |s|
    ensures |InsertedAt(s, k, t)| == |s| + 1
    ensures InsertedAt(s, k, t)[i] == if i < k then s[i] else if i == k then t else s[i - 1]
  {
  }

  /** An element that is inserted and then removed leaves the list as it was. */
  lemma {:induction false} InsertThenRemove<T>(s: seq<T>, k: nat, t: T)
    requires t !in s && k <= |s|
    ensures Removed(InsertedAt(s, k, t), t) == s
  {
    assert s == s[..k] + s[k..];
    RemovedSplit(s[..k], t, s[k..]);
  }

  lemma RestMembers<T(!new)>(s: seq<T>)
    requires NoDup(s) && s != []
    ensures NoDup(s[1..]) && s[0] !in s[1..] && forall x :: x in s[1..] <==> x in s && x != s[0]
  {
    assert s == [] + [s[0]] + s[1..];
    assert [] + s[1..] == s[1..];
    SplitMembers([], s[0], s[1..]);
  }

  lemma ConsMembers<T(!new)>(x: T, s: seq<T>)
    requires NoDup(s) && x !in s
    ensures NoDup([x] + s) && forall y :: y in [x] + s <==> y in s || y == x
  {
  }

  lemma SnocMembers<T(!new)>(x: T, s: seq<T>)
    requires NoDup(s) && x !in s
    ensures NoDup(s + [x]) && forall y :: y in s + [x] <==> y in s || y == x
  {
  }

  /** Taking out the element at place `k`. */
  lemma WithoutAt<T(!new)>(s: seq<T>, k: nat)
    requires NoDup(s) && k < |s|
    ensures NoDup(s[..k] + s[k + 1..]) && forall x :: x in s[..k] + s[k + 1..] <==> x in s && x != s[k]
  {
    assert s == s[..k] + [s[k]] + s[k + 1..];
    SplitMembers(s[..k], s[k], s[k + 1..]);
  }

  function Elements<T>(s: seq<T>): set<T> { set x | x in s }

  lemma {:induction false} ElementsSize<T(!new)>(s: seq<T>)
    requires NoDup(s)
    ensures |Elements(s)| == |s|
  {
    if s != [] {
      RestMembers(s);
      ElementsSize(s[1..]);
      assert Elements(s) == Elements(s[1..]) + {s[0]};
    }
  }

  lemma {:induction false} SubsetSize<T>(a: set<T>, b: set<T>)
    requires a <= b
    ensures |a| <= |b|
  {
    if a != {} {
      var x :| x in a;
      SubsetSize(a - {x}, b - {x});
    }
  }
}
