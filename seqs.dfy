/** Generic sequence vocabulary shared by the inventory model: order-preserving
    sublists, the filter that JavaScript's Array.prototype.filter performs, and
    the first-appearance de-duplication done by `Array.from(new Set(...))`. */
module Seqs {

  /** `r` can be obtained from `s` by deleting elements (order is kept). */
  predicate IsSubsequence<T(==,!new)>(r: seq<T>, s: seq<T>)
    decreases |s|
  {
    r == [] || (s != [] && ((r[0] == s[0] && IsSubsequence(r[1..], s[1..])) || IsSubsequence(r, s[1..])))
  }

  /** The elements of `s` satisfying `f`, in their original order. Together with
      `FilterCounts` the postconditions determine the result uniquely. */
  function Filter<T(==,!new)>(s: seq<T>, f: T -> bool): (r: seq<T>)
    ensures forall x :: x in r <==> x in s && f(x)
    ensures IsSubsequence(r, s)
    ensures |r| <= |s|
  {
    if s == [] then []
    else
      var rest := Filter(s[1..], f);
      if f(s[0]) then
        assert ([s[0]] + rest)[1..] == rest;
        [s[0]] + rest
      else rest
  }

  /** A filter keeps every occurrence of an element that passes and none of one
      that fails. */
  lemma {:induction false} FilterCounts<T(!new)>(s: seq<T>, f: T -> bool)
    ensures forall x :: multiset(Filter(s, f))[x] == if f(x) then multiset(s)[x] else 0
  {
    if s != [] {
      FilterCounts(s[1..], f);
      assert s == [s[0]] + s[1..];
    }
  }

  /** `Filter(s, f)` when `cond` holds, `s` otherwise: an optional criterion. */
  function FilterWhen<T(==,!new)>(s: seq<T>, cond: bool, f: T -> bool): (r: seq<T>)
    ensures forall x :: x in r <==> x in s && (cond ==> f(x))
    ensures IsSubsequence(r, s)
  {
    if cond then Filter(s, f)
    else
      SubsequenceReflexive(s);
      s
  }

  /** An optional criterion keeps every occurrence of an element it lets
      through and none of one it rejects. */
  lemma FilterWhenCounts<T(!new)>(s: seq<T>, cond: bool, f: T -> bool)
    ensures forall x :: multiset(FilterWhen(s, cond, f))[x] == if cond ==> f(x) then multiset(s)[x] else 0
  {
    if cond {
      FilterCounts(s, f);
    }
  }

  /** Filtering by a predicate and by its negation splits the list in two. */
  lemma {:induction false} FilterPartition<T(!new)>(s: seq<T>, f: T -> bool, g: T -> bool)
    requires forall x :: g(x) == !f(x)
    ensures |Filter(s, f)| + |Filter(s, g)| == |s|
  {
    if s != [] {
      FilterPartition(s[1..], f, g);
    }
  }

  /** Filtering twice with the same predicate is filtering once. */
  lemma {:induction false} FilterIdempotent<T(!new)>(s: seq<T>, f: T -> bool)
    ensures Filter(Filter(s, f), f) == Filter(s, f)
  {
    if s != [] {
      FilterIdempotent(s[1..], f);
    }
  }

  /** A filter that every element passes keeps the whole list. */
  lemma {:induction false} FilterKeepsAll<T(!new)>(s: seq<T>, f: T -> bool)
    requires forall x :: x in s ==> f(x)
    ensures Filter(s, f) == s
  {
    if s != [] {
      FilterKeepsAll(s[1..], f);
    }
  }

  lemma {:induction false} SubsequenceReflexive<T(!new)>(s: seq<T>)
    ensures IsSubsequence(s, s)
  {
    if s != [] {
      SubsequenceReflexive(s[1..]);
    }
  }

  /** A sublist of a sublist is a sublist. */
  lemma {:induction false} SubsequenceTransitive<T(!new)>(a: seq<T>, b: seq<T>, c: seq<T>)
    requires IsSubsequence(a, b) && IsSubsequence(b, c)
    ensures IsSubsequence(a, c)
    decreases |c|
  {
    if a == [] {
    } else if b[0] == c[0] && IsSubsequence(b[1..], c[1..]) {
      if a[0] == b[0] && IsSubsequence(a[1..], b[1..]) {
        SubsequenceTransitive(a[1..], b[1..], c[1..]);
      } else {
        SubsequenceTransitive(a, b[1..], c[1..]);
      }
    } else {
      SubsequenceTransitive(a, b, c[1..]);
    }
  }

  /** Every element of a sublist occurs in the list. */
  lemma {:induction false} SubsequenceMembers<T(!new)>(r: seq<T>, s: seq<T>)
    requires IsSubsequence(r, s)
    ensures forall x :: x in r ==> x in s
    decreases |s|
  {
    if r != [] {
      if r[0] == s[0] && IsSubsequence(r[1..], s[1..]) {
        SubsequenceMembers(r[1..], s[1..]);
        assert forall x :: x in r ==> x == r[0] || x in r[1..];
      } else {
        SubsequenceMembers(r, s[1..]);
      }
    }
  }

  /** No element occurs twice. */
  predicate NoDuplicates<T(==,!new)>(s: seq<T>) {
    forall i, j :: 0 <= i < j < |s| ==> s[i] != s[j]
  }

  /** Index of the first occurrence of `x` in `s`. */
  function FirstIndex<T(==,!new)>(s: seq<T>, x: T): (k: nat)
    requires x in s
    ensures k < |s| && s[k] == x && x !in s[..k]
  {
    if s[0] == x then 0 else FirstIndex(s[1..], x) + 1
  }

  lemma FirstIndexInPrefix<T(!new)>(s: seq<T>, y: T, z: T)
    requires y in s
    ensures FirstIndex(s + [z], y) == FirstIndex(s, y)
  {
    var k := FirstIndex(s, y);
    assert (s + [z])[..k + 1] == s[..k + 1];
  }

  lemma FirstIndexAtEnd<T(!new)>(s: seq<T>, z: T)
    requires z !in s
    ensures FirstIndex(s + [z], z) == |s|
  {
    assert (s + [z])[..|s|] == s;
  }

  /** The distinct elements of `s` in first-appearance order, as
      `Array.from(new Set(s))` produces them. */
  function Distinct<T(==,!new)>(s: seq<T>): (r: seq<T>)
    ensures NoDuplicates(r)
    ensures forall x :: x in r <==> x in s
    decreases |s|
  {
    if s == [] then []
    else
      var d := Distinct(s[..|s| - 1]);
      var z := s[|s| - 1];
      if z in d then d else d + [z]
  }

  /** The elements of `r` occur in `s`, and in `s` their first occurrences come
      in the order of `r`. */
  predicate InFirstAppearanceOrder<T(==,!new)>(s: seq<T>, r: seq<T>) {
    forall i, j :: 0 <= i < j < |r| ==> r[i] in s && r[j] in s && FirstIndex(s, r[i]) < FirstIndex(s, r[j])
  }

  lemma OrderExtends<T(!new)>(p: seq<T>, z: T, d: seq<T>)
    requires InFirstAppearanceOrder(p, d)
    requires forall x :: x in d ==> x in p
    ensures InFirstAppearanceOrder(p + [z], d)
    ensures z !in p ==> InFirstAppearanceOrder(p + [z], d + [z])
  {
    var s := p + [z];
    forall y | y in p ensures y in s && FirstIndex(s, y) == FirstIndex(p, y) {
      FirstIndexInPrefix(p, y, z);
    }
    if z !in p {
      FirstIndexAtEnd(p, z);
      var r := d + [z];
      forall i, j | 0 <= i < j < |r| ensures r[i] in s && r[j] in s && FirstIndex(s, r[i]) < FirstIndex(s, r[j]) {
        assert r[i] == d[i];
        if j < |d| {
          assert r[j] == d[j];
        }
      }
    }
  }

  /** `Distinct(s)` lists the elements in the order of their first occurrence in `s`. */
  lemma {:induction false} DistinctOrder<T(!new)>(s: seq<T>)
    ensures InFirstAppearanceOrder(s, Distinct(s))
    decreases |s|
  {
    if s != [] {
      var p := s[..|s| - 1];
      var z := s[|s| - 1];
      assert s == p + [z];
      DistinctOrder(p);
      OrderExtends(p, z, Distinct(p));
    }
  }
}
