/** The ordering used by the pages' `Array.prototype.sort` comparators. Every
    comparator in the pages compares one field of two records with `<` and `>`
    (or subtracts two numbers), so a sort is determined by a key per record and a
    direction. JavaScript's sort is stable; the model is a stable insertion sort. */
module Sorting {

  /** A sortable field value: a JavaScript number or a string. */
  datatype Key = Num(n: real) | Str(s: string)

  datatype Direction = Asc | Desc

  /** JavaScript's `a <= b` on strings: lexicographic order of the characters. */
  predicate StrLe(a: string, b: string) {
    a == [] || (b != [] && (a[0] < b[0] || (a[0] == b[0] && StrLe(a[1..], b[1..]))))
  }

  lemma {:induction false} StrLeTotal(a: string, b: string)
    ensures StrLe(a, b) || StrLe(b, a)
  {
    if a != [] && b != [] && a[0] == b[0] {
      StrLeTotal(a[1..], b[1..]);
    }
  }

  lemma {:induction false} StrLeTransitive(a: string, b: string, c: string)
    requires StrLe(a, b) && StrLe(b, c)
    ensures StrLe(a, c)
  {
    if a != [] && a[0] == b[0] && b[0] == c[0] {
      StrLeTransitive(a[1..], b[1..], c[1..]);
    }
  }

  /** `a <= b` on keys. Keys of one field are all numbers or all strings; the
      order between a number and a string is fixed arbitrarily to keep it total. */
  predicate KeyLe(a: Key, b: Key) {
    match (a, b)
    case (Num(x), Num(y)) => x <= y
    case (Str(x), Str(y)) => StrLe(x, y)
    case (Num(_), Str(_)) => true
    case (Str(_), Num(_)) => false
  }

  lemma KeyLeTotal(a: Key, b: Key)
    ensures KeyLe(a, b) || KeyLe(b, a)
  {
    if a.Str? && b.Str? {
      StrLeTotal(a.s, b.s);
    }
  }

  lemma KeyLeTransitive(a: Key, b: Key, c: Key)
    requires KeyLe(a, b) && KeyLe(b, c)
    ensures KeyLe(a, c)
  {
    if a.Str? && b.Str? && c.Str? {
      StrLeTransitive(a.s, b.s, c.s);
    }
  }

  /** `x` may come before `y` in a list sorted in direction `dir`. */
  predicate InOrder(x: Key, y: Key, dir: Direction) {
    if dir == Asc then KeyLe(x, y) else KeyLe(y, x)
  }

  lemma InOrderTotal(x: Key, y: Key, dir: Direction)
    ensures InOrder(x, y, dir) || InOrder(y, x, dir)
  {
    KeyLeTotal(x, y);
  }

  lemma InOrderTransitive(x: Key, y: Key, z: Key, dir: Direction)
    requires InOrder(x, y, dir) && InOrder(y, z, dir)
    ensures InOrder(x, z, dir)
  {
    if dir == Asc { KeyLeTransitive(x, y, z); } else { KeyLeTransitive(z, y, x); }
  }

  /** Every adjacent pair of `s` is ordered by key in direction `dir`. */
  predicate SortedBy<T>(s: seq<T>, key: T -> Key, dir: Direction) {
    forall i :: 0 < i < |s| ==> InOrder(key(s[i - 1]), key(s[i]), dir)
  }

  /** Inserts `x` before the first element it may precede; equal keys keep `x`
      first, which is what makes the sort stable. */
  function Insert<T>(x: T, s: seq<T>, key: T -> Key, dir: Direction): (r: seq<T>)
    requires SortedBy(s, key, dir)
    ensures SortedBy(r, key, dir)
    ensures multiset(r) == multiset(s) + multiset{x}
    ensures |r| == |s| + 1
    ensures r[0] == x || (s != [] && r[0] == s[0])
  {
    if s == [] then [x]
    else if InOrder(key(x), key(s[0]), dir) then [x] + s
    else
      InOrderTotal(key(x), key(s[0]), dir);
      var t := Insert(x, s[1..], key, dir);
      assert s == [s[0]] + s[1..];
      [s[0]] + t
  }

  /** The list sorted stably by key in direction `dir`. */
  function Sort<T>(s: seq<T>, key: T -> Key, dir: Direction): (r: seq<T>)
    ensures SortedBy(r, key, dir)
    ensures multiset(r) == multiset(s)
    ensures |r| == |s|
  {
    if s == [] then []
    else
      assert s == [s[0]] + s[1..];
      Insert(s[0], Sort(s[1..], key, dir), key, dir)
  }

  /** In a sorted list every earlier element is ordered before every later one. */
  lemma {:induction false} SortedAllPairs<T>(s: seq<T>, key: T -> Key, dir: Direction, i: int, j: int)
    requires SortedBy(s, key, dir)
    requires 0 <= i < j < |s|
    ensures InOrder(key(s[i]), key(s[j]), dir)
    decreases j - i
  {
    if j > i + 1 {
      SortedAllPairs(s, key, dir, i, j - 1);
      InOrderTransitive(key(s[i]), key(s[j - 1]), key(s[j]), dir);
    }
  }

  /** In a sorted list every element of a prefix is ordered before every element
      after it. */
  lemma PrefixBeforeRest<T>(s: seq<T>, key: T -> Key, dir: Direction, n: int, x: T, y: T)
    requires SortedBy(s, key, dir)
    requires 0 <= n <= |s| && x in s[..n] && y in s[n..]
    ensures InOrder(key(x), key(y), dir)
  {
    var a :| 0 <= a < n && s[..n][a] == x;
    var b :| 0 <= b < |s| - n && s[n..][b] == y;
    SortedAllPairs(s, key, dir, a, n + b);
  }
}
