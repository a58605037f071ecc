// The order Python gives to strings, and the two sorts the engine uses: a
// stable sort of a list by a string key, and the sorted list of a set.
module Text {
  // a <= b in code point order.
  predicate Leq(a: string, b: string) {
    a == [] || (b != [] && (a[0] < b[0] || (a[0] == b[0] && Leq(a[1..], b[1..]))))
  }

  lemma {:induction false} LeqReflexive(a: string)
    ensures Leq(a, a)
  {
    if a != [] { LeqReflexive(a[1..]); }
  }

  lemma {:induction false} LeqTotal(a: string, b: string)
    ensures Leq(a, b) || Leq(b, a)
  {
    if a != [] && b != [] && a[0] == b[0] { LeqTotal(a[1..], b[1..]); }
  }

  lemma {:induction false} LeqAntisymmetric(a: string, b: string)
    requires Leq(a, b) && Leq(b, a)
    ensures a == b
  {
    if a != [] {
      LeqAntisymmetric(a[1..], b[1..]);
      assert a == [a[0]] + a[1..] && b == [b[0]] + b[1..];
    }
  }

  lemma {:induction false} LeqTransitive(a: string, b: string, c: string)
    requires Leq(a, b) && Leq(b, c)
    ensures Leq(a, c)
  {
    if a != [] && a[0] == b[0] && b[0] == c[0] { LeqTransitive(a[1..], b[1..], c[1..]); }
  }

  ghost predicate SortedBy<T>(xs: seq<T>, key: T -> string) {
    forall i, j :: 0 <= i < j < |xs| ==> Leq(key(xs[i]), key(xs[j]))
  }

  lemma ConsSorted<T>(x: T, xs: seq<T>, key: T -> string)
    requires SortedBy(xs, key) && forall y :: y in multiset(xs) ==> Leq(key(x), key(y))
    ensures SortedBy([x] + xs, key)
  {
    hide Leq;
    forall j | 0 <= j < |xs| ensures Leq(key(x), key(xs[j])) { assert xs[j] in multiset(xs); }
  }

  lemma HeadLeast<T>(xs: seq<T>, key: T -> string, y: T)
    requires SortedBy(xs, key) && y in multiset(xs)
    ensures Leq(key(xs[0]), key(y))
  {
    LeqReflexive(key(y));
    hide Leq;
    var j :| 0 <= j < |xs| && xs[j] == y;
  }

  lemma FrontSorted<T>(x: T, xs: seq<T>, key: T -> string)
    requires SortedBy(xs, key) && xs != [] && Leq(key(x), key(xs[0]))
    ensures SortedBy([x] + xs, key)
  {
    hide Leq, SortedBy;
    forall y | y in multiset(xs) ensures Leq(key(x), key(y)) {
      HeadLeast(xs, key, y);
      LeqTransitive(key(x), key(xs[0]), key(y));
    }
    ConsSorted(x, xs, key);
  }

  lemma LaterSorted<T>(x: T, xs: seq<T>, rest: seq<T>, key: T -> string)
    requires SortedBy(xs, key) && xs != [] && !Leq(key(x), key(xs[0]))
    requires SortedBy(rest, key) && multiset(rest) == multiset{x} + multiset(xs[1..])
    ensures SortedBy([xs[0]] + rest, key)
  {
    LeqTotal(key(x), key(xs[0]));
    hide Leq, SortedBy;
    forall y | y in multiset(rest) ensures Leq(key(xs[0]), key(y)) {
      if y != x {
        assert y in xs[1..];
        HeadLeast(xs, key, y);
      }
    }
    ConsSorted(xs[0], rest, key);
  }

  // Puts x before the first element whose key is not smaller.
  function Insert<T>(x: T, xs: seq<T>, key: T -> string): (r: seq<T>)
    ensures multiset(r) == multiset{x} + multiset(xs)
    ensures SortedBy(xs, key) ==> SortedBy(r, key)
  {
    hide Leq;
    if xs == [] then [x]
    else if Leq(key(x), key(xs[0])) then
      assert SortedBy(xs, key) ==> SortedBy([x] + xs, key) by { if SortedBy(xs, key) { FrontSorted(x, xs, key); } }
      [x] + xs
    else
      var rest := Insert(x, xs[1..], key);
      assert SortedBy(xs, key) ==> SortedBy(xs[1..], key);
      assert SortedBy(xs, key) ==> SortedBy([xs[0]] + rest, key) by { if SortedBy(xs, key) { LaterSorted(x, xs, rest, key); } }
      assert xs == [xs[0]] + xs[1..];
      [xs[0]] + rest
  }

  // sorted(xs, key=key): equal keys keep their order.
  function Sort<T(!new)>(xs: seq<T>, key: T -> string): (r: seq<T>)
    ensures multiset(r) == multiset(xs) && SortedBy(r, key)
    ensures |r| == |xs| && forall x :: x in r <==> x in xs
  {
    if xs == [] then [] else
      var r := Insert(xs[0], Sort(xs[1..], key), key);
      assert xs == [xs[0]] + xs[1..];
      SameElements(r, xs);
      r
  }

  // The elements with one key, in their order.
  function Keyed<T>(xs: seq<T>, key: T -> string, k: string): seq<T> {
    if xs == [] then [] else (if key(xs[0]) == k then [xs[0]] else []) + Keyed(xs[1..], key, k)
  }

  lemma KeyedCons<T>(x: T, xs: seq<T>, key: T -> string, k: string)
    ensures Keyed([x] + xs, key, k) == (if key(x) == k then [x] else []) + Keyed(xs, key, k)
  {
    assert ([x] + xs)[1..] == xs;
  }

  lemma {:induction false} InsertStable<T>(x: T, xs: seq<T>, key: T -> string, k: string)
    ensures Keyed(Insert(x, xs, key), key, k) == Keyed([x] + xs, key, k)
  {
    if xs != [] && !Leq(key(x), key(xs[0])) {
      var y, rest := xs[0], xs[1..];
      assert Insert(x, xs, key) == [y] + Insert(x, rest, key) && xs == [y] + rest;
      InsertStable(x, rest, key, k);
      PassedOver(x, y, rest, Insert(x, rest, key), key, k);
    } else {
      assert Insert(x, xs, key) == [x] + xs;
    }
  }

  lemma PassedOver<T>(x: T, y: T, rest: seq<T>, later: seq<T>, key: T -> string, k: string)
    requires !Leq(key(x), key(y)) && Keyed(later, key, k) == Keyed([x] + rest, key, k)
    ensures Keyed([y] + later, key, k) == Keyed([x] + ([y] + rest), key, k)
  {
    LeqReflexive(key(x));
    hide Leq, Keyed;
    KeyedCons(y, later, key, k);
    KeyedCons(x, rest, key, k);
    KeyedCons(x, [y] + rest, key, k);
    KeyedCons(y, rest, key, k);
  }

  // Elements with equal keys keep their order.
  lemma {:induction false} SortStable<T(!new)>(xs: seq<T>, key: T -> string, k: string)
    ensures Keyed(Sort(xs, key), key, k) == Keyed(xs, key, k)
  {
    if xs != [] {
      var sorted := Sort(xs[1..], key);
      hide Leq, Keyed, Insert;
      assert Sort(xs, key) == Insert(xs[0], sorted, key) && xs == [xs[0]] + xs[1..];
      hide Sort;
      SortStable(xs[1..], key, k);
      InsertStable(xs[0], sorted, key, k);
      KeyedCons(xs[0], sorted, key, k);
      KeyedCons(xs[0], xs[1..], key, k);
    } else {
      assert Sort(xs, key) == xs;
    }
  }

  lemma SameElements<T>(xs: seq<T>, ys: seq<T>)
    requires multiset(xs) == multiset(ys)
    ensures |xs| == |ys| && forall x :: x in xs <==> x in ys
  {
    assert |xs| == |multiset(xs)| == |multiset(ys)| == |ys|;
    forall x ensures x in xs <==> x in ys {
      assert x in xs <==> x in multiset(xs);
      assert x in ys <==> x in multiset(ys);
    }
  }

  predicate IsLeast(m: string, s: set<string>) { m in s && forall x :: x in s ==> Leq(m, x) }

  lemma {:induction false} LeastExists(s: set<string>)
    requires s != {}
    ensures exists m :: IsLeast(m, s)
  {
    hide Leq;
    var y :| y in s;
    LeqReflexive(y);
    if s == {y} {
      assert IsLeast(y, s);
    } else {
      LeastExists(s - {y});
      var m :| IsLeast(m, s - {y});
      LeqTotal(m, y);
      if Leq(m, y) {
        assert IsLeast(m, s);
      } else {
        forall x | x in s - {y} ensures Leq(y, x) { LeqTransitive(y, m, x); }
        assert IsLeast(y, s);
      }
    }
  }

  lemma LeastUnique(m: string, n: string, s: set<string>)
    requires IsLeast(m, s) && IsLeast(n, s)
    ensures m == n
  {
    LeqAntisymmetric(m, n);
  }

  function Least(s: set<string>): (m: string)
    requires s != {}
    ensures m in s && forall x :: x in s ==> Leq(m, x)
  {
    LeastExists(s);
    assert forall m, n :: IsLeast(m, s) && IsLeast(n, s) ==> m == n by {
      forall m, n | IsLeast(m, s) && IsLeast(n, s) ensures m == n { LeastUnique(m, n, s); }
    }
    var m :| IsLeast(m, s);
    m
  }

  ghost predicate Distinct<T>(xs: seq<T>) {
    forall i, j :: 0 <= i < j < |xs| ==> xs[i] != xs[j]
  }

  // sorted(s) for a set of strings.
  function SortedSet(s: set<string>): (r: seq<string>)
    ensures |r| == |s| && Distinct(r)
    ensures forall x :: x in r <==> x in s
    ensures SortedBy(r, x => x)
  {
    if s == {} then [] else
      var m := Least(s);
      var rest := SortedSet(s - {m});
      assert forall k :: 0 <= k < |rest| ==> rest[k] in s - {m};
      [m] + rest
  }
}
