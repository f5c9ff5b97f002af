/** Python's `sorted` under a total order: what it returns depends only on what is sorted. */
module Sorting {

  ghost predicate IsOrder<T(!new)>(leq: (T, T) -> bool) {
    && (forall a, b :: leq(a, b) || leq(b, a))
    && (forall a, b :: leq(a, b) && leq(b, a) ==> a == b)
    && (forall a, b, c :: leq(a, b) && leq(b, c) ==> leq(a, c))
  }

  function Insert<T>(leq: (T, T) -> bool, x: T, s: seq<T>): seq<T> {
    if s == [] then [x] else if leq(x, s[0]) then [x] + s else [s[0]] + Insert(leq, x, s[1..])
  }

  function Sorted<T>(leq: (T, T) -> bool, s: seq<T>): seq<T> {
    if s == [] then [] else Insert(leq, s[0], Sorted(leq, s[1..]))
  }

  ghost predicate InOrder<T>(leq: (T, T) -> bool, s: seq<T>) {
    forall i, j :: 0 <= i < j < |s| ==> leq(s[i], s[j])
  }

  lemma {:induction false} InsertKeeps<T>(leq: (T, T) -> bool, x: T, s: seq<T>)
    ensures multiset(Insert(leq, x, s)) == multiset([x] + s)
  {
    if s != [] && !leq(x, s[0]) {
      InsertKeeps(leq, x, s[1..]);
      assert s == [s[0]] + s[1..];
    }
  }

  lemma {:induction false} InsertSorts<T(!new)>(leq: (T, T) -> bool, x: T, s: seq<T>)
    requires IsOrder(leq) && InOrder(leq, s)
    ensures InOrder(leq, Insert(leq, x, s))
  {
    if s != [] && !leq(x, s[0]) {
      var rest := Insert(leq, x, s[1..]);
      InsertSorts(leq, x, s[1..]);
      InsertKeeps(leq, x, s[1..]);
      forall j | 0 <= j < |rest| ensures leq(s[0], rest[j]) {
        assert rest[j] in multiset([x] + s[1..]);
      }
    }
  }

  /** Sorting puts things in order and keeps each as often as it was there. */
  lemma {:induction false} SortedSorts<T(!new)>(leq: (T, T) -> bool, s: seq<T>)
    requires IsOrder(leq)
    ensures InOrder(leq, Sorted(leq, s)) && multiset(Sorted(leq, s)) == multiset(s)
  {
    if s != [] {
      var rest := Sorted(leq, s[1..]);
      SortedSorts(leq, s[1..]);
      InsertSorts(leq, s[0], rest);
      InsertKeeps(leq, s[0], rest);
      assert s == [s[0]] + s[1..];
    }
  }

  /** There is only one way to put given things in order, whichever algorithm does it. */
  lemma {:induction false} OrderIsUnique<T(!new)>(leq: (T, T) -> bool, a: seq<T>, b: seq<T>)
    requires IsOrder(leq) && InOrder(leq, a) && InOrder(leq, b) && multiset(a) == multiset(b)
    ensures a == b
  {
    assert |multiset(a)| == |a| && |multiset(b)| == |b|;
    if a != [] {
      SameFirst(leq, a, b);
      assert a == [a[0]] + a[1..] && b == [b[0]] + b[1..];
      assert multiset(a[1..]) == multiset(a) - multiset{a[0]};
      assert multiset(b[1..]) == multiset(b) - multiset{b[0]};
      OrderIsUnique(leq, a[1..], b[1..]);
    }
  }

  lemma SameFirst<T(!new)>(leq: (T, T) -> bool, a: seq<T>, b: seq<T>)
    requires IsOrder(leq) && InOrder(leq, a) && InOrder(leq, b) && multiset(a) == multiset(b) && a != [] && b != []
    ensures a[0] == b[0]
  {
    assert a[0] in multiset(b) && b[0] in multiset(a);
    var i :| 0 <= i < |a| && a[i] == b[0];
    var j :| 0 <= j < |b| && b[j] == a[0];
    assert leq(a[0], a[0]) && leq(b[0], b[0]);
  }

  lemma SortedSame<T(!new)>(leq: (T, T) -> bool, a: seq<T>, b: seq<T>)
    requires IsOrder(leq) && multiset(a) == multiset(b)
    ensures Sorted(leq, a) == Sorted(leq, b)
  {
    SortedSorts(leq, a);
    SortedSorts(leq, b);
    OrderIsUnique(leq, Sorted(leq, a), Sorted(leq, b));
  }

  // ---------------------------------------------------------------- the order of strings

  predicate StrLeq(a: string, b: string) {
    a == "" || (b != "" && (a[0] < b[0] || (a[0] == b[0] && StrLeq(a[1..], b[1..]))))
  }

  lemma {:induction false} StrLeqTotal(a: string, b: string)
    ensures StrLeq(a, b) || StrLeq(b, a)
    ensures StrLeq(a, b) && StrLeq(b, a) ==> a == b
  {
    if a != "" && b != "" {
      StrLeqTotal(a[1..], b[1..]);
      assert a == [a[0]] + a[1..] && b == [b[0]] + b[1..];
    }
  }

  lemma {:induction false} StrLeqTransitive(a: string, b: string, c: string)
    requires StrLeq(a, b) && StrLeq(b, c)
    ensures StrLeq(a, c)
  {
    if a != "" && a[0] == b[0] && b[0] == c[0] { StrLeqTransitive(a[1..], b[1..], c[1..]); }
  }

  /** A beginning of the other, or smaller at the first difference. */
  predicate IsNotAfter(x: string, y: string) {
    x <= y || exists k :: 0 <= k < |x| && k < |y| && x[..k] == y[..k] && x[k] < y[k]
  }

  lemma {:induction false} StrLeqIs(x: string, y: string)
    ensures StrLeq(x, y) <==> IsNotAfter(x, y)
  {
    if x != [] && y != [] {
      StrLeqIs(x[1..], y[1..]);
      if x[0] == y[0] { SameStart(x, y); }
      if x[0] < y[0] { assert x[..0] == y[..0]; }
    }
  }

  lemma SameStart(x: string, y: string)
    requires x != "" && y != "" && x[0] == y[0]
    ensures IsNotAfter(x, y) <==> IsNotAfter(x[1..], y[1..])
  {
    if x[1..] <= y[1..] { assert x == [x[0]] + x[1..] && y == [y[0]] + y[1..]; }
    if k :| 0 <= k < |x| && k < |y| && x[..k] == y[..k] && x[k] < y[k] {
      assert x[1..][..k - 1] == x[..k][1..] == y[..k][1..] == y[1..][..k - 1];
      assert x[1..][k - 1] < y[1..][k - 1];
    }
    if k :| 0 <= k < |x[1..]| && k < |y[1..]| && x[1..][..k] == y[1..][..k] && x[1..][k] < y[1..][k] {
      assert x[..k + 1] == [x[0]] + x[1..][..k] && y[..k + 1] == [y[0]] + y[1..][..k];
    }
  }
}
