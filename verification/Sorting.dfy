/** Sorting by a comparison, and the byte order of identifiers. */
module Sorting {

  ghost predicate TotalPreorder<T(!new)>(le: (T, T) -> bool) {
    && (forall a, b :: le(a, b) || le(b, a))
    && (forall a, b, c :: le(a, b) && le(b, c) ==> le(a, c))
  }

  ghost predicate Sorted<T>(s: seq<T>, le: (T, T) -> bool) {
    forall i, j :: 0 <= i < j < |s| ==> le(s[i], s[j])
  }

  /** sort.Slice, as an insertion sort. */
  method Sort<T(!new)>(input: seq<T>, le: (T, T) -> bool) returns (s: seq<T>)
    requires TotalPreorder(le)
    ensures Sorted(s, le) && multiset(s) == multiset(input)
  {
    hide TotalPreorder, Sorted;
    s := [];
    NothingSorted(le);
    for i := 0 to |input|
      invariant Sorted(s, le) && multiset(s) == multiset(input[..i])
    {
      assert input[..i + 1] == input[..i] + [input[i]];
      s := Insert(s, input[i], le);
    }
    assert input[..|input|] == input;
  }

  lemma NothingSorted<T>(le: (T, T) -> bool)
    ensures Sorted([], le)
  {
  }

  method Insert<T(!new)>(s: seq<T>, x: T, le: (T, T) -> bool) returns (r: seq<T>)
    requires TotalPreorder(le) && Sorted(s, le)
    ensures Sorted(r, le) && multiset(r) == multiset(s) + multiset{x}
  {
    hide Sorted;
    var k := |s|;
    while k > 0 && !le(s[k - 1], x)
      invariant 0 <= k <= |s|
      invariant forall j :: k <= j < |s| ==> le(x, s[j])
    {
      k := k - 1;
      assert le(x, s[k]);
    }
    InsertKeepsSorted(s, k, x, le);
    assert s == s[..k] + s[k..];
    r := s[..k] + [x] + s[k..];
  }

  lemma InsertKeepsSorted<T(!new)>(s: seq<T>, k: int, x: T, le: (T, T) -> bool)
    requires TotalPreorder(le) && Sorted(s, le) && 0 <= k <= |s|
    requires k > 0 ==> le(s[k - 1], x)
    requires forall j :: k <= j < |s| ==> le(x, s[j])
    ensures Sorted(s[..k] + [x] + s[k..], le)
  {
    var r := s[..k] + [x] + s[k..];
    forall j | 0 <= j < k ensures le(s[j], x) {
      if j < k - 1 { assert le(s[j], s[k - 1]); }
    }
    forall i, j | 0 <= i < j < |r| ensures le(r[i], r[j]) {
      assert r[i] == if i < k then s[i] else if i == k then x else s[i - 1];
      assert r[j] == if j < k then s[j] else if j == k then x else s[j - 1];
    }
  }

  /** The sorted arrangements of a sequence. */
  ghost predicate Arranged<T>(order: seq<T>, input: seq<T>, le: (T, T) -> bool) {
    Sorted(order, le) && multiset(order) == multiset(input)
  }

  /** No two different members are equal in the order. */
  ghost predicate Strict<T>(s: seq<T>, le: (T, T) -> bool) {
    forall x, y :: x in s && y in s && le(x, y) && le(y, x) ==> x == y
  }

  lemma LastIsGreatest<T>(s: seq<T>, le: (T, T) -> bool, x: T)
    requires Sorted(s, le) && x in s
    ensures x == s[|s| - 1] || le(x, s[|s| - 1])
  {
    var i :| 0 <= i < |s| && s[i] == x;
  }

  lemma {:induction false} ArrangedOneWay<T>(a: seq<T>, b: seq<T>, le: (T, T) -> bool)
    requires Sorted(a, le) && Sorted(b, le) && multiset(a) == multiset(b) && Strict(a, le)
    ensures a == b
    decreases |a|
  {
    hide Sorted, Strict;
    SameMembers(a, b);
    if a != [] {
      LastIsGreatest(a, le, b[|b| - 1]);
      LastIsGreatest(b, le, a[|a| - 1]);
      GreatestIsOne(a, le, a[|a| - 1], b[|b| - 1]);
      InitSorted(a, le);
      InitSorted(b, le);
      ArrangedOneWay(a[..|a| - 1], b[..|b| - 1], le);
      assert a == a[..|a| - 1] + [a[|a| - 1]] && b == b[..|b| - 1] + [b[|b| - 1]];
    }
  }

  lemma SameMembers<T>(a: seq<T>, b: seq<T>)
    requires multiset(a) == multiset(b)
    ensures |a| == |b| && (forall x :: x in a <==> x in b)
    ensures a != [] && a[|a| - 1] == b[|b| - 1] ==> multiset(a[..|a| - 1]) == multiset(b[..|b| - 1])
  {
    assert |multiset(a)| == |multiset(b)|;
    forall x ensures x in a <==> x in b { assert x in multiset(a) <==> x in multiset(b); }
    if a != [] {
      WithoutLast(a);
      WithoutLast(b);
    }
  }

  lemma WithoutLast<T>(s: seq<T>)
    requires s != []
    ensures multiset(s[..|s| - 1]) == multiset(s) - multiset{s[|s| - 1]}
  {
    var rest, m := s[..|s| - 1], s[|s| - 1];
    assert s == rest + [m];
    assert multiset(s) == multiset(rest) + multiset{m};
  }

  lemma GreatestIsOne<T>(s: seq<T>, le: (T, T) -> bool, m: T, n: T)
    requires Strict(s, le) && m in s && n in s && (n == m || le(n, m)) && (m == n || le(m, n))
    ensures m == n
  {
  }

  lemma InitSorted<T>(s: seq<T>, le: (T, T) -> bool)
    requires Sorted(s, le) && s != []
    ensures Sorted(s[..|s| - 1], le) && (Strict(s, le) ==> Strict(s[..|s| - 1], le))
  {
  }

  /** Go's string order. */
  predicate TextLeq(a: string, b: string) {
    |a| == 0 || (|b| > 0 && (a[0] < b[0] || (a[0] == b[0] && TextLeq(a[1..], b[1..]))))
  }

  lemma {:induction false} TextLeqTotal(a: string, b: string)
    ensures TextLeq(a, b) || TextLeq(b, a)
    decreases |a|
  {
    if |a| > 0 && |b| > 0 && a[0] == b[0] { TextLeqTotal(a[1..], b[1..]); }
  }

  lemma {:induction false} TextLeqTransitive(a: string, b: string, c: string)
    requires TextLeq(a, b) && TextLeq(b, c)
    ensures TextLeq(a, c)
    decreases |a|
  {
    if |a| > 0 && a[0] == b[0] && b[0] == c[0] { TextLeqTransitive(a[1..], b[1..], c[1..]); }
  }

  lemma {:induction false} TextLeqAntisymmetric(a: string, b: string)
    requires TextLeq(a, b) && TextLeq(b, a)
    ensures a == b
    decreases |a|
  {
    if |a| > 0 && |b| > 0 {
      TextLeqAntisymmetric(a[1..], b[1..]);
      assert a == [a[0]] + a[1..] && b == [b[0]] + b[1..];
    }
  }
}
