/** Counting with finite sets. */
module FiniteSets {

  /** A set that maps one-to-one into another has no more elements. */
  lemma {:induction false} CardInjection<A, B>(xs: set<A>, ys: set<B>, f: A -> B)
    requires forall x :: x in xs ==> f(x) in ys
    requires forall x, y :: x in xs && y in xs && f(x) == f(y) ==> x == y
    ensures |xs| <= |ys|
    decreases |xs|
  {
    if xs != {} {
      var x :| x in xs;
      forall y | y in xs - {x} ensures f(y) in ys - {f(x)} {
        assert f(y) != f(x);
      }
      CardInjection(xs - {x}, ys - {f(x)}, f);
    }
  }

  lemma {:induction false} CardSubset<A>(xs: set<A>, ys: set<A>)
    requires xs <= ys
    ensures |xs| <= |ys|
    decreases |xs|
  {
    if xs != {} {
      var x :| x in xs;
      CardSubset(xs - {x}, ys - {x});
    }
  }

  function Members<T>(list: seq<T>): set<T> {
    set x | x in list
  }

  /** A list without repetitions has as many members as places. */
  lemma {:induction false} CardMembers<T>(list: seq<T>)
    requires forall i, j :: 0 <= i < j < |list| ==> list[i] != list[j]
    ensures |Members(list)| == |list|
    decreases |list|
  {
    if list != [] {
      var rest, x := list[..|list| - 1], list[|list| - 1];
      assert list == rest + [x];
      CardMembers(rest);
      assert x !in rest;
      assert Members(list) == Members(rest) + {x};
    }
  }
}
