/** Sorting the members of a set by a strict total order. */
module Orders {

  ghost predicate StrictTotal<T(!new)>(lt: (T, T) -> bool)
  {
    && (forall a, b :: !(lt(a, b) && lt(b, a)))
    && (forall a, b :: a == b || lt(a, b) || lt(b, a))
    && (forall a, b, c :: lt(a, b) && lt(b, c) ==> lt(a, c))
  }

  predicate IsLeast<T(==)>(x: T, s: set<T>, lt: (T, T) -> bool)
  {
    x in s && forall y | y in s :: y == x || lt(x, y)
  }

  lemma {:induction false} HasLeast<T(!new)>(s: set<T>, lt: (T, T) -> bool)
    requires s != {} && StrictTotal(lt)
    ensures exists x :: IsLeast(x, s, lt)
    ensures forall x, y | IsLeast(x, s, lt) && IsLeast(y, s, lt) :: x == y
  {
    var x :| x in s;
    var rest := s - {x};
    if rest == {} {
      assert s == {x};
      assert IsLeast(x, s, lt);
    } else {
      HasLeast(rest, lt);
      var y :| IsLeast(y, rest, lt);
      var least := if lt(x, y) then x else y;
      forall z | z in s ensures z == least || lt(least, z) {
        assert z == x || z in rest;
      }
      assert IsLeast(least, s, lt);
    }
  }

  ghost predicate Ascending<T>(xs: seq<T>, lt: (T, T) -> bool)
  {
    forall i, j | 0 <= i < j < |xs| :: lt(xs[i], xs[j])
  }

  /** The members of `s` in ascending order. */
  function Sorted<T(==, !new)>(s: set<T>, lt: (T, T) -> bool): (xs: seq<T>)
    requires StrictTotal(lt)
    ensures Ascending(xs, lt)
    ensures forall x :: x in xs <==> x in s
  {
    if s == {} then []
    else
      HasLeast(s, lt);
      var x :| IsLeast(x, s, lt);
      [x] + Sorted(s - {x}, lt)
  }

  /** Whatever order the members come in, sorting gives the same list. */
  lemma {:induction false} SortedUnique<T(!new)>(xs: seq<T>, s: set<T>, lt: (T, T) -> bool)
    requires StrictTotal(lt) && Ascending(xs, lt)
    requires forall x :: x in xs <==> x in s
    ensures xs == Sorted(s, lt)
  {
    if xs == [] {
      assert s == {};
    } else {
      assert xs[0] in xs;
      HasLeast(s, lt);
      assert IsLeast(xs[0], s, lt);
      SortedUnique(xs[1..], s - {xs[0]}, lt);
    }
  }
}
