// Sorted keys: what slices.Sorted(maps.Keys(m)) visits, and the order a map is encoded in.

module Sorting {
  /** Lexicographic order on sequences, by the rank of their elements. */
  predicate Le<T>(a: seq<T>, b: seq<T>, rank: T -> int) {
    a == [] ||
    (b != [] && (rank(a[0]) < rank(b[0]) || (rank(a[0]) == rank(b[0]) && Le(a[1..], b[1..], rank))))
  }

  ghost predicate Injective<T(!new)>(rank: T -> int) {
    forall x, y :: rank(x) == rank(y) ==> x == y
  }

  lemma {:induction false} LeTotal<T>(a: seq<T>, b: seq<T>, rank: T -> int)
    ensures Le(a, b, rank) || Le(b, a, rank)
  {
    if a != [] && b != [] {
      LeTotal(a[1..], b[1..], rank);
    }
  }

  lemma {:induction false} LeAntisymmetric<T(!new)>(a: seq<T>, b: seq<T>, rank: T -> int)
    requires Injective(rank) && Le(a, b, rank) && Le(b, a, rank)
    ensures a == b
  {
    if a != [] {
      LeAntisymmetric(a[1..], b[1..], rank);
      assert a == [a[0]] + a[1..] && b == [b[0]] + b[1..];
    }
  }

  lemma {:induction false} LeTransitive<T>(a: seq<T>, b: seq<T>, c: seq<T>, rank: T -> int)
    requires Le(a, b, rank) && Le(b, c, rank)
    ensures Le(a, c, rank)
  {
    if a != [] && rank(a[0]) == rank(b[0]) == rank(c[0]) {
      LeTransitive(a[1..], b[1..], c[1..], rank);
    }
  }

  predicate IsLeast<T(==)>(x: seq<T>, s: set<seq<T>>, rank: T -> int) {
    x in s && forall y | y in s :: Le(x, y, rank)
  }

  lemma {:induction false} LeastExists<T>(s: set<seq<T>>, rank: T -> int)
    requires s != {}
    ensures exists x :: IsLeast(x, s, rank)
    decreases |s|
  {
    var x :| x in s;
    LeTotal(x, x, rank);
    if s == {x} {
      assert IsLeast(x, s, rank);
    } else {
      LeastExists(s - {x}, rank);
      var y :| IsLeast(y, s - {x}, rank);
      LeTotal(x, y, rank);
      if Le(x, y, rank) {
        forall z | z in s ensures Le(x, z, rank) {
          if z != x {
            LeTransitive(x, y, z, rank);
          }
        }
        assert IsLeast(x, s, rank);
      } else {
        assert IsLeast(y, s, rank);
      }
    }
  }

  function Least<T(==, !new)>(s: set<seq<T>>, rank: T -> int): (x: seq<T>)
    requires s != {} && Injective(rank)
    ensures IsLeast(x, s, rank)
  {
    LeastExists(s, rank);
    assert forall y, z | IsLeast(y, s, rank) && IsLeast(z, s, rank) :: y == z by {
      forall y, z | IsLeast(y, s, rank) && IsLeast(z, s, rank) ensures y == z {
        LeAntisymmetric(y, z, rank);
      }
    }
    var x :| IsLeast(x, s, rank); x
  }

  ghost predicate Distinct<T>(xs: seq<T>) {
    forall i, j | 0 <= i < j < |xs| :: xs[i] != xs[j]
  }

  /** The members of s, each once, in increasing order. */
  function Sorted<T(==, !new)>(s: set<seq<T>>, rank: T -> int): (xs: seq<seq<T>>)
    requires Injective(rank)
    ensures forall x :: x in xs <==> x in s
    ensures Distinct(xs)
    ensures forall i, j | 0 <= i < j < |xs| :: Le(xs[i], xs[j], rank)
    decreases |s|
  {
    if s == {} then [] else
    var x := Least(s, rank);
    [x] + Sorted(s - {x}, rank)
  }
}
