/** Walks in a finite directed graph given by its arcs: the reference notion behind slicing, layering and components. */
module Walks {

  type Arcs<T(==)> = set<(T, T)>

  /** A walk of `n` arcs leads from `a` to `b`. */
  ghost predicate Walk<T(!new)>(arcs: Arcs<T>, a: T, b: T, n: nat) {
    if n == 0 then a == b
    else exists m :: Walk(arcs, a, m, n - 1) && (m, b) in arcs
  }

  ghost predicate Reaches<T(!new)>(arcs: Arcs<T>, a: T, b: T) {
    exists n: nat :: Walk(arcs, a, b, n)
  }

  /** `n` is the length of a shortest walk from `a` to `b`. */
  ghost predicate Distance<T(!new)>(arcs: Arcs<T>, a: T, b: T, n: nat) {
    Walk(arcs, a, b, n) && forall m: nat | Walk(arcs, a, b, m) :: n <= m
  }

  ghost function Reversed<T(!new)>(arcs: Arcs<T>): Arcs<T> {
    set arc <- arcs :: (arc.1, arc.0)
  }

  lemma ReachesSelf<T(!new)>(arcs: Arcs<T>, a: T)
    ensures Reaches(arcs, a, a)
  {
    assert Walk(arcs, a, a, 0);
  }

  lemma {:induction false} WalkStep<T(!new)>(arcs: Arcs<T>, a: T, m: T, b: T, n: nat)
    requires Walk(arcs, a, m, n) && (m, b) in arcs
    ensures Walk(arcs, a, b, n + 1)
  {
    assert Walk(arcs, a, m, n + 1 - 1);
  }

  lemma ReachesStep<T(!new)>(arcs: Arcs<T>, a: T, m: T, b: T)
    requires Reaches(arcs, a, m) && (m, b) in arcs
    ensures Reaches(arcs, a, b)
  {
    var n: nat :| Walk(arcs, a, m, n);
    WalkStep(arcs, a, m, b, n);
  }

  lemma {:induction false} WalkJoin<T(!new)>(arcs: Arcs<T>, a: T, b: T, c: T, n: nat, m: nat)
    requires Walk(arcs, a, b, n) && Walk(arcs, b, c, m)
    ensures Walk(arcs, a, c, n + m)
  {
    if m > 0 {
      var x :| Walk(arcs, b, x, m - 1) && (x, c) in arcs;
      WalkJoin(arcs, a, b, x, n, m - 1);
    }
  }

  lemma ReachesJoin<T(!new)>(arcs: Arcs<T>, a: T, b: T, c: T)
    requires Reaches(arcs, a, b) && Reaches(arcs, b, c)
    ensures Reaches(arcs, a, c)
  {
    var n: nat, m: nat :| Walk(arcs, a, b, n) && Walk(arcs, b, c, m);
    WalkJoin(arcs, a, b, c, n, m);
  }

  lemma {:induction false} WalkBack<T(!new)>(arcs: Arcs<T>, a: T, b: T, n: nat)
    requires Walk(arcs, a, b, n)
    ensures Walk(Reversed(arcs), b, a, n)
  {
    if n > 0 {
      var m :| Walk(arcs, a, m, n - 1) && (m, b) in arcs;
      WalkBack(arcs, a, m, n - 1);
      assert (b, m) in Reversed(arcs);
      assert Walk(Reversed(arcs), b, b, 0);
      assert Walk(Reversed(arcs), b, m, 1);
      WalkJoin(Reversed(arcs), b, m, a, 1, n - 1);
    }
  }

  /** Walking the reversed arcs is walking backwards. */
  lemma ReachesBack<T(!new)>(arcs: Arcs<T>, a: T, b: T)
    ensures Reaches(arcs, a, b) <==> Reaches(Reversed(arcs), b, a)
  {
    if Reaches(arcs, a, b) {
      var n: nat :| Walk(arcs, a, b, n);
      WalkBack(arcs, a, b, n);
    }
    if Reaches(Reversed(arcs), b, a) {
      var n: nat :| Walk(Reversed(arcs), b, a, n);
      WalkBack(Reversed(arcs), b, a, n);
      assert Reversed(Reversed(arcs)) == arcs by {
        assert forall arc <- arcs :: (arc.1, arc.0) in Reversed(arcs);
      }
    }
  }

  lemma {:induction false} WalkMonotone<T(!new)>(arcs: Arcs<T>, more: Arcs<T>, a: T, b: T, n: nat)
    requires arcs <= more && Walk(arcs, a, b, n)
    ensures Walk(more, a, b, n)
  {
    if n > 0 {
      var m :| Walk(arcs, a, m, n - 1) && (m, b) in arcs;
      WalkMonotone(arcs, more, a, m, n - 1);
    }
  }

  lemma ReachesMonotone<T(!new)>(arcs: Arcs<T>, more: Arcs<T>, a: T, b: T)
    requires arcs <= more && Reaches(arcs, a, b)
    ensures Reaches(more, a, b)
  {
    var n: nat :| Walk(arcs, a, b, n);
    WalkMonotone(arcs, more, a, b, n);
  }

  /** A walk cannot leave a set that is closed under the arcs. */
  lemma {:induction false} WalkStaysInside<T(!new)>(arcs: Arcs<T>, inside: set<T>, a: T, b: T, n: nat)
    requires a in inside && forall arc <- arcs | arc.0 in inside :: arc.1 in inside
    requires Walk(arcs, a, b, n)
    ensures b in inside
  {
    if n > 0 {
      var m :| Walk(arcs, a, m, n - 1) && (m, b) in arcs;
      WalkStaysInside(arcs, inside, a, m, n - 1);
    }
  }

  lemma ReachesStaysInside<T(!new)>(arcs: Arcs<T>, inside: set<T>, a: T, b: T)
    requires a in inside && forall arc <- arcs | arc.0 in inside :: arc.1 in inside
    requires Reaches(arcs, a, b)
    ensures b in inside
  {
    var n: nat :| Walk(arcs, a, b, n);
    WalkStaysInside(arcs, inside, a, b, n);
  }
}
