/** Sorting a set of numbers, as the sort calls of the sources do. */
module Ordering {

  ghost predicate StrictlyIncreasing(s: seq<int>) {
    forall i, j | 0 <= i < j < |s| :: s[i] < s[j]
  }

  /** Insert a number that is not there yet at its place. */
  function Insert(s: seq<int>, x: int): (r: seq<int>)
    requires StrictlyIncreasing(s) && x !in s
    ensures StrictlyIncreasing(r) && |r| == |s| + 1
    ensures forall y :: y in r <==> y in s || y == x
  {
    if s == [] || x < s[0] then [x] + s
    else
      assert forall y :: y in s <==> y == s[0] || y in s[1..];
      var rest := Insert(s[1..], x);
      assert forall i | 0 <= i < |rest| :: rest[i] in rest;
      [s[0]] + rest
  }

  /** Some element, as an iteration over an unordered collection would yield one. */
  method AnyOf<T>(elements: set<T>) returns (x: T)
    requires elements != {}
    ensures x in elements
  {
    x :| x in elements;
  }

  /** The elements of a set in increasing order. */
  method Ascending(numbers: set<int>) returns (r: seq<int>)
    ensures StrictlyIncreasing(r)
    ensures forall x :: x in r <==> x in numbers
    ensures |r| == |numbers|
  {
    r := [];
    var pending := numbers;
    while pending != {}
      invariant pending <= numbers && |r| + |pending| == |numbers|
      invariant StrictlyIncreasing(r)
      invariant forall x :: x in r <==> x in numbers && x !in pending
      decreases |pending|
    {
      var x := AnyOf(pending);
      pending := pending - {x};
      r := Insert(r, x);
    }
  }

  /** There is only one way to list a set in increasing order. */
  lemma {:induction false} AscendingUnique(r: seq<int>, s: seq<int>)
    requires StrictlyIncreasing(r) && StrictlyIncreasing(s)
    requires forall x :: x in r <==> x in s
    ensures r == s
  {
    if r == [] {
      assert forall i | 0 <= i < |s| :: s[i] in s;
    } else {
      assert r[0] in r && r[0] in s;
      assert s[0] in s && s[0] in r;
      assert r[0] == s[0];
      forall x ensures x in r[1..] <==> x in s[1..] {
        assert x in r <==> x == r[0] || x in r[1..];
        assert x in s <==> x == s[0] || x in s[1..];
      }
      AscendingUnique(r[1..], s[1..]);
    }
  }
}
