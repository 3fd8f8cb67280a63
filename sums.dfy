/**
 * Sums over the grid points of a list or of a set, and the enumeration of a
 * set into a list (what iterating over a Python set yields, in some order).
 */
module Sums {

  /** No element occurs twice. */
  predicate Distinct<T(==)>(s: seq<T>) {
    forall i, j :: 0 <= i < j < |s| ==> s[i] != s[j]
  }

  /** The elements of a list, as a set. */
  function Elems<T>(s: seq<T>): set<T> {
    set x | x in s
  }

  /** `sum(f(x) for x in s)`, added left to right as Python does. */
  function SeqSum<T>(s: seq<T>, f: T -> real): real {
    if |s| == 0 then 0.0 else SeqSum(s[..|s| - 1], f) + f(s[|s| - 1])
  }

  /** Appending one element adds its term. */
  lemma SeqSumSnoc<T>(s: seq<T>, x: T, f: T -> real)
    ensures SeqSum(s + [x], f) == SeqSum(s, f) + f(x)
  {
    assert (s + [x])[..|s|] == s;
  }

  /** The sum of `f` over a finite set: the order of the terms does not matter. */
  ghost function SetSum<T>(xs: set<T>, f: T -> real): real {
    if xs == {} then 0.0 else var x :| x in xs; f(x) + SetSum(xs - {x}, f)
  }

  /** Any element may be taken out first. */
  lemma {:induction false} SetSumRemove<T>(xs: set<T>, f: T -> real, y: T)
    requires y in xs
    ensures SetSum(xs, f) == f(y) + SetSum(xs - {y}, f)
    decreases |xs|
  {
    var x :| x in xs && SetSum(xs, f) == f(x) + SetSum(xs - {x}, f);
    if x != y {
      SetSumRemove(xs - {x}, f, y);
      SetSumRemove(xs - {y}, f, x);
      assert xs - {x} - {y} == xs - {y} - {x};
    }
  }

  /** Summing a duplicate-free list is summing the set of its elements. */
  lemma {:induction false} SeqSumIsSetSum<T>(s: seq<T>, f: T -> real)
    requires Distinct(s)
    ensures SeqSum(s, f) == SetSum(Elems(s), f)
  {
    if |s| > 0 {
      var init, last := s[..|s| - 1], s[|s| - 1];
      assert Distinct(init);
      SeqSumIsSetSum(init, f);
      assert Elems(s) - {last} == Elems(init) by {
        forall x | x in Elems(s) - {last} ensures x in Elems(init) {
          var i :| 0 <= i < |s| && s[i] == x;
          assert i < |s| - 1;
          assert init[i] == x;
        }
      }
      SetSumRemove(Elems(s), f, last);
    }
  }

  /** A duplicate-free list has as many elements as its set. */
  lemma {:induction false} DistinctCard<T>(s: seq<T>)
    requires Distinct(s)
    ensures |Elems(s)| == |s|
  {
    if |s| > 0 {
      var init, last := s[..|s| - 1], s[|s| - 1];
      assert Distinct(init);
      DistinctCard(init);
      assert Elems(s) == Elems(init) + {last} by {
        forall x | x in Elems(s) ensures x in Elems(init) + {last} {
          var i :| 0 <= i < |s| && s[i] == x;
          if i < |s| - 1 { assert init[i] == x; }
        }
      }
      assert last !in Elems(init);
    }
  }

  /** Lists every element of a set once, in an order the model does not fix. */
  method Enumerate<T>(xs: set<T>) returns (s: seq<T>)
    ensures Elems(s) == xs && Distinct(s)
  {
    s := [];
    var rest := xs;
    while rest != {}
      invariant rest !! Elems(s) && rest + Elems(s) == xs && Distinct(s)
      decreases |rest|
    {
      var x :| x in rest;
      s := s + [x];
      rest := rest - {x};
    }
  }
}
