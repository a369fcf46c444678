/** Iterating over a Python `set` of strings: every element exactly once, in an
    order the program does not control. */
module Iteration {

  predicate Distinct(xs: seq<string>) {
    forall i, j :: 0 <= i < j < |xs| ==> xs[i] != xs[j]
  }

  /** `order` visits every element of `s` exactly once. */
  predicate Enumerates(order: seq<string>, s: set<string>) {
    Distinct(order) && (forall x :: x in order ==> x in s) && (forall x :: x in s ==> x in order)
  }

  /** An enumeration has as many steps as the set has elements. */
  lemma {:induction false} EnumerationLength(order: seq<string>, s: set<string>)
    requires Enumerates(order, s)
    ensures |order| == |s|
  {
    if order != [] {
      var last := order[|order| - 1];
      var init := order[..|order| - 1];
      assert last !in init by {
        forall i | 0 <= i < |init| ensures init[i] != last {
          assert order[i] != order[|order| - 1];
        }
      }
      forall x ensures x in init <==> x in s - {last} {
        if x in order && x != last {
          var i :| 0 <= i < |order| && order[i] == x;
          assert i < |order| - 1;
          assert init[i] == x;
        }
      }
      EnumerationLength(init, s - {last});
    }
  }

  /** `for x in s` over a Python set: picks an iteration order for `s`. */
  method Enumerate(s: set<string>) returns (order: seq<string>)
    ensures Enumerates(order, s)
  {
    order := [];
    var rest := s;
    while rest != {}
      invariant Distinct(order)
      invariant forall x :: x in s <==> x in order || x in rest
      invariant forall x :: x in rest ==> x !in order
      decreases |rest|
    {
      var x :| x in rest;
      order := order + [x];
      rest := rest - {x};
    }
  }
}
