/** Counting in finite sets of indices. */
module Finite {

  function Upto(n: nat): (r: set<nat>)
    ensures forall i: nat :: i in r <==> i < n
    ensures |r| == n
  {
    if n == 0 then {} else Upto(n - 1) + {n - 1}
  }

  lemma {:induction false} SubsetSize<T>(a: set<T>, b: set<T>)
    requires a <= b
    ensures |a| <= |b|
  {
    if a != {} {
      var x :| x in a;
      SubsetSize(a - {x}, b - {x});
    }
  }

  predicate Distinct<T(==)>(w: seq<T>) {
    forall i, k :: 0 <= i < k < |w| ==> w[i] != w[k]
  }

  ghost function Elements<T>(w: seq<T>): set<T> {
    set x | x in w
  }

  lemma {:induction false} DistinctCount<T>(w: seq<T>)
    requires Distinct(w)
    ensures |Elements(w)| == |w|
  {
    if w != [] {
      var init, last := w[..|w| - 1], w[|w| - 1];
      DistinctCount(init);
      assert Elements(w) == Elements(init) + {last};
      assert last !in init;
    }
  }

  /** Distinct members of a set are at most as many as the set. */
  lemma DistinctFit<T>(w: seq<T>, s: set<T>)
    requires Distinct(w) && forall i :: 0 <= i < |w| ==> w[i] in s
    ensures |w| <= |s|
  {
    DistinctCount(w);
    SubsetSize(Elements(w), s);
  }

  lemma Pigeonhole(w: seq<nat>, n: nat) returns (j: nat, l: nat)
    requires |w| > n && forall i :: 0 <= i < |w| ==> w[i] < n
    ensures j < l < |w| && w[j] == w[l]
  {
    if Distinct(w) {
      DistinctFit(w, Upto(n));
    }
    j, l :| 0 <= j < l < |w| && w[j] == w[l];
  }
}
