/** Registers fed by steps, whatever the register is made of. */
module Registers {

  function Iterate<R>(step: R -> R, v: R, n: nat): R {
    if n == 0 then v else step(Iterate(step, v, n - 1))
  }

  function Fold<R, B>(step: (R, B) -> R, v: R, s: seq<B>): R {
    if s == [] then v else step(Fold(step, v, s[..|s| - 1]), s[|s| - 1])
  }

  lemma {:induction false} IterateInjective<R(!new)>(step: R -> R, v: R, w: R, n: nat)
    requires forall x, y :: step(x) == step(y) ==> x == y
    requires Iterate(step, v, n) == Iterate(step, w, n)
    ensures v == w
  {
    if n > 0 {
      assert Iterate(step, v, n - 1) == Iterate(step, w, n - 1);
      IterateInjective(step, v, w, n - 1);
    }
  }

  lemma {:induction false} IterateAdd<R>(step: R -> R, v: R, m: nat, n: nat)
    ensures Iterate(step, Iterate(step, v, m), n) == Iterate(step, v, m + n)
  {
    if n > 0 {
      IterateAdd(step, v, m, n - 1);
    }
  }

  /** Feeding the same input keeps two registers apart. */
  lemma {:induction false} FoldInjective<R(!new), B(!new)>(step: (R, B) -> R, v: R, w: R, s: seq<B>)
    requires forall x, y, b :: step(x, b) == step(y, b) ==> x == y
    requires Fold(step, v, s) == Fold(step, w, s)
    ensures v == w
  {
    if s != [] {
      var init, b := s[..|s| - 1], s[|s| - 1];
      assert step(Fold(step, v, init), b) == step(Fold(step, w, init), b);
      FoldInjective(step, v, w, init);
    }
  }

  lemma {:induction false} FoldConcat<R, B>(step: (R, B) -> R, v: R, s: seq<B>, t: seq<B>)
    ensures Fold(step, v, s + t) == Fold(step, Fold(step, v, s), t)
  {
    if t == [] {
      assert s + t == s;
    } else {
      assert (s + t)[..|s + t| - 1] == s + t[..|t| - 1];
      FoldConcat(step, v, s, t[..|t| - 1]);
    }
  }

  lemma FoldLast<R, B>(step: (R, B) -> R, v: R, s: seq<B>, b: B)
    ensures Fold(step, v, s + [b]) == step(Fold(step, v, s), b)
  {
    assert (s + [b])[..|s + [b]| - 1] == s;
  }

  /** Inputs of one length that differ in exactly one place. */
  ghost predicate DifferOnce<B(!new)>(s: seq<B>, t: seq<B>, i: nat) {
    && i < |s| == |t| && s[i] != t[i]
    && forall j :: 0 <= j < |s| && j != i ==> s[j] == t[j]
  }

  /** One changed input is never forgotten. */
  lemma FoldSeesOneChange<R(!new), B(!new)>(step: (R, B) -> R, v: R, s: seq<B>, t: seq<B>, i: nat)
    requires forall x, y, b :: step(x, b) == step(y, b) ==> x == y
    requires forall x, b, c :: step(x, b) == step(x, c) ==> b == c
    requires DifferOnce(s, t, i)
    ensures Fold(step, v, s) != Fold(step, v, t)
  {
    assert s == (s[..i] + [s[i]]) + s[i + 1..];
    assert t == (s[..i] + [t[i]]) + s[i + 1..];
    FoldConcat(step, v, s[..i] + [s[i]], s[i + 1..]);
    FoldConcat(step, v, s[..i] + [t[i]], s[i + 1..]);
    FoldLast(step, v, s[..i], s[i]);
    FoldLast(step, v, s[..i], t[i]);
    var x := Fold(step, v, s[..i]);
    assert step(x, s[i]) != step(x, t[i]);
    if Fold(step, v, s) == Fold(step, v, t) {
      FoldInjective(step, step(x, s[i]), step(x, t[i]), s[i + 1..]);
    }
  }
}
