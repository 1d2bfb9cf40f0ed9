/** Sequences cut where two concatenations agree, and flattened from equal-width pieces. */
module Seqs {

  lemma Associates<T>(a: seq<T>, b: seq<T>, c: seq<T>)
    ensures (a + b) + c == a + (b + c)
  {}

  lemma SplitHead<T>(a: seq<T>, b: seq<T>, s: seq<T>, t: seq<T>)
    requires |a| == |b| && a + s == b + t
    ensures a == b && s == t
  {
    assert a == (a + s)[..|a|] && b == (b + t)[..|b|];
    assert s == (a + s)[|a|..] && t == (b + t)[|b|..];
  }

  /** A piece of a piece. */
  lemma Nested<T>(s: seq<T>, from: nat, to: nat, a: nat, b: nat)
    requires from <= to <= |s| && a <= b <= to - from
    ensures s[from..to][a..b] == s[from + a..from + b]
  {
    var piece, direct := s[from..to][a..b], s[from + a..from + b];
    assert |piece| == |direct|;
    forall i | 0 <= i < |piece| ensures piece[i] == direct[i] {
      assert piece[i] == s[from..to][a + i] == s[from + (a + i)];
    }
    assert piece == direct;
  }

  lemma FourWords<T>(a: seq<T>, b: seq<T>, c: seq<T>, d: seq<T>, rest: seq<T>)
    requires |a| == |b| == |c| == |d| == 4
    ensures var s := a + b + c + d + rest;
      s[..4] == a && s[4..8] == b && s[8..12] == c && s[12..16] == d && s[16..] == rest
  {}

  function Flatten<S, T>(f: S -> seq<T>, xs: seq<S>): seq<T> {
    if xs == [] then [] else Flatten(f, xs[..|xs| - 1]) + f(xs[|xs| - 1])
  }

  lemma FlattenSnoc<S, T>(f: S -> seq<T>, xs: seq<S>, x: S)
    ensures Flatten(f, xs + [x]) == Flatten(f, xs) + f(x)
  {
    assert (xs + [x])[..|xs + [x]| - 1] == xs;
  }

  lemma {:induction false} FlattenLength<S(!new), T>(f: S -> seq<T>, xs: seq<S>, w: nat)
    requires forall x :: |f(x)| == w
    ensures |Flatten(f, xs)| == |xs| * w
  {
    if xs != [] {
      FlattenLength(f, xs[..|xs| - 1], w);
      OneMore(|xs|, w);
    }
  }

  lemma OneMore(n: int, w: int)
    ensures (n - 1) * w + w == n * w
  {}

  lemma {:induction false} FlattenInjective<S(!new), T>(f: S -> seq<T>, xs: seq<S>, ys: seq<S>, w: nat)
    requires forall x :: |f(x)| == w
    requires forall x, y :: f(x) == f(y) ==> x == y
    requires |xs| == |ys| && Flatten(f, xs) == Flatten(f, ys)
    ensures xs == ys
  {
    if xs != [] {
      var xi, x, yi, y := xs[..|xs| - 1], xs[|xs| - 1], ys[..|ys| - 1], ys[|ys| - 1];
      FlattenLength(f, xi, w);
      FlattenLength(f, yi, w);
      SplitHead(Flatten(f, xi), Flatten(f, yi), f(x), f(y));
      FlattenInjective(f, xi, yi, w);
      assert xs == xi + [x] && ys == yi + [y];
    }
  }

  /** The i-th piece sits at offset i * w. */
  lemma {:induction false} FlattenPiece<S(!new), T>(f: S -> seq<T>, xs: seq<S>, w: nat, i: nat)
    requires forall x :: |f(x)| == w
    requires i < |xs|
    ensures |Flatten(f, xs)| == |xs| * w && (i + 1) * w <= |xs| * w && 0 <= i * w <= (i + 1) * w
    ensures Flatten(f, xs)[i * w..(i + 1) * w] == f(xs[i])
  {
    FlattenLength(f, xs, w);
    var init := xs[..|xs| - 1];
    FlattenLength(f, init, w);
    OneMore(|xs|, w);
    OneMore(i + 1, w);
    if i < |init| {
      FlattenPiece(f, init, w, i);
      assert Flatten(f, xs)[i * w..(i + 1) * w] == Flatten(f, init)[i * w..(i + 1) * w];
    } else {
      assert Flatten(f, xs)[i * w..] == f(xs[i]);
      assert (i + 1) * w == |Flatten(f, xs)|;
    }
  }

  /** ... also where the pieces stand inside something longer. */
  lemma FlattenPieceIn<S(!new), T>(f: S -> seq<T>, xs: seq<S>, w: nat, i: nat, s: seq<T>, from: nat)
    requires forall x :: |f(x)| == w
    requires i < |xs| && from + |xs| * w <= |s| && s[from..from + |xs| * w] == Flatten(f, xs)
    ensures 0 <= i * w <= (i + 1) * w && from + (i + 1) * w <= |s|
    ensures s[from + i * w..from + (i + 1) * w] == f(xs[i])
  {
    FlattenPiece(f, xs, w, i);
    Nested(s, from, from + |xs| * w, i * w, (i + 1) * w);
  }
}
