/** C strings as character sequences: byte order, first occurrence, and splitting on a separator. */
module Texts {

  /** strcmp(a, b) < 0. */
  predicate Less(a: string, b: string) {
    b != "" && (a == "" || a[0] < b[0] || (a[0] == b[0] && Less(a[1..], b[1..])))
  }

  lemma {:induction false} LessTotal(a: string, b: string)
    ensures Less(a, b) || a == b || Less(b, a)
    ensures !(Less(a, b) && Less(b, a)) && !Less(a, a)
    decreases |a|, |b|
  {
    if a != "" {
      LessTotal(a[1..], a[1..]);
      if b != "" {
        LessTotal(a[1..], b[1..]);
        assert a == [a[0]] + a[1..] && b == [b[0]] + b[1..];
      }
    }
  }

  lemma {:induction false} LessTransitive(a: string, b: string, c: string)
    requires Less(a, b) && Less(b, c)
    ensures Less(a, c)
  {
    if a != "" && a[0] == b[0] == c[0] {
      LessTransitive(a[1..], b[1..], c[1..]);
    }
  }

  /** The first n characters agree, and then a ends or has the smaller character. */
  predicate BelowAt(a: string, b: string, n: nat) {
    n <= |a| && n < |b| && a[..n] == b[..n] && (n == |a| || a[n] < b[n])
  }

  lemma {:induction false} FirstDifference(a: string, b: string) returns (n: nat)
    requires Less(a, b)
    ensures BelowAt(a, b, n)
  {
    n := 0;
    if a != "" && a[0] == b[0] {
      n := FirstDifference(a[1..], b[1..]);
      n := n + 1;
      assert a[..n] == [a[0]] + a[1..][..n - 1] && b[..n] == [b[0]] + b[1..][..n - 1];
    }
  }

  lemma {:induction false} BelowIsLess(a: string, b: string, n: nat)
    requires BelowAt(a, b, n)
    ensures Less(a, b)
  {
    if n > 0 {
      assert a[0] == a[..n][0] == b[..n][0] == b[0];
      assert a[1..][..n - 1] == a[..n][1..] && b[1..][..n - 1] == b[..n][1..];
      BelowIsLess(a[1..], b[1..], n - 1);
    }
  }

  /** The order is strcmp's: by the first character that differs, a prefix before what goes on. */
  lemma LessExactly(a: string, b: string)
    ensures Less(a, b) <==> exists n :: BelowAt(a, b, n)
  {
    if Less(a, b) {
      var n := FirstDifference(a, b);
    }
    if n :| BelowAt(a, b, n) {
      BelowIsLess(a, b, n);
    }
  }

  ghost predicate Ascending(w: seq<string>) {
    forall i, k :: 0 <= i < k < |w| ==> Less(w[i], w[k])
  }

  /** Where c first is, or the length. */
  method FirstOf(s: string, c: char, start: nat) returns (at: nat)
    requires start <= |s|
    ensures start <= at <= |s| && c !in s[start..at] && (at < |s| ==> s[at] == c)
  {
    at := start;
    while at < |s| && s[at] != c
      invariant start <= at <= |s| && c !in s[start..at]
    {
      at := at + 1;
    }
  }

  /** The pieces between separators; n separators make n + 1 pieces. */
  function Split(c: char, s: string): (r: seq<string>)
    ensures |r| > 0
  {
    if s == "" then [""]
    else
      var rest := Split(c, s[1..]);
      if s[0] == c then [""] + rest else [[s[0]] + rest[0]] + rest[1..]
  }

  function Join(c: char, pieces: seq<string>): string
    requires |pieces| > 0
  {
    if |pieces| == 1 then pieces[0] else pieces[0] + [c] + Join(c, pieces[1..])
  }

  lemma {:induction false} JoinOfSplit(c: char, s: string)
    ensures Join(c, Split(c, s)) == s
    ensures forall i :: 0 <= i < |Split(c, s)| ==> c !in Split(c, s)[i]
  {
    if s != "" {
      var rest := Split(c, s[1..]);
      JoinOfSplit(c, s[1..]);
      if s[0] == c {
        assert Split(c, s)[1..] == rest;
      } else {
        assert Split(c, s)[1..] == rest[1..];
      }
    }
  }

  /** A first piece, its separator, and the rest. */
  lemma {:induction false} SplitFirst(c: char, head: string, tail: string)
    requires c !in head
    ensures Split(c, head + [c] + tail) == [head] + Split(c, tail)
    ensures Split(c, head) == [head]
  {
    if head == "" {
      assert ("" + [c] + tail)[1..] == tail;
    } else {
      SplitFirst(c, head[1..], tail);
      assert (head + [c] + tail)[1..] == head[1..] + [c] + tail;
      assert head == [head[0]] + head[1..];
    }
  }

  lemma {:induction false} SplitOfJoin(c: char, pieces: seq<string>)
    requires |pieces| > 0 && forall i :: 0 <= i < |pieces| ==> c !in pieces[i]
    ensures Split(c, Join(c, pieces)) == pieces
  {
    if |pieces| == 1 {
      SplitFirst(c, pieces[0], "");
    } else {
      SplitOfJoin(c, pieces[1..]);
      SplitFirst(c, pieces[0], Join(c, pieces[1..]));
    }
  }
}
