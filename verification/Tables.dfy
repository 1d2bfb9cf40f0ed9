/** Tables laid end to end: where each starts, and finding an entry of the whole in its part. */
module Tables {
  import opened Options

  /** Where the k-th part starts: the sizes of those before it. */
  function Start<T>(parts: seq<seq<T>>, k: nat): nat
    requires k <= |parts|
  {
    if k == 0 then 0 else Start(parts, k - 1) + |parts[k - 1]|
  }

  function Concat<T>(parts: seq<seq<T>>): seq<T> {
    if parts == [] then [] else Concat(parts[..|parts| - 1]) + parts[|parts| - 1]
  }

  lemma {:induction false} StartOfPrefix<T>(parts: seq<seq<T>>, n: nat, k: nat)
    requires k <= n <= |parts|
    ensures Start(parts[..n], k) == Start(parts, k)
  {
    if k > 0 {
      StartOfPrefix(parts, n, k - 1);
    }
  }

  lemma {:induction false} ConcatLength<T>(parts: seq<seq<T>>)
    ensures |Concat(parts)| == Start(parts, |parts|)
  {
    if parts != [] {
      var n := |parts| - 1;
      ConcatLength(parts[..n]);
      StartOfPrefix(parts, n, n);
    }
  }

  lemma {:induction false} ConcatPrefix<T>(parts: seq<seq<T>>, k: nat)
    requires k <= |parts|
    ensures Start(parts, k) <= |Concat(parts)| && Concat(parts[..k]) == Concat(parts)[..Start(parts, k)]
  {
    ConcatLength(parts);
    StartGrows(parts, k, |parts|);
    if k < |parts| {
      var n := |parts| - 1;
      ConcatPrefix(parts[..n], k);
      StartOfPrefix(parts, n, k);
      ConcatLength(parts[..n]);
      assert parts[..n][..k] == parts[..k];
    } else {
      assert parts[..k] == parts;
    }
  }

  /** Entry i of part k is entry Start + i of the whole. */
  lemma {:induction false} ConcatAt<T>(parts: seq<seq<T>>, k: nat, i: nat)
    requires k < |parts| && i < |parts[k]|
    ensures Start(parts, k) + i < |Concat(parts)| && Concat(parts)[Start(parts, k) + i] == parts[k][i]
  {
    var n := |parts| - 1;
    StartOfPrefix(parts, n, n);
    ConcatLength(parts[..n]);
    if k < n {
      ConcatAt(parts[..n], k, i);
      StartOfPrefix(parts, n, k);
    }
  }

  /** Every entry of the whole is an entry of some part. */
  lemma {:induction false} Locate<T>(parts: seq<seq<T>>, n: nat) returns (k: nat, i: nat)
    requires n < |Concat(parts)|
    ensures k < |parts| && i < |parts[k]| && n == Start(parts, k) + i && Concat(parts)[n] == parts[k][i]
  {
    var last := |parts| - 1;
    ConcatLength(parts[..last]);
    StartOfPrefix(parts, last, last);
    if n < |Concat(parts[..last])| {
      k, i := Locate(parts[..last], n);
      StartOfPrefix(parts, last, k);
    } else {
      k, i := last, n - Start(parts, last);
    }
  }

  lemma {:induction false} StartBounded<T>(parts: seq<seq<T>>, k: nat, most: nat)
    requires k <= |parts| && forall j :: 0 <= j < |parts| ==> |parts[j]| <= most
    ensures Start(parts, k) <= k * most
  {
    if k > 0 {
      StartBounded(parts, k - 1, most);
      assert k * most == (k - 1) * most + most;
    }
  }

  lemma {:induction false} StartGrows<T>(parts: seq<seq<T>>, k: nat, m: nat)
    requires k <= m <= |parts|
    ensures Start(parts, k) <= Start(parts, m)
  {
    if k < m {
      StartGrows(parts, k, m - 1);
    }
  }

  /** The entry at an index of the whole, found by stepping over whole parts. */
  method At<T>(parts: seq<seq<T>>, index: nat) returns (r: Option<T>)
    ensures r == if index < |Concat(parts)| then Some(Concat(parts)[index]) else None
  {
    ConcatLength(parts);
    var left: nat := index;
    for k := 0 to |parts|
      invariant left + Start(parts, k) == index
    {
      if left < |parts[k]| {
        ConcatAt(parts, k, left);
        return Some(parts[k][left]);
      }
      left := left - |parts[k]|;
    }
    r := None;
  }

  /** The first k parts end to end, every entry stamped with its part's number. */
  function Stamped<T>(parts: seq<seq<T>>, stamp: (T, nat) -> T, k: nat): (r: seq<T>)
    requires k <= |parts|
  {
    if k == 0 then [] else Stamped(parts, stamp, k - 1) + StampAll(parts[k - 1], stamp, k)
  }

  function StampAll<T>(part: seq<T>, stamp: (T, nat) -> T, k: nat): (r: seq<T>)
    ensures |r| == |part| && forall i :: 0 <= i < |r| ==> r[i] == stamp(part[i], k)
  {
    seq(|part|, i requires 0 <= i < |part| => stamp(part[i], k))
  }

  lemma StampedNext<T>(parts: seq<seq<T>>, stamp: (T, nat) -> T, k: nat)
    requires k < |parts|
    ensures Stamped(parts, stamp, 0) == []
    ensures Stamped(parts, stamp, k + 1) == Stamped(parts, stamp, k) + StampAll(parts[k], stamp, k + 1)
  {}

  lemma {:induction false} StampedAt<T>(parts: seq<seq<T>>, stamp: (T, nat) -> T, n: nat, k: nat, i: nat)
    requires k < n <= |parts| && i < |parts[k]|
    ensures |Stamped(parts, stamp, n)| == Start(parts, n) > Start(parts, k) + i
    ensures Stamped(parts, stamp, n)[Start(parts, k) + i] == stamp(parts[k][i], k + 1)
  {
    StampedLength(parts, stamp, n - 1);
    if k < n - 1 {
      StampedAt(parts, stamp, n - 1, k, i);
    }
  }

  lemma {:induction false} StampedLength<T>(parts: seq<seq<T>>, stamp: (T, nat) -> T, n: nat)
    requires n <= |parts|
    ensures |Stamped(parts, stamp, n)| == Start(parts, n)
  {
    if n > 0 {
      StampedLength(parts, stamp, n - 1);
    }
  }

  /** Moves a part's entries to the end of the whole, one by one, stamped. */
  method Move<T>(whole: seq<T>, part: seq<T>, stamp: (T, nat) -> T, k: nat) returns (r: seq<T>)
    ensures r == whole + StampAll(part, stamp, k)
  {
    r := whole;
    for i := 0 to |part|
      invariant r == whole + StampAll(part, stamp, k)[..i]
    {
      r := r + [stamp(part[i], k)];
      assert StampAll(part, stamp, k)[..i + 1] == StampAll(part, stamp, k)[..i] + [stamp(part[i], k)];
    }
    assert StampAll(part, stamp, k)[..|part|] == StampAll(part, stamp, k);
  }
}
