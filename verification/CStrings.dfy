/** A char field and the C string in it. */
module CStrings {
  import opened Bits

  function UpToNul(s: Bytes): (r: Bytes)
    ensures |r| <= |s|
    ensures r == s[..|r|] && (|r| < |s| ==> s[|r|] == 0) && 0 !in r
  {
    if s == [] || s[0] == 0 then [] else [s[0]] + UpToNul(s[1..])
  }

  lemma {:induction false} UpToNulOfPadded(t: Bytes, rest: Bytes)
    requires 0 !in t && (rest == [] || rest[0] == 0)
    ensures UpToNul(t + rest) == t
  {
    if t == [] {
      assert t + rest == rest;
    } else {
      assert (t + rest)[1..] == t[1..] + rest;
      UpToNulOfPadded(t[1..], rest);
    }
  }

  method Length(s: Bytes) returns (n: nat)
    ensures n <= |s| && s[..n] == UpToNul(s)
  {
    n := 0;
    while n < |s| && s[n] != 0
      invariant n <= |s| && 0 !in s[..n]
    {
      n := n + 1;
    }
    UpToNulOfPadded(s[..n], s[n..]);
    assert s[..n] + s[n..] == s;
  }
}
