/** Bytes, and exclusive or on unsigned integers of any width. */
module Bits {

  type Byte = b: int | 0 <= b < 256
  type Bytes = seq<Byte>
  type Word = v: int | 0 <= v < 0x1_0000_0000
  type U64 = v: int | 0 <= v < 0x1_0000_0000_0000_0000

  function Pow2(n: nat): (r: nat)
    ensures r >= 1
  {
    if n == 0 then 1 else 2 * Pow2(n - 1)
  }

  function Xor(x: nat, y: nat): nat {
    if x == 0 && y == 0 then 0 else (x + y) % 2 + 2 * Xor(x / 2, y / 2)
  }

  lemma {:induction false} XorStep(x: nat, y: nat)
    ensures Xor(x, y) % 2 == (x + y) % 2
    ensures Xor(x, y) / 2 == Xor(x / 2, y / 2)
  {
    if x == 0 && y == 0 {
      assert Xor(0, 0) == 0;
    } else {
      LowAndRest((x + y) % 2, Xor(x / 2, y / 2));
    }
  }

  lemma LowAndRest(low: nat, rest: nat)
    requires low < 2
    ensures (low + 2 * rest) % 2 == low && (low + 2 * rest) / 2 == rest
  {}

  lemma {:induction false} XorCommutes(x: nat, y: nat)
    ensures Xor(x, y) == Xor(y, x)
  {
    if x != 0 || y != 0 {
      XorCommutes(x / 2, y / 2);
    }
  }

  lemma {:induction false} XorAssociates(x: nat, y: nat, z: nat)
    ensures Xor(Xor(x, y), z) == Xor(x, Xor(y, z))
    decreases x + y + z
  {
    if x != 0 || y != 0 || z != 0 {
      XorAssociates(x / 2, y / 2, z / 2);
      var l, r := Xor(x, y), Xor(y, z);
      XorStep(x, y);
      XorStep(y, z);
      XorStep(l, z);
      XorStep(x, r);
      LowBits(x, y, z, l, r);
      Halves(Xor(l, z), Xor(x, r));
    } else {
      assert Xor(0, 0) == 0;
    }
  }

  lemma LowBits(x: nat, y: nat, z: nat, l: nat, r: nat)
    requires l % 2 == (x + y) % 2 && r % 2 == (y + z) % 2
    ensures (l + z) % 2 == (x + r) % 2
  {}

  lemma Halves(p: nat, q: nat)
    requires p % 2 == q % 2 && p / 2 == q / 2
    ensures p == q
  {}

  lemma {:induction false} XorSelf(x: nat)
    ensures Xor(x, x) == 0
    ensures Xor(x, 0) == x
  {
    if x != 0 {
      XorSelf(x / 2);
    }
  }

  lemma XorTwice(x: nat, y: nat)
    ensures Xor(Xor(x, y), y) == x
  {
    XorAssociates(x, y, y);
    XorSelf(y);
    XorSelf(x);
  }

  lemma XorCancels(x: nat, y: nat, z: nat)
    ensures Xor(x, z) == Xor(y, z) ==> x == y
    ensures Xor(z, x) == Xor(z, y) ==> x == y
  {
    XorTwice(x, z);
    XorTwice(y, z);
    XorCommutes(x, z);
    XorCommutes(y, z);
  }

  lemma {:induction false} XorBound(x: nat, y: nat, n: nat)
    requires x < Pow2(n) && y < Pow2(n)
    ensures Xor(x, y) < Pow2(n)
  {
    if n > 0 {
      XorBound(x / 2, y / 2, n - 1);
    }
  }

  /** The top bit: set in exactly one operand, or in both. */
  lemma {:induction false} XorTop(x: nat, y: nat, n: nat)
    requires x < Pow2(n + 1) && Pow2(n) <= y < Pow2(n + 1)
    ensures x < Pow2(n) ==> Pow2(n) <= Xor(x, y) < Pow2(n + 1)
    ensures x >= Pow2(n) ==> Xor(x, y) < Pow2(n)
  {
    XorStep(x, y);
    if n == 0 {
      assert Xor(0, 0) == 0;
    } else {
      XorTop(x / 2, y / 2, n - 1);
    }
  }

  lemma Powers()
    ensures Pow2(8) == 0x100 && Pow2(31) == 0x8000_0000 && Pow2(32) == 0x1_0000_0000
    ensures Pow2(64) == 0x1_0000_0000_0000_0000
  {
    Squares();
    PowAdd(16, 15);
    PowAdd(32, 32);
  }

  lemma Squares()
    ensures Pow2(8) == 0x100 && Pow2(15) == 0x8000 && Pow2(16) == 0x1_0000 && Pow2(32) == 0x1_0000_0000
  {
    assert Pow2(4) == 16;
    PowAdd(4, 4);
    PowAdd(8, 8);
    PowAdd(16, 16);
  }

  lemma {:induction false} PowAdd(m: nat, n: nat)
    ensures Pow2(m + n) == Pow2(m) * Pow2(n)
  {
    if m > 0 {
      PowAdd(m - 1, n);
      calc {
        Pow2(m + n);
        2 * Pow2(m - 1 + n);
        2 * (Pow2(m - 1) * Pow2(n));
        (2 * Pow2(m - 1)) * Pow2(n);
      }
    }
  }
}

/** Unsigned integers as little-endian bytes: `put`, `get` and their agreement. */
module LittleEndian {
  import opened Bits

  function Pow256(n: nat): nat {
    if n == 0 then 1 else 256 * Pow256(n - 1)
  }

  /** The low n bytes of v, lowest first. */
  function Le(v: nat, n: nat): (s: Bytes)
    ensures |s| == n
  {
    if n == 0 then [] else [v % 256] + Le(v / 256, n - 1)
  }

  function Value(s: Bytes): nat {
    if s == [] then 0 else s[0] + 256 * Value(s[1..])
  }

  /** A value that fits comes back. */
  lemma {:induction false} GetOfPut(v: nat, n: nat)
    requires v < Pow256(n)
    ensures Value(Le(v, n)) == v
  {
    if n > 0 {
      GetOfPut(v / 256, n - 1);
      assert Le(v, n)[1..] == Le(v / 256, n - 1);
    }
  }

  /** Bytes come back from the value they spell, which fits in them. */
  lemma {:induction false} PutOfGet(s: Bytes)
    ensures Value(s) < Pow256(|s|)
    ensures Le(Value(s), |s|) == s
  {
    if s != [] {
      PutOfGet(s[1..]);
      assert s == [s[0]] + s[1..];
    }
  }

  lemma LeInjective(v: nat, w: nat, n: nat)
    requires v < Pow256(n) && w < Pow256(n) && Le(v, n) == Le(w, n)
    ensures v == w
  {
    GetOfPut(v, n);
    GetOfPut(w, n);
  }

  /** Two bytes as a signed value, low one first. */
  function Int16(low: Byte, high: Byte): (r: int)
    ensures -32768 <= r <= 32767
  {
    var v := low + 256 * high;
    if v < 32768 then v else v - 65536
  }

  /** The one 16-bit value that is the unsigned value of the bytes, low one first, modulo 2^16. */
  lemma Int16Wraps(low: Byte, high: Byte, r: int)
    ensures r == Int16(low, high) <==> -32768 <= r <= 32767 && (r - (low + 256 * high)) % 65536 == 0
  {}

  lemma Sizes()
    ensures Pow256(1) == 0x100 && Pow256(4) == 0x1_0000_0000 && Pow256(8) == 0x1_0000_0000_0000_0000
  {
    assert Pow256(2) == 0x10000 && Pow256(3) == 0x1000000;
    assert Pow256(5) == 256 * Pow256(4) && Pow256(6) == 256 * Pow256(5) && Pow256(7) == 256 * Pow256(6);
  }
}
