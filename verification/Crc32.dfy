/** The CRC-32 of progression saves (section 8 of RFC 1952), as a machine on a 32-bit register.
    Every step is a bijection of the register, so a difference once fed in is never lost. */
module Crc32 {
  import opened Bits
  import opened LittleEndian
  import opened Registers

  const ONES: Word := 0xffff_ffff
  const POLYNOMIAL: Word := 0xedb8_8320

  /** One bit of polynomial division: the low bit leaves, and brings the polynomial in when it was set. */
  function Shift(v: Word): (r: Word)
    ensures v % 2 == 0 <==> r < 0x8000_0000
  {
    Powers();
    XorTop(v / 2, POLYNOMIAL, 31);
    if v % 2 == 0 then v / 2 else Xor(v / 2, POLYNOMIAL)
  }

  /** The bit step run backwards; the polynomial's top bit says which way it went. */
  function Unshift(w: Word): Word {
    Powers();
    XorTop(w, POLYNOMIAL, 31);
    if w < 0x8000_0000 then 2 * w else 2 * Xor(w, POLYNOMIAL) + 1
  }

  function Mix(v: Word, b: Byte): Word {
    Powers();
    XorBound(v, b, 32);
    Xor(v, b)
  }

  function ByteStep(v: Word, b: Byte): Word {
    Iterate(Shift, Mix(v, b), 8)
  }

  function Feed(s: Bytes): Word {
    Fold(ByteStep, ONES, s)
  }

  function Crc(s: Bytes): Word {
    Powers();
    XorBound(Feed(s), ONES, 32);
    Xor(Feed(s), ONES)
  }

  method ComputeCrc(s: Bytes) returns (v: Word)
    ensures v == Crc(s)
  {
    v := ONES;
    for i := 0 to |s|
      invariant v == Feed(s[..i])
    {
      ghost var before := v;
      v := Mix(v, s[i]);
      for k := 0 to 8
        invariant v == Iterate(Shift, Mix(before, s[i]), k)
      {
        v := Shift(v);
      }
      assert s[..i + 1] == s[..i] + [s[i]];
      FoldLast(ByteStep, ONES, s[..i], s[i]);
    }
    assert s[..|s|] == s;
    Powers();
    XorBound(v, ONES, 32);
    v := Xor(v, ONES);
  }

  // ----- every step is a bijection of the register

  lemma ShiftIsBijective(v: Word)
    ensures Unshift(Shift(v)) == v
    ensures Shift(Unshift(v)) == v
  {
    hide Shift, Unshift;
    Unshifted(v);
    Shifted(v);
  }

  lemma Unshifted(v: Word)
    ensures Unshift(Shift(v)) == v
  {
    Powers();
    if v % 2 == 0 {
      assert Shift(v) == v / 2;
    } else {
      XorTop(v / 2, POLYNOMIAL, 31);
      XorTwice(v / 2, POLYNOMIAL);
    }
  }

  lemma Shifted(v: Word)
    ensures Shift(Unshift(v)) == v
  {
    hide Xor;
    Powers();
    if v < 0x8000_0000 {
      assert Unshift(v) == 2 * v;
    } else {
      XorTop(v, POLYNOMIAL, 31);
      XorTwice(v, POLYNOMIAL);
      OddHalf(Xor(v, POLYNOMIAL));
      assert Unshift(v) == 2 * Xor(v, POLYNOMIAL) + 1;
    }
  }

  lemma OddHalf(u: nat)
    ensures (2 * u + 1) % 2 == 1 && (2 * u + 1) / 2 == u
  {}

  lemma ByteStepInjective(v: Word, w: Word, b: Byte, c: Byte)
    requires ByteStep(v, b) == ByteStep(w, c)
    ensures b == c ==> v == w
    ensures v == w ==> b == c
  {
    ShiftsInjective(Mix(v, b), Mix(w, c), 8);
    XorCancels(v, w, b);
    XorCancels(b, c, v);
  }

  lemma StepsInjective()
    ensures forall x, y, b :: ByteStep(x, b) == ByteStep(y, b) ==> x == y
    ensures forall x, b, c :: ByteStep(x, b) == ByteStep(x, c) ==> b == c
  {
    forall x, y, b | ByteStep(x, b) == ByteStep(y, b) ensures x == y {
      ByteStepInjective(x, y, b, b);
    }
    forall x, b, c | ByteStep(x, b) == ByteStep(x, c) ensures b == c {
      ByteStepInjective(x, x, b, c);
    }
  }

  /** A single changed byte always changes the CRC. */
  lemma CrcSeesOneByte(s: Bytes, t: Bytes, i: nat)
    requires DifferOnce(s, t, i)
    ensures Crc(s) != Crc(t)
  {
    StepsInjective();
    FoldSeesOneChange(ByteStep, ONES, s, t, i);
    XorCancels(Feed(s), Feed(t), ONES);
  }

  // ----- bursts: four bytes enter the register as one 32-bit word

  function WordXor(x: Word, y: Word): Word {
    Powers();
    XorBound(x, y, 32);
    Xor(x, y)
  }

  /** XORing in after a bit step is XORing in, moved up one bit, before it. */
  lemma ShiftAbsorbs(x: Word, y: Word)
    requires y < 0x8000_0000
    ensures Shift(WordXor(x, 2 * y)) == WordXor(Shift(x), y)
  {
    hide Xor;
    XorStep(x, 2 * y);
    assert (2 * y) / 2 == y && (x + 2 * y) % 2 == x % 2;
    if x % 2 != 0 {
      XorAssociates(x / 2, y, POLYNOMIAL);
      XorCommutes(y, POLYNOMIAL);
      XorAssociates(x / 2, POLYNOMIAL, y);
    }
  }

  lemma {:induction false} ShiftsAbsorb(x: Word, y: Word, n: nat)
    requires y * Pow2(n) < 0x1_0000_0000
    ensures Iterate(Shift, WordXor(x, y * Pow2(n)), n) == WordXor(Iterate(Shift, x, n), y)
    decreases n
  {
    if n > 0 {
      assert y * Pow2(n) == (2 * y) * Pow2(n - 1);
      DoubleFits(y, n);
      ShiftsAbsorb(x, 2 * y, n - 1);
      ShiftAbsorbs(Iterate(Shift, x, n - 1), y);
    }
  }

  lemma DoubleFits(y: nat, n: nat)
    requires n > 0 && y * Pow2(n) < 0x1_0000_0000
    ensures 2 * y < 0x1_0000_0000
  {
    assert y * Pow2(n) == (2 * y) * Pow2(n - 1);
    assert Pow2(n - 1) >= 1;
    assert (2 * y) * Pow2(n - 1) >= 2 * y;
  }

  lemma {:induction false} XorDisjoint(x: nat, b: nat, n: nat)
    requires x < Pow2(n)
    ensures Xor(x, b * Pow2(n)) == x + b * Pow2(n)
  {
    if n == 0 {
      XorCommutes(0, b);
      XorSelf(b);
    } else {
      var high := b * Pow2(n - 1);
      assert b * Pow2(n) == 2 * high;
      XorDisjoint(x / 2, b, n - 1);
      XorStep(x, 2 * high);
      LowAndRest(x % 2, x / 2 + high);
      Halves(Xor(x, 2 * high), x + 2 * high);
    }
  }

  lemma {:induction false} ValueLast(s: Bytes, b: Byte)
    ensures Value(s + [b]) == Value(s) + b * Pow256(|s|)
  {
    if s == [] {
      assert Value([b]) == b + 256 * Value([b][1..]);
    } else {
      assert (s + [b])[1..] == s[1..] + [b];
      ValueLast(s[1..], b);
      Regroup(b, Pow256(|s| - 1));
    }
  }

  lemma Regroup(b: int, p: int)
    ensures 256 * (b * p) == b * (256 * p)
  {}

  /** The widths at which bytes enter. */
  predicate Aligned(k: nat) { k == 0 || k == 8 || k == 16 || k == 24 }

  lemma Widths(k: nat)
    requires Aligned(k)
    ensures Pow2(k) == 1 || Pow2(k) == 0x100 || Pow2(k) == 0x1_0000 || Pow2(k) == 0x100_0000
    ensures k % 8 == 0 && Pow2(k) == Pow256(k / 8)
  {
    assert Pow2(4) == 16 && Pow2(8) == 256;
    PowAdd(8, 8);
    PowAdd(8, 16);
    assert Pow256(1) == 256 && Pow256(2) == 65536 && Pow256(3) == 16777216;
  }

  lemma MovedByteFits(acc: nat, b: Byte, p: nat)
    requires acc < p && (p == 1 || p == 0x100 || p == 0x1_0000 || p == 0x100_0000)
    ensures 0 <= b * p < 0x1_0000_0000
    ensures acc + b * p < 0x1_0000_0000
  {}

  /** A byte fed after k steps is that byte, moved up, in the word fed before them. */
  lemma ByteEnters(v: Word, acc: Word, b: Byte, k: nat, moved: Word)
    requires acc < Pow2(k) && moved == b * Pow2(k) && acc + moved < 0x1_0000_0000
    ensures ByteStep(Iterate(Shift, WordXor(v, acc), k), b) == Iterate(Shift, WordXor(v, acc + moved), k + 8)
  {
    hide Shift, Xor;
    XorDisjoint(acc, b, k);
    XorAssociates(v, acc, moved);
    ShiftsAbsorb(WordXor(v, acc), b, k);
    IterateAdd(Shift, WordXor(v, acc + moved), k, 8);
  }

  /** Up to four bytes enter the register together, as the little-endian word they spell. */
  lemma {:induction false} BytesEnterAsWord(v: Word, s: Bytes)
    requires |s| <= 4
    ensures Value(s) < 0x1_0000_0000
    ensures Fold(ByteStep, v, s) == Iterate(Shift, WordXor(v, Value(s)), 8 * |s|)
  {
    if s == [] {
      XorSelf(v);
    } else {
      BytesEnterAsWord(v, s[..|s| - 1]);
      LastByteEnters(v, s[..|s| - 1], s[|s| - 1]);
      assert s == s[..|s| - 1] + [s[|s| - 1]];
    }
  }

  lemma LastByteEnters(v: Word, s: Bytes, b: Byte)
    requires |s| <= 3 && Value(s) < 0x1_0000_0000
    requires Fold(ByteStep, v, s) == Iterate(Shift, WordXor(v, Value(s)), 8 * |s|)
    ensures Value(s + [b]) < 0x1_0000_0000
    ensures Fold(ByteStep, v, s + [b]) == Iterate(Shift, WordXor(v, Value(s + [b])), 8 * |s + [b]|)
  {
    hide Shift, Xor, ByteStep, Value, Pow2, Pow256;
    var k := 8 * |s|;
    var moved := MovedByte(s, b);
    ByteEnters(v, Value(s), b, k, moved);
    FoldLast(ByteStep, v, s, b);
  }

  lemma MovedByte(s: Bytes, b: Byte) returns (moved: Word)
    requires |s| <= 3
    ensures moved == b * Pow2(8 * |s|) && Value(s) < Pow2(8 * |s|)
    ensures Value(s + [b]) == Value(s) + moved < 0x1_0000_0000
  {
    hide Value, Pow2, Pow256;
    Widths(8 * |s|);
    assert 8 * |s| / 8 == |s|;
    PutOfGet(s);
    MovedByteFits(Value(s), b, Pow2(8 * |s|));
    ValueLast(s, b);
    moved := b * Pow2(8 * |s|);
  }

  lemma ShiftsInjective(v: Word, w: Word, n: nat)
    requires Iterate(Shift, v, n) == Iterate(Shift, w, n)
    ensures v == w
  {
    forall x, y | Shift(x) == Shift(y) ensures x == y {
      ShiftIsBijective(x);
      ShiftIsBijective(y);
    }
    IterateInjective(Shift, v, w, n);
  }

  lemma BurstChangesRegister(v: Word, s: Bytes, t: Bytes)
    requires |s| == |t| <= 4 && s != t
    ensures Fold(ByteStep, v, s) != Fold(ByteStep, v, t)
  {
    BytesEnterAsWord(v, s);
    BytesEnterAsWord(v, t);
    if Fold(ByteStep, v, s) == Fold(ByteStep, v, t) {
      ShiftsInjective(WordXor(v, Value(s)), WordXor(v, Value(t)), 8 * |s|);
      XorCancels(Value(s), Value(t), v);
      PutOfGet(s);
      PutOfGet(t);
    }
  }

  /** Damage confined to four consecutive bytes always changes the CRC. */
  lemma CrcSeesBurst(head: Bytes, s: Bytes, t: Bytes, tail: Bytes)
    requires |s| == |t| <= 4 && s != t
    ensures Crc(head + s + tail) != Crc(head + t + tail)
  {
    hide Shift, ByteStep;
    var x, y := Fold(ByteStep, Feed(head), s), Fold(ByteStep, Feed(head), t);
    BurstChangesRegister(Feed(head), s, t);
    FoldConcat(ByteStep, ONES, head + s, tail);
    FoldConcat(ByteStep, ONES, head + t, tail);
    FoldConcat(ByteStep, ONES, head, s);
    FoldConcat(ByteStep, ONES, head, t);
    StepsInjective();
    if Fold(ByteStep, x, tail) == Fold(ByteStep, y, tail) {
      FoldInjective(ByteStep, x, y, tail);
    }
    XorCancels(Feed(head + s + tail), Feed(head + t + tail), ONES);
  }
}
