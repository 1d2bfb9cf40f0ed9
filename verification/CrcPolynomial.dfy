/** The CRC as RFC 1952, section 8, means it: the remainder of the message, as a polynomial over the integers modulo 2,
    divided by x^32 + x^26 + x^23 + x^22 + x^16 + x^12 + x^11 + x^10 + x^8 + x^7 + x^5 + x^4 + x^2 + x + 1. */
module CrcPolynomial {
  import opened Bits
  import opened Crc32
  import opened Registers

  type Bit = n: int | 0 <= n < 2

  /** A polynomial: the highest coefficient first. */
  type Polynomial = seq<Bit>

  /** Coefficients are added modulo 2. */
  function Add(a: Bit, b: Bit): Bit { (a as int + b as int) % 2 }

  /** The terms of the divisor below x^32. */
  predicate Term(e: nat) {
    e in {26, 23, 22, 16, 12, 11, 10, 8, 7, 5, 4, 2, 1, 0}
  }

  /** One step of long division: the divisor, moved up to the highest coefficient, is taken off as often as that
      says. */
  function Reduced(m: Polynomial): (r: Polynomial)
    requires |m| > 32
    ensures |r| == |m| - 1
  {
    seq(|m| - 1, i requires 0 <= i < |m| - 1 => if i < 32 && Term(31 - i) then Add(m[i + 1], m[0]) else m[i + 1])
  }

  function Remainder(m: Polynomial): (r: Polynomial)
    requires |m| >= 32
    ensures |r| == 32
    decreases |m|
  {
    if |m| == 32 then m else Remainder(Reduced(m))
  }

  /** The low n bits of a number, lowest first: a register's or a byte's coefficients, highest power first. */
  function LowBits(v: nat, n: nat): (r: Polynomial)
    ensures |r| == n
  {
    if n == 0 then [] else [v % 2] + LowBits(v / 2, n - 1)
  }

  function MessageBits(s: Bytes): (r: Polynomial)
    ensures |r| == 8 * |s|
  {
    if s == [] then [] else LowBits(s[0], 8) + MessageBits(s[1..])
  }

  /** The message times x^32, with the register added to its highest coefficients. */
  function Dividend(v: Word, bits: Polynomial): (r: Polynomial)
    ensures |r| == |bits| + 32
  {
    seq<Bit>(|bits| + 32, i requires 0 <= i < |bits| + 32 =>
      Add(if i < 32 then LowBits(v, 32)[i] else 0, if i < |bits| then bits[i] else 0))
  }

  // ----- the constant is the divisor

  lemma EightBits(v: nat, n: nat)
    requires n >= 8
    ensures LowBits(v, n) ==
      [v % 2, v / 2 % 2, v / 4 % 2, v / 8 % 2, v / 16 % 2, v / 32 % 2, v / 64 % 2, v / 128 % 2] +
      LowBits(v / 256, n - 8)
  {
    FourBits(v, n);
    FourBits(v / 16, n - 4);
    assert v / 16 / 2 == v / 32 && v / 16 / 4 == v / 64 && v / 16 / 8 == v / 128 && v / 16 / 16 == v / 256;
  }

  lemma FourBits(v: nat, n: nat)
    requires n >= 4
    ensures LowBits(v, n) == [v % 2, v / 2 % 2, v / 4 % 2, v / 8 % 2] + LowBits(v / 16, n - 4)
  {
    assert LowBits(v, n) == [v % 2, v / 2 % 2] + LowBits(v / 2 / 2, n - 2);
    assert LowBits(v / 4, n - 2) == [v / 4 % 2, v / 4 / 2 % 2] + LowBits(v / 4 / 2 / 2, n - 4);
    assert v / 2 / 2 == v / 4 && v / 4 / 2 == v / 8 && v / 4 / 2 / 2 == v / 16;
  }

  lemma NoneLeft()
    ensures LowBits(0, 0) == []
  {}

  lemma HighestByte()
    ensures LowBits(0xed, 8) == [1, 0, 1, 1, 0, 1, 1, 1]
  {
    hide LowBits;
    EightBits(0xed, 8);
    NoneLeft();
  }

  lemma ThirdByte()
    ensures LowBits(0xedb8, 16) == [0, 0, 0, 1, 1, 1, 0, 1] + LowBits(0xed, 8)
  {
    hide LowBits;
    EightBits(0xedb8, 16);
  }

  lemma SecondByte()
    ensures LowBits(0xed_b883, 24) == [1, 1, 0, 0, 0, 0, 0, 1] + LowBits(0xedb8, 16)
  {
    hide LowBits;
    EightBits(0xed_b883, 24);
  }

  lemma LowestByte()
    ensures LowBits(0xedb8_8320, 32) == [0, 0, 0, 0, 0, 1, 0, 0] + LowBits(0xed_b883, 24)
  {
    hide LowBits;
    EightBits(0xedb8_8320, 32);
  }

  lemma PolynomialBits()
    ensures LowBits(POLYNOMIAL, 32) ==
      [0, 0, 0, 0, 0, 1, 0, 0] + ([1, 1, 0, 0, 0, 0, 0, 1] + ([0, 0, 0, 1, 1, 1, 0, 1] + [1, 0, 1, 1, 0, 1, 1, 1]))
  {
    hide LowBits;
    HighestByte();
    ThirdByte();
    SecondByte();
    LowestByte();
  }

  lemma PolynomialTerms(i: nat)
    requires i < 32
    ensures LowBits(POLYNOMIAL, 32)[i] == if Term(31 - i) then 1 else 0
  {
    hide LowBits;
    PolynomialBits();
  }

  // ----- a bit at a time

  lemma {:induction false} XorBits(x: nat, y: nat, n: nat, i: nat)
    requires i < n
    ensures LowBits(Xor(x, y), n)[i] == Add(LowBits(x, n)[i], LowBits(y, n)[i])
  {
    XorStep(x, y);
    if i > 0 {
      XorBits(x / 2, y / 2, n - 1, i - 1);
    }
  }

  lemma {:induction false} HalfBits(x: nat, n: nat, i: nat)
    requires i < n && x < Pow2(n)
    ensures LowBits(x / 2, n)[i] == if i + 1 < n then LowBits(x, n)[i + 1] else 0
  {
    if i > 0 {
      HalfBits(x / 2, n - 1, i - 1);
    } else if n > 1 {
      assert LowBits(x, n)[1] == LowBits(x / 2, n - 1)[0];
    }
  }

  lemma ShiftIs(v: Word)
    ensures Shift(v) == if v % 2 == 0 then v / 2 else Xor(v / 2, POLYNOMIAL)
  {}

  /** The register's step on the coefficients. */
  lemma ShiftBits(v: Word, i: nat)
    requires i < 32
    ensures LowBits(Shift(v), 32)[i] ==
      Add(if i < 31 then LowBits(v, 32)[i + 1] else 0, if Term(31 - i) then v % 2 else 0)
  {
    ShiftIs(v);
    Powers();
    hide Term, LowBits, Pow2, Shift, Xor;
    HalfBits(v, 32, i);
    if v % 2 != 0 {
      PolynomialTerms(i);
      XorBits(v / 2, POLYNOMIAL, 32, i);
    }
  }

  lemma BitEnters(v: Word, b: Bit, i: nat)
    requires i < 32
    ensures LowBits(Mix(v, b), 32)[i] == Add(LowBits(v, 32)[i], if i == 0 then b else 0)
  {
    XorBits(v, b, 32, i);
    BitOf(b, 32, i);
  }

  lemma {:induction false} BitOf(b: Bit, n: nat, i: nat)
    requires i < n
    ensures LowBits(b, n)[i] == if i == 0 then b else 0
  {
    if i > 0 {
      BitOf(0, n - 1, i - 1);
    }
  }

  /** Feeding a bit is one step of the division. */
  lemma BitDivides(v: Word, bits: Polynomial)
    requires bits != []
    ensures Reduced(Dividend(v, bits)) == Dividend(Shift(Mix(v, bits[0])), bits[1..])
  {
    hide Reduced, Dividend, Shift, Mix;
    var m, next := Dividend(v, bits), Dividend(Shift(Mix(v, bits[0])), bits[1..]);
    forall i | 0 <= i < |m| - 1 ensures Reduced(m)[i] == next[i] {
      BitDividesAt(v, bits, i);
    }
  }

  lemma DividendAt(v: Word, bits: Polynomial, i: nat)
    requires i < |bits| + 32
    ensures Dividend(v, bits)[i] ==
      Add(if i < 32 then LowBits(v, 32)[i] else 0, if i < |bits| then bits[i] else 0)
  {
    hide Add, LowBits;
  }

  lemma ReducedAt(m: Polynomial, i: nat)
    requires i + 1 < |m| && |m| > 32
    ensures Reduced(m)[i] == if i < 32 && Term(31 - i) then Add(m[i + 1], m[0]) else m[i + 1]
  {
    hide Add, Term;
  }

  lemma BitDividesAt(v: Word, bits: Polynomial, i: nat)
    requires bits != [] && i < |bits| + 31
    ensures Reduced(Dividend(v, bits))[i] == Dividend(Shift(Mix(v, bits[0])), bits[1..])[i]
  {
    hide Shift, Mix, Term, LowBits, Add, Dividend, Reduced;
    var w := Mix(v, bits[0]);
    ReducedAt(Dividend(v, bits), i);
    DividendAt(v, bits, i + 1);
    DividendAt(v, bits, 0);
    DividendAt(Shift(w), bits[1..], i);
    if i < 32 {
      BitEnters(v, bits[0], 0);
      LowestBit(w);
      ShiftBits(w, i);
      var before, here := if i < 31 then LowBits(v, 32)[i + 1] else 0, if i + 1 < |bits| then bits[i + 1] else 0;
      AddZero(before);
      AddZero(Add(before, here));
      AddSwap(before, here, w % 2);
      if i < 31 {
        BitEnters(v, bits[0], i + 1);
      }
    }
  }

  lemma AddZero(a: Bit)
    ensures Add(a, 0) == a
  {}

  lemma AddSwap(a: Bit, b: Bit, c: Bit)
    ensures Add(Add(a, b), c) == Add(Add(a, c), b)
  {}

  lemma LowestBit(w: Word)
    ensures LowBits(w, 32)[0] == w % 2
  {}

  function BitFold(v: Word, bits: Polynomial): Word
    decreases |bits|
  {
    if bits == [] then v else BitFold(Shift(Mix(v, bits[0])), bits[1..])
  }

  lemma {:induction false} BitsDivide(v: Word, bits: Polynomial)
    ensures LowBits(BitFold(v, bits), 32) == Remainder(Dividend(v, bits))
    decreases |bits|
  {
    hide Shift, Mix, Reduced, LowBits;
    if bits == [] {
      NothingLeft(v);
    } else {
      BitDivides(v, bits);
      BitsDivide(Shift(Mix(v, bits[0])), bits[1..]);
    }
  }

  lemma NothingLeft(v: Word)
    ensures Dividend(v, []) == LowBits(v, 32)
  {
    hide LowBits;
  }

  // ----- a byte at a time

  lemma {:induction false} BitFoldConcat(v: Word, a: Polynomial, b: Polynomial)
    ensures BitFold(v, a + b) == BitFold(BitFold(v, a), b)
    decreases |a|
  {
    hide Shift, Mix;
    if a == [] {
      assert a + b == b;
    } else {
      assert (a + b)[1..] == a[1..] + b;
      BitFoldConcat(Shift(Mix(v, a[0])), a[1..], b);
    }
  }

  /** Bits that enter together and are then shifted out enter one by one. */
  lemma {:induction false} TogetherOrOneByOne(v: Word, y: Word, n: nat)
    requires y < Pow2(n)
    ensures Iterate(Shift, WordXor(v, y), n) == BitFold(v, LowBits(y, n))
    decreases n
  {
    hide Shift, Mix, WordXor;
    if n == 0 {
      NoBits(v);
    } else {
      var w := WordXor(v, y % 2);
      LowBitFirst(v, y);
      assert LowBits(y, n)[0] == y % 2 && LowBits(y, n)[1..] == LowBits(y / 2, n - 1);
      IterateAdd(Shift, WordXor(v, y), 1, n - 1);
      assert Iterate(Shift, WordXor(v, y), 1) == Shift(WordXor(v, y)) by {
        assert Iterate(Shift, WordXor(v, y), 0) == WordXor(v, y);
      }
      TogetherOrOneByOne(Shift(w), y / 2, n - 1);
      SameMix(v, y % 2);
    }
  }

  lemma NoBits(v: Word)
    ensures WordXor(v, 0) == v
  {
    XorSelf(v);
  }

  lemma SameMix(v: Word, b: Byte)
    ensures Mix(v, b) == WordXor(v, b)
  {}

  lemma LowBitFirst(v: Word, y: Word)
    ensures Shift(WordXor(v, y)) == WordXor(Shift(WordXor(v, y % 2)), y / 2)
  {
    hide Shift, Xor;
    LowAndHigh(y);
    XorAssociates(v, y % 2, 2 * (y / 2));
    ShiftAbsorbs(WordXor(v, y % 2), y / 2);
  }

  lemma LowAndHigh(y: nat)
    ensures Xor(y % 2, 2 * (y / 2)) == y
  {
    XorStep(y % 2, 2 * (y / 2));
    XorSelf(y / 2);
    XorCommutes(0, y / 2);
    assert y % 2 / 2 == 0 && 2 * (y / 2) / 2 == y / 2;
    Halves(Xor(y % 2, 2 * (y / 2)), y);
  }

  lemma ByteIsEightBits(v: Word, b: Byte)
    ensures ByteStep(v, b) == BitFold(v, LowBits(b, 8))
  {
    hide Shift, Mix, Iterate;
    Powers();
    TogetherOrOneByOne(v, b, 8);
    SameMix(v, b);
  }

  lemma {:induction false} BytesAreBits(v: Word, s: Bytes)
    ensures Fold(ByteStep, v, s) == BitFold(v, MessageBits(s))
    decreases |s|
  {
    hide ByteStep, LowBits;
    if s != [] {
      assert s == [s[0]] + s[1..];
      FoldConcat(ByteStep, v, [s[0]], s[1..]);
      FoldLast(ByteStep, v, [], s[0]);
      assert [] + [s[0]] == [s[0]];
      ByteIsEightBits(v, s[0]);
      BytesAreBits(ByteStep(v, s[0]), s[1..]);
      BitFoldConcat(v, LowBits(s[0], 8), MessageBits(s[1..]));
    }
  }

  /** The message's bits, low bit of each byte first, then 32 zeros, and 1 added to the first 32. */
  function Complemented(s: Bytes): (r: Polynomial)
    ensures |r| == 8 * |s| + 32
  {
    var bits := MessageBits(s);
    seq<Bit>(8 * |s| + 32, i requires 0 <= i < 8 * |s| + 32 =>
      Add(if i < 32 then 1 else 0, if i < 8 * |s| then bits[i] else 0))
  }

  lemma {:induction false} AllOnes(n: nat, v: nat, i: nat)
    requires i < n && v == Pow2(n) - 1
    ensures LowBits(v, n)[i] == 1
  {
    if i > 0 {
      AllOnes(n - 1, v / 2, i - 1);
    }
  }

  lemma ComplementedAt(s: Bytes, i: nat)
    requires i < 8 * |s| + 32
    ensures Complemented(s)[i] == Add(if i < 32 then 1 else 0, if i < 8 * |s| then MessageBits(s)[i] else 0)
  {
    hide MessageBits, Add;
  }

  lemma StartsComplemented(s: Bytes)
    ensures Dividend(ONES, MessageBits(s)) == Complemented(s)
  {
    hide LowBits, MessageBits, Dividend, Complemented;
    Powers();
    var m, c := Dividend(ONES, MessageBits(s)), Complemented(s);
    forall i | 0 <= i < |m| ensures m[i] == c[i] {
      DividendAt(ONES, MessageBits(s), i);
      ComplementedAt(s, i);
      if i < 32 {
        AllOnes(32, ONES, i);
      }
    }
  }

  /** The CRC is the complement of the remainder of that message. */
  lemma CrcIsRemainder(s: Bytes, i: nat)
    requires i < 32
    ensures LowBits(Crc(s), 32)[i] == 1 - Remainder(Complemented(s))[i]
  {
    hide LowBits, Remainder, Complemented, MessageBits, Xor, ByteStep;
    Powers();
    BytesAreBits(ONES, s);
    BitsDivide(ONES, MessageBits(s));
    StartsComplemented(s);
    XorBits(Feed(s), ONES, 32, i);
    AllOnes(32, ONES, i);
  }
}
