/** The engine's integer square root: one binary digit of the root a step, by shifts and subtraction only, within 64
    bits. */
module Roots {
  import opened Bits

  ghost predicate Rooted(n: nat, r: nat) { r * r <= n < (r + 1) * (r + 1) }

  /** done is the root so far, the next digit is worth s, left is what remains of n, and acc is twice done times s. */
  ghost predicate Rooting(n: nat, left: nat, bit: nat, acc: nat, s: nat, done: nat) {
    s > 0 && done + 2 * s <= 0x1_0000_0000 && bit == s * s && acc == 2 * (done * s) && n == left + done * done &&
      n < (done + 2 * s) * (done + 2 * s)
  }

  /** The digit is settled. */
  ghost predicate Settled(n: nat, left: nat, acc: nat, s: nat, done: nat) {
    done + s <= 0x1_0000_0000 && acc == done * s && n == left + done * done && n < (done + s) * (done + s)
  }

  ghost predicate Scaled(n: nat, bit: nat, k: nat) {
    if bit == 0 then n == 0 else k < 32 && bit == Pow2(k) * Pow2(k) && n < 4 * bit
  }

  ghost predicate Digit(bit: nat, k: nat) { bit == Pow2(k) * Pow2(k) }

  method Root(n: U64) returns (r: Word)
    ensures Rooted(n, r)
  {
    hide Rooting, Settled, Scaled, Rooted, Digit, Pow2;
    var left: nat, bit: nat, acc: nat := n, 0x4000_0000_0000_0000, 0;
    ghost var k: nat, done: nat := 31, 0;
    FirstDigit(n);
    while bit > left
      invariant left == n && Scaled(n, bit, k)
    {
      SmallerDigit(n, bit, k);
      bit, k := bit / 4, if k > 0 then k - 1 else 0;
    }
    StartRooting(n, bit, k);
    while bit > 0
      invariant k < 32 && if bit > 0 then Rooting(n, left, bit, acc, Pow2(k), done) else Rooted(n, acc)
    {
      Trial(n, left, bit, acc, k, done);
      ghost var s := Pow2(k);
      if left >= acc + bit {
        left := left - (acc + bit);
        acc := acc / 2 + bit;
        done := done + s;
      } else {
        acc := acc / 2;
      }
      NextDigit(n, left, bit, acc, k, done);
      bit, k := bit / 4, if k > 0 then k - 1 else 0;
    }
    SmallRoot(n, acc);
    r := acc;
  }

  lemma FirstDigit(n: U64)
    ensures Scaled(n, 0x4000_0000_0000_0000, 31) && Pow2(31) == 0x8000_0000
  {
    assert Pow2(8) == 256;
    assert Pow2(16) == 65536;
    assert Pow2(24) == 0x100_0000;
    assert Pow2(31) == 0x8000_0000;
  }

  lemma {:induction false} SmallPower(k: nat)
    requires k < 32
    ensures Pow2(k) <= 0x8000_0000
  {
    PowersGrow(k, 31);
    FirstDigit(0);
  }

  lemma {:induction false} PowersGrow(j: nat, k: nat)
    requires j <= k
    ensures Pow2(j) <= Pow2(k)
  {
    if j < k {
      PowersGrow(j, k - 1);
    }
  }

  lemma Quarter(s: nat, h: nat)
    requires s == 2 * h
    ensures s * s / 4 == h * h
  {
    assert s * s == 4 * (h * h);
  }

  lemma SmallerDigit(n: nat, bit: nat, k: nat)
    requires Scaled(n, bit, k) && bit > n
    ensures Scaled(n, bit / 4, if k > 0 then k - 1 else 0)
  {
    if k > 0 {
      Quarter(Pow2(k), Pow2(k - 1));
      var h := Pow2(k - 1);
      assert h * h > 0;
    }
  }

  lemma StartRooting(n: nat, bit: nat, k: nat)
    requires Scaled(n, bit, k)
    ensures bit > 0 ==> k < 32 && Rooting(n, n, bit, 0, Pow2(k), 0)
    ensures bit == 0 ==> Rooted(n, 0)
  {
    hide Pow2;
    if bit > 0 {
      SmallPower(k);
      SquareOfDouble(Pow2(k));
    }
  }

  lemma SquareOfDouble(s: nat)
    ensures 2 * s * (2 * s) == 4 * (s * s)
  {}

  /** (done + s) squared is done squared plus acc plus bit, so the comparison is with n. */
  lemma Trial(n: nat, left: nat, bit: nat, acc: nat, k: nat, done: nat)
    requires Rooting(n, left, bit, acc, Pow2(k), done)
    ensures Digit(bit, k) && acc + bit < 0x1_0000_0000_0000_0000
    ensures var s := Pow2(k); if left >= acc + bit then Settled(n, left - (acc + bit), acc / 2 + bit, s, done + s)
            else Settled(n, left, acc / 2, s, done)
  {
    var s := Pow2(k);
    SquareOfSum(done, s);
    assert (done + s) * s == done * s + s * s;
    assert done + s + s == done + 2 * s;
    Squares(done + s, 0xFFFF_FFFF);
  }

  lemma SquareOfSum(a: nat, b: nat)
    ensures (a + b) * (a + b) == a * a + 2 * (a * b) + b * b
  {}

  lemma NextDigit(n: nat, left: nat, bit: nat, acc: nat, k: nat, done: nat)
    requires k < 32 && Digit(bit, k) && Settled(n, left, acc, Pow2(k), done)
    ensures if k > 0 then bit / 4 > 0 && Rooting(n, left, bit / 4, acc, Pow2(k - 1), done)
      else bit / 4 == 0 && Rooted(n, acc)
  {
    if k > 0 {
      var s, h := Pow2(k), Pow2(k - 1);
      Quarter(s, h);
      Half(done, s, h);
      assert h * h > 0;
    } else {
      assert Pow2(0) == 1;
    }
  }

  lemma Half(done: nat, s: nat, h: nat)
    requires s == 2 * h
    ensures done * s == 2 * (done * h)
  {}

  lemma SmallRoot(n: U64, r: nat)
    requires Rooted(n, r)
    ensures r < 0x1_0000_0000
  {
    Squares(0x1_0000_0000, r);
  }

  lemma Squares(a: nat, b: nat)
    ensures a <= b ==> a * a <= b * b
  {}
}
