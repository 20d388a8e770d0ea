/** Single bits of unsigned machine words, as the kernel's bitmaps use them. */
module Bits {
  import opened Arith

  /** k & (1 << i) is not zero. */
  predicate Bit(k: nat, i: nat) {
    if i == 0 then k % 2 == 1 else Bit(k / 2, i - 1)
  }

  /** k | (1 << i). */
  function WithBit(k: nat, i: nat): nat {
    if i == 0 then k / 2 * 2 + 1 else 2 * WithBit(k / 2, i - 1) + k % 2
  }

  /** k & ~(1 << i). */
  function WithoutBit(k: nat, i: nat): nat {
    if i == 0 then k / 2 * 2 else 2 * WithoutBit(k / 2, i - 1) + k % 2
  }

  /** The word of n one bits: (1 << n) - 1. */
  function Ones(n: nat): nat {
    if n == 0 then 0 else 2 * Ones(n - 1) + 1
  }

  lemma {:induction false} WithBitAt(k: nat, i: nat, j: nat)
    ensures Bit(WithBit(k, i), j) <==> i == j || Bit(k, j)
  {
    if i > 0 && j > 0 { WithBitAt(k / 2, i - 1, j - 1); }
  }

  lemma {:induction false} WithoutBitAt(k: nat, i: nat, j: nat)
    ensures Bit(WithoutBit(k, i), j) <==> i != j && Bit(k, j)
  {
    if i > 0 && j > 0 { WithoutBitAt(k / 2, i - 1, j - 1); }
  }

  /** Setting a bit below n keeps an n-bit word an n-bit word. */
  lemma {:induction false} WithBitFits(k: nat, i: nat, n: nat)
    requires k <= Ones(n) && i < n
    ensures WithBit(k, i) <= Ones(n)
  {
    if i > 0 { WithBitFits(k / 2, i - 1, n - 1); }
  }

  /** A word that is not all ones has a zero bit. */
  lemma {:induction false} ZeroBit(k: nat, n: nat) returns (i: nat)
    requires k < Ones(n)
    ensures i < n && !Bit(k, i)
  {
    if k % 2 == 0 {
      i := 0;
    } else {
      i := ZeroBit(k / 2, n - 1);
      i := i + 1;
    }
  }

  lemma {:induction false} OnesBit(n: nat, i: nat)
    requires i < n
    ensures Bit(Ones(n), i)
  {
    if i > 0 { OnesBit(n - 1, i - 1); }
  }

  /** A word is zero exactly when no bit is set. */
  lemma {:induction false} SomeBit(k: nat, n: nat) returns (i: nat)
    requires 0 < k <= Ones(n)
    ensures i < n && Bit(k, i)
  {
    if k % 2 == 1 {
      i := 0;
    } else {
      i := SomeBit(k / 2, n - 1);
      i := i + 1;
    }
  }

  lemma {:induction false} ZeroHasNoBit(i: nat)
    ensures !Bit(0, i)
  {
    if i > 0 { ZeroHasNoBit(i - 1); }
  }

  // ---------------------------------------------------------------- 64-bit words

  const WORD_MAX := 0xffff_ffff_ffff_ffff

  lemma OnesByte(n: nat)
    ensures Ones(n + 8) == 256 * Ones(n) + 255
  {
    assert Ones(n + 2) == 4 * Ones(n) + 3;
    assert Ones(n + 4) == 4 * Ones(n + 2) + 3;
    assert Ones(n + 6) == 4 * Ones(n + 4) + 3;
    assert Ones(n + 8) == 4 * Ones(n + 6) + 3;
  }

  lemma OnesWord(n: nat)
    requires n == 64
    ensures Ones(n) == WORD_MAX
  {
    OnesByte(n - 64);
    OnesByte(n - 56);
    OnesByte(n - 48);
    OnesByte(n - 40);
    OnesByte(n - 32);
    OnesByte(n - 24);
    OnesByte(n - 16);
    OnesByte(n - 8);
  }

  lemma WordFullBit(i: nat, n: nat)
    requires i < n == 64
    ensures Bit(WORD_MAX, i)
  {
    OnesWord(n);
    OnesBit(n, i);
  }

  lemma WordWithBit(k: nat, i: nat, n: nat)
    requires k <= WORD_MAX && i < n == 64
    ensures WithBit(k, i) <= WORD_MAX
  {
    OnesWord(n);
    WithBitFits(k, i, n);
  }

  lemma WordZeroBit(k: nat, n: nat) returns (i: nat)
    requires k < WORD_MAX && n == 64
    ensures i < n && !Bit(k, i)
  {
    OnesWord(n);
    i := ZeroBit(k, n);
  }

  lemma WordSomeBit(k: nat, n: nat) returns (i: nat)
    requires 0 < k <= WORD_MAX && n == 64
    ensures i < n && Bit(k, i)
  {
    OnesWord(n);
    i := SomeBit(k, n);
  }

  // ---------------------------------------------------------------- powers of two

  /** x & y. */
  function And(x: nat, y: nat): nat {
    if x == 0 || y == 0 then 0 else 2 * And(x / 2, y / 2) + x % 2 * (y % 2)
  }

  predicate IsPow2(n: nat) {
    n == 1 || (n > 0 && n % 2 == 0 && IsPow2(n / 2))
  }

  lemma {:induction false} AndSelf(x: nat)
    ensures And(x, x) == x
  {
    if x > 0 { AndSelf(x / 2); }
  }

  /** The test n & (n - 1) finds exactly the powers of two. */
  lemma {:induction false} Pow2Test(n: nat)
    requires n > 0
    ensures And(n, n - 1) == 0 <==> IsPow2(n)
  {
    if n % 2 == 1 {
      assert n / 2 == (n - 1) / 2;
      AndSelf(n / 2);
    } else {
      assert (n - 1) / 2 == n / 2 - 1;
      Pow2Test(n / 2);
    }
  }

  lemma HalfRemainder(v: nat, m: nat)
    requires m > 0
    ensures v % (2 * m) == 2 * (v / 2 % m) + v % 2
  {
    var h, a := v / 2, 2 * m;
    DivMod(h, m);
    var q, r := h / m, h % m;
    assert q * a == 2 * (q * m);
    DivModUnique(v, a, q, 2 * r + v % 2);
  }

  /** v & (a - 1) is the remainder by a power of two. */
  lemma {:induction false} Pow2Mask(v: nat, a: nat)
    requires IsPow2(a)
    ensures And(v, a - 1) == v % a
    decreases a
  {
    if a > 1 {
      Pow2Mask(v / 2, a / 2);
      HalfRemainder(v, a / 2);
      assert (a - 1) / 2 == a / 2 - 1 && (a - 1) % 2 == 1;
      assert v > 0 ==> And(v, a - 1) == 2 * And(v / 2, a / 2 - 1) + v % 2;
    }
  }

  /** A power of two divides every larger one. */
  lemma {:induction false} Pow2Divides(a: nat, b: nat)
    requires IsPow2(a) && IsPow2(b) && a <= b
    ensures b % a == 0
    decreases b
  {
    if a > 1 {
      Pow2Divides(a / 2, b / 2);
      DivMod(b / 2, a / 2);
      var q := b / 2 / (a / 2);
      assert b == q * a by { assert b / 2 == q * (a / 2); assert q * a == 2 * (q * (a / 2)); }
      DivModUnique(b, a, q, 0);
    }
  }
}
