/** Bitwise "or" and "and" on natural numbers, and the cases that page-table entries need. */
module Bits {
  function Or(a: nat, b: nat): (c: nat) {
    if a == 0 then b
    else if b == 0 then a
    else 2 * Or(a / 2, b / 2) + (if a % 2 == 1 || b % 2 == 1 then 1 else 0)
  }

  function And(a: nat, b: nat): (c: nat) {
    if a == 0 || b == 0 then 0
    else 2 * And(a / 2, b / 2) + (if a % 2 == 1 && b % 2 == 1 then 1 else 0)
  }

  function ShiftLeft(x: nat, k: nat): nat {
    if k == 0 then x else 2 * ShiftLeft(x, k - 1)
  }

  function ShiftRight(x: nat, k: nat): nat {
    if k == 0 then x else ShiftRight(x / 2, k - 1)
  }

  /** The defining step, which holds for zeros too. */
  lemma OrStep(a: nat, b: nat)
    ensures Or(a, b) == 2 * Or(a / 2, b / 2) + (if a % 2 == 1 || b % 2 == 1 then 1 else 0)
  {
  }

  /** Flags below bit k are or-ed into the low part only. */
  lemma {:induction false} OrLow(h: nat, k: nat, b: nat, c: nat)
    requires b < ShiftLeft(1, k) && c < ShiftLeft(1, k)
    ensures Or(ShiftLeft(h, k) + b, c) == ShiftLeft(h, k) + Or(b, c)
  {
    if k > 0 {
      var a := ShiftLeft(h, k) + b;
      assert a / 2 == ShiftLeft(h, k - 1) + b / 2 && a % 2 == b % 2;
      OrLow(h, k - 1, b / 2, c / 2);
      hide Or;
      OrStep(a, c);
      OrStep(b, c);
    }
  }

  lemma AndDouble(x: nat, m: nat)
    ensures And(x, 2 * m) == 2 * And(x / 2, m)
  {
    assert (2 * m) / 2 == m && (2 * m) % 2 == 0;
    if x == 0 || m == 0 {
      AndZero(x);
      AndZero(m);
      AndZero(x / 2);
    } else {
      AndHalves(x, 2 * m);
    }
    hide And;
  }

  lemma AndZero(x: nat)
    ensures And(x, 0) == 0 && And(0, x) == 0
  {
  }

  lemma AndHalves(a: nat, b: nat)
    requires a != 0 && b != 0
    ensures And(a, b) == 2 * And(a / 2, b / 2) + (if a % 2 == 1 && b % 2 == 1 then 1 else 0)
  {
  }

  lemma {:induction false} AndShift(x: nat, m: nat, k: nat)
    ensures And(x, ShiftLeft(m, k)) == ShiftLeft(And(ShiftRight(x, k), m), k)
    decreases k
  {
    if k > 0 {
      AndDouble(x, ShiftLeft(m, k - 1));
      AndShift(x / 2, m, k - 1);
    }
  }

  /** A mask of n ones keeps everything below 2^n. */
  lemma {:induction false} AndOnes(x: nat, n: nat)
    requires x < ShiftLeft(1, n)
    ensures And(x, ShiftLeft(1, n) - 1) == x
    decreases n
  {
    if n > 0 {
      AndOnes(x / 2, n - 1);
    }
  }

  lemma ShiftLeft10(x: nat)
    ensures ShiftLeft(x, 10) == 1024 * x
  {
    assert ShiftLeft(x, 1) == 2 * x;
    assert ShiftLeft(x, 3) == 8 * x;
    assert ShiftLeft(x, 5) == 32 * x;
    assert ShiftLeft(x, 7) == 128 * x;
    assert ShiftLeft(x, 9) == 512 * x;
  }

  lemma ShiftLeft12(x: nat)
    ensures ShiftLeft(x, 12) == 4096 * x
  {
    ShiftLeft10(x);
    assert ShiftLeft(x, 11) == 2048 * x;
  }

  lemma ShiftLeft20(x: nat)
    ensures ShiftLeft(x, 20) == 0x10_0000 * x
  {
    ShiftLeft12(x);
    assert ShiftLeft(x, 14) == 0x4000 * x;
    assert ShiftLeft(x, 16) == 0x1_0000 * x;
    assert ShiftLeft(x, 18) == 0x4_0000 * x;
  }

  lemma ShiftLeft22(x: nat)
    ensures ShiftLeft(x, 22) == 0x40_0000 * x
  {
    ShiftLeft20(x);
    assert ShiftLeft(x, 21) == 0x20_0000 * x;
  }

  lemma ShiftRight10(x: nat)
    ensures ShiftRight(x, 10) == x / 1024
  {
    assert ShiftRight(x / 512, 1) == x / 1024;
    assert ShiftRight(x / 128, 3) == x / 1024;
    assert ShiftRight(x / 32, 5) == x / 1024;
    assert ShiftRight(x / 8, 7) == x / 1024;
    assert ShiftRight(x / 2, 9) == x / 1024;
  }

  lemma ShiftRight12(x: nat)
    ensures ShiftRight(x, 12) == x / 4096
  {
    ShiftRight10(x / 4);
    assert ShiftRight(x, 12) == ShiftRight(x / 4, 10);
  }

  lemma ShiftRightTwice(x: nat, k: nat)
    ensures ShiftRight(x, k + 2) == ShiftRight(x / 4, k)
  {
    assert ShiftRight(x, k + 2) == ShiftRight(x / 2, k + 1);
  }

  lemma ShiftRight22(x: nat)
    ensures ShiftRight(x, 22) == x / 0x40_0000
  {
    ShiftRightTwice(x, 20);
    ShiftRightTwice(x / 4, 18);
    ShiftRightTwice(x / 16, 16);
    ShiftRightTwice(x / 64, 14);
    ShiftRightTwice(x / 256, 12);
    hide ShiftRight;
    ShiftRight12(x / 1024);
    assert x / 4 / 4 == x / 16;
    assert x / 16 / 4 == x / 64;
    assert x / 64 / 4 == x / 256;
    assert x / 256 / 4 == x / 1024;
    assert x / 1024 / 4096 == x / 0x40_0000;
  }

  /** The mask 0xFFFFF000 clears the offset inside a 4 KB page. */
  lemma PageMask(x: nat)
    requires x < 0x1_0000_0000
    ensures And(x, 0xFFFF_F000) == x / 4096 * 4096
  {
    ShiftLeft20(1);
    ShiftLeft12(0xF_FFFF);
    ShiftRight12(x);
    AndShift(x, 0xF_FFFF, 12);
    AndOnes(x / 4096, 20);
    ShiftLeft12(x / 4096);
  }

  /** The mask 0xFFC00000 clears the offset inside a 4 MB page. */
  lemma LargePageMask(x: nat)
    requires x < 0x1_0000_0000
    ensures And(x, 0xFFC0_0000) == x / 0x40_0000 * 0x40_0000
  {
    ShiftLeft10(1);
    ShiftLeft22(0x3FF);
    ShiftRight22(x);
    AndShift(x, 0x3FF, 22);
    AndOnes(x / 0x40_0000, 10);
    ShiftLeft22(x / 0x40_0000);
  }

  /** Or-ing flag bits into a page-aligned address that already has flags. */
  lemma OrFlags(base: nat, b: nat, c: nat)
    requires base % 4096 == 0 && b < 4096 && c < 4096
    ensures Or(base + b, c) == base + Or(b, c)
  {
    ShiftLeft12(1);
    ShiftLeft12(base / 4096);
    OrLow(base / 4096, 12, b, c);
  }
}
