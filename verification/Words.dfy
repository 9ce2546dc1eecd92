/** Machine words: 32-bit values as integers, wrapping arithmetic, the byte lanes of a
    little-endian word, and the bitwise operations of the atomic register aliases. */
module Words {

  const M32: int := 0x1_0000_0000
  const M31: int := 0x8000_0000
  const ONES: Word := 0xFFFF_FFFF

  type Word = x: int | 0 <= x < 0x1_0000_0000

  /** Wraps an integer to a word. */
  function Wrap(x: int): Word {
    x % 0x1_0000_0000
  }

  function Add(a: Word, b: Word): Word {
    if a + b < 0x1_0000_0000 then a + b else a + b - 0x1_0000_0000
  }

  function Sub(a: Word, b: Word): Word {
    if a >= b then a - b else a - b + 0x1_0000_0000
  }

  /** The sign bit of a word. */
  predicate Neg(a: Word) {
    a >= 0x8000_0000
  }

  /** The two's-complement reading of a word. */
  function Signed(a: Word): int {
    if Neg(a) then a - 0x1_0000_0000 else a
  }

  // ----- powers of two and bits -----

  function Pow2(n: nat): (r: int)
    ensures r >= 1
  {
    if n == 0 then 1 else 2 * Pow2(n - 1)
  }

  /** Bit i of a natural number. */
  function Bit(x: nat, i: nat): (b: int)
    ensures b == 0 || b == 1
  {
    if i == 0 then x % 2 else Bit(x / 2, i - 1)
  }

  // ----- bitwise operations -----

  function Or(a: nat, b: nat): nat {
    if a == 0 then b else 2 * Or(a / 2, b / 2) + (if a % 2 == 1 || b % 2 == 1 then 1 else 0)
  }

  function And(a: nat, b: nat): nat {
    if a == 0 then 0 else 2 * And(a / 2, b / 2) + (if a % 2 == 1 && b % 2 == 1 then 1 else 0)
  }

  function Xor(a: nat, b: nat): nat {
    if a == 0 then b else 2 * Xor(a / 2, b / 2) + (if a % 2 != b % 2 then 1 else 0)
  }

  function AndNot(a: nat, b: nat): nat {
    if a == 0 then 0 else 2 * AndNot(a / 2, b / 2) + (if a % 2 == 1 && b % 2 == 0 then 1 else 0)
  }

  lemma {:induction false} OrBit(a: nat, b: nat, i: nat)
    ensures Bit(Or(a, b), i) == (if Bit(a, i) == 1 || Bit(b, i) == 1 then 1 else 0)
    decreases a, i
  {
    if a == 0 {
      BitZero(i);
    } else if i > 0 {
      OrBit(a / 2, b / 2, i - 1);
    }
  }

  lemma {:induction false} AndBit(a: nat, b: nat, i: nat)
    ensures Bit(And(a, b), i) == (if Bit(a, i) == 1 && Bit(b, i) == 1 then 1 else 0)
    decreases a, i
  {
    if a == 0 {
      BitZero(i);
    } else if i > 0 {
      AndBit(a / 2, b / 2, i - 1);
    }
  }

  lemma {:induction false} XorBit(a: nat, b: nat, i: nat)
    ensures Bit(Xor(a, b), i) == (if Bit(a, i) != Bit(b, i) then 1 else 0)
    decreases a, i
  {
    if a == 0 {
      BitZero(i);
    } else if i > 0 {
      XorBit(a / 2, b / 2, i - 1);
    }
  }

  lemma {:induction false} AndNotBit(a: nat, b: nat, i: nat)
    ensures Bit(AndNot(a, b), i) == (if Bit(a, i) == 1 && Bit(b, i) == 0 then 1 else 0)
    decreases a, i
  {
    if a == 0 {
      BitZero(i);
    } else if i > 0 {
      AndNotBit(a / 2, b / 2, i - 1);
    }
  }

  lemma {:induction false} BitZero(i: nat)
    ensures Bit(0, i) == 0
  {
    if i > 0 { BitZero(i - 1); }
  }

  /** The results stay below any power of two that bounds the operands. */
  lemma {:induction false} OpsBound(a: nat, b: nat, n: nat)
    requires a < Pow2(n) && b < Pow2(n)
    ensures Or(a, b) < Pow2(n) && And(a, b) < Pow2(n) && Xor(a, b) < Pow2(n) && AndNot(a, b) < Pow2(n)
    decreases n
  {
    if n > 0 && a > 0 { OpsBound(a / 2, b / 2, n - 1); }
  }

  /** Numbers below 2^n with the same low n bits are equal. */
  lemma {:induction false} BitsEqual(x: nat, y: nat, n: nat)
    requires x < Pow2(n) && y < Pow2(n)
    requires forall i: nat :: i < n ==> Bit(x, i) == Bit(y, i)
    ensures x == y
    decreases n
  {
    if n > 0 {
      assert Bit(x, 0) == Bit(y, 0);
      forall i: nat | i < n - 1 ensures Bit(x / 2, i) == Bit(y / 2, i) {
        assert Bit(x, i + 1) == Bit(y, i + 1);
      }
      BitsEqual(x / 2, y / 2, n - 1);
    }
  }

  lemma Pow2At32()
    ensures Pow2(8) == 0x100 && Pow2(16) == 0x1_0000 && Pow2(24) == 0x100_0000
    ensures Pow2(31) == 0x8000_0000 && Pow2(32) == 0x1_0000_0000
  {
    assert Pow2(4) == 16;
    Pow2Sum(4, 4); Pow2Sum(8, 8); Pow2Sum(8, 16); Pow2Sum(16, 16);
    assert Pow2(32) == 2 * Pow2(31);
  }

  lemma {:induction false} Pow2Sum(m: nat, n: nat)
    ensures Pow2(m + n) == Pow2(m) * Pow2(n)
  {
    if m > 0 { Pow2Sum(m - 1, n); }
  }

  function OrW(a: Word, b: Word): Word {
    Pow2At32(); OpsBound(a, b, 32); Or(a, b)
  }

  function AndW(a: Word, b: Word): Word {
    Pow2At32(); OpsBound(a, b, 32); And(a, b)
  }

  function XorW(a: Word, b: Word): Word {
    Pow2At32(); OpsBound(a, b, 32); Xor(a, b)
  }

  function AndNotW(a: Word, b: Word): Word {
    Pow2At32(); OpsBound(a, b, 32); AndNot(a, b)
  }

  // ----- byte lanes -----

  /** The weight of byte lane i. */
  function LaneWeight(i: int): (p: int)
    requires 0 <= i <= 3
    ensures p >= 1
  {
    if i == 0 then 1 else if i == 1 then 0x100 else if i == 2 then 0x1_0000 else 0x100_0000
  }

  /** How many values a transfer of the given size (1, 2 or 4 bytes) can carry. */
  function SizeRange(size: int): (p: int)
    requires size == 1 || size == 2 || size == 4
    ensures p >= 1
  {
    if size == 1 then 0x100 else if size == 2 then 0x1_0000 else 0x1_0000_0000
  }

  /** Byte lane i of a word. */
  function Lane(w: Word, i: int): (b: int)
    requires 0 <= i <= 3
    ensures 0 <= b < 0x100
  {
    w / LaneWeight(i) % 0x100
  }

  predicate Fits(off: int, size: int) {
    (size == 1 && 0 <= off <= 3) || (size == 2 && (off == 0 || off == 2)) || (size == 4 && off == 0)
  }

  /** The aligned field of the given size at byte offset off. */
  function Field(w: Word, off: int, size: int): (v: Word)
    requires Fits(off, size)
    ensures v < SizeRange(size)
  {
    w / LaneWeight(off) % SizeRange(size)
  }

  /** Replaces the field at byte offset off by the low bits of v. */
  function PutField(w: Word, off: int, size: int, v: Word): (r: Word)
    requires Fits(off, size)
  {
    if size == 4 then v
    else if size == 2 then
      if off == 0 then w / 0x1_0000 * 0x1_0000 + v % 0x1_0000
      else v % 0x1_0000 * 0x1_0000 + w % 0x1_0000
    else
      if off == 0 then w / 0x100 * 0x100 + v % 0x100
      else if off == 1 then w / 0x1_0000 * 0x1_0000 + v % 0x100 * 0x100 + w % 0x100
      else if off == 2 then w / 0x100_0000 * 0x100_0000 + v % 0x100 * 0x1_0000 + w % 0x1_0000
      else v % 0x100 * 0x100_0000 + w % 0x100_0000
  }

  /** Byte order reversed within the transfer size. */
  function Bswap(v: Word, size: int): Word
    requires size == 1 || size == 2 || size == 4
  {
    if size == 4 then
      Lane(v, 0) * 0x100_0000 + Lane(v, 1) * 0x1_0000 + Lane(v, 2) * 0x100 + Lane(v, 3)
    else if size == 2 then
      Lane(v, 0) * 0x100 + Lane(v, 1)
    else
      v
  }

  /** The low n bits of x in reverse order. */
  function Rev(x: nat, n: nat): (r: nat)
    ensures r < Pow2(n)
  {
    if n == 0 then 0 else x % 2 * Pow2(n - 1) + Rev(x / 2, n - 1)
  }

  function Rev32(x: Word): Word {
    Pow2At32(); Rev(x, 32)
  }
}
