/** Facts about the bits of a word: complements, masks, shifts, sign tests and reversal. */
module Bits {
  import opened Words

  lemma {:induction false} XorOnes(x: nat, n: nat)
    requires x < Pow2(n)
    ensures Xor(x, Pow2(n) - 1) == Pow2(n) - 1 - x
    decreases n
  {
    if x > 0 {
      var p := Pow2(n - 1);
      assert Pow2(n) == 2 * p;
      XorOnes(x / 2, n - 1);
      assert (2 * p - 1) / 2 == p - 1 && (2 * p - 1) % 2 == 1;
      assert Xor(x, 2 * p - 1) == 2 * Xor(x / 2, p - 1) + (if x % 2 != 1 then 1 else 0);
    }
  }

  /** x xor all-ones is the one's complement. */
  lemma XorW_Ones(x: Word)
    ensures XorW(x, ONES) == ONES - x
  {
    Pow2At32();
    XorOnes(x, 32);
  }

  lemma {:induction false} BitTop(x: nat, n: nat)
    requires x < Pow2(n + 1)
    ensures Bit(x, n) == 1 <==> x >= Pow2(n)
  {
    if n > 0 { BitTop(x / 2, n - 1); }
  }

  lemma NegIsBit31(x: Word)
    ensures Neg(x) <==> Bit(x, 31) == 1
  {
    Pow2At32();
    BitTop(x, 31);
  }

  /** The sign of each bitwise operation is the operation on the signs. */
  lemma SignOps(a: Word, b: Word)
    ensures Neg(OrW(a, b)) <==> Neg(a) || Neg(b)
    ensures Neg(AndW(a, b)) <==> Neg(a) && Neg(b)
    ensures Neg(XorW(a, b)) <==> (Neg(a) <==> !Neg(b))
    ensures Neg(AndNotW(a, b)) <==> Neg(a) && !Neg(b)
  {
    OrBit(a, b, 31); AndBit(a, b, 31); XorBit(a, b, 31); AndNotBit(a, b, 31);
    NegIsBit31(a); NegIsBit31(b);
    NegIsBit31(OrW(a, b)); NegIsBit31(AndW(a, b)); NegIsBit31(XorW(a, b)); NegIsBit31(AndNotW(a, b));
  }

  /** The low k bits of x. */
  function Low(x: nat, k: nat): (r: nat)
    ensures r <= x
  {
    if k == 0 then 0 else 2 * Low(x / 2, k - 1) + x % 2
  }

  /** x without its low k bits. */
  function Shr(x: nat, k: nat): (r: nat)
    ensures r <= x
  {
    if k == 0 then x else Shr(x / 2, k - 1)
  }

  lemma {:induction false} SplitAt(x: nat, k: nat)
    ensures x == Shr(x, k) * Pow2(k) + Low(x, k) && Low(x, k) < Pow2(k)
  {
    if k > 0 {
      SplitAt(x / 2, k - 1);
      var q, p, l := Shr(x / 2, k - 1), Pow2(k - 1), Low(x / 2, k - 1);
      assert Shr(x, k) == q && Low(x, k) == 2 * l + x % 2 && Pow2(k) == 2 * p;
      Doubled(q, p, l, x % 2);
    }
  }

  lemma Doubled(q: nat, p: nat, l: nat, b: nat)
    ensures 2 * (q * p + l) + b == q * (2 * p) + (2 * l + b)
  {
    assert q * (2 * p) == 2 * (q * p);
  }

  /** Low and Shr are remainder and quotient. */
  lemma LowShr(x: nat, k: nat)
    ensures Low(x, k) == x % Pow2(k) && Shr(x, k) == x / Pow2(k)
  {
    SplitAt(x, k);
    hide Low, Shr, Pow2;
    QuotientOf(x, Pow2(k), Shr(x, k), Low(x, k));
  }

  lemma QuotientOf(x: int, p: int, q: int, r: int)
    requires p > 0 && x == q * p + r && 0 <= r < p
    ensures x / p == q && x % p == r
  {
    var d := x / p - q;
    assert x == x / p * p + x % p;
    assert d * p == r - x % p;
    assert d >= 1 ==> d * p >= p;
    assert d <= -1 ==> d * p <= -p;
  }

  lemma {:induction false} BitShift(x: nat, k: nat, i: nat)
    ensures Bit(x, i + k) == Bit(Shr(x, k), i)
    decreases k
  {
    if k > 0 {
      assert Bit(x, i + k) == Bit(x / 2, i + (k - 1));
      BitShift(x / 2, k - 1, i);
    }
  }

  lemma {:induction false} BitLow(x: nat, k: nat, i: nat)
    ensures Bit(Low(x, k), i) == if i < k then Bit(x, i) else 0
    decreases k
  {
    if k == 0 {
      BitZero(i);
    } else if i > 0 {
      BitLow(x / 2, k - 1, i - 1);
    }
  }

  /** Clearing everything but bit k keeps bit k in place. */
  lemma {:induction false} AndNotSingle(x: nat, k: nat, n: nat)
    requires k < n && x < Pow2(n)
    ensures Pow2(k) < Pow2(n)
    ensures AndNot(x, Pow2(n) - 1 - Pow2(k)) == if Bit(x, k) == 1 then Pow2(k) else 0
    decreases n
  {
    Pow2Less(k, n);
    if x == 0 {
      BitZero(k);
    } else if k == 0 {
      assert (Pow2(n) - 2) / 2 == Pow2(n - 1) - 1;
      AndNotOnes(x / 2, n - 1);
    } else {
      AndNotSingle(x / 2, k - 1, n - 1);
      var y := Pow2(n) - 1 - Pow2(k);
      assert y / 2 == Pow2(n - 1) - 1 - Pow2(k - 1) && y % 2 == 1;
      assert Bit(x, k) == Bit(x / 2, k - 1);
      hide Bit;
      assert AndNot(x, y) == 2 * AndNot(x / 2, y / 2);
    }
  }

  lemma {:induction false} AndNotOnes(x: nat, n: nat)
    requires x < Pow2(n)
    ensures AndNot(x, Pow2(n) - 1) == 0
    decreases n
  {
    if n > 0 && x > 0 { AndNotOnes(x / 2, n - 1); }
  }

  /** Clearing the bits from k up leaves the remainder. */
  lemma {:induction false} AndNotLow(x: nat, k: nat, n: nat)
    requires k <= n && x < Pow2(n)
    ensures Pow2(k) <= Pow2(n)
    ensures AndNot(x, Pow2(n) - Pow2(k)) == Low(x, k)
    decreases n
  {
    if k < n { Pow2Less(k, n); }
    if x == 0 {
      LowZero(k);
    } else if k == 0 {
      AndNotOnes(x, n);
    } else {
      var m := Pow2(n - 1) - Pow2(k - 1);
      AndNotLow(x / 2, k - 1, n - 1);
      assert Pow2(n) - Pow2(k) == 2 * m;
      AndNotTwice(x, m);
      hide AndNot, Pow2;
      assert Low(x, k) == 2 * Low(x / 2, k - 1) + x % 2;
    }
  }

  lemma AndNotTwice(x: nat, m: nat)
    requires x > 0
    ensures AndNot(x, 2 * m) == 2 * AndNot(x / 2, m) + x % 2
  {
  }

  lemma {:induction false} LowZero(k: nat)
    ensures Low(0, k) == 0
  {
    if k > 0 { LowZero(k - 1); }
  }

  lemma {:induction false} Pow2Less(k: nat, n: nat)
    requires k < n
    ensures Pow2(k) < Pow2(n)
  {
    if k + 1 < n { Pow2Less(k, n - 1); }
  }

  /** The low byte of a swapped word is its top byte. */
  lemma SwappedBit(v: Word, j: nat)
    requires j < 8
    ensures Bit(Bswap(v, 4), j) == Bit(v, 24 + j)
  {
    hide Pow2, Bit, Bswap, Low, Shr;
    Pow2At32();
    SwapLow(v);
    LowShr(Bswap(v, 4), 8); LowShr(v, 24);
    BitLow(Bswap(v, 4), 8, j);
    BitShift(v, 24, j);
  }

  lemma SwapLow(v: Word)
    ensures Bswap(v, 4) % 0x100 == v / 0x100_0000
  {
    var hi := Lane(v, 0) * 0x1_0000 + Lane(v, 1) * 0x100 + Lane(v, 2);
    assert Bswap(v, 4) == hi * 0x100 + Lane(v, 3);
    assert Lane(v, 3) == v / 0x100_0000;
  }

  // ----- arithmetic modulo 2^32 -----

  lemma WrapWord(x: Word)
    ensures Wrap(x) == x
  {
  }

  /** Doubling a product, and adding the multiplicand once more. */
  lemma DoubleAndAdd(h: nat, v: Word)
    ensures Add(Wrap(h * v), Wrap(h * v)) == Wrap((2 * h) * v)
    ensures Add(Wrap((2 * h) * v), v) == Wrap((2 * h + 1) * v)
  {
    hide Wrap, Add;
    var p := h * v;
    AddWraps(p, p); AddWraps(p + p, v); WrapWord(v);
    assert (2 * h) * v == p + p;
    assert (2 * h + 1) * v == p + p + v;
  }

  lemma AddWraps(p: int, q: int)
    ensures Add(Wrap(p), Wrap(q)) == Wrap(p + q)
  {
    WrapSum(p, Wrap(q)); WrapSum(p, q);
  }

  lemma WrapSum(x: int, y: int)
    ensures Wrap(Wrap(x) + y) == Wrap(x + y)
    ensures Wrap(x + Wrap(y)) == Wrap(x + y)
  {
    ModShift(Wrap(x) + y, -(x / M32));
    ModShift(x + Wrap(y), -(y / M32));
  }

  lemma ModShift(x: int, q: int)
    ensures Wrap(x - q * M32) == Wrap(x)
  {
    QuotientOf(x - q * M32, M32, x / M32 - q, x % M32);
  }

  lemma ShrStep(x: nat, i: nat)
    ensures Shr(x, i) == 2 * Shr(x, i + 1) + Bit(x, i)
  {
    if i > 0 { ShrStep(x / 2, i - 1); }
  }

  lemma WrapMul(a: int, b: int)
    ensures Wrap(a * Wrap(b)) == Wrap(a * b)
  {
    var q := b / M32;
    assert b == q * M32 + Wrap(b);
    assert a * b == a * Wrap(b) + (a * q) * M32;
    ModShift(a * b, a * q);
  }

  // ----- bytes -----

  /** The byte lanes of a word written in base 256. */
  lemma LanesOf(a: int, b: int, c: int, d: int)
    requires 0 <= a < 0x100 && 0 <= b < 0x100 && 0 <= c < 0x100 && 0 <= d < 0x100
    ensures var w := a + 0x100 * b + 0x1_0000 * c + 0x100_0000 * d;
            0 <= w < M32 && Lane(w, 0) == a && Lane(w, 1) == b && Lane(w, 2) == c && Lane(w, 3) == d
  {
    var w := a + 0x100 * b + 0x1_0000 * c + 0x100_0000 * d;
    QuotientOf(w, 0x100, b + 0x100 * c + 0x1_0000 * d, a);
    QuotientOf(b + 0x100 * c + 0x1_0000 * d, 0x100, c + 0x100 * d, b);
    QuotientOf(w, 0x1_0000, c + 0x100 * d, a + 0x100 * b);
    QuotientOf(c + 0x100 * d, 0x100, d, c);
    QuotientOf(w, 0x100_0000, d, a + 0x100 * b + 0x1_0000 * c);
    QuotientOf(d, 0x100, 0, d);
    assert w / 1 == w;
  }

  /** A word is its lanes, and so are its upper and lower parts. */
  lemma LaneParts(w: Word)
    ensures var a, b, c, d := Lane(w, 0), Lane(w, 1), Lane(w, 2), Lane(w, 3);
            && w == a + 0x100 * b + 0x1_0000 * c + 0x100_0000 * d
            && w % 0x100 == a && w / 0x100 == b + 0x100 * c + 0x1_0000 * d
            && w % 0x1_0000 == a + 0x100 * b && w / 0x1_0000 == c + 0x100 * d
            && w % 0x100_0000 == a + 0x100 * b + 0x1_0000 * c && w / 0x100_0000 == d
  {
    var q1: int := w / 0x100;
    var q2: int := q1 / 0x100;
    var q3: int := q2 / 0x100;
    QuotientOf(w, 0x1_0000, q2, w % 0x100 + 0x100 * (q1 % 0x100));
    QuotientOf(w, 0x100_0000, q3, w % 0x100 + 0x100 * (q1 % 0x100) + 0x1_0000 * (q2 % 0x100));
    assert w / 1 == w && q3 < 0x100;
    QuotientOf(q3, 0x100, 0, q3);
  }

  /** A field written replaces exactly its bytes. */
  lemma PutLanes(w: Word, off: int, size: int, v: Word, i: int)
    requires Fits(off, size) && 0 <= i <= 3
    ensures Lane(PutField(w, off, size, v), i) == if off <= i < off + size then Lane(v, i - off) else Lane(w, i)
  {
    hide Lane, PutField;
    var a, b, c, d := Lane(w, 0), Lane(w, 1), Lane(w, 2), Lane(w, 3);
    var x, y := Lane(v, 0), Lane(v, 1);
    if size == 1 {
      PutByte(w, off, v);
      LanesOf(if off == 0 then x else a, if off == 1 then x else b, if off == 2 then x else c,
              if off == 3 then x else d);
    } else if size == 2 {
      PutHalf(w, off, v);
      if off == 0 { LanesOf(x, y, c, d); } else { LanesOf(a, b, x, y); }
    } else {
      PutWord(w, v);
    }
  }

  lemma PutWord(w: Word, v: Word)
    ensures PutField(w, 0, 4, v) == v
  {
  }

  lemma PutByte(w: Word, off: int, v: Word)
    requires 0 <= off <= 3
    ensures var a, b, c, d, x := Lane(w, 0), Lane(w, 1), Lane(w, 2), Lane(w, 3), Lane(v, 0);
            PutField(w, off, 1, v) == (if off == 0 then x else a) + 0x100 * (if off == 1 then x else b)
                + 0x1_0000 * (if off == 2 then x else c) + 0x100_0000 * (if off == 3 then x else d)
  {
    LaneParts(w); LaneParts(v);
    hide Lane;
  }

  lemma PutHalf(w: Word, off: int, v: Word)
    requires off == 0 || off == 2
    ensures var a, b, c, d, x, y := Lane(w, 0), Lane(w, 1), Lane(w, 2), Lane(w, 3), Lane(v, 0), Lane(v, 1);
            PutField(w, off, 2, v) == (if off == 0 then x + 0x100 * y else a + 0x100 * b)
                + (if off == 2 then 0x1_0000 * x + 0x100_0000 * y else 0x1_0000 * c + 0x100_0000 * d)
  {
    LaneParts(w); LaneParts(v);
    hide Lane;
  }

  /** A field read has exactly its bytes. */
  lemma FieldLanes(w: Word, off: int, size: int, i: int)
    requires Fits(off, size) && 0 <= i <= 3
    ensures Lane(Field(w, off, size), i) == if i < size then Lane(w, off + i) else 0
  {
    hide Field, Lane;
    if size == 1 {
      FieldByte(w, off);
      LanesOf(Lane(w, off), 0, 0, 0);
    } else if size == 2 {
      FieldHalf(w, off);
      LanesOf(Lane(w, off), Lane(w, off + 1), 0, 0);
    } else {
      FieldWhole(w);
    }
  }

  lemma FieldByte(w: Word, off: int)
    requires 0 <= off <= 3
    ensures Field(w, off, 1) == Lane(w, off)
  {
    hide LaneWeight;
  }

  lemma FieldWhole(w: Word)
    ensures Field(w, 0, 4) == w
  {
    assert w / 1 == w;
  }

  lemma FieldHalf(w: Word, off: int)
    requires off == 0 || off == 2
    ensures Field(w, off, 2) == Lane(w, off) + 0x100 * Lane(w, off + 1)
  {
    LaneParts(w);
    var c, d := Lane(w, 2), Lane(w, 3);
    hide Lane;
    assert w / 1 == w;
    QuotientOf(c + 0x100 * d, 0x1_0000, 0, c + 0x100 * d);
  }

  /** A swap reverses the bytes of its size. */
  lemma BswapLanes(v: Word, i: int)
    requires 0 <= i <= 3
    ensures Lane(Bswap(v, 4), i) == Lane(v, 3 - i)
    ensures Lane(Bswap(v, 2), i) == if i <= 1 then Lane(v, 1 - i) else 0
    ensures Bswap(v, 1) == v
  {
    hide Lane;
    LanesOf(Lane(v, 3), Lane(v, 2), Lane(v, 1), Lane(v, 0));
    LanesOf(Lane(v, 1), Lane(v, 0), 0, 0);
  }

  /** The bits of a word in reverse order. */
  lemma {:induction false} RevBits(x: nat, n: nat, i: nat)
    requires i < n
    ensures Bit(Rev(x, n), i) == Bit(x, n - 1 - i)
    decreases n
  {
    var r := Rev(x / 2, n - 1);
    if i < n - 1 {
      BitBelow(r, x % 2, n - 1, i);
      RevBits(x / 2, n - 1, i);
    } else {
      BitAbove(r, x % 2, n - 1);
    }
  }

  lemma {:induction false} BitBelow(r: nat, b: nat, n: nat, i: nat)
    requires i < n && b <= 1
    ensures Bit(b * Pow2(n) + r, i) == Bit(r, i)
    decreases n
  {
    var w := b * Pow2(n) + r;
    assert b * Pow2(n) == 2 * (b * Pow2(n - 1));
    if i > 0 {
      assert w / 2 == b * Pow2(n - 1) + r / 2;
      BitBelow(r / 2, b, n - 1, i - 1);
    }
  }

  lemma {:induction false} BitAbove(r: nat, b: nat, n: nat)
    requires r < Pow2(n) && b <= 1
    ensures Bit(b * Pow2(n) + r, n) == b
    decreases n
  {
    if n > 0 {
      var w := b * Pow2(n) + r;
      assert b * Pow2(n) == 2 * (b * Pow2(n - 1));
      assert w / 2 == b * Pow2(n - 1) + r / 2;
      BitAbove(r / 2, b, n - 1);
    }
  }
}
