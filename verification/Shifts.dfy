/** Constant shifts by byte lanes and doublings (host/dmacc/func.go). */
module Shifts {
  import opened Words
  import opened Bits
  import opened Asm

  // ----- code -----

  /** dst = src >> 8k, and dst = src << 8k, for k in 1..3. */
  function LaneShr(src: int, k: int, dst: int): seq<Ins> {
    [Move(Imm(0), dst), DownLane(src, k, dst)]
  }

  function LaneShl(src: int, k: int, dst: int): seq<Ins> {
    [Move(Imm(0), dst), UpLane(src, k, dst)]
  }

  /** An operand byte offsets can be taken of: ferried through scratch when src is not a word or
      is dst itself, which the copies clear before reading. */
  function Ferry(src: Opd, dst: int, scratch: int): seq<Ins> {
    if src.Cell? && src.c != dst then [] else [Move(src, scratch)]
  }

  function Ferried(src: Opd, dst: int, scratch: int): int {
    if src.Cell? && src.c != dst then src.c else scratch
  }

  /** dst = src << n: six bits to a multiply, the last step a doubling, a multiply or a move. */
  function ShlCode(src: Opd, n: nat, dst: int): seq<Ins>
    decreases n
  {
    if n > 6 then [Mulc(src, 64, dst)] + ShlCode(Cell(dst), n - 6, dst)
    else if n == 1 then [Bin(ADD, src, src, dst)]
    else if n > 1 then [Mulc(src, Power(n), dst)]
    else if src != Cell(dst) then [Move(src, dst)] else []
  }

  function Power(n: nat): (p: Word)
    requires n <= 6
    ensures p == Pow2(n)
  {
    assert Pow2(6) == 64;
    if n == 0 then 1 else if n == 1 then 2 else if n == 2 then 4 else if n == 3 then 8 else if n == 4 then 16
        else if n == 5 then 32 else 64
  }

  function LaneShrConst(src: Opd, n: int, dst: int): seq<Ins>
    requires 1 <= n <= 31
  {
    var k, r := n / 8, n % 8;
    if r == 0 then Ferry(src, dst, SC1) + LaneShr(Ferried(src, dst, SC1), k, dst)
    else
      var s := Ferried(src, SC1, SC2);
      if k > 0 then
        Ferry(src, SC1, SC2) + LaneShr(s, k, SC1) + ShlCode(Cell(SC1), 8 - r, SC1) + LaneShr(SC1, 1, dst)
      else
        Ferry(src, SC1, SC2) + LaneShr(s, 1, SC1) + ShlCode(Cell(SC1), 8 - n, SC1) + ShlCode(Cell(s), 8 - n, SC2) +
        [Move(Imm(0), dst), Lane(SC2, 1, dst, 0, 1, 1)] + [Bin(OR, Cell(dst), Cell(SC1), dst)]
  }

  /** The emission loop of a left shift. */
  method EmitShl(src0: Opd, n0: nat, dst: int) returns (code: seq<Ins>)
    ensures code == ShlCode(src0, n0, dst)
  {
    var src, n := src0, n0;
    code := [];
    while n > 6
      invariant code + ShlCode(src, n, dst) == ShlCode(src0, n0, dst)
    {
      assert ShlCode(src, n, dst) == [Mulc(src, 64, dst)] + ShlCode(Cell(dst), n - 6, dst);
      code := code + [Mulc(src, 64, dst)];
      src, n := Cell(dst), n - 6;
    }
    if n == 1 {
      code := code + [Bin(ADD, src, src, dst)];
    } else if n > 1 {
      code := code + [Mulc(src, Power(n), dst)];
    } else if src != Cell(dst) {
      code := code + [Move(src, dst)];
    }
  }

  // ----- meaning -----

  /** Running code leaves v in dst and changes at most the cells of w. */
  ghost predicate Leaves(s: Cells, code: seq<Ins>, dst: int, v: Word, w: set<int>) {
    CodeOk(code) && Get(Run(s, code), dst) == v && Same(s, Run(s, code), w)
  }

  /** Sequencing. */
  lemma Then(s: Cells, x: seq<Ins>, c: int, u: Word, w: set<int>, y: seq<Ins>, d: int, v: Word, w': set<int>)
    requires Leaves(s, x, c, u, w) && Leaves(Run(s, x), y, d, v, w')
    ensures Leaves(s, x + y, d, v, w + w') && Run(s, x + y) == Run(Run(s, x), y)
  {
    hide Run;
    RunSplit(s, x, y);
  }

  lemma LaneShrMeans(s: Cells, src: int, k: int, dst: int)
    requires src != dst && dst != ZERO && 1 <= k <= 3
    ensures Leaves(s, LaneShr(src, k, dst), dst, Get(s, src) / ByteWeight(k), {dst})
  {
    hide Lanes, ByteWeight;
    Run2(s, Move(Imm(0), dst), DownLane(src, k, dst));
    LaneDown(s[dst := 0], src, k, dst);
  }

  lemma LaneShlMeans(s: Cells, src: int, k: int, dst: int)
    requires src != dst && dst != ZERO && 1 <= k <= 3
    ensures Leaves(s, LaneShl(src, k, dst), dst, Wrap(Get(s, src) * ByteWeight(k)), {dst})
  {
    hide Lanes, ByteWeight, Wrap;
    Run2(s, Move(Imm(0), dst), UpLane(src, k, dst));
    LaneUp(s[dst := 0], src, k, dst);
  }

  lemma FerryMeans(s: Cells, src: Opd, dst: int, scratch: int)
    requires scratch != ZERO
    ensures Leaves(s, Ferry(src, dst, scratch), Ferried(src, dst, scratch), Val(s, src), {scratch})
  {
    if !(src.Cell? && src.c != dst) { Run1(s, Move(src, scratch)); }
  }

  lemma {:induction false} ShlMeans(s: Cells, src: Opd, n: nat, dst: int)
    requires dst != ZERO
    ensures Leaves(s, ShlCode(src, n, dst), dst, Wrap(Pow2(n) * Val(s, src)), {dst})
    decreases n
  {
    var x: int := Val(s, src);
    if n > 6 {
      var head := [Mulc(src, 64, dst)];
      Run1(s, head[0]);
      hide Run, Wrap;
      assert Leaves(s, head, dst, Wrap(64 * x), {dst});
      ShlMeans(Run(s, head), Cell(dst), n - 6, dst);
      Then(s, head, dst, Wrap(64 * x), {dst}, ShlCode(Cell(dst), n - 6, dst), dst, Wrap(Pow2(n - 6) * Wrap(64 * x)),
          {dst});
      WrapMul(Pow2(n - 6), 64 * x);
      SixBits(n, x);
    } else {
      LastShl(s, src, n, dst);
    }
  }

  lemma SixBits(n: nat, x: int)
    requires n > 6
    ensures Pow2(n - 6) * (64 * x) == Pow2(n) * x
  {
    Pow2Sum(n - 6, 6);
    assert Pow2(6) == 64;
    var p := Pow2(n - 6);
    assert Pow2(n) == p * 64;
    assert p * (64 * x) == (p * 64) * x;
  }

  lemma LastShl(s: Cells, src: Opd, n: nat, dst: int)
    requires dst != ZERO && n <= 6
    ensures Leaves(s, ShlCode(src, n, dst), dst, Wrap(Pow2(n) * Val(s, src)), {dst})
  {
    var x := Val(s, src);
    if n > 1 {
      hide Wrap, Power;
      Run1(s, Mulc(src, Power(n), dst));
    } else if n == 1 {
      Run1(s, Bin(ADD, src, src, dst));
      assert Pow2(1) == 2;
    } else {
      assert Pow2(0) == 1;
      WrapWord(x);
      if src != Cell(dst) { Run1(s, Move(src, dst)); }
    }
  }

  // ----- logical right shift -----

  /** The low bits of z merged into z change nothing; nor into z with fewer low bits cleared. */
  lemma {:induction false} OrSubset(z: nat, q: nat)
    ensures Or(Low(z, q), z) == z
    decreases q
  {
    if q > 0 { OrSubset(z / 2, q - 1); } else { OrZero(z); }
  }

  lemma {:induction false} OrZero(z: nat)
    ensures Or(0, z) == z
  {
    if z > 0 { OrZero(z / 2); }
  }

  lemma {:induction false} OrOverlap(z: nat, p: nat, q: nat)
    requires p <= q
    ensures Or(Low(z, q), Pow2(p) * Shr(z, p)) == z
    decreases p
  {
    if p == 0 {
      OrSubset(z, q);
      assert Pow2(0) * Shr(z, 0) == z;
    } else {
      hide Or;
      OrOverlap(z / 2, p - 1, q - 1);
      Doubled(Pow2(p - 1), Shr(z / 2, p - 1));
      OrDouble(Low(z / 2, q - 1), Pow2(p - 1) * Shr(z / 2, p - 1), z % 2);
    }
  }

  lemma Doubled(g: int, y: int)
    ensures (2 * g) * y == 2 * (g * y)
  {
  }

  lemma OrDouble(a: nat, h: nat, b: nat)
    requires b <= 1
    ensures Or(2 * a + b, 2 * h) == 2 * Or(a, h) + b
  {
    OrZero(a); OrZero(h);
    OrNothing(a);
  }

  lemma {:induction false} OrNothing(a: nat)
    ensures Or(a, 0) == a
  {
    if a > 0 { OrNothing(a / 2); }
  }

  lemma {:induction false} ShrShr(x: nat, a: nat, b: nat)
    ensures Shr(x, a + b) == Shr(Shr(x, a), b)
    decreases a
  {
    if a > 0 { ShrShr(x / 2, a - 1, b); }
  }

  /** Scaling up by 2^a and dropping a + b bits drops b. */
  lemma {:induction false} ScaleDown(x: nat, a: nat, b: nat)
    ensures Shr(Pow2(a) * x, a + b) == Shr(x, b)
    decreases a
  {
    if a > 0 {
      var y := Pow2(a - 1) * x;
      assert Pow2(a) * x == 2 * y;
      assert (2 * y) / 2 == y;
      ScaleDown(x, a - 1, b);
    }
  }

  lemma ByteShr(x: nat, k: int)
    requires 1 <= k <= 3
    ensures x / ByteWeight(k) == Shr(x, 8 * k)
  {
    LowShr(x, 8 * k);
    assert Pow2(8) == 0x100;
    Pow2Sum(8, 8); Pow2Sum(16, 8);
  }

  lemma ShrBound(x: Word, n: nat)
    requires n <= 32
    ensures Shr(x, n) < Pow2(32 - n)
  {
    Pow2At32();
    ShrLess(x, n, 32);
  }

  lemma {:induction false} ShrLess(x: nat, n: nat, m: nat)
    requires n <= m && x < Pow2(m)
    ensures Shr(x, n) < Pow2(m - n)
    decreases n
  {
    if n > 0 { ShrLess(x / 2, n - 1, m - 1); }
  }

  /** A shifted-down word has room to move up again. */
  lemma Headroom(x: Word, n: nat, m: nat)
    requires m <= n <= 32
    ensures Wrap(Pow2(m) * Shr(x, n)) == Pow2(m) * Shr(x, n)
  {
    hide Shr, Wrap, Pow2;
    ShrBound(x, n);
    Pow2Sum(m, 32 - n);
    Pow2At32();
    if m < n { Pow2Less(32 - n + m, 32); }
    var y, p := Shr(x, n), Pow2(m);
    assert p * y < p * Pow2(32 - n) by { MulLess(p, y, Pow2(32 - n)); }
    WrapWord(p * y);
  }

  lemma MulLess(p: int, a: int, b: int)
    requires p > 0 && a < b
    ensures p * a < p * b
  {
  }

  /** Whole bytes only. */
  lemma WholeBytes(s: Cells, src: Opd, k: int, dst: int)
    requires 1 <= k <= 3 && dst != ZERO && dst != SC1 && src != Cell(SC1)
    ensures Leaves(s, Ferry(src, dst, SC1) + LaneShr(Ferried(src, dst, SC1), k, dst), dst, Shr(Val(s, src), 8 * k),
              {dst, SC1})
  {
    hide Run, Shr, LaneShr;
    var x, c := Ferry(src, dst, SC1), Ferried(src, dst, SC1);
    FerryMeans(s, src, dst, SC1);
    LaneShrMeans(Run(s, x), c, k, dst);
    ByteShr(Val(s, src), k);
    Then(s, x, c, Val(s, src), {SC1}, LaneShr(c, k, dst), dst, Shr(Val(s, src), 8 * k), {dst});
  }

  /** Bytes and bits: the leftover bits ride a left shift through the lanes the copy freed. */
  lemma BytesAndBits(s: Cells, src: Opd, k: int, r: int, dst: int)
    requires 1 <= k <= 3 && 1 <= r <= 7 && dst != ZERO && dst != SC1 && src != Cell(SC1) && src != Cell(SC2)
    ensures Leaves(s, Ferry(src, SC1, SC2) + LaneShr(Ferried(src, SC1, SC2), k, SC1) + ShlCode(Cell(SC1), 8 - r, SC1) +
                      LaneShr(SC1, 1, dst), dst, Shr(Val(s, src), 8 * k + r), {dst, SC1, SC2})
  {
    hide Run, Shr, LaneShr, ShlCode, Wrap, Pow2;
    var x, f, c := Val(s, src), Ferry(src, SC1, SC2), Ferried(src, SC1, SC2);
    FerryMeans(s, src, SC1, SC2);
    LaneShrMeans(Run(s, f), c, k, SC1);
    ByteShr(x, k);
    var y := Shr(x, 8 * k);
    Then(s, f, c, x, {SC2}, LaneShr(c, k, SC1), SC1, y, {SC1});
    var c2 := f + LaneShr(c, k, SC1);
    ShlMeans(Run(s, c2), Cell(SC1), 8 - r, SC1);
    Headroom(x, 8 * k, 8 - r);
    var z: Word := Wrap(Pow2(8 - r) * y);
    Then(s, c2, SC1, y, {SC1, SC2}, ShlCode(Cell(SC1), 8 - r, SC1), SC1, z, {SC1});
    var c3 := c2 + ShlCode(Cell(SC1), 8 - r, SC1);
    LaneShrMeans(Run(s, c3), SC1, 1, dst);
    ByteShr(z, 1);
    ScaleDown(y, 8 - r, r);
    ShrShr(x, 8 * k, r);
    Then(s, c3, SC1, z, {SC1, SC2}, LaneShr(SC1, 1, dst), dst, Shr(x, 8 * k + r), {dst});
    assert {SC1, SC2} + {dst} == {dst, SC1, SC2};
  }

  /** Byte 1 of the word moved up by 8 - n bits is the low byte of the shifted word. */
  lemma MiddleByte(x: Word, n: nat)
    requires 1 <= n <= 7
    ensures Field(Wrap(Pow2(8 - n) * x), 1, 1) == Low(Shr(x, n), 8)
  {
    hide Shr, Low;
    var w: int := Pow2(8 - n) * x;
    ByteOne(w);
    LowShr(w, 8); ScaleDown(x, 8 - n, n);
    LowShr(Shr(x, n), 8);
    assert Pow2(8) == 0x100;
    hide Pow2;
  }

  /** Wrapping keeps the low bytes. */
  lemma ByteOne(w: nat)
    ensures Field(Wrap(w), 1, 1) == w / 0x100 % 0x100
  {
    var q, v := w / M32, w % M32;
    QuotientOf(w, 0x100, q * 0x100_0000 + v / 0x100, v % 0x100);
    QuotientOf(q * 0x100_0000 + v / 0x100, 0x100, q * 0x1_0000 + v / 0x100 / 0x100, v / 0x100 % 0x100);
  }

  /** The byte laid into a cleared word. */
  lemma LowByte(s: Cells, dst: int, z: Word, b: Word)
    requires dst != ZERO && dst != SC2 && Field(Get(s, SC2), 1, 1) == b
    ensures Leaves(s, [Move(Imm(0), dst), Lane(SC2, 1, dst, 0, 1, 1)], dst, b, {dst})
  {
    hide Lanes;
    Run2(s, Move(Imm(0), dst), Lane(SC2, 1, dst, 0, 1, 1));
    OneLane(s[dst := 0], SC2, 1, dst, 0, 1);
  }

  lemma MergeOr(s: Cells, dst: int, a: Word, b: Word)
    requires dst != ZERO && Get(s, dst) == b && Get(s, SC1) == a
    ensures Leaves(s, [Bin(OR, Cell(dst), Cell(SC1), dst)], dst, OrW(b, a), {dst})
  {
    hide OrW;
    Run1(s, Bin(OR, Cell(dst), Cell(SC1), dst));
  }

  /** Below one byte the word splits at the byte boundary and the halves overlap consistently. */
  lemma SubByte(s: Cells, src: Opd, n: int, dst: int)
    requires 1 <= n <= 7 && dst != ZERO && dst != SC1 && dst != SC2 && src != Cell(SC1) && src != Cell(SC2)
    ensures var c := Ferried(src, SC1, SC2);
            Leaves(s, Ferry(src, SC1, SC2) + LaneShr(c, 1, SC1) + ShlCode(Cell(SC1), 8 - n, SC1)
                + ShlCode(Cell(c), 8 - n, SC2) +
                      [Move(Imm(0), dst), Lane(SC2, 1, dst, 0, 1, 1)] + [Bin(OR, Cell(dst), Cell(SC1), dst)],
                   dst, Shr(Val(s, src), n), {dst, SC1, SC2})
  {
    hide Run, Shr, LaneShr, ShlCode, Wrap, Pow2, OrW, Field, Low;
    var x, f, c := Val(s, src), Ferry(src, SC1, SC2), Ferried(src, SC1, SC2);
    FerryMeans(s, src, SC1, SC2);
    LaneShrMeans(Run(s, f), c, 1, SC1);
    ByteShr(x, 1);
    var y := Shr(x, 8);
    Then(s, f, c, x, {SC2}, LaneShr(c, 1, SC1), SC1, y, {SC1});
    var c2 := f + LaneShr(c, 1, SC1);
    var s2 := Run(s, c2);
    assert Get(s2, c) == x;
    ShlMeans(s2, Cell(SC1), 8 - n, SC1);
    Headroom(x, 8, 8 - n);
    var hi: Word := Wrap(Pow2(8 - n) * y);
    Then(s, c2, SC1, y, {SC1, SC2}, ShlCode(Cell(SC1), 8 - n, SC1), SC1, hi, {SC1});
    var c3 := c2 + ShlCode(Cell(SC1), 8 - n, SC1);
    SubByteTail(s, Run(s, c3), c3, c, x, n, hi, dst);
  }

  lemma SubByteTail(s: Cells, s3: Cells, c3: seq<Ins>, c: int, x: Word, n: int, hi: Word, dst: int)
    requires 1 <= n <= 7 && dst != ZERO && dst != SC1 && dst != SC2 && c != SC1
    requires CodeOk(c3) && s3 == Run(s, c3) && Same(s, s3, {SC1, SC2}) && Get(s3, c) == x && Get(s3, SC1) == hi
    requires hi == Pow2(8 - n) * Shr(x, 8)
    ensures Leaves(s, c3 + ShlCode(Cell(c), 8 - n, SC2) + [Move(Imm(0), dst), Lane(SC2, 1, dst, 0, 1, 1)] +
                      [Bin(OR, Cell(dst), Cell(SC1), dst)], dst, Shr(x, n), {dst, SC1, SC2})
  {
    hide Run, Shr, ShlCode, Wrap, Pow2, OrW, Field, Low, Or;
    var lo: Word := Wrap(Pow2(8 - n) * x);
    ShlMeans(s3, Cell(c), 8 - n, SC2);
    Then(s, c3, SC1, hi, {SC1, SC2}, ShlCode(Cell(c), 8 - n, SC2), SC2, lo, {SC2});
    var c4 := c3 + ShlCode(Cell(c), 8 - n, SC2);
    MiddleByte(x, n);
    var b: Word := Field(lo, 1, 1);
    LowByte(Run(s, c4), dst, x, b);
    Then(s, c4, SC2, lo, {SC1, SC2}, [Move(Imm(0), dst), Lane(SC2, 1, dst, 0, 1, 1)], dst, b, {dst});
    var c5 := c4 + [Move(Imm(0), dst), Lane(SC2, 1, dst, 0, 1, 1)];
    assert Get(Run(s, c5), SC1) == hi;
    MergeOr(Run(s, c5), dst, hi, b);
    Merged(x, n, b, hi);
    Then(s, c5, dst, b, {SC1, SC2, dst}, [Bin(OR, Cell(dst), Cell(SC1), dst)], dst, Shr(x, n), {dst});
  }

  lemma Merged(x: Word, n: nat, b: Word, hi: Word)
    requires 1 <= n <= 7 && b == Low(Shr(x, n), 8) && hi == Pow2(8 - n) * Shr(x, 8)
    ensures OrW(b, hi) == Shr(x, n)
  {
    ShrShr(x, n, 8 - n);
    OrOverlap(Shr(x, n), 8 - n, 8);
    hide Shr, Pow2, Low, Or;
  }

  /** A constant right shift is exact for every operand, whether or not it aliases its source. */
  lemma LaneShrConstMeans(s: Cells, src: Opd, n: int, dst: int)
    requires 1 <= n <= 31 && dst != ZERO && dst != SC1 && dst != SC2 && src != Cell(SC1) && src != Cell(SC2)
    ensures Leaves(s, LaneShrConst(src, n, dst), dst, Val(s, src) / Pow2(n), {dst, SC1, SC2})
  {
    hide Run, Shr, LaneShr, ShlCode, Pow2;
    LowShr(Val(s, src), n);
    var k, r := n / 8, n % 8;
    if r == 0 {
      WholeBytes(s, src, k, dst);
    } else if k > 0 {
      BytesAndBits(s, src, k, r, dst);
    } else {
      SubByte(s, src, n, dst);
    }
  }

  // ----- left shift -----

  function ShlConst(a: Opd, n: int, res: int): seq<Ins>
    requires 1 <= n <= 31
  {
    if n / 8 > 0 then Ferry(a, res, SC1) + LaneShl(Ferried(a, res, SC1), n / 8, res) + ShlCode(Cell(res), n % 8, res)
    else ShlCode(a, n, res)
  }

  /** A constant left shift is exact modulo 2^32, even in place. */
  lemma ShlConstMeans(s: Cells, a: Opd, n: int, res: int)
    requires 1 <= n <= 31 && res != ZERO && res != SC1 && a != Cell(SC1)
    ensures Leaves(s, ShlConst(a, n, res), res, Wrap(Pow2(n) * Val(s, a)), {res, SC1})
  {
    hide Run, Pow2, Wrap, ShlCode, LaneShl, ByteWeight;
    var k, x := n / 8, Val(s, a);
    if k > 0 {
      var f, c := Ferry(a, res, SC1), Ferried(a, res, SC1);
      FerryMeans(s, a, res, SC1);
      LaneShlMeans(Run(s, f), c, k, res);
      var y: Word := Wrap(x * ByteWeight(k));
      Then(s, f, c, x, {SC1}, LaneShl(c, k, res), res, y, {res});
      var c2 := f + LaneShl(c, k, res);
      ShlMeans(Run(s, c2), Cell(res), n % 8, res);
      ShlParts(x, k, n % 8);
      Then(s, c2, res, y, {SC1, res}, ShlCode(Cell(res), n % 8, res), res, Wrap(Pow2(n) * x), {res});
    } else {
      ShlMeans(s, a, n, res);
    }
  }

  lemma ShlParts(x: Word, k: int, r: nat)
    requires 1 <= k <= 3
    ensures Wrap(Pow2(r) * Wrap(x * ByteWeight(k))) == Wrap(Pow2(8 * k + r) * x)
  {
    hide Pow2, Wrap, ByteWeight;
    ByteWeightIs(k);
    Pow2Sum(8 * k, r);
    var p, q := Pow2(8 * k), Pow2(r);
    WrapMul(q, x * p);
    TimesAround(p, q, x);
  }

  lemma ByteWeightIs(k: int)
    requires 1 <= k <= 3
    ensures ByteWeight(k) == Pow2(8 * k)
  {
    assert Pow2(8) == 0x100;
    hide Pow2;
    Pow2Sum(8, 8);
    Pow2Sum(16, 8);
  }

  lemma TimesAround(p: int, q: int, x: int)
    ensures q * (x * p) == (p * q) * x
  {
  }
}
