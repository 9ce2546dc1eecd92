/** Multiplication, arithmetic shift and division by constants, at every width up to 32
    (host/dmacc/func.go). */
module DivConst {
  import opened Words
  import opened Bits
  import opened Asm
  import opened Shifts

  // ----- signed values of w-bit words -----

  function SignedAt(x: nat, w: nat): int
    requires 1 <= w <= 32
  {
    if x < Pow2(w - 1) then x else x - Pow2(w)
  }

  lemma SignedIs(x: Word)
    ensures SignedAt(x, 32) == Signed(x)
  {
    Pow2At32();
  }

  /** Division and remainder truncating toward zero. */
  function TruncDiv(a: int, b: int): int
    requires b != 0
  {
    if b < 0 then -TruncDivPos(a, -b) else TruncDivPos(a, b)
  }

  function TruncDivPos(a: int, b: int): int
    requires b > 0
  {
    if a >= 0 then a / b else -((-a) / b)
  }

  function TruncRem(a: int, b: int): int
    requires b != 0
  {
    a - b * TruncDiv(a, b)
  }

  /** Flipping the top bit of a number below 2^(k+1). */
  lemma {:induction false} XorTop(y: nat, k: nat)
    requires y < Pow2(k + 1)
    ensures Xor(y, Pow2(k)) == if y < Pow2(k) then y + Pow2(k) else y - Pow2(k)
    decreases k
  {
    if k == 0 {
      assert Pow2(1) == 2;
      assert y == 0 || y == 1;
      assert Xor(0, 1) == 1 && Xor(1, 1) == 0;
    } else {
      var p := Pow2(k - 1);
      XorTop(y / 2, k - 1);
      XorDouble(y, p);
    }
  }

  lemma XorDouble(y: nat, p: nat)
    requires p > 0
    ensures Xor(y, 2 * p) == 2 * Xor(y / 2, p) + y % 2
  {
    if y == 0 { XorNothing(p); XorNothing(2 * p); }
  }

  lemma {:induction false} XorNothing(p: nat)
    ensures Xor(0, p) == p
  {
    if p > 0 { XorNothing(p / 2); }
  }

  // ----- sign extension and masking -----

  function Sext(a: Opd, w: int, d: int): seq<Ins>
    requires 1 <= w <= 32
  {
    [Bin(XOR, a, Imm(Half(w)), d), Bin(SUB, Cell(d), Imm(Half(w)), d)]
  }

  function Half(w: int): (h: Word)
    requires 1 <= w <= 32
    ensures h == Pow2(w - 1)
  {
    Pow2At32(); if w < 32 then Pow2Less(w - 1, 31); Pow2(w - 1) else Pow2(31)
  }

  function MaskTo(c: int, w: int): seq<Ins>
    requires 1 <= w <= 32
  {
    if w < 32 then [Bin(ANDN, Cell(c), Imm(Above(w)), c)] else []
  }

  function Above(w: int): (m: Word)
    requires 0 <= w < 32
    ensures m == M32 - Pow2(w)
  {
    Pow2At32(); Pow2Less(w, 32); M32 - Pow2(w)
  }

  /** Sign extension gives the word of the signed value. */
  lemma SextMeans(s: Cells, a: Opd, w: int, d: int)
    requires 1 <= w <= 32 && d != ZERO && Val(s, a) < Pow2(w)
    ensures Leaves(s, Sext(a, w, d), d, Wrap(SignedAt(Val(s, a), w)), {d})
  {
    hide XorW, Pow2;
    var x, h := Val(s, a), Half(w);
    Run2(s, Bin(XOR, a, Imm(h), d), Bin(SUB, Cell(d), Imm(h), d));
    SextWord(x, w);
  }

  lemma SextWord(x: Word, w: int)
    requires 1 <= w <= 32 && x < Pow2(w)
    ensures Sub(XorW(x, Half(w)), Half(w)) == Wrap(SignedAt(x, w))
  {
    hide Pow2, XorW, Wrap, Sub;
    XorHalf(x, w);
    SubIsWrap(XorW(x, Half(w)), Half(w));
  }

  lemma XorHalf(x: Word, w: int)
    requires 1 <= w <= 32 && x < Pow2(w)
    ensures XorW(x, Half(w)) == (if x < Half(w) then x + Half(w) else x - Half(w)) && Pow2(w) == 2 * Half(w)
  {
    XorTop(x, w - 1);
  }

  lemma SubIsWrap(a: Word, b: Word)
    ensures Sub(a, b) == Wrap(a - b)
  {
  }

  lemma MaskMeans(s: Cells, c: int, w: int)
    requires 1 <= w <= 32 && c != ZERO
    ensures Leaves(s, MaskTo(c, w), c, Low(Get(s, c), w), {c})
  {
    hide AndNotW, Low, Pow2;
    var x := Get(s, c);
    Pow2At32();
    LowShr(x, w);
    if w < 32 {
      Run1(s, Bin(ANDN, Cell(c), Imm(Above(w)), c));
      AndNotWord(x, w);
    } else {
      WrapWord(x);
    }
  }

  lemma AndNotWord(x: Word, w: int)
    requires 0 <= w < 32
    ensures AndNotW(x, Above(w)) == Low(x, w)
  {
    Pow2At32();
    AndNotLow(x, w, 32);
  }

  // ----- multiplication -----

  /** The double-and-add chain for the remaining multiplier bits k; nothing is in res while first. */
  function MulBits(k: nat, first: bool, res: int): seq<Ins>
    decreases k
  {
    if k == 0 then []
    else
      (if k % 2 == 0 then [] else if first then [Move(Cell(SC0), res)] else [Bin(ADD, Cell(res), Cell(SC0), res)]) +
      (if k / 2 != 0 then [Bin(ADD, Cell(SC0), Cell(SC0), SC0)] else []) +
      MulBits(k / 2, first && k % 2 == 0, res)
  }

  function MulConst(src: Opd, k: Word, res: int): seq<Ins> {
    if k == 0 then [Move(Imm(0), res)]
    else if k == 1 then [Move(src, res)]
    else if k <= 64 then [Mulc(src, k, res)]
    else [Move(src, SC0)] + MulBits(k, true, res)
  }

  lemma MulBitsStep(k: nat, first: bool, res: int)
    requires k > 0
    ensures MulBits(k, first, res) ==
            (if k % 2 == 0 then [] else if first then [Move(Cell(SC0), res)]
                else [Bin(ADD, Cell(res), Cell(SC0), res)]) +
            (if k / 2 != 0 then [Bin(ADD, Cell(SC0), Cell(SC0), SC0)] else [])
                + MulBits(k / 2, first && k % 2 == 0, res)
  {
  }

  /** The emission loop walks the multiplier's bits upward. */
  method EmitMulBits(k: Word, res: int) returns (code: seq<Ins>)
    ensures code == MulBits(k, true, res)
  {
    hide MulBits;
    var bit, rest, first := 0, k as int, true;
    code := [];
    Pow2At32();
    while bit < 32 && rest != 0
      invariant 0 <= bit <= 32 && 0 <= rest < Pow2(32 - bit)
      invariant code + MulBits(rest, first, res) == MulBits(k, true, res)
      decreases 32 - bit
    {
      MulBitsStep(rest, first, res);
      if rest % 2 == 1 {
        code := code + if first then [Move(Cell(SC0), res)] else [Bin(ADD, Cell(res), Cell(SC0), res)];
      }
      if rest / 2 != 0 {
        code := code + [Bin(ADD, Cell(SC0), Cell(SC0), SC0)];
      }
      first := first && rest % 2 == 0;
      rest := rest / 2;
      bit := bit + 1;
    }
    NoMoreBits(first, res);
  }

  lemma NoMoreBits(first: bool, res: int)
    ensures MulBits(0, first, res) == []
  {
  }

  /** One bit of the chain. */
  lemma MulBitMeans(s: Cells, k: nat, first: bool, res: int)
    requires k > 0 && res != ZERO && res != SC0
    ensures var r, c := if first then 0 else Get(s, res), Get(s, SC0);
            var here := (if k % 2 == 0 then [] else if first then [Move(Cell(SC0), res)]
                else [Bin(ADD, Cell(res), Cell(SC0), res)]) +
                        (if k / 2 != 0 then [Bin(ADD, Cell(SC0), Cell(SC0), SC0)] else []);
            CodeOk(here) &&
            var t := Run(s, here);
            (!first || k % 2 == 1 ==> Get(t, res) == Wrap(r + k % 2 * c))
                && Get(t, SC0) == (if k / 2 != 0 then Wrap(2 * c) else c) &&
            Same(s, t, {res, SC0})
  {
    var r: int := if first then 0 else Get(s, res);
    var c: int := Get(s, SC0);
    var x := if k % 2 == 0 then [] else if first then [Move(Cell(SC0), res)] else [Bin(ADD, Cell(res), Cell(SC0), res)];
    var y := if k / 2 != 0 then [Bin(ADD, Cell(SC0), Cell(SC0), SC0)] else [];
    WrapWord(Get(s, SC0)); WrapWord(Get(s, res));
    if k % 2 == 1 { Run1(s, x[0]); }
    var s1 := Run(s, x);
    assert Get(s1, SC0) == c;
    if k / 2 != 0 { Run1(s1, y[0]); }
    RunSplit(s, x, y);
  }

  lemma {:induction false} MulBitsMean(s: Cells, k: nat, first: bool, res: int)
    requires (k > 0 || !first) && res != ZERO && res != SC0
    ensures Leaves(s, MulBits(k, first, res), res, Wrap((if first then 0 else Get(s, res)) + k * Get(s, SC0)),
              {res, SC0})
    decreases k
  {
    var r: int := if first then 0 else Get(s, res);
    var c: int := Get(s, SC0);
    if k == 0 {
      WrapWord(Get(s, res));
    } else {
      var here := (if k % 2 == 0 then [] else if first then [Move(Cell(SC0), res)]
          else [Bin(ADD, Cell(res), Cell(SC0), res)]) +
                  (if k / 2 != 0 then [Bin(ADD, Cell(SC0), Cell(SC0), SC0)] else []);
      var first' := first && k % 2 == 0;
      MulBitMeans(s, k, first, res);
      MulBitsStep(k, first, res);
      var t := Run(s, here);
      hide Run, MulBits, Wrap;
      MulBitsMean(t, k / 2, first', res);
      RunSplit(s, here, MulBits(k / 2, first', res));
      assert here + MulBits(k / 2, first', res) == MulBits(k, first, res);
      MulValue(k, first, r, c, if first' then 0 else Get(t, res), Get(t, SC0));
    }
  }

  /** The rest of the chain completes the product. */
  lemma MulValue(k: nat, first: bool, r: int, c: int, r': int, c': int)
    requires k > 0 && (first ==> r == 0)
    requires r' == (if first && k % 2 == 0 then 0 else Wrap(r + k % 2 * c))
    requires c' == if k / 2 != 0 then Wrap(2 * c) else c
    ensures Wrap(r' + k / 2 * c') == Wrap(r + k * c)
  {
    var h, b := k / 2, k % 2;
    hide Wrap;
    assert k * c == h * (2 * c) + b * c by { assert k == 2 * h + b; MulParts(h, b, c); }
    if h == 0 {
      assert 0 * c' == 0;
      WrapTwice(r + b * c);
    } else {
      WrapMulAdd(r', h, 2 * c);
      if !(first && b == 0) { WrapSum(r + b * c, h * (2 * c)); } else { assert b * c == 0; }
    }
  }

  lemma MulParts(h: int, b: int, c: int)
    ensures (2 * h + b) * c == h * (2 * c) + b * c
  {
  }

  lemma WrapTwice(x: int)
    ensures Wrap(Wrap(x)) == Wrap(x)
  {
  }

  lemma WrapMulAdd(r: int, h: int, c: int)
    ensures Wrap(r + h * Wrap(c)) == Wrap(r + h * c)
  {
    hide Wrap;
    WrapMul(h, c);
    WrapSum(r, h * Wrap(c)); WrapSum(r, h * c);
  }

  /** Multiplication by a constant is exact modulo 2^32 for every constant, even in place. */
  lemma MulConstMeans(s: Cells, src: Opd, k: Word, res: int)
    requires res != ZERO && res != SC0
    ensures Leaves(s, MulConst(src, k, res), res, Wrap(k * Val(s, src)), {res, SC0})
  {
    var x := Val(s, src);
    if k == 0 {
      Run1(s, Move(Imm(0), res));
    } else if k == 1 {
      Run1(s, Move(src, res));
      WrapWord(x);
    } else if k <= 64 {
      Run1(s, Mulc(src, k, res));
    } else {
      Run1(s, Move(src, SC0));
      var s1 := s[SC0 := x];
      hide Run, MulBits, Wrap;
      MulBitsMean(s1, k, true, res);
      assert Leaves(s, [Move(src, SC0)], SC0, x, {SC0});
      Then(s, [Move(src, SC0)], SC0, x, {SC0}, MulBits(k, true, res), res, Wrap(k * x), {res, SC0});
    }
  }

  // ----- arithmetic right shift -----

  /** Turns a logical shift by n into an arithmetic one: (y ^ s) - s with s = 2^(31-n). */
  function SignFold(res: int, n: int): seq<Ins>
    requires 1 <= n <= 31
  {
    [Bin(XOR, Cell(res), Imm(Half(32 - n)), res), Bin(ADD, Cell(res), Imm(Sub(0, Half(32 - n))), res)]
  }

  function AshrConst(a: Opd, n: int, res: int): seq<Ins>
    requires 1 <= n <= 31
  {
    LaneShrConst(a, n, res) + SignFold(res, n)
  }

  lemma SignFoldMeans(s: Cells, res: int, n: int, x: Word)
    requires 1 <= n <= 31 && res != ZERO && Get(s, res) == x / Pow2(n)
    ensures Leaves(s, SignFold(res, n), res, Wrap(Signed(x) / Pow2(n)), {res})
  {
    hide XorW, Pow2, Half, Wrap, Signed, Add, Sub;
    var y, h := Get(s, res), Half(32 - n);
    Run2(s, Bin(XOR, Cell(res), Imm(h), res), Bin(ADD, Cell(res), Imm(Sub(0, h)), res));
    FoldWord(x, n);
  }

  lemma FoldWord(x: Word, n: int)
    requires 1 <= n <= 31
    ensures 0 <= x / Pow2(n) < M32
    ensures Add(XorW(x / Pow2(n), Half(32 - n)), Sub(0, Half(32 - n))) == Wrap(Signed(x) / Pow2(n))
  {
    hide XorW, Pow2, Shr;
    var p, h := Pow2(n), Half(32 - n);
    ShrBound(x, n); LowShr(x, n);
    var y := x / p;
    XorHalf(y, 32 - n);
    Pow2Sum(n, 31 - n); Pow2At32();
    assert p * h == M31;
    SignedFloor(x, p, h);
    hide Half;
    FoldCases(y, h, XorW(y, h));
  }

  lemma FoldCases(y: Word, h: Word, z: Word)
    requires h > 0 && z == (if y < h then y + h else y - h) && y < 2 * h && h < M31
    ensures Add(z, Sub(0, h)) == Wrap(if y < h then y else y - 2 * h)
  {
  }

  /** The floor of a signed quotient, from the unsigned one. */
  lemma SignedFloor(x: Word, p: int, h: int)
    requires p > 0 && h > 0 && p * h == M31
    ensures Signed(x) / p == if x / p < h then x / p else x / p - 2 * h
  {
    var y, r := x / p, x % p;
    assert x == y * p + r;
    if y < h {
      MulAtMost(y, h - 1, p);
      assert (h - 1) * p == h * p - p;
    } else {
      MulAtMost(h, y, p);
      assert y * p >= h * p;
      assert (y - 2 * h) * p == y * p - 2 * (h * p);
      QuotientOf(x - M32, p, y - 2 * h, r);
    }
  }

  lemma MulAtMost(a: int, b: int, p: int)
    requires a <= b && p > 0
    ensures a * p <= b * p
  {
    assert b * p - a * p == (b - a) * p;
  }

  lemma AshrConstMeans(s: Cells, a: Opd, n: int, res: int)
    requires 1 <= n <= 31 && res != ZERO && res != SC1 && res != SC2 && a != Cell(SC1) && a != Cell(SC2)
    ensures Leaves(s, AshrConst(a, n, res), res, Wrap(Signed(Val(s, a)) / Pow2(n)), {res, SC1, SC2})
  {
    hide Run, Pow2, Wrap, Signed, LaneShrConst, SignFold;
    var x := Val(s, a);
    LaneShrConstMeans(s, a, n, res);
    ShiftWord(x, n);
    SignFoldMeans(Run(s, LaneShrConst(a, n, res)), res, n, x);
    Then(s, LaneShrConst(a, n, res), res, x / Pow2(n), {res, SC1, SC2}, SignFold(res, n), res,
        Wrap(Signed(x) / Pow2(n)), {res});
    assert {res, SC1, SC2} + {res} == {res, SC1, SC2};
  }

  lemma ShiftWord(x: Word, n: nat)
    ensures 0 <= x / Pow2(n) <= x
  {
    LowShr(x, n);
    hide Pow2;
  }

  // ----- division by a power of two -----

  /** res = 2^n - 1 for a negative x, else 0: the bias that turns flooring into truncation. */
  function SignBias(x: Opd, n: int, res: int): seq<Ins>
    requires 1 <= n <= 31
  {
    LaneShrConst(x, 31, res) +
    if n == 1 then []
    else [Bin(XOR, Cell(res), Imm(1), res), Bin(ADD, Cell(res), Imm(ONES), res)] + LaneShrConst(Cell(res), 32 - n, res)
  }

  function Bias(x: Word, n: nat): (b: Word)
    requires 1 <= n <= 31
  {
    Pow2At32(); if n < 31 then Pow2Less(n, 31); if Neg(x) then Pow2(n) - 1 else 0 else if Neg(x) then Pow2(n) - 1 else 0
  }

  lemma TopBit(x: Word)
    ensures x / Pow2(31) == if Neg(x) then 1 else 0
  {
    Pow2At32();
  }

  lemma SpreadSign(s: Cells, res: int, b: Word)
    requires res != ZERO && Get(s, res) == b && b <= 1
    ensures Leaves(s, [Bin(XOR, Cell(res), Imm(1), res), Bin(ADD, Cell(res), Imm(ONES), res)], res,
              if b == 1 then ONES else 0, {res})
  {
    hide XorW;
    Run2(s, Bin(XOR, Cell(res), Imm(1), res), Bin(ADD, Cell(res), Imm(ONES), res));
    FlipOne(b);
  }

  lemma FlipOne(b: Word)
    requires b <= 1
    ensures XorW(b, 1) == 1 - b
  {
    assert Xor(0, 1) == 1 && Xor(1, 1) == 0;
  }

  lemma OnesQuotient(p: int, q: int)
    requires p > 0 && q > 0 && p * q == M32
    ensures ONES / p == q - 1
  {
    assert (q - 1) * p == q * p - p;
    QuotientOf(ONES, p, q - 1, p - 1);
  }

  lemma CeilDiv(a: int, p: int)
    requires a < 0 && p > 0
    ensures (a + p - 1) / p == -((-a) / p)
  {
    var q, r := (-a) / p, (-a) % p;
    assert (-q) * p == -(q * p);
    QuotientOf(a + p - 1, p, -q, p - 1 - r);
  }

  lemma ModMinus(u: int, k: int, p: int)
    requires p > 0
    ensures (u - k * p) % p == u % p
  {
    assert (u / p - k) * p == u / p * p - k * p;
    QuotientOf(u - k * p, p, u / p - k, u % p);
  }

  lemma DivMod(a: int, p: int)
    requires p > 0
    ensures a == p * (a / p) + a % p
  {
  }

  lemma BiasedSigned(x: Word, b: Word)
    requires b < M31 && (b == 0 || Neg(x))
    ensures Signed(Add(x, b)) == Signed(x) + b
  {
  }

  lemma OnesDown(n: nat)
    requires 1 <= n <= 31
    ensures ONES / Pow2(32 - n) == Pow2(n) - 1
  {
    Pow2At32(); Pow2Sum(32 - n, n);
    OnesQuotient(Pow2(32 - n), Pow2(n));
  }

  lemma SignBiasMeans(s: Cells, x: Opd, n: int, res: int)
    requires 1 <= n <= 31 && res != ZERO && res != SC1 && res != SC2 && x != Cell(SC1) && x != Cell(SC2)
    ensures Leaves(s, SignBias(x, n, res), res, Bias(Val(s, x), n), {res, SC1, SC2})
  {
    hide Run, Pow2, LaneShrConst;
    var v, w := Val(s, x), {res, SC1, SC2};
    var b: Word := if Neg(v) then 1 else 0;
    LaneShrConstMeans(s, x, 31, res);
    TopBit(v);
    var c1 := LaneShrConst(x, 31, res);
    if n == 1 {
      assert Pow2(1) == 2 by { PowOne(); }
      assert c1 + [] == c1;
    } else {
      var c2 := [Bin(XOR, Cell(res), Imm(1), res), Bin(ADD, Cell(res), Imm(ONES), res)];
      SpreadSign(Run(s, c1), res, b);
      var o: Word := if b == 1 then ONES else 0;
      Then(s, c1, res, b, w, c2, res, o, {res});
      LaneShrConstMeans(Run(s, c1 + c2), Cell(res), 32 - n, res);
      OnesDown(n);
      ZeroDown(32 - n);
      Then(s, c1 + c2, res, o, w + {res}, LaneShrConst(Cell(res), 32 - n, res), res, Bias(v, n), w);
      assert c1 + c2 + LaneShrConst(Cell(res), 32 - n, res) == SignBias(x, n, res);
      assert w + {res} + w == w;
    }
  }

  lemma PowOne()
    ensures Pow2(1) == 2
  {
  }

  lemma ZeroDown(n: nat)
    ensures 0 / Pow2(n) == 0
  {
  }

  lemma BiasIs(x: Word, n: nat)
    requires 1 <= n <= 31
    ensures Bias(x, n) == (if Signed(x) < 0 then Pow2(n) - 1 else 0) && Bias(x, n) < M31 && (Neg(x) <==> Signed(x) < 0)
  {
    Pow2At32();
    if n < 31 { Pow2Less(n, 31); }
    hide Pow2;
  }

  lemma BiasedQuotient(a: int, p: int, b: int)
    requires p > 0 && b == if a < 0 then p - 1 else 0
    ensures (a + b) / p == TruncDivPos(a, p)
  {
    if a < 0 { CeilDiv(a, p); }
  }

  /** Adding the bias stays in range and turns the floor into truncation. */
  lemma Biased(x: Word, n: nat)
    requires 1 <= n <= 31
    ensures Signed(Add(x, Bias(x, n))) == Signed(x) + Bias(x, n)
    ensures (Signed(x) + Bias(x, n)) / Pow2(n) == TruncDivPos(Signed(x), Pow2(n))
  {
    hide Pow2, Signed, Add, TruncDivPos, Bias;
    BiasIs(x, n);
    BiasedSigned(x, Bias(x, n));
    BiasedQuotient(Signed(x), Pow2(n), Bias(x, n));
  }

  function SdivCode(a: Opd, n: int, neg: bool, res: int): seq<Ins>
    requires 1 <= n <= 31
  {
    SignBias(a, n, res) + [Bin(ADD, a, Cell(res), res)] + AshrConst(Cell(res), n, res) +
    if neg then [Bin(SUB, Cell(ZERO), Cell(res), res)] else []
  }

  function SremCode(a: Opd, n: int, res: int): seq<Ins>
    requires 1 <= n <= 31
  {
    SignBias(a, n, res) + [Bin(ADD, a, Cell(res), SC1)] + [Bin(ANDN, Cell(SC1), Imm(Above(n)), SC1)]
        + [Bin(SUB, Cell(SC1), Cell(res), res)]
  }

  lemma BinMeans(s: Cells, op: Op, a: Opd, b: Opd, d: int)
    requires d != ZERO
    ensures Leaves(s, [Bin(op, a, b, d)], d, Apply(op, Val(s, a), Val(s, b)), {d})
  {
    hide Apply;
    Run1(s, Bin(op, a, b, d));
  }

  /** A signed quotient by +-2^n truncates toward zero for every dividend, INT_MIN included. */
  lemma SdivMeans(s: Cells, a: Opd, n: int, neg: bool, res: int)
    requires 1 <= n <= 31 && res != ZERO && res != SC1 && res != SC2 && a != Cell(SC1) && a != Cell(SC2)
    requires a != Cell(res)
    ensures Leaves(s, SdivCode(a, n, neg, res), res,
                   Wrap(TruncDiv(Signed(Val(s, a)), if neg then -Pow2(n) else Pow2(n))), {res, SC1, SC2})
  {
    hide Run, Pow2, SignBias, AshrConst, Add, Signed, Wrap, Bias, TruncDivPos;
    var x, w := Val(s, a), {res, SC1, SC2};
    var b := Bias(x, n);
    var c1 := SignBias(a, n, res);
    SignBiasMeans(s, a, n, res);
    assert Val(Run(s, c1), a) == x;
    BinMeans(Run(s, c1), ADD, a, Cell(res), res);
    var u := Add(x, b);
    Then(s, c1, res, b, w, [Bin(ADD, a, Cell(res), res)], res, u, {res});
    var c2 := c1 + [Bin(ADD, a, Cell(res), res)];
    AshrConstMeans(Run(s, c2), Cell(res), n, res);
    Biased(x, n);
    var q := TruncDivPos(Signed(x), Pow2(n));
    var v: Word := Wrap(q);
    Then(s, c2, res, u, w + {res}, AshrConst(Cell(res), n, res), res, v, w);
    var c3 := c2 + AshrConst(Cell(res), n, res);
    assert w + {res} + w == w;
    if neg {
      BinMeans(Run(s, c3), SUB, Cell(ZERO), Cell(res), res);
      NegWrap(q);
      Then(s, c3, res, v, w, [Bin(SUB, Cell(ZERO), Cell(res), res)], res, Sub(0, v), {res});
      assert w + {res} == w;
    } else {
      assert c3 + [] == c3;
    }
  }

  lemma NegWrap(q: int)
    ensures Sub(0, Wrap(q)) == Wrap(-q)
  {
    SubIsWrap(0, Wrap(q));
    WrapMul(-1, q);
  }

  /** The remainder takes the dividend's sign whatever the divisor's. */
  lemma SremMeans(s: Cells, a: Opd, n: int, neg: bool, res: int)
    requires 1 <= n <= 31 && res != ZERO && res != SC1 && res != SC2 && a != Cell(SC1) && a != Cell(SC2)
    requires a != Cell(res)
    ensures Leaves(s, SremCode(a, n, res), res,
                   Wrap(TruncRem(Signed(Val(s, a)), if neg then -Pow2(n) else Pow2(n))), {res, SC1, SC2})
  {
    hide Run, Pow2, SignBias, Add, Signed, Wrap, Bias, TruncRem, AndNotW, Low, Above;
    var x, w := Val(s, a), {res, SC1, SC2};
    var b := Bias(x, n);
    var c1 := SignBias(a, n, res);
    SignBiasMeans(s, a, n, res);
    BinMeans(Run(s, c1), ADD, a, Cell(res), SC1);
    var u := Add(x, b);
    Then(s, c1, res, b, w, [Bin(ADD, a, Cell(res), SC1)], SC1, u, {SC1});
    var c2 := c1 + [Bin(ADD, a, Cell(res), SC1)];
    BinMeans(Run(s, c2), ANDN, Cell(SC1), Imm(Above(n)), SC1);
    AndNotWord(u, n);
    Then(s, c2, SC1, u, w + {SC1}, [Bin(ANDN, Cell(SC1), Imm(Above(n)), SC1)], SC1, Low(u, n), {SC1});
    var c3 := c2 + [Bin(ANDN, Cell(SC1), Imm(Above(n)), SC1)];
    assert Get(Run(s, c3), res) == b;
    BinMeans(Run(s, c3), SUB, Cell(SC1), Cell(res), res);
    Then(s, c3, SC1, Low(u, n), w + {SC1} + {SC1}, [Bin(SUB, Cell(SC1), Cell(res), res)], res, Sub(Low(u, n), b),
        {res});
    assert w + {SC1} + {SC1} + {res} == w;
    RemBiased(x, n, neg);
  }

  lemma RemBiased(x: Word, n: nat, neg: bool)
    requires 1 <= n <= 31
    ensures Sub(Low(Add(x, Bias(x, n)), n), Bias(x, n)) == Wrap(TruncRem(Signed(x), if neg then -Pow2(n) else Pow2(n)))
  {
    hide Low, Bias, TruncDivPos, Pow2, Signed, Wrap, Add, TruncRem, Sub;
    var p, a, b := Pow2(n), Signed(x), Bias(x, n);
    var u := Add(x, b);
    Biased(x, n);
    SubIsWrap(Low(u, n), b);
    LowShr(u, n);
    SignedMod(u, n);
    DivMod(a + b, p);
    RemSign(a, p, TruncDivPos(a, p));
  }

  lemma RemSign(a: int, p: int, q: int)
    requires p > 0 && q == TruncDivPos(a, p)
    ensures TruncRem(a, p) == a - p * q && TruncRem(a, -p) == a - p * q
  {
    assert (-p) * (-q) == p * q;
  }

  /** A signed value and its word agree modulo 2^n. */
  lemma SignedMod(u: Word, n: nat)
    requires n <= 31
    ensures Signed(u) % Pow2(n) == u % Pow2(n)
  {
    Pow2At32(); Pow2Sum(n, 32 - n);
    hide Pow2;
    SignedModulo(u, Pow2(32 - n), Pow2(n));
  }

  lemma SignedModulo(u: Word, k: int, p: int)
    requires p > 0 && p * k == M32
    ensures Signed(u) % p == u % p
  {
    ModMinus(u, k, p);
    assert k * p == M32;
  }

  // ----- the whole lowering -----

  datatype DivOp = Udiv | Urem | Sdiv | Srem {
    predicate Signed() { Sdiv? || Srem? }
    predicate Rem() { Urem? || Srem? }
  }

  /** The divisor at the operation's own width and signedness. */
  function Divisor(op: DivOp, w: int, k: Word): int
    requires 1 <= w <= 32
  {
    if op.Signed() then SignedAt(Low(k, w), w) else Low(k, w)
  }

  /** The code for a divisor of magnitude 2^n. */
  function DivPow2(op: DivOp, w: int, n: int, neg: bool, a: Opd, res: int): seq<Ins>
    requires 1 <= w <= 32 && 0 <= n <= 31
  {
    if n == 0 then
      if op.Rem() then [Move(Imm(0), res)]
      else if !neg then [Move(a, res)]
      else [Bin(SUB, Cell(ZERO), a, res)] + MaskTo(res, w)
    else if op == Urem then [Bin(ANDN, a, Imm(Above(n)), res)]
    else if op == Udiv then LaneShrConst(a, n, res)
    else
      var v := if w < 32 then Cell(SC0) else a;
      (if w < 32 then Sext(a, w, SC0) else []) + (if op == Sdiv then SdivCode(v, n, neg, res) else SremCode(v, n, res))
          + MaskTo(res, w)
  }

  /** What the operation must leave: the C quotient or remainder, in w bits. */
  function Expected(op: DivOp, w: int, x: nat, d: int): int
    requires 1 <= w <= 32 && d != 0
  {
    match op
    case Udiv => x / d
    case Urem => x % d
    case Sdiv => TruncDiv(SignedAt(x, w), d) % Pow2(w)
    case Srem => TruncRem(SignedAt(x, w), d) % Pow2(w)
  }

  lemma LowOfWrap(v: int, w: int)
    requires 1 <= w <= 32
    ensures Low(Wrap(v), w) == v % Pow2(w)
  {
    LowShr(Wrap(v), w);
    Pow2At32(); Pow2Sum(w, 32 - w);
    hide Pow2, Low, Shr;
    WrapModulo(v, Pow2(32 - w), Pow2(w));
  }

  lemma WrapModulo(v: int, k: int, p: int)
    requires p > 0 && p * k == M32
    ensures Wrap(v) % p == v % p
  {
    var q := v / M32;
    assert v == q * M32 + Wrap(v);
    assert (q * k) * p == q * M32;
    ModMinus(v, q * k, p);
  }

  lemma SmallSigned(v: int)
    requires -M31 <= v < M31
    ensures Signed(Wrap(v)) == v
  {
  }

  /** Sign extension to the full word keeps the signed value. */
  lemma SextSigned(x: nat, w: int)
    requires 1 <= w <= 32 && x < Pow2(w)
    ensures Signed(Wrap(SignedAt(x, w))) == SignedAt(x, w)
  {
    Pow2At32();
    assert Pow2(w) == 2 * Pow2(w - 1);
    if w < 32 { Pow2Less(w - 1, 31); }
    hide Pow2;
    SmallSigned(SignedAt(x, w));
  }

  lemma SignedTail(s: Cells, op: DivOp, w: int, n: int, neg: bool, v: Opd, y: Word, res: int)
    requires 1 <= w <= 32 && 1 <= n <= 31 && (op == Sdiv || op == Srem) && res != ZERO && res != SC1 && res != SC2
    requires v != Cell(SC1) && v != Cell(SC2) && v != Cell(res) && Val(s, v) == y
    ensures var d := if neg then -Pow2(n) else Pow2(n);
            var r := if op == Sdiv then TruncDiv(Signed(y), d) else TruncRem(Signed(y), d);
            0 <= r % Pow2(w) < M32 &&
            Leaves(s, (if op == Sdiv then SdivCode(v, n, neg, res) else SremCode(v, n, res)) + MaskTo(res, w), res,
                r % Pow2(w), {res, SC1, SC2})
  {
    hide Run, Pow2, SdivCode, SremCode, MaskTo, Wrap, Signed, TruncDiv, TruncRem, Low;
    var d := if neg then -Pow2(n) else Pow2(n);
    var r := if op == Sdiv then TruncDiv(Signed(y), d) else TruncRem(Signed(y), d);
    var c := if op == Sdiv then SdivCode(v, n, neg, res) else SremCode(v, n, res);
    if op == Sdiv { SdivMeans(s, v, n, neg, res); } else { SremMeans(s, v, n, neg, res); }
    var u: Word := Wrap(r);
    assert Leaves(s, c, res, u, {res, SC1, SC2});
    MaskMeans(Run(s, c), res, w);
    LowOfWrap(r, w);
    Then(s, c, res, u, {res, SC1, SC2}, MaskTo(res, w), res, Low(u, w), {res});
    assert {res, SC1, SC2} + {res} == {res, SC1, SC2};
  }

  lemma ByOne(s: Cells, op: DivOp, w: int, neg: bool, a: Opd, res: int)
    requires 1 <= w <= 32 && res != ZERO && res != SC0 && res != SC1 && res != SC2 && a != Cell(res)
    requires Val(s, a) < Pow2(w)
    requires neg ==> op.Signed()
    ensures var e := Expected(op, w, Val(s, a), if neg then -1 else 1);
            0 <= e < M32 && Leaves(s, DivPow2(op, w, 0, neg, a, res), res, e, {res})
  {
    hide Run, Pow2, MaskTo, Low, Wrap, SignedAt;
    var x: int := Val(s, a);
    SignedModAt(x, w);
    if op.Rem() {
      Moves(s, Imm(0), res);
      OneRem(SignedAt(x, w));
    } else if !neg {
      Moves(s, a, res);
      Within(x, Pow2(w));
      OneDiv(x, SignedAt(x, w));
    } else {
      BinMeans(s, SUB, Cell(ZERO), a, res);
      SubIsWrap(0, x);
      var u: Word := Wrap(-x);
      MaskMeans(Run(s, [Bin(SUB, Cell(ZERO), a, res)]), res, w);
      LowOfWrap(-x, w);
      OneDiv(x, SignedAt(x, w));
      Then(s, [Bin(SUB, Cell(ZERO), a, res)], res, u, {res}, MaskTo(res, w), res, Low(u, w), {res});
    }
  }

  lemma Moves(s: Cells, a: Opd, d: int)
    requires d != ZERO
    ensures Leaves(s, [Move(a, d)], d, Val(s, a), {d})
  {
    Run1(s, Move(a, d));
  }

  lemma OneDiv(x: nat, a: int)
    ensures x / 1 == x && x % 1 == 0 && TruncDiv(a, 1) == a && TruncDiv(a, -1) == -a
  {
  }

  lemma Within(x: int, p: int)
    requires 0 <= x < p
    ensures x % p == x
  {
  }

  lemma OneRem(a: int)
    ensures TruncRem(a, 1) == 0 && TruncRem(a, -1) == 0
  {
  }

  /** A signed value and its w-bit word agree modulo 2^w, and so do their negations. */
  lemma SignedModAt(x: nat, w: int)
    requires 1 <= w <= 32 && x < Pow2(w)
    ensures SignedAt(x, w) % Pow2(w) == x % Pow2(w) && (-SignedAt(x, w)) % Pow2(w) == (0 - x) % Pow2(w)
    ensures 0 % Pow2(w) == 0
  {
    hide Pow2;
    ModMinus(x, 1, Pow2(w)); ModMinus(0 - x, -1, Pow2(w));
  }

  /** Division and remainder by a constant of magnitude 2^n, at every width and sign: exactly C's
      unsigned operations, and C's truncation toward zero for the signed ones. */
  lemma DivPow2Means(s: Cells, op: DivOp, w: int, k: Word, n: int, a: Opd, res: int)
    requires 1 <= w <= 32 && 0 <= n <= 31 && Val(s, a) < Pow2(w)
    requires var d := Divisor(op, w, k); d == Pow2(n) || (op.Signed() && d == -Pow2(n))
    requires res != ZERO && res != SC0 && res != SC1 && res != SC2 && a != Cell(SC0) && a != Cell(SC1) && a != Cell(SC2)
    requires a != Cell(res)
    ensures var d := Divisor(op, w, k);
            var e := Expected(op, w, Val(s, a), d);
            0 <= e < M32 && Leaves(s, DivPow2(op, w, n, d < 0, a, res), res, e, {res, SC0, SC1, SC2})
  {
    var d, x := Divisor(op, w, k), Val(s, a);
    hide Run, Pow2, Low, SignedAt, LaneShrConst, SdivCode, SremCode, MaskTo, Sext, Above, AndNotW;
    if n == 0 {
      assert Pow2(0) == 1 by { PowZero(); }
      ByOne(s, op, w, d < 0, a, res);
    } else if op == Urem {
      BinMeans(s, ANDN, a, Imm(Above(n)), res);
      AndNotWord(x, n); LowShr(x, n);
    } else if op == Udiv {
      LaneShrConstMeans(s, a, n, res);
      ShiftWord(x, n);
    } else {
      SignedWhole(s, op, w, n, d < 0, a, res);
    }
  }

  lemma PowZero()
    ensures Pow2(0) == 1
  {
  }

  lemma SignedWhole(s: Cells, op: DivOp, w: int, n: int, neg: bool, a: Opd, res: int)
    requires 1 <= w <= 32 && 1 <= n <= 31 && Val(s, a) < Pow2(w) && (op == Sdiv || op == Srem)
    requires res != ZERO && res != SC0 && res != SC1 && res != SC2 && a != Cell(SC0) && a != Cell(SC1) && a != Cell(SC2)
    requires a != Cell(res)
    ensures var e := Expected(op, w, Val(s, a), if neg then -Pow2(n) else Pow2(n));
            0 <= e < M32 && Leaves(s, DivPow2(op, w, n, neg, a, res), res, e, {res, SC0, SC1, SC2})
  {
    hide Run, Pow2, Wrap, Signed, SignedAt, TruncDiv, TruncRem, SdivCode, SremCode, MaskTo, Sext;
    var x := Val(s, a);
    SextSigned(x, w);
    if w < 32 {
      SextMeans(s, a, w, SC0);
      var y: Word := Wrap(SignedAt(x, w));
      SignedTail(Run(s, Sext(a, w, SC0)), op, w, n, neg, Cell(SC0), y, res);
      var tail := (if op == Sdiv then SdivCode(Cell(SC0), n, neg, res) else SremCode(Cell(SC0), n, res))
          + MaskTo(res, w);
      Then(s, Sext(a, w, SC0), SC0, y, {SC0}, tail, res, Expected(op, w, x, if neg then -Pow2(n) else Pow2(n)),
          {res, SC1, SC2});
      assert {SC0} + {res, SC1, SC2} == {res, SC0, SC1, SC2};
      assert Sext(a, w, SC0) + tail == DivPow2(op, w, n, neg, a, res);
    } else {
      SignedIs(x);
      SignedTail(s, op, w, n, neg, a, x, res);
      assert [] + (if op == Sdiv then SdivCode(a, n, neg, res) else SremCode(a, n, res))
          == (if op == Sdiv then SdivCode(a, n, neg, res) else SremCode(a, n, res));
    }
  }
}
