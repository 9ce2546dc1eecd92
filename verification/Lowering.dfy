/** Whole instructions with a constant operand (host/dmacc/func.go): shifts, multiplies and divides
    of every width, in the words the allocation gives their operands. */
module Lowering {
  import opened Words
  import opened Bits
  import opened Asm
  import opened Shifts
  import opened DivConst
  import Runtime
  import Cfg
  import Slots
  import Copies

  /** A cell the lowering uses for nothing of its own. */
  predicate Plain(c: int) {
    c != ZERO && c != SC0 && c != SC1 && c != SC2
  }

  predicate PlainOpd(a: Opd) {
    a.Cell? ==> a.c != SC0 && a.c != SC1 && a.c != SC2
  }

  /** Code whose result is a word of at most w bits, then cut to w bits. */
  lemma {:induction false} Masked(s: Cells, code: seq<Ins>, res: int, v: int, w: int, cs: set<int>)
    requires 1 <= w <= 32 && res != ZERO && res in cs && Leaves(s, code, res, Wrap(v), cs)
    ensures 0 <= v % Pow2(w) < M32 && Leaves(s, code + MaskTo(res, w), res, v % Pow2(w), cs)
  {
    hide Run, Pow2, Low, Wrap, MaskTo;
    var u: Word := Wrap(v);
    MaskMeans(Run(s, code), res, w);
    LowOfWrap(v, w);
    Then(s, code, res, u, cs, MaskTo(res, w), res, Low(u, w), {res});
    assert cs + {res} == cs;
  }

  // ----- left shift and multiply -----

  /** A shift by zero forwards its operand. */
  function ShlIns(a: Opd, k: Word, w: int, res: int): seq<Ins>
    requires 1 <= w <= 32
  {
    if k % 32 == 0 then [Move(a, res)] else ShlConst(a, k % 32, res) + MaskTo(res, w)
  }

  /** A left shift by a constant, exact modulo 2^w, also in place. */
  lemma {:induction false} ShlExact(s: Cells, a: Opd, k: Word, w: int, res: int)
    requires 1 <= w <= 32 && Plain(res) && PlainOpd(a) && Val(s, a) < Pow2(w)
    ensures var v := Pow2(k % 32) * Val(s, a) % Pow2(w);
            0 <= v < M32 && Leaves(s, ShlIns(a, k, w, res), res, v, {res, SC1})
  {
    hide Run, Pow2, Wrap, ShlConst, MaskTo;
    var x: int := Val(s, a);
    if k % 32 == 0 {
      PowZero();
      Moves(s, a, res);
      Within(x, Pow2(w));
    } else {
      ShlConstMeans(s, a, k % 32, res);
      Masked(s, ShlConst(a, k % 32, res), res, Pow2(k % 32) * x, w, {res, SC1});
    }
  }

  function MulIns(a: Opd, k: Word, w: int, res: int): seq<Ins>
    requires 1 <= w <= 32
  {
    MulConst(a, k, res) + MaskTo(res, w)
  }

  /** A product with a constant, exact modulo 2^w. */
  lemma {:induction false} MulExact(s: Cells, a: Opd, k: Word, w: int, res: int)
    requires 1 <= w <= 32 && Plain(res)
    ensures var v := k * Val(s, a) % Pow2(w);
            0 <= v < M32 && Leaves(s, MulIns(a, k, w, res), res, v, {res, SC0})
  {
    hide Run, Pow2, Wrap, MulConst, MaskTo;
    MulConstMeans(s, a, k, res);
    Masked(s, MulConst(a, k, res), res, k * Val(s, a), w, {res, SC0});
  }

  // ----- right shift -----

  /** A narrow signed operand is sign-extended to the whole word first. */
  function ShrIns(signed: bool, a: Opd, k: Word, w: int, res: int): seq<Ins>
    requires 1 <= w <= 32
  {
    var n := k % 32;
    if n == 0 then [Move(a, res)]
    else if !signed then LaneShrConst(a, n, res) + MaskTo(res, w)
    else if w < 32 then Sext(a, w, SC0) + AshrConst(Cell(SC0), n, res) + MaskTo(res, w)
    else AshrConst(a, n, res) + MaskTo(res, w)
  }

  /** A right shift by a constant: the unsigned quotient, or the floor of the signed one in w bits. */
  function Shifted(signed: bool, x: nat, n: nat, w: int): int
    requires 1 <= w <= 32
  {
    if signed then SignedAt(x, w) / Pow2(n) % Pow2(w) else x / Pow2(n)
  }

  lemma {:induction false} ShrExact(s: Cells, signed: bool, a: Opd, k: Word, w: int, res: int)
    requires 1 <= w <= 32 && Plain(res) && PlainOpd(a) && Val(s, a) < Pow2(w)
    ensures var v := Shifted(signed, Val(s, a), k % 32, w);
            0 <= v < M32 && Leaves(s, ShrIns(signed, a, k, w, res), res, v, {res, SC0, SC1, SC2})
  {
    hide Run, Pow2, Wrap, LaneShrConst, AshrConst, MaskTo, SignedAt, Sext, Leaves;
    var n := k % 32;
    if n == 0 {
      ShrNone(s, signed, a, k, w, res);
    } else if signed {
      AshrExact(s, a, n, w, res);
    } else {
      LshrExact(s, a, n, w, res);
    }
  }

  lemma {:induction false} ShrNone(s: Cells, signed: bool, a: Opd, k: Word, w: int, res: int)
    requires 1 <= w <= 32 && Plain(res) && Val(s, a) < Pow2(w) && k % 32 == 0
    ensures var v := Shifted(signed, Val(s, a), 0, w);
            0 <= v < M32 && Leaves(s, ShrIns(signed, a, k, w, res), res, v, {res, SC0, SC1, SC2})
  {
    hide Run, Pow2, Wrap, LaneShrConst, AshrConst, MaskTo, SignedAt, Sext;
    var x: int := Val(s, a);
    PowZero();
    Moves(s, a, res);
    Within(x, Pow2(w));
    SignedModAt(x, w);
    WholeDiv(x);
    WholeDiv(SignedAt(x, w));
  }

  lemma {:induction false} LshrExact(s: Cells, a: Opd, n: int, w: int, res: int)
    requires 1 <= n <= 31 && 1 <= w <= 32 && Plain(res) && PlainOpd(a) && Val(s, a) < Pow2(w)
    ensures var v := Val(s, a) / Pow2(n);
            0 <= v < M32 && Leaves(s, ShrIns(false, a, n, w, res), res, v, {res, SC0, SC1, SC2})
  {
    hide Run, Pow2, Wrap, LaneShrConst, MaskTo;
    var x: int := Val(s, a);
    LaneShrConstMeans(s, a, n, res);
    ShiftWord(x, n);
    WrapWord(x / Pow2(n));
    Masked(s, LaneShrConst(a, n, res), res, x / Pow2(n), w, {res, SC1, SC2});
    Within(x / Pow2(n), Pow2(w));
  }

  lemma WholeDiv(x: int)
    ensures x / 1 == x
  {
  }

  lemma {:induction false} AshrExact(s: Cells, a: Opd, n: int, w: int, res: int)
    requires 1 <= n <= 31 && 1 <= w <= 32 && Plain(res) && PlainOpd(a) && Val(s, a) < Pow2(w)
    ensures var v := SignedAt(Val(s, a), w) / Pow2(n) % Pow2(w);
            0 <= v < M32 && Leaves(s, ShrIns(true, a, n, w, res), res, v, {res, SC0, SC1, SC2})
  {
    hide Run, Pow2, Wrap, LaneShrConst, AshrConst, MaskTo, SignedAt, Sext, Signed;
    var x := Val(s, a);
    SextSigned(x, w);
    if w < 32 {
      SextMeans(s, a, w, SC0);
      var y: Word := Wrap(SignedAt(x, w));
      var s1 := Run(s, Sext(a, w, SC0));
      AshrConstMeans(s1, Cell(SC0), n, res);
      Then(s, Sext(a, w, SC0), SC0, y, {SC0}, AshrConst(Cell(SC0), n, res), res, Wrap(Signed(y) / Pow2(n)),
          {res, SC1, SC2});
      assert {SC0} + {res, SC1, SC2} == {res, SC0, SC1, SC2};
      Masked(s, Sext(a, w, SC0) + AshrConst(Cell(SC0), n, res), res, SignedAt(x, w) / Pow2(n), w, {res, SC0, SC1, SC2});
    } else {
      SignedIs(x);
      AshrConstMeans(s, a, n, res);
      Masked(s, AshrConst(a, n, res), res, Signed(x) / Pow2(n), w, {res, SC1, SC2});
    }
  }

  // ----- division -----

  function Trailing(m: nat): nat
    requires m > 0
  {
    if m % 2 == 1 then 0 else 1 + Trailing(m / 2)
  }

  /** m & (m - 1) tells powers of two. */
  lemma {:induction false} PowerTest(m: nat)
    requires m > 0
    ensures And(m, m - 1) == 0 <==> m == Pow2(Trailing(m))
  {
    if m % 2 == 1 {
      assert (m - 1) / 2 == m / 2;
      AndSelf(m / 2);
    } else {
      assert (m - 1) / 2 == m / 2 - 1;
      PowerTest(m / 2);
    }
  }

  lemma {:induction false} AndSelf(m: nat)
    ensures And(m, m) == m
  {
    if m > 0 { AndSelf(m / 2); }
  }

  lemma {:induction false} SmallPower(n: nat)
    requires Pow2(n) <= M31
    ensures n <= 31
  {
    Pow2At32();
    if n > 31 { Pow2Less(31, n); }
  }

  lemma {:induction false} DivisorBound(op: DivOp, w: int, k: Word)
    requires 1 <= w <= 32
    ensures var d := Divisor(op, w, k); -M31 <= d < M32 && (op.Signed() ==> d < M31) && (!op.Signed() ==> d >= 0)
  {
    LowShr(k, w);
    assert Pow2(w) == 2 * Pow2(w - 1);
    Pow2At32();
    if w < 32 { Pow2Less(w - 1, 31); }
    hide Pow2, Low;
  }

  function Magnitude(d: int): nat {
    if d < 0 then -d else d
  }

  /** The divisors lowered without the general routine. */
  predicate Quick(op: DivOp, d: int) {
    d != 0 && (Magnitude(d) == Pow2(Trailing(Magnitude(d))) || (!op.Signed() && (d == 10 || d == 100)))
  }

  function Tens(i: nat): nat {
    if i == 0 then 1 else if i == 1 then 10 else 100
  }

  lemma TenStep(x: nat, i: nat)
    requires i < 2
    ensures x / Tens(i) / 10 == x / Tens(i + 1)
  {
    if i == 1 { QuotientOf(x, 100, x / 10 / 10, x - x / 10 / 10 * 100); }
  }

  /** The remainder rebuilt from the quotient. */
  lemma {:induction false} Rebuilt(s: Cells, a: Opd, q: Word, res: int)
    requires Plain(res) && PlainOpd(a) && a != Cell(res) && q == Val(s, a) / 100
    ensures var c := MulConst(Cell(res), 100, res);
            && CodeOk(c) && CodeOk([Bin(SUB, a, Cell(res), res)])
            && var t := Run(Run(s[res := q], c), [Bin(SUB, a, Cell(res), res)]);
               Get(t, res) == Val(s, a) % 100 && Same(s, t, {res, SC0})
  {
    var x, s1, c := Val(s, a), s[res := q], MulConst(Cell(res), 100, res);
    assert Get(s1, res) == q && Val(s1, a) == x && Same(s, s1, {res});
    hide Run, MulConst;
    MulConstMeans(s1, Cell(res), 100, res);
    WrapWord(100 * q);
    BinMeans(Run(s1, c), SUB, a, Cell(res), res);
    assert Val(Run(s1, c), a) == x;
  }

  /** Divides by a constant: powers of two in line, 10 and 100 by one runtime call for each digit,
      with the remainder of the longer chain rebuilt; other divisors are left to the runtime. The
      runtime's registers are no value words. */
  method DivIns(rt: Runtime.Rt, s: Cells, op: DivOp, w: int, k: Word, a: Opd, res: int) returns (taken: bool, t: Cells)
    requires 1 <= w <= 32 && Plain(res) && PlainOpd(a) && a != Cell(res) && Val(s, a) < Pow2(w)
    modifies rt
    ensures taken <==> Quick(op, Divisor(op, w, k))
    ensures taken ==> var e := Expected(op, w, Val(s, a), Divisor(op, w, k));
                      0 <= e < M32 && Get(t, res) == e && Same(s, t, {res, SC0, SC1, SC2})
  {
    hide Run, DivPow2, MulConst, Pow2, Divisor, Low, And;
    DivisorBound(op, w, k);
    var d := Divisor(op, w, k);
    var mag := Magnitude(d);
    if mag == 0 { return false, s; }
    PowerTest(mag);
    if And(mag, mag - 1) == 0 {
      var n := Trailing(mag);
      assert mag <= M31 by { PowerBound(mag, n); }
      SmallPower(n);
      DivPow2Means(s, op, w, k, n, a, res);
      return true, Run(s, DivPow2(op, w, n, d < 0, a, res));
    }
    if op.Signed() || (mag != 10 && mag != 100) { return false, s; }
    var x := Val(s, a);
    var steps := if mag == 10 then 1 else 2;
    rt.r0 := x;
    for i := 0 to steps
      invariant rt.r0 == x / Tens(i) && (i > 0 ==> rt.r1 == x / Tens(i - 1) % 10)
    {
      TenStep(x, i);
      rt.Udivmod10();
    }
    taken := true;
    if !op.Rem() {
      t := s[res := rt.r0];
    } else if steps == 1 {
      t := s[res := rt.r1];
    } else {
      Rebuilt(s, a, rt.r0, res);
      t := Run(s[res := rt.r0], MulConst(Cell(res), 100, res));
      t := Run(t, [Bin(SUB, a, Cell(res), res)]);
    }
  }

  lemma {:induction false} PowerBound(m: nat, n: nat)
    requires m == Pow2(n) && m < M32
    ensures m <= M31
  {
    Pow2At32();
    if n >= 32 {
      if n > 32 { Pow2Less(32, n); }
      assert false;
    }
    if n < 31 { Pow2Less(n, 31); }
  }

  // ----- in the words of the allocation -----

  /** Cells for the function's words: apart from each other and from the lowering's own. */
  ghost predicate Placing(cell: Slots.Slot -> int) {
    (forall u, v :: cell(u) == cell(v) ==> u == v) && forall u :: Plain(cell(u))
  }

  /** The operand of code lowered at t. */
  ghost function OpdAt(f: Slots.Func, al: Slots.Alloc, cell: Slots.Slot -> int, s: Slots.Src, t: Slots.Site): Opd {
    match Slots.ResolveAt(f, s, t)
    case Const(w) => Imm(w)
    case Local(n) => Cell(cell(Slots.WordOf(al, n)))
  }

  /** Operands and results of allocated instructions are as the lowerings here need them. */
  lemma {:induction false} AllocatedApart(f: Slots.Func, al: Slots.Alloc, cell: Slots.Slot -> int, p: seq<int>, i: int,
                                          s: Slots.Src)
    requires Slots.Ok(f) && Slots.AllocOk(f, al) && Placing(cell) && Cfg.Path(Slots.GraphOf(f), p)
    requires Slots.IsIns(f, Cfg.Last(p), i) && s in Slots.Operands(f.blocks[Cfg.Last(p)].body[i])
    ensures var a := OpdAt(f, al, cell, s, Slots.Site(Cfg.Last(p), i));
            var res := cell(Slots.WordOf(al, f.blocks[Cfg.Last(p)].body[i].res));
            PlainOpd(a) && Plain(res) && a != Cell(res)
  {
    var r := Slots.ResolveAt(f, s, Slots.Site(Cfg.Last(p), i));
    if s.Local? && r.Local? {
      hide Slots.Ok, Slots.AllocOk, Slots.ResolveAt;
      Copies.ResultApart(f, al, p, i, s.n, r.n);
    }
  }

  /** The cells hold the function's words. */
  ghost predicate Holding(cell: Slots.Slot -> int, s: Cells, ws: Copies.Cells) {
    forall u :: Get(s, cell(u)) == Copies.Read(ws, u)
  }

  /** A divide by a power of two: whatever words its operand and result were given, it
      leaves the C result of the operand's SSA value. */
  lemma {:induction false} AllocatedDivide(f: Slots.Func, al: Slots.Alloc, cell: Slots.Slot -> int, p: seq<int>, i: int,
                                           src: Slots.Src, env: Copies.Env, ws: Copies.Cells, s: Cells,
                                           op: DivOp, w: int, k: Word, n: int)
    requires Slots.Ok(f) && Slots.AllocOk(f, al) && Placing(cell) && Cfg.Path(Slots.GraphOf(f), p)
    requires Slots.IsIns(f, Cfg.Last(p), i) && src in Slots.Operands(f.blocks[Cfg.Last(p)].body[i])
    requires Copies.Right(f, al, Cfg.Last(p), i, env, ws) && Holding(cell, s, ws)
    requires 1 <= w <= 32 && 0 <= n <= 31 && Copies.Value(env, src) < Pow2(w)
    requires var d := Divisor(op, w, k); d == Pow2(n) || (op.Signed() && d == -Pow2(n))
    ensures var a := OpdAt(f, al, cell, src, Slots.Site(Cfg.Last(p), i));
            var res := cell(Slots.WordOf(al, f.blocks[Cfg.Last(p)].body[i].res));
            var d := Divisor(op, w, k);
            var e := Expected(op, w, Copies.Value(env, src), d);
            0 <= e < M32 && Leaves(s, DivPow2(op, w, n, d < 0, a, res), res, e, {res, SC0, SC1, SC2})
  {
    hide Pow2, Divisor, DivPow2, Expected, Leaves, Slots.AllocOk, Copies.Right, Slots.Ok;
    AllocatedApart(f, al, cell, p, i, src);
    Copies.OperandRight(f, al, p, i, env, ws, src);
    var a := OpdAt(f, al, cell, src, Slots.Site(Cfg.Last(p), i));
    assert Val(s, a) == Copies.Value(env, src);
    DivPow2Means(s, op, w, k, n, a, cell(Slots.WordOf(al, f.blocks[Cfg.Last(p)].body[i].res)));
  }

  /** Every constant divide taken in line, the 10 and 100 chain included, in allocated words. */
  method DivAllocated(rt: Runtime.Rt, s: Cells, op: DivOp, w: int, k: Word, a: Opd, res: int, ghost f: Slots.Func,
                      ghost al: Slots.Alloc, ghost cell: Slots.Slot -> int, ghost p: seq<int>, ghost i: int,
                      ghost src: Slots.Src, ghost env: Copies.Env, ghost ws: Copies.Cells)
    returns (taken: bool, t: Cells)
    requires Slots.Ok(f) && Slots.AllocOk(f, al) && Placing(cell) && Cfg.Path(Slots.GraphOf(f), p)
    requires Slots.IsIns(f, Cfg.Last(p), i) && src in Slots.Operands(f.blocks[Cfg.Last(p)].body[i])
    requires Copies.Right(f, al, Cfg.Last(p), i, env, ws) && Holding(cell, s, ws)
    requires a == OpdAt(f, al, cell, src, Slots.Site(Cfg.Last(p), i))
    requires res == cell(Slots.WordOf(al, f.blocks[Cfg.Last(p)].body[i].res))
    requires 1 <= w <= 32 && Copies.Value(env, src) < Pow2(w)
    modifies rt
    ensures taken <==> Quick(op, Divisor(op, w, k))
    ensures taken ==> var e := Expected(op, w, Copies.Value(env, src), Divisor(op, w, k));
                      0 <= e < M32 && Get(t, res) == e && Same(s, t, {res, SC0, SC1, SC2})
  {
    hide Pow2, Divisor, Expected, Slots.AllocOk, Copies.Right, Slots.Ok;
    AllocatedApart(f, al, cell, p, i, src);
    Copies.OperandRight(f, al, p, i, env, ws, src);
    assert Val(s, a) == Copies.Value(env, src);
    taken, t := DivIns(rt, s, op, w, k, a, res);
  }
}
