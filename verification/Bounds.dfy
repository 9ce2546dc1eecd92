/** Unsigned upper bounds on machine words (host/dmacc/facts.go): the rule of every opcode and of
    every comparison, and that each states a bound implied by its operands' bounds. */
module Bounds {
  import opened Words

  const TOP: Word := 0xFFFF_FFFF
  const NONNEG: Word := 0x7FFF_FFFF

  function Min(a: Word, b: Word): Word {
    if a <= b then a else b
  }

  function Max(a: Word, b: Word): Word {
    if a >= b then a else b
  }

  // ----- instructions -----

  datatype Ty = Int(bits: nat) | Ptr | Agg

  /** An operand: a constant's low word, a value with its written type, or a symbol's address. */
  datatype Val = Const(w: Word, ty: Ty) | Local(n: int, ty: Ty) | Global(sym: int, ty: Ty)

  datatype Pred = Eq | Ne | Ult | Ule | Ugt | Uge | Slt | Sle | Sgt | Sge

  /** Opcodes the rules know. Zext stands for zext, freeze and bitcast; PtrCast for ptrtoint and
      inttoptr; Address for the opcodes whose type is not their result's; Other for the rest. */
  datatype Opc =
    | Icmp(pred: Pred) | And | Or | Xor | Add | Mul | Sub | Select | Zext | PtrCast | Trunc
    | Shl | Lshr | Udiv | Urem | Call(callee: int) | Address | Other

  datatype Ins = Ins(res: int, op: Opc, ty: Ty, args: seq<Val>, nsw: bool, nuw: bool)

  /** Operands an opcode needs. */
  function Arity(op: Opc): nat {
    match op
    case Zext => 1
    case PtrCast => 1
    case Trunc => 1
    case Select => 3
    case Call(_) => 0
    case Address => 0
    case Other => 0
    case _ => 2
  }

  /** The bound of a type alone: the storage width, in whole bytes. */
  function TypeMax(t: Ty): Word {
    if !t.Int? || t.bits < 1 || t.bits > 24 then TOP
    else if t.bits <= 8 then 0xFF
    else if t.bits <= 16 then 0xFFFF
    else 0xFF_FFFF
  }

  /** The type bound of a result, for the opcodes whose type is their result's. */
  function ResTypeMax(ins: Ins): Word {
    if ins.op.Icmp? || ins.op.Zext? || ins.op.PtrCast? || ins.op.Address? then TOP else TypeMax(ins.ty)
  }

  /** A constant renders at its operand's width. */
  function ConstWord(v: Val): Word
    requires v.Const?
  {
    if v.ty.Int? && 1 <= v.ty.bits < 32 then Low32(v.w, v.ty.bits) else v.w
  }

  function Low32(w: Word, k: nat): (r: Word)
    requires k < 32
    ensures r <= w
  {
    assert 0 <= w % Pow2(k) <= w by { ModBelow(w, Pow2(k)); }
    w % Pow2(k)
  }

  lemma ModBelow(x: int, p: int)
    requires x >= 0 && p >= 1
    ensures 0 <= x % p <= x && x % p < p
  {
  }

  predicate Word32(t: Ty) {
    t.Ptr? || t == Int(32)
  }

  predicate FlagWord(t: Ty) {
    t.Int? && 1 <= t.bits <= 32
  }

  /** The bits of a type that its word keeps. */
  function Width(t: Ty): (w: nat)
    ensures w <= 32
  {
    if t.Int? && t.bits < 32 then t.bits else 32
  }

  // ----- what the machine computes -----

  predicate Holds(p: Pred, a: Word, b: Word) {
    match p
    case Eq => a == b
    case Ne => a != b
    case Ult => a < b
    case Ule => a <= b
    case Ugt => a > b
    case Uge => a >= b
    case Slt => Signed(a) < Signed(b)
    case Sle => Signed(a) <= Signed(b)
    case Sgt => Signed(a) > Signed(b)
    case Sge => Signed(a) >= Signed(b)
  }

  /** The value of a constant operand, or -1. */
  function ConstOperand(v: Val): (r: int)
    ensures -1 <= r <= 0xFFFF_FFFF
  {
    if v.Const? then ConstWord(v) else -1
  }

  predicate InInt32(x: int) {
    -0x8000_0000 <= x < 0x8000_0000
  }

  /** The word an instruction may leave in its result, given its operands' words. A flagged
      operation keeps its promise, and nothing is divided by zero; the result of an unknown opcode
      is any word. */
  ghost predicate Yields(ins: Ins, vs: seq<Word>, v: Word)
    requires |vs| == |ins.args| >= Arity(ins.op)
  {
    match ins.op
    case Icmp(p) => v <= 1 && (Word32(ins.ty) ==> (v == 1 <==> Holds(p, vs[0], vs[1])))
    case And => v == AndW(vs[0], vs[1])
    case Or => v == OrW(vs[0], vs[1])
    case Xor => v == XorW(vs[0], vs[1])
    case Add =>
        v == (vs[0] + vs[1]) % Pow2(Width(ins.ty))
        && (ins.nsw && ins.ty == Int(32) ==> InInt32(Signed(vs[0]) + Signed(vs[1])))
    case Mul =>
        v == (vs[0] * vs[1]) % Pow2(Width(ins.ty))
        && (ins.nsw && ins.ty == Int(32) ==> InInt32(Signed(vs[0]) * Signed(vs[1])))
    case Sub => v == (vs[0] - vs[1]) % Pow2(Width(ins.ty)) && (ins.nuw && FlagWord(ins.ty) ==> vs[0] >= vs[1])
    case Select => v == if vs[0] != 0 then vs[1] else vs[2]
    case Zext => v == vs[0]
    case PtrCast => v == vs[0]
    case Trunc => v == if Narrows(ins) then vs[0] % Pow2(Width(ins.ty)) else vs[0]
    case Shl =>
        var s := ConstOperand(ins.args[1]);
        v < Pow2(Width(ins.ty)) && (0 <= s < 32 ==> v == (vs[0] * Pow2(s)) % Pow2(Width(ins.ty)))
    case Lshr => var s := ConstOperand(ins.args[1]); v <= vs[0] && (0 <= s < 32 ==> v == vs[0] / Pow2(s))
    case Udiv => var d := ConstOperand(ins.args[1]); v <= vs[0] && (d > 0 ==> v == vs[0] / d)
    case Urem => var d := ConstOperand(ins.args[1]); v <= vs[0] && (d > 0 ==> v == vs[0] % d)
    case _ => true
  }

  /** A truncation that masks; a widening or same-width one forwards. */
  predicate Narrows(ins: Ins)
    requires |ins.args| >= 1
  {
    Width(ins.ty) < 32 && SourceWidth(ins.args[0].ty) > Width(ins.ty)
  }

  function SourceWidth(t: Ty): nat {
    if t.Int? && t.bits <= 32 then t.bits else 32
  }

  // ----- the rules -----

  function AddMax(a: Word, b: Word): Word {
    if a + b > TOP then TOP else a + b
  }

  function MulMax(a: Word, b: Word): (r: Word)
    ensures r == TOP || r == a * b
  {
    var p: int := a * b;
    if p > TOP then TOP else assert p >= 0; p
  }

  function ShlMax(a: Word, s: int): (r: Word) {
    if s < 0 || s >= 32 then TOP
    else
      var p: int := a * Pow2(s);
      if p > TOP then TOP else assert p >= 0; p
  }

  /** The all-ones mask of a bound's bit length. */
  function MaskUp(v: Word): Word {
    Pow2At32();
    LenBounds(v, 32);
    var m := Pow2(Len(v)) - 1;
    assert 0 <= m <= TOP by { if Len(v) < 32 { Pow2Mono(Len(v), 32); } }
    m
  }

  function Len(v: nat): nat {
    if v == 0 then 0 else 1 + Len(v / 2)
  }

  lemma {:induction false} LenBounds(v: nat, n: nat)
    requires v < Pow2(n)
    ensures Len(v) <= n && v < Pow2(Len(v))
    decreases n
  {
    if v > 0 {
      if n == 0 { assert false; }
      LenBounds(v / 2, n - 1);
    }
  }

  lemma {:induction false} Pow2Mono(k: nat, n: nat)
    requires k <= n
    ensures Pow2(k) <= Pow2(n)
    decreases n
  {
    if k < n { Pow2Mono(k, n - 1); }
  }

  /** The bound of a non-phi result, given its operands' bounds and its callee's return bound. */
  function InsBound(ins: Ins, bs: seq<Word>, ret: Word): (k: Word)
    requires |bs| == |ins.args| >= Arity(ins.op)
  {
    var k := RuleBound(ins, bs, ret);
    Min(k, ResTypeMax(ins))
  }

  function RuleBound(ins: Ins, bs: seq<Word>, ret: Word): Word
    requires |bs| == |ins.args| >= Arity(ins.op)
  {
    match ins.op
    case Icmp(_) => 1
    case And => Min(bs[0], bs[1])
    case Or => MaskUp(OrW(bs[0], bs[1]))
    case Xor => MaskUp(OrW(bs[0], bs[1]))
    case Add =>
        if FlagWord(ins.ty) && ins.nsw && bs[0] <= NONNEG && bs[1] <= NONNEG then Min(AddMax(bs[0], bs[1]), NONNEG)
        else AddMax(bs[0], bs[1])
    case Mul =>
        if FlagWord(ins.ty) && ins.nsw && bs[0] <= NONNEG && bs[1] <= NONNEG then Min(MulMax(bs[0], bs[1]), NONNEG)
        else MulMax(bs[0], bs[1])
    case Sub =>
      var k := if ConstOperand(ins.args[1]) == 0 then bs[0] else TOP;
      if FlagWord(ins.ty) && ins.nuw then Min(k, bs[0]) else k
    case Select => Max(bs[1], bs[2])
    case Zext => bs[0]
    case PtrCast => bs[0]
    case Trunc =>
        if ins.ty.Int? && ins.ty.bits > 32 then TOP else if Narrows(ins) then TruncMax(bs[0], Width(ins.ty)) else bs[0]
    case Shl => ShlMax(bs[0], ConstOperand(ins.args[1]))
    case Lshr => var s := ConstOperand(ins.args[1]); if 0 <= s < 32 then ShrBound(bs[0], s) else TOP
    case Udiv => var d := ConstOperand(ins.args[1]); if d > 0 then Quot(bs[0], d) else TOP
    case Urem => var d := ConstOperand(ins.args[1]); if d > 0 then d - 1 else TOP
    case Call(_) => ret
    case _ => TOP
  }

  function TruncMax(b: Word, w: nat): Word
    requires w < 32
  {
    Pow2At32();
    Pow2Mono(w, 32);
    Min(b, Pow2(w) - 1)
  }

  function ShrBound(b: Word, s: nat): Word {
    QuotLess(b, Pow2(s));
    b / Pow2(s)
  }

  function Quot(b: Word, d: int): Word
    requires d > 0
  {
    QuotLess(b, d);
    b / d
  }

  lemma QuotLess(x: int, d: int)
    requires x >= 0 && d >= 1
    ensures 0 <= x / d <= x
  {
  }

  // ----- soundness of the rules -----

  lemma {:induction false} AndLess(a: nat, b: nat)
    ensures Words.And(a, b) <= a && Words.And(a, b) <= b
  {
    if a > 0 { AndLess(a / 2, b / 2); }
  }

  lemma {:induction false} OrAbove(a: nat, b: nat)
    ensures a <= Words.Or(a, b) && b <= Words.Or(a, b)
  {
    if a > 0 { OrAbove(a / 2, b / 2); }
  }

  /** Or and xor stay inside the mask of their operands' bounds. */
  lemma MaskSound(a: Word, b: Word, x: Word, y: Word)
    requires a <= x && b <= y
    ensures OrW(a, b) <= MaskUp(OrW(x, y)) && XorW(a, b) <= MaskUp(OrW(x, y))
  {
    var m := Words.Or(x, y);
    Pow2At32();
    OpsBound(x, y, 32);
    OrAbove(x, y);
    LenBounds(m, 32);
    OpsBound(a, b, Len(m));
  }

  lemma MulMono(a: int, b: int, x: int, y: int)
    requires 0 <= a <= x && 0 <= b <= y
    ensures 0 <= a * b <= x * y
  {
    assert a * b <= x * b by { MulLeft(a, x, b); }
    assert x * b <= x * y by { MulLeft(b, y, x); }
  }

  lemma MulLeft(a: int, x: int, b: int)
    requires a <= x && 0 <= b
    ensures a * b <= x * b
  {
    assert (x - a) * b >= 0;
  }

  lemma DivMono(a: int, x: int, d: int)
    requires 0 <= a <= x && d >= 1
    ensures a / d <= x / d
  {
    if a / d > x / d {
      assert a / d >= x / d + 1;
      MulLeft(x / d + 1, a / d, d);
      assert false;
    }
  }

  /** A sum or product kept to a type's width is at most itself, and below the width. */
  lemma KeptWidth(x: int, t: Ty)
    requires x >= 0
    ensures 0 <= x % Pow2(Width(t)) <= x && (t.Int? && t.bits < 32 ==> x % Pow2(Width(t)) <= NONNEG)
    ensures Width(t) == 32 && x <= TOP ==> x % Pow2(Width(t)) == x
  {
    ModBelow(x, Pow2(Width(t)));
    Pow2At32();
    if t.Int? && t.bits < 32 { Pow2Mono(t.bits, 31); }
  }

  lemma AddSound(ins: Ins, a: Word, b: Word, x: Word, y: Word, v: Word)
    requires ins.op.Add? && |ins.args| >= 2 && a <= x && b <= y
    requires v == (a + b) % Pow2(Width(ins.ty)) && (ins.nsw && ins.ty == Int(32) ==> InInt32(Signed(a) + Signed(b)))
    ensures v <= AddMax(x, y) && (FlagWord(ins.ty) && ins.nsw && x <= NONNEG && y <= NONNEG ==> v <= NONNEG)
  {
    KeptWidth(a + b, ins.ty);
  }

  lemma MulSound(ins: Ins, a: Word, b: Word, x: Word, y: Word, v: Word)
    requires ins.op.Mul? && |ins.args| >= 2 && a <= x && b <= y
    requires v == (a * b) % Pow2(Width(ins.ty)) && (ins.nsw && ins.ty == Int(32) ==> InInt32(Signed(a) * Signed(b)))
    ensures v <= MulMax(x, y) && (FlagWord(ins.ty) && ins.nsw && x <= NONNEG && y <= NONNEG ==> v <= NONNEG)
  {
    MulMono(a, b, x, y);
    KeptWidth(a * b, ins.ty);
  }

  lemma ShiftSound(ins: Ins, a: Word, x: Word, s: int, v: Word)
    requires 0 <= s < 32 && a <= x
    ensures v == (a * Pow2(s)) % Pow2(Width(ins.ty)) ==> v <= ShlMax(x, s)
    ensures v == a / Pow2(s) ==> v <= ShrBound(x, s)
  {
    MulMono(a, Pow2(s), x, Pow2(s));
    KeptWidth(a * Pow2(s), ins.ty);
    DivMono(a, x, Pow2(s));
  }

  /** A difference with no borrow never exceeds what it was taken from. */
  lemma SubSound(ins: Ins, vs: seq<Word>, bs: seq<Word>, v: Word)
    requires ins.op.Sub? && |vs| == |bs| == |ins.args| >= 2 && Yields(ins, vs, v) && vs[0] <= bs[0] && vs[1] <= bs[1]
    requires ins.args[1].Const? ==> vs[1] == ConstWord(ins.args[1])
    ensures v <= RuleBound(ins, bs, TOP)
  {
    if vs[0] >= vs[1] { KeptWidth(vs[0] - vs[1], ins.ty); }
  }

  lemma ShiftRule(ins: Ins, vs: seq<Word>, bs: seq<Word>, v: Word)
    requires (ins.op.Shl? || ins.op.Lshr?) && |vs| == |bs| == |ins.args| >= 2 && Yields(ins, vs, v) && vs[0] <= bs[0]
    ensures v <= RuleBound(ins, bs, TOP)
  {
    var s := ConstOperand(ins.args[1]);
    if 0 <= s < 32 { ShiftSound(ins, vs[0], bs[0], s, v); }
  }

  lemma DivRule(ins: Ins, vs: seq<Word>, bs: seq<Word>, v: Word)
    requires (ins.op.Udiv? || ins.op.Urem?) && |vs| == |bs| == |ins.args| >= 2 && Yields(ins, vs, v) && vs[0] <= bs[0]
    ensures v <= RuleBound(ins, bs, TOP)
  {
    var d := ConstOperand(ins.args[1]);
    if d > 0 { DivMono(vs[0], bs[0], d); ModBelow(vs[0], d); }
  }

  /** Every opcode's rule bounds every word the opcode can produce. */
  lemma RuleSound(ins: Ins, vs: seq<Word>, bs: seq<Word>, ret: Word, v: Word)
    requires |vs| == |bs| == |ins.args| >= Arity(ins.op) && Yields(ins, vs, v)
    requires forall i :: 0 <= i < |vs| ==> vs[i] <= bs[i] && (ins.args[i].Const? ==> vs[i] == ConstWord(ins.args[i]))
    requires ins.op.Call? ==> v <= ret
    ensures v <= RuleBound(ins, bs, ret)
  {
    match ins.op
    case And => AndLess(vs[0], vs[1]);
    case Or => MaskSound(vs[0], vs[1], bs[0], bs[1]);
    case Xor => MaskSound(vs[0], vs[1], bs[0], bs[1]);
    case Add => AddSound(ins, vs[0], vs[1], bs[0], bs[1], v);
    case Mul => MulSound(ins, vs[0], vs[1], bs[0], bs[1], v);
    case Sub => SubSound(ins, vs, bs, v);
    case Trunc => if Narrows(ins) { ModBelow(vs[0], Pow2(Width(ins.ty))); }
    case Shl => ShiftRule(ins, vs, bs, v);
    case Lshr => ShiftRule(ins, vs, bs, v);
    case Udiv => DivRule(ins, vs, bs, v);
    case Urem => DivRule(ins, vs, bs, v);
    case _ =>
  }

  // ----- comparisons -----

  function NegPred(p: Pred): Pred {
    match p
    case Eq => Ne
    case Ne => Eq
    case Ult => Uge
    case Uge => Ult
    case Ule => Ugt
    case Ugt => Ule
    case Slt => Sge
    case Sge => Slt
    case Sle => Sgt
    case Sgt => Sle
  }

  lemma NegPredHolds(p: Pred, a: Word, b: Word)
    ensures Holds(NegPred(p), a, b) <==> !Holds(p, a, b)
  {
  }

  /** Known to be at least lo as a signed value: a nonnegative word, or a constant that is. */
  predicate AtLeast(v: Val, b: Word, lo: int) {
    b <= NONNEG || (v.Const? && Signed(v.w) >= lo)
  }

  function Below(b: Word): Word {
    if b > 0 then b - 1 else 0
  }

  /** The bounds on x and y where the comparison is true, given their bounds there. */
  function EdgeBounds(p: Pred, x: Val, y: Val, xb: Word, yb: Word): (Word, Word) {
    match p
    case Eq => (Min(xb, yb), Min(xb, yb))
    case Ne => (TOP, TOP)
    case Ult => (Below(yb), TOP)
    case Ule => (yb, TOP)
    case Ugt => (TOP, Below(xb))
    case Uge => (TOP, xb)
    case Slt =>
      var my := if AtLeast(x, xb, -1) then NONNEG else TOP;
      var e := Min(yb, my);
      (if xb <= NONNEG && e <= NONNEG then Below(e) else TOP, my)
    case Sle =>
      var my := if AtLeast(x, xb, 0) then NONNEG else TOP;
      var e := Min(yb, my);
      (if xb <= NONNEG && e <= NONNEG then e else TOP, my)
    case Sgt =>
      var mx := if AtLeast(y, yb, -1) then NONNEG else TOP;
      var e := Min(xb, mx);
      (mx, if e <= NONNEG && yb <= NONNEG then Below(e) else TOP)
    case Sge =>
      var mx := if AtLeast(y, yb, 0) then NONNEG else TOP;
      var e := Min(xb, mx);
      (mx, if e <= NONNEG && yb <= NONNEG then e else TOP)
  }

  /** A comparison that holds bounds both its operands. */
  lemma EdgeSound(p: Pred, x: Val, y: Val, xb: Word, yb: Word, a: Word, b: Word)
    requires Holds(p, a, b) && a <= xb && b <= yb && (x.Const? ==> a == x.w) && (y.Const? ==> b == y.w)
    ensures a <= EdgeBounds(p, x, y, xb, yb).0 && b <= EdgeBounds(p, x, y, xb, yb).1
  {
  }

  // ----- how tight the rules are -----

  lemma {:induction false} OrLen(a: nat, b: nat)
    ensures Len(Words.Or(a, b)) == if Len(a) >= Len(b) then Len(a) else Len(b)
  {
    if a > 0 || b > 0 {
      OrLen(a / 2, b / 2);
      OrHalf(a, b);
    }
  }

  lemma OrHalf(a: nat, b: nat)
    requires a > 0 || b > 0
    ensures Words.Or(a, b) > 0 && Words.Or(a, b) / 2 == Words.Or(a / 2, b / 2)
  {
    OrAbove(a, b);
    if a == 0 { OrZero(b); OrZero(b / 2); }
  }

  lemma OrZero(b: nat)
    ensures Words.Or(0, b) == b
  {
  }

  lemma {:induction false} LenMono(a: nat, b: nat)
    requires a <= b
    ensures Len(a) <= Len(b)
  {
    if a > 0 { LenMono(a / 2, b / 2); }
  }

  lemma {:induction false} MaskMono(a: Word, b: Word, x: Word, y: Word)
    requires a <= x && b <= y
    ensures MaskUp(OrW(a, b)) <= MaskUp(OrW(x, y))
  {
    OrLen(a, b); OrLen(x, y);
    LenMono(a, x); LenMono(b, y);
    Pow2Mono(Len(OrW(a, b)), Len(OrW(x, y)));
  }

  ghost predicate Below2(bs: seq<Word>, cs: seq<Word>) {
    |bs| == |cs| && forall i :: 0 <= i < |bs| ==> bs[i] <= cs[i]
  }

  /** Tighter operands never loosen a result. */
  lemma {:induction false} InsMono(ins: Ins, bs: seq<Word>, cs: seq<Word>, ret: Word)
    requires |cs| == |ins.args| >= Arity(ins.op) && Below2(bs, cs)
    ensures InsBound(ins, bs, ret) <= InsBound(ins, cs, ret)
  {
    hide Pow2, MaskUp, OrW;
    match ins.op
    case Or => MaskMono(bs[0], bs[1], cs[0], cs[1]);
    case Xor => MaskMono(bs[0], bs[1], cs[0], cs[1]);
    case Mul =>
      MulMono(bs[0], bs[1], cs[0], cs[1]);
      CapMono(bs[0], bs[1], cs[0], cs[1]);
    case Shl =>
      var s := ConstOperand(ins.args[1]);
      if 0 <= s < 32 { MulMono(bs[0], Pow2(s), cs[0], Pow2(s)); }
    case Lshr =>
      var s := ConstOperand(ins.args[1]);
      if 0 <= s < 32 { DivMono(bs[0], cs[0], Pow2(s)); }
    case Udiv =>
      var d := ConstOperand(ins.args[1]);
      if d > 0 { DivMono(bs[0], cs[0], d); }
    case _ =>
  }

  lemma CapMono(a: Word, b: Word, x: Word, y: Word)
    requires a <= x && b <= y
    ensures MulMax(a, b) <= MulMax(x, y)
    ensures (x > NONNEG || y > NONNEG) && a <= NONNEG && b <= NONNEG ==> Min(MulMax(a, b), NONNEG) <= MulMax(x, y)
  {
    MulMono(a, b, x, y);
    var p, q: int := a * b, x * y;
    if x > 0 && y > 0 { MulMono(x, 1, x, y); MulMono(1, y, x, y); }
  }

  /** No rule gives more than it must: where nothing wraps, the bound of these opcodes is the word the
      instruction yields with its operands at their bounds; a conjunction can reach its bound; and
      the bound of or and xor is below twice the larger operand's. */
  lemma {:induction false} RuleTight(ins: Ins, bs: seq<Word>, ret: Word, v: Word)
    requires |bs| == |ins.args| >= Arity(ins.op) && Yields(ins, bs, v) && Width(ins.ty) == 32
    ensures var k := RuleBound(ins, bs, ret);
            match ins.op
            case Add => k < TOP ==> v == k
            case Mul => k < TOP ==> v == k
            case Shl => k < TOP ==> v == k
            case Lshr => 0 <= ConstOperand(ins.args[1]) < 32 ==> v == k
            case Udiv => ConstOperand(ins.args[1]) > 0 ==> v == k
            case Urem => ConstOperand(ins.args[1]) > 0 ==> k == ConstOperand(ins.args[1]) - 1
            case Zext => v == k
            case PtrCast => v == k
            case Select => v <= k && (k == bs[1] || k == bs[2])
            case And => AndW(k, k) == k && (k == bs[0] || k == bs[1])
            case Or => k < 2 * Max(bs[0], bs[1]) || k == 0
            case Xor => k < 2 * Max(bs[0], bs[1]) || k == 0
            case Icmp(_) => k == 1
            case Call(_) => k == ret
            case Sub => (FlagWord(ins.ty) && ins.nuw) || ConstOperand(ins.args[1]) == 0 ==> k == bs[0]
            case _ => true
  {
    Pow2At32();
    hide Pow2, MaskUp, OrW, AndW, XorW, Signed;
    var k := RuleBound(ins, bs, ret);
    match ins.op
    case Add => if k < TOP { Whole(bs[0] as int + bs[1]); SignedSum(bs[0], bs[1]); }
    case Mul => if k < TOP { Whole(bs[0] as int * bs[1]); SignedProduct(bs[0], bs[1]); }
    case Shl =>
      var s := ConstOperand(ins.args[1]);
      if k < TOP { Whole(bs[0] as int * Pow2(s)); }
    case And => AndSelf(k); AndIsAnd(k);
    case Or => MaskTight(bs[0], bs[1]);
    case Xor => MaskTight(bs[0], bs[1]);
    case _ =>
  }

  lemma Whole(x: int)
    ensures 0 <= x < M32 ==> x % M32 == x
  {
  }

  /** A flagged sum of nonnegative words is nonnegative. */
  lemma SignedSum(a: Word, b: Word)
    ensures a <= NONNEG && b <= NONNEG && InInt32(Signed(a) + Signed(b)) ==> a + b <= NONNEG
  {
  }

  lemma SignedProduct(a: Word, b: Word)
    ensures a <= NONNEG && b <= NONNEG && InInt32(Signed(a) * Signed(b)) ==> a * b <= NONNEG
  {
    if a <= NONNEG && b <= NONNEG { assert Signed(a) == a && Signed(b) == b; }
  }

  lemma {:induction false} AndSelf(a: nat)
    ensures Words.And(a, a) == a
  {
    if a > 0 { AndSelf(a / 2); }
  }

  lemma AndIsAnd(a: Word)
    ensures AndW(a, a) == Words.And(a, a)
  {
  }

  lemma {:induction false} MaskTight(a: Word, b: Word)
    ensures var k := MaskUp(OrW(a, b)); k < 2 * Max(a, b) || k == 0
  {
    OrLen(a, b);
    var m := Max(a, b);
    LenMono(if a <= b then a else b, m);
    if m > 0 { LenLow(m); }
  }

  lemma {:induction false} LenLow(v: nat)
    requires v > 0
    ensures Len(v) >= 1 && Pow2(Len(v)) <= 2 * v
  {
    if v > 1 { LenLow(v / 2); }
  }

  /** Nor does a comparison prove less than it can: for words it may hold of, each operand can reach
      the lower of its own bound and the one proved. */
  lemma {:induction false} EdgeTight(p: Pred, x: Val, y: Val, xb: Word, yb: Word) returns (a: Word, b: Word)
    requires p == Eq || p == Ult || p == Ule || p == Ugt || p == Uge
    requires (p == Ult ==> yb > 0) && (p == Ugt ==> xb > 0)
    ensures a <= xb && b <= yb && Holds(p, a, b)
    ensures var r := EdgeBounds(p, x, y, xb, yb);
            p == Eq || p == Ult || p == Ule ==> a == Min(xb, r.0)
    ensures var r := EdgeBounds(p, x, y, xb, yb);
            p == Eq || p == Ugt || p == Uge ==> b == Min(yb, r.1)
  {
    match p
    case Eq => a, b := Min(xb, yb), Min(xb, yb);
    case Ult => a, b := Min(xb, yb - 1), yb;
    case Ule => a, b := Min(xb, yb), yb;
    case Ugt => a, b := xb, Min(yb, xb - 1);
    case Uge => a, b := xb, Min(xb, yb);
  }

  /** Signed comparisons prove as much as unsigned ones once both words are nonnegative. */
  lemma {:induction false} SignedTight(x: Val, y: Val, xb: Word, yb: Word)
    requires xb <= NONNEG && yb <= NONNEG && !x.Const? && !y.Const?
    ensures EdgeBounds(Slt, x, y, xb, yb).0 == EdgeBounds(Ult, x, y, xb, yb).0
    ensures EdgeBounds(Sle, x, y, xb, yb).0 == EdgeBounds(Ule, x, y, xb, yb).0
    ensures EdgeBounds(Sgt, x, y, xb, yb).1 == EdgeBounds(Ugt, x, y, xb, yb).1
    ensures EdgeBounds(Sge, x, y, xb, yb).1 == EdgeBounds(Uge, x, y, xb, yb).1
  {
  }
}
