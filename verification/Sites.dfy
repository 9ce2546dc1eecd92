/** An icmp site, whatever its form (host/dmacc/compare.go): four moves and a helper, a descriptor
    that unpacks itself, or an inline macro; it reaches the label its predicate selects. */
module Sites {
  import opened Words
  import opened Bits
  import opened Core
  import opened Planner
  import opened Compact
  import opened Macros
  import opened Meaning
  import opened Dispatch
  import opened Compare
  import DivConst
  import Layouts

  /** Where a program's comparisons live: the text, the shared cells, the helpers in use, and the
      two cells that narrow signed operands are widened into. */
  datatype Ctx = Ctx(text: Text, e: Enc, r: Regs, c: Cw, helpers: map<Helper, Loc2>, sc0: int, sc1: int)

  /** The forms a site may take. Inlined is the macro of the chosen helper, Direct that of the
      predicate itself. */
  datatype Form = FourMoves | Descriptor(d: Word, at: Word) | Inlined(base: Word) | Direct(base: Word)

  datatype Icmp = Icmp(p: Pred, w: int, zeroX: bool, zeroY: bool, nonnegX: bool, nonnegY: bool) {
    predicate Narrow() { p.IsSigned() && w < 32 }

    function Choice(): Site { Choose(p, w, zeroX, zeroY, nonnegX, nonnegY) }
  }

  // ----- widening -----

  function SextM(r: Regs, x: Loc, w: int, d: Loc): seq<Block>
    requires 1 <= w <= 32 && DivConst.Half(w) in r.env.lits && ONES in r.env.lits && 1 in r.env.lits
  {
    XorM(x, r.Lit(DivConst.Half(w)), d) + SubM(r, d, r.Lit(DivConst.Half(w)), d)
  }

  /** A cell of the lowering's own: no register, literal or comparison word. */
  ghost predicate Own(r: Regs, c: Cw, a: int) {
    Free(r, Mem(a)) && a != r.zero && !r.env.Pool(a / 4) && a / 4 !in c.Cells()
  }

  lemma {:induction false} KeptLoaded(r: Regs, s: State, u: State, a: int)
    requires Loaded(r, s) && Same(s, u, {r.env.nul / 4, a / 4}) && Normal(u) && a % 4 == 0 && a != r.zero
    requires !r.env.Pool(a / 4)
    ensures Loaded(r, u)
  {
    forall v | v in r.env.lits ensures Val(u, r.Lit(v)) == v { assert r.env.Pool(r.env.lits[v] / 4); }
  }

  /** Widening leaves the word of the signed value. */
  lemma {:induction false} SextLoads(s: State, r: Regs, c: Cw, x: Loc, w: int, a: int) returns (u: State)
    requires Loaded(r, s) && PoolHas(r) && 1 <= w <= 32 && DivConst.Half(w) in r.env.lits && Own(r, c, a) && Opnd(r, x)
    requires Val(s, x) < Pow2(w)
    ensures AllOk(SextM(r, x, w, Mem(a))) && RunBlocks(s, SextM(r, x, w, Mem(a))) == Fall(u) && Loaded(r, u)
    ensures Same(s, u, {r.env.nul / 4, a / 4}) && Val(u, Mem(a)) == Wrap(DivConst.SignedAt(Val(s, x), w))
  {
    hide RunBlocks, XorW, Pow2, XorM, SubM, Sub, Wrap;
    var h, d := DivConst.Half(w), Mem(a);
    var v := Val(s, x);
    LitFree(r, h);
    BitwiseMeans(s, x, r.Lit(h), d);
    XorFlip(v, h);
    var s1 := Put(s, d, XorW(h, v)).(acc := XorW(h, v));
    KeptLoaded(r, s, s1, a);
    SubMeans(s1, r, d, r.Lit(h), d);
    DivConst.SextWord(v, w);
    var z := Sub(XorW(h, v), h);
    u := Put(Put(s1, Mem(r.env.nul), XorW(h, v)), d, z).(acc := z);
    KeptLoaded(r, s, u, a);
    AllOkXor(x, r.Lit(h), d);
    RunSplit(s, XorM(x, r.Lit(h), d), SubM(r, d, r.Lit(h), d));
  }

  lemma AllOkXor(x: Loc, y: Loc, d: Loc)
    requires Cell(x) && Cell(y) && Cell(d)
    ensures AllOk(XorM(x, y, d))
  {
  }

  /** The code in front of a site: both operands of a narrow signed comparison widened. */
  function Prefix(K: Ctx, i: Icmp, x: Loc, y: Loc): seq<Block>
    requires 1 <= i.w <= 32 && DivConst.Half(i.w) in K.r.env.lits && ONES in K.r.env.lits && 1 in K.r.env.lits
  {
    if i.Narrow() then SextM(K.r, x, i.w, Mem(K.sc0)) + SextM(K.r, y, i.w, Mem(K.sc1)) else []
  }

  function Left(K: Ctx, i: Icmp, x: Loc): Loc {
    if i.Narrow() then Mem(K.sc0) else x
  }

  function Right(K: Ctx, i: Icmp, y: Loc): Loc {
    if i.Narrow() then Mem(K.sc1) else y
  }

  /** What the prefix may change. */
  function Widened(K: Ctx): set<int> {
    {K.r.env.nul / 4, K.sc0 / 4, K.sc1 / 4}
  }

  ghost predicate CtxOk(K: Ctx, i: Icmp) {
    && CwOk(K.r, K.c) && PoolHas(K.r) && 1 <= i.w <= 32 && DivConst.Half(i.w) in K.r.env.lits && 0 in K.r.env.lits
    && Own(K.r, K.c, K.sc0) && Own(K.r, K.c, K.sc1) && K.sc0 != K.sc1
  }

  /** An operand of an icmp: outside the words the site fills in, and not a widening cell. */
  ghost predicate Operand2(K: Ctx, l: Loc) {
    Operand(K.r, K.c, l) && l.addr != K.sc0 && l.addr != K.sc1
  }

  lemma {:induction false} PrefixRuns(K: Ctx, i: Icmp, s: State, x: Loc, y: Loc) returns (u: State)
    requires Loaded(K.r, s) && CtxOk(K, i) && Operand2(K, x) && Operand2(K, y) && Val(s, x) < Pow2(i.w)
    requires Val(s, y) < Pow2(i.w)
    ensures AllOk(Prefix(K, i, x, y)) && RunBlocks(s, Prefix(K, i, x, y)) == Fall(u) && Loaded(K.r, u)
    ensures Same(s, u, Widened(K))
    ensures Operand(K.r, K.c, Left(K, i, x)) && Operand(K.r, K.c, Right(K, i, y))
    ensures Val(u, Left(K, i, x)) == OperandWord(i.p, i.w, Val(s, x))
    ensures Val(u, Right(K, i, y)) == OperandWord(i.p, i.w, Val(s, y))
  {
    hide RunBlocks, Pow2, SextM, Wrap;
    if i.Narrow() {
      var s1 := SextLoads(s, K.r, K.c, x, i.w, K.sc0);
      assert Val(s1, y) == Val(s, y);
      u := SextLoads(s1, K.r, K.c, y, i.w, K.sc1);
      RunSplit(s, SextM(K.r, x, i.w, Mem(K.sc0)), SextM(K.r, y, i.w, Mem(K.sc1)));
    } else {
      u := s;
      EmptyBlocks(s);
    }
  }

  lemma EmptyBlocks(s: State)
    ensures AllOk([]) && RunBlocks(s, []) == Fall(s)
  {
  }

  // ----- the site itself -----

  function InlineFor(h: Helper): InlineOp {
    match h
    case Lt => Jlt
    case Ltp => Jlt
    case Ltu => Jltu
    case _ => Jeq
  }

  /** The macro of a predicate, and whether operands and targets trade places. */
  function DirectFor(p: Pred): (InlineOp, bool, bool) {
    match p
    case PEq => (Jeq, false, false)
    case PNe => (Jeq, false, true)
    case Slt => (Jlt, false, false)
    case Sge => (Jlt, false, true)
    case Sgt => (Jlt, true, false)
    case Sle => (Jlt, true, true)
    case Ult => (Jltu, false, false)
    case Uge => (Jltu, false, true)
    case Ugt => (Jltu, true, false)
    case Ule => (Jltu, true, true)
  }

  /** A helper's inline macro decides its question: a zero test against zero, and ltp as a signed
      comparison because its operands are never negative. */
  lemma InlineAgrees(h: Helper, x: Word, y: Word)
    requires h == Ltp ==> !Neg(x) && !Neg(y)
    ensures InlineHolds(InlineFor(h), x, if OneOperand(h) then 0 else y) <==> Holds(h, x, y)
  {
  }

  lemma DirectExact(p: Pred, w: int, x: Word, y: Word)
    requires 1 <= w <= 32 && x < Pow2(w) && y < Pow2(w)
    ensures var u, v := OperandWord(p, w, x), OperandWord(p, w, y);
            var (op, so, st) := DirectFor(p);
            InlineHolds(op, if so then v else u, if so then u else v) != st <==> Compare.Icmp(p, w, x, y)
  {
    hide Pow2, DivConst.SignedAt, Signed, Wrap;
    SignedOperand(p, w, x); SignedOperand(p, w, y);
  }

  /** ltp is chosen only for operands proved nonnegative. */
  lemma ChosenNonneg(i: Icmp, x: Word, y: Word)
    requires 1 <= i.w <= 32 && i.Choice().h == Ltp && (i.nonnegX ==> !Neg(x)) && (i.nonnegY ==> !Neg(y))
    ensures !Neg(OperandWord(i.p, i.w, x)) && !Neg(OperandWord(i.p, i.w, y))
  {
    hide Neg, Wrap, DivConst.SignedAt;
  }

  /** The code of the site, on operands a and b and targets t and f. */
  function SiteCode(K: Ctx, form: Form, i: Icmp, x: Loc, y: Loc, t: Word, f: Word): seq<Block>
    requires PoolHas(K.r) && 1 in K.r.env.lits && 0 in K.r.env.lits && t in K.r.env.lits && f in K.r.env.lits
    requires form.FourMoves? || form.Descriptor? ==>
               i.Choice().h in K.helpers && K.helpers[i.Choice().h].entry in K.r.env.lits
    requires form.Descriptor? ==> form.d in K.r.env.lits && form.at in K.r.env.lits
    requires form.Inlined? || form.Direct? ==> form.base in K.r.env.lits
  {
    var st := i.Choice();
    var a, b := if st.swapOps then y else x, if st.swapOps then x else y;
    match form
    case FourMoves =>
      FourMove(K.r, K.c, !OneOperand(st.h), a, b, if st.swapTargets then f else t,
          if st.swapTargets then t else f, K.helpers[st.h].entry)
    case Descriptor(d, at) => ParkCode(K.r, K.c, d, at)
    case Inlined(base) =>
        InlineCode(K.e, InlineFor(st.h), K.r, a, if OneOperand(st.h) then K.r.Lit(0) else b, K.r.Lit(base))
    case Direct(base) =>
      var (op, so, _) := DirectFor(i.p);
      InlineCode(K.e, op, K.r, if so then y else x, if so then x else y, K.r.Lit(base))
  }

  /** What each form needs behind it in memory. */
  ghost predicate FormAt(K: Ctx, form: Form, s: State, i: Icmp, x: Loc, y: Loc, t: Word, f: Word) {
    var st := i.Choice();
    var a, b := if st.swapOps then y else x, if st.swapOps then x else y;
    var yes, no := if st.swapTargets then f else t, if st.swapTargets then t else f;
    && t in K.r.env.lits && f in K.r.env.lits
    && (form.FourMoves? || form.Descriptor? ==> st.h in K.helpers && K.helpers[st.h].entry in K.r.env.lits)
    && match form
       case FourMoves => HelperAt(K.text, K.r, K.c, st.h, K.helpers[st.h])
       case Descriptor(d, at) =>
         && HelperAt(K.text, K.r, K.c, st.h, K.helpers[st.h]) && d in K.r.env.lits && at in K.r.env.lits
             && TextApart(K.e, K.r, K.c, at)
         && Described(K.e, K.r, K.c, at, a) && (!OneOperand(st.h) ==> Described(K.e, K.r, K.c, at, b))
         && DescAt(s, K.r, K.c, !OneOperand(st.h), d, a, b, yes, no) && DescClear(K.e, at, !OneOperand(st.h), d)
         && (forall k :: d / 4 <= k < d / 4 + 4 ==> k !in Widened(K))
         && at in K.text && K.text[at] == UnpackCode(K.e, K.r, K.c, !OneOperand(st.h), at, K.helpers[st.h].entry)
       case Inlined(base) =>
         var eq := InlineFor(st.h) == Jeq;
         base in K.r.env.lits && PairAt(K.text, K.r, base, if eq then yes else no, if eq then no else yes)
       case Direct(base) =>
         var (op, _, sw) := DirectFor(i.p);
         base in K.r.env.lits && PairAt(K.text, K.r, base, if (op == Jeq) != sw then t else f,
             if (op == Jeq) != sw then f else t)
  }

  /** From the operands in place, the site leads to the label of the predicate. */
  lemma {:induction false} FormLeads(K: Ctx, form: Form, u: State, i: Icmp, x: Loc, y: Loc, t: Word, f: Word, vx: Word,
                                     vy: Word) returns (n: nat)
    requires Loaded(K.r, u) && CtxOk(K, i) && Operand(K.r, K.c, x) && Operand(K.r, K.c, y)
    requires FormAt(K, form, u, i, x, y, t, f)
    requires vx < Pow2(i.w) && vy < Pow2(i.w) && Val(u, x) == OperandWord(i.p, i.w, vx)
    requires Val(u, y) == OperandWord(i.p, i.w, vy)
    requires (i.zeroX ==> vx == 0) && (i.zeroY ==> vy == 0) && (i.nonnegX ==> !Neg(vx)) && (i.nonnegY ==> !Neg(vy))
    ensures Leads(K.text, u, Fixed(SiteCode(K, form, i, x, y, t, f)),
              if Compare.Icmp(i.p, i.w, vx, vy) then t else f, n)
  {
    hide RunBlocks, Pow2, Leads, Holds, InRange, Neg, InlineHolds, Compare.Icmp, OperandWord, CwOk, Loaded, HelperAt,
        DescAt, PairAt, Choose;
    var st := i.Choice();
    var a, b := if st.swapOps then y else x, if st.swapOps then x else y;
    var yes, no := if st.swapTargets then f else t, if st.swapTargets then t else f;
    ChooseExact(i.p, i.w, vx, vy, i.zeroX, i.zeroY, i.nonnegX, i.nonnegY);
    match form {
      case FourMoves =>
        FourMoveLeads(K.text, u, K.r, K.c, st.h, K.helpers[st.h], a, b, yes, no);
        n := 3;
      case Descriptor(d, at) =>
        DescriptorLeads(K.text, K.e, u, K.r, K.c, st.h, K.helpers[st.h], d, at, a, b, yes, no);
        n := 4;
      case Inlined(base) =>
        n := InlinedLeads(K, base, u, i, x, y, t, f, vx, vy);
      case Direct(base) =>
        n := DirectLeads(K, base, u, i, x, y, t, f, vx, vy);
    }
  }

  lemma {:induction false} InlinedLeads(K: Ctx, base: Word, u: State, i: Icmp, x: Loc, y: Loc, t: Word, f: Word,
                                        vx: Word, vy: Word) returns (n: nat)
    requires Loaded(K.r, u) && CtxOk(K, i) && Operand(K.r, K.c, x) && Operand(K.r, K.c, y)
    requires FormAt(K, Inlined(base), u, i, x, y, t, f)
    requires vx < Pow2(i.w) && vy < Pow2(i.w) && Val(u, x) == OperandWord(i.p, i.w, vx)
    requires Val(u, y) == OperandWord(i.p, i.w, vy)
    requires (i.zeroX ==> vx == 0) && (i.zeroY ==> vy == 0) && (i.nonnegX ==> !Neg(vx)) && (i.nonnegY ==> !Neg(vy))
    ensures Leads(K.text, u, Fixed(SiteCode(K, Inlined(base), i, x, y, t, f)),
              if Compare.Icmp(i.p, i.w, vx, vy) then t else f, n)
  {
    hide RunBlocks, Pow2, Leads, Holds, InRange, Neg, InlineHolds, Compare.Icmp, OperandWord, CwOk, PairAt, Choose,
        InlineCode;
    var st := i.Choice();
    var a, b := if st.swapOps then y else x, if st.swapOps then x else y;
    var yes, no := if st.swapTargets then f else t, if st.swapTargets then t else f;
    ChooseExact(i.p, i.w, vx, vy, i.zeroX, i.zeroY, i.nonnegX, i.nonnegY);
    var l := if OneOperand(st.h) then K.r.Lit(0) else b;
    LitFree(K.r, 0);
    if st.h == Ltp { ChosenNonneg(i, vx, vy); }
    InlineAgrees(st.h, Val(u, a), Val(u, b));
    InlineLeads(K.text, u, K.e, InlineFor(st.h), K.r, a, l, base, yes, no);
    n := 1;
  }

  lemma {:induction false} DirectLeads(K: Ctx, base: Word, u: State, i: Icmp, x: Loc, y: Loc, t: Word, f: Word,
                                       vx: Word, vy: Word) returns (n: nat)
    requires Loaded(K.r, u) && CtxOk(K, i) && Operand(K.r, K.c, x) && Operand(K.r, K.c, y)
    requires FormAt(K, Direct(base), u, i, x, y, t, f)
    requires vx < Pow2(i.w) && vy < Pow2(i.w) && Val(u, x) == OperandWord(i.p, i.w, vx)
    requires Val(u, y) == OperandWord(i.p, i.w, vy)
    ensures Leads(K.text, u, Fixed(SiteCode(K, Direct(base), i, x, y, t, f)),
              if Compare.Icmp(i.p, i.w, vx, vy) then t else f, n)
  {
    hide RunBlocks, Pow2, Leads, InlineHolds, Compare.Icmp, OperandWord, CwOk, PairAt, InlineCode, Choose;
    var (op, so, sw) := DirectFor(i.p);
    var a, b := if so then y else x, if so then x else y;
    DirectExact(i.p, i.w, vx, vy);
    InlineLeads(K.text, u, K.e, op, K.r, a, b, base, if sw then f else t, if sw then t else f);
    n := 1;
  }

  /** A comparison at s: its operands are words of its width, and its facts hold. */
  ghost predicate Comparing(K: Ctx, s: State, i: Icmp, x: Loc, y: Loc) {
    && Loaded(K.r, s) && CtxOk(K, i) && Operand2(K, x) && Operand2(K, y) && Val(s, x) < Pow2(i.w)
        && Val(s, y) < Pow2(i.w)
    && (i.zeroX ==> Val(s, x) == 0) && (i.zeroY ==> Val(s, y) == 0)
    && (i.nonnegX ==> !Neg(Val(s, x))) && (i.nonnegY ==> !Neg(Val(s, y)))
  }

  /** The label of the predicate. */
  ghost function Goal(K: Ctx, s: State, i: Icmp, x: Loc, y: Loc, t: Word, f: Word): Word
    requires Comparing(K, s, i, x, y)
  {
    if Compare.Icmp(i.p, i.w, Val(s, x), Val(s, y)) then t else f
  }

  lemma {:induction false} BehindPrefix(K: Ctx, form: Form, s: State, u: State, i: Icmp, x: Loc, y: Loc, t: Word,
                                        f: Word) returns (n: nat)
    requires Comparing(K, s, i, x, y) && FormAt(K, form, u, i, Left(K, i, x), Right(K, i, y), t, f) && Loaded(K.r, u)
    requires Operand(K.r, K.c, Left(K, i, x)) && Operand(K.r, K.c, Right(K, i, y))
    requires Val(u, Left(K, i, x)) == OperandWord(i.p, i.w, Val(s, x))
    requires Val(u, Right(K, i, y)) == OperandWord(i.p, i.w, Val(s, y))
    ensures Leads(K.text, u, Fixed(SiteCode(K, form, i, Left(K, i, x), Right(K, i, y), t, f)),
              Goal(K, s, i, x, y, t, f), n)
  {
    hide SiteCode, FormAt, CtxOk, Leads, Loaded, Left, Right, Choose, Pow2, Neg, Compare.Icmp, OperandWord;
    n := FormLeads(K, form, u, i, Left(K, i, x), Right(K, i, y), t, f, Val(s, x), Val(s, y));
  }

  /** The site's code is at an address. */
  ghost predicate SiteAt(K: Ctx, form: Form, at: int, i: Icmp, x: Loc, y: Loc, t: Word, f: Word, s: State) {
    && CtxOk(K, i) && FormAt(K, form, s, i, Left(K, i, x), Right(K, i, y), t, f) && at in K.text
    && K.text[at] == Fixed(Prefix(K, i, x, y)) + Fixed(SiteCode(K, form, i, Left(K, i, x), Right(K, i, y), t, f))
  }

  lemma {:induction false} SiteStart(K: Ctx, form: Form, s: State, u: State, i: Icmp, x: Loc, y: Loc, t: Word, f: Word,
                                     goal: int, k: nat)
    requires SiteAt(K, form, s.pc, i, x, y, t, f, s)
    requires AllOk(Prefix(K, i, x, y)) && RunBlocks(s, Prefix(K, i, x, y)) == Fall(u)
    requires Leads(K.text, u, Fixed(SiteCode(K, form, i, Left(K, i, x), Right(K, i, y), t, f)), goal, k)
    ensures Reaches(K.text, s, goal, k + 1)
  {
    var pre, code := Prefix(K, i, x, y), SiteCode(K, form, i, Left(K, i, x), Right(K, i, y), t, f);
    hide RunBlocks, Prefix, SiteCode, FormAt, CtxOk, Leads, AllOk, Fixed, Left, Right;
    LeadsBehind(K.text, s, pre, u, Fixed(code), goal, k);
  }

  lemma {:induction false} SiteForm(K: Ctx, form: Form, s: State, u: State, i: Icmp, x: Loc, y: Loc, t: Word, f: Word)
    requires SiteAt(K, form, s.pc, i, x, y, t, f, s) && Same(s, u, Widened(K))
    ensures CtxOk(K, i) && FormAt(K, form, s, i, Left(K, i, x), Right(K, i, y), t, f)
    ensures FormAt(K, form, u, i, Left(K, i, x), Right(K, i, y), t, f)
  {
    hide Prefix, SiteCode, FormAt, CtxOk, Fixed, Left, Right, Same;
    FormKept(K, form, s, u, i, Left(K, i, x), Right(K, i, y), t, f);
  }

  lemma ComparingParts(K: Ctx, s: State, i: Icmp, x: Loc, y: Loc)
    requires Comparing(K, s, i, x, y)
    ensures Loaded(K.r, s) && CtxOk(K, i) && Operand2(K, x) && Operand2(K, y) && Val(s, x) < Pow2(i.w)
    ensures Val(s, y) < Pow2(i.w)
    ensures 1 <= i.w <= 32 && DivConst.Half(i.w) in K.r.env.lits && ONES in K.r.env.lits && 1 in K.r.env.lits
  {
  }

  /** An icmp site in any form, at any width and with any facts that hold: the code at %pc leads to
      t when the predicate holds of its operands, and to f when it does not. */
  lemma {:induction false} SiteReaches(K: Ctx, form: Form, s: State, i: Icmp, x: Loc, y: Loc, t: Word, f: Word)
    returns (n: nat)
    requires Comparing(K, s, i, x, y) && SiteAt(K, form, s.pc, i, x, y, t, f, s)
    ensures Reaches(K.text, s, Goal(K, s, i, x, y, t, f), n)
  {
    hide *;
    ComparingParts(K, s, i, x, y);
    var u := PrefixRuns(K, i, s, x, y);
    SiteForm(K, form, s, u, i, x, y, t, f);
    var k := BehindPrefix(K, form, s, u, i, x, y, t, f);
    SiteStart(K, form, s, u, i, x, y, t, f, Goal(K, s, i, x, y, t, f), k);
    n := k + 1;
  }

  lemma {:induction false} FormKept(K: Ctx, form: Form, s: State, u: State, i: Icmp, x: Loc, y: Loc, t: Word, f: Word)
    requires FormAt(K, form, s, i, x, y, t, f) && Same(s, u, Widened(K))
    ensures FormAt(K, form, u, i, x, y, t, f)
  {
    hide HelperAt, PairAt, UnpackCode, Choose, TextApart, Described;
  }

  // ----- branches on an i1 -----

  /** A branch on a truth value: a test for zero in any form of a helper site, or jbool, whose label
      is behind it. */
  datatype BoolForm = ZeroTest(form: Form, nonneg: bool) | Jbool(tramp: Word)

  /** The test for zero is the site of an icmp with the literal 0. */
  function ZeroIcmp(nonneg: bool): Icmp {
    Icmp(PEq, 32, false, true, nonneg, false)
  }

  /** The branch is at %pc, and the facts its form rests on hold: nonnegative for the restricted
      test, 0 or 1 for jbool. */
  ghost predicate BoolAt(K: Ctx, form: BoolForm, s: State, c: Loc, t: Word, f: Word) {
    && Loaded(K.r, s) && CtxOk(K, ZeroIcmp(false)) && Operand2(K, c)
    && match form
       case ZeroTest(g, nonneg) =>
         && !g.Direct? && (nonneg ==> !Neg(Val(s, c))) && Operand2(K, K.r.Lit(0))
         && SiteAt(K, g, s.pc, ZeroIcmp(nonneg), c, K.r.Lit(0), f, t, s)
       case Jbool(tramp) =>
         && Val(s, c) <= 1 && tramp in K.r.env.lits && tramp + Layouts.Stride(K.e) < M32
         && Layouts.SlotsBehind(K.text, K.e, K.r, s.pc, JboolM(K.e, K.r, c, K.r.Lit(tramp)), f, t)
         && tramp == Layouts.BehindAt(K.e, s.pc, JboolM(K.e, K.r, c, K.r.Lit(tramp)))
         && Has(K.text, s.pc, JboolM(K.e, K.r, c, K.r.Lit(tramp)))
  }

  /** Any form goes to t for a nonzero word and to f for zero. */
  lemma {:induction false} BoolReaches(K: Ctx, form: BoolForm, s: State, c: Loc, t: Word, f: Word) returns (n: nat)
    requires BoolAt(K, form, s, c, t, f)
    ensures Reaches(K.text, s, if Val(s, c) != 0 then t else f, n)
  {
    hide Reaches, SiteAt, Layouts.BehindAt, Layouts.SlotsBehind, JboolM, CwOk, Has;
    match form
    case ZeroTest(g, nonneg) =>
      var i := ZeroIcmp(nonneg);
      Pow2At32();
      assert Val(s, K.r.Lit(0)) == 0;
      assert Comparing(K, s, i, c, K.r.Lit(0));
      n := SiteReaches(K, g, s, i, c, K.r.Lit(0), f, t);
      assert Goal(K, s, i, c, K.r.Lit(0), f, t) == if Val(s, c) == 0 then f else t;
    case Jbool(tramp) =>
      Layouts.JboolReaches(K.text, s, K.e, K.r, c, s.pc, tramp, f, t);
      n := 2;
  }

  // ----- where the patched records lie -----

  /** The copy of n words is planned as a count-set, a switch, its own record and the count put
      back, so its READ word is 16 bytes into the instruction and the next one 32 bytes on; a plain
      move is one record. */
  lemma {:induction false} CopyPlanned(n: Word)
    requires 1 < n
    ensures Instr([Shape(SIZE8RW, n, false, false, false, false, 0)])
         == [SetCount(SIZE8RW, n), Switch(SIZE8RW), Rec, SetCount(SIZE8RW, 1)]
    ensures Instr([Shape(PLAIN, 1, false, false, false, false, 0)]) == [Rec]
  {
    var s, p := Shape(SIZE8RW, n, false, false, false, false, 0), Shape(PLAIN, 1, false, false, false, false, 0);
    assert [s][1..] == [] && [p][1..] == [];
    var st := Plan(CANON, s).st;
    assert st == CANON.(cnt := CANON.cnt[SIZE8RW := n]);
    assert PlanAll(st, []) == Planned(st, []);
    assert PlanAll(CANON, [s]) == Planned(st, Plan(CANON, s).prims + []);
    assert Plan(CANON, s).prims == [SetCount(SIZE8RW, n), Switch(SIZE8RW), Rec];
    StaleOnly(st, SIZE8RW);
    assert Plan(CANON, p) == Planned(CANON, [Rec]);
    assert PlanAll(CANON, []) == Planned(CANON, []);
    assert PlanAll(CANON, [p]) == Planned(CANON, [Rec] + []);
    NothingStale(CANON, BANKS);
  }

  /** So the words the unpack sequence patches are the READ words of its copy and its moves. */
  lemma {:induction false} FieldsPlaced(n: Word, at: int)
    requires 1 < n
    ensures var copy, one := Instr([Shape(SIZE8RW, n, false, false, false, false, 0)]),
              Instr([Shape(PLAIN, 1, false, false, false, false, 0)]);
            && |copy| == 4 && copy[2] == Rec && |one| == 1
            && FieldAt(Compact, at, 0) == at + 8 * (|one| + 2)
            && FieldAt(Compact, at, 1) == at + 8 * (|one| + |copy| + |one|)
            && FieldAt(Compact, at, 2) == at + 8 * (|one| + |copy| + |one| + |one| + |one|)
            && forall i :: 0 <= i < 3 ==> FieldAt(Classic, at, i) == at + 16 * (2 * i + 1)
  {
    CopyPlanned(n);
  }

  lemma {:induction false} StaleOnly(st: PState, b: int)
    requires st.Valid() && st.bank == PLAIN && 0 <= b < BANKS
    requires forall k :: 0 <= k < BANKS ==> (st.Stale(k, 1) <==> k == b)
    ensures Sync(st) == [SetCount(b, 1)]
  {
    StaleBelow(st, b, BANKS);
  }

  lemma {:induction false} StaleBelow(st: PState, b: int, n: nat)
    requires st.Valid() && n <= BANKS && 0 <= b < BANKS && forall k :: 0 <= k < BANKS ==> (st.Stale(k, 1) <==> k == b)
    ensures SyncCounts(st, n) == if b < n then [SetCount(b, 1)] else []
  {
    if n > 0 { StaleBelow(st, b, n - 1); }
  }
}
